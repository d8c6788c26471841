/** Template-set compilation (`parseHTMLTemplates`) and the declared page
    families that `Load` compiles. Asset fetching, `html/template` parsing and
    the `ROOT` lookup are oracles in an `Assets` value; every failure the
    source treats as fatal (`log.Fatalf`) is a `CompileError` result here. The
    per-set goroutines run one after another, in the order the sets are
    listed. */
module Compile {
  import opened Types
  import opened Registry

  /** What opening and reading one template asset yields. */
  datatype Fetched = OpenFailed(reason: string) | ReadFailed(reason: string) | Read(text: string)

  /** What parsing one more fragment source into a template yields. */
  datatype Parsed = ParseOk | ParseFailed(reason: string)

  /** The collaborators of compilation:
      - `fetch(path)`: `tmpldata.Data.Open(path)` followed by `ioutil.ReadAll`;
      - `parse(before, text)`: `t.Parse(text)` on a template that has already
        parsed the sources `before`, in that order;
      - `definesRoot(sources)`: whether `t.Lookup("ROOT")` finds a definition
        once `sources` are parsed. */
  datatype Assets = Assets(
    fetch: string -> Fetched,
    parse: (seq<string>, string) -> Parsed,
    definesRoot: seq<string> -> bool)

  /** The fatal compilation errors, one per `log.Fatalf` of the source. */
  datatype CompileError =
    | AssetError(fragment: string, reason: string)   // "read template asset %s: %s"
    | ParseError(frags: seq<string>, reason: string)   // "template %v: %s"
    | MissingRoot(frags: seq<string>)                  // "ROOT template not found in %v"

  /** The fragments compiled for one declared set: the set itself, followed
      by the shared layout fragments when a layout list is given. */
  function EffectiveSet(setv: seq<string>, layout: Option<seq<string>>): (frags: seq<string>)
    ensures layout.None? ==> frags == setv
    ensures layout.Some? ==> |frags| == |setv| + |layout.value|
    ensures layout.Some? ==> frags[..|setv|] == setv && frags[|setv|..] == layout.value
  {
    if layout.Some? then setv + layout.value else setv
  }

  /** Fetches and parses the fragments `rest`, in order, into a template that
      has already parsed `parsed`; the result lists every source parsed. */
  function ParseFrom(a: Assets, frags: seq<string>, rest: seq<string>, parsed: seq<string>)
    : (r: Result<seq<string>, CompileError>)
    ensures r.Ok? ==> |r.value| == |parsed| + |rest| && r.value[..|parsed|] == parsed
    decreases |rest|
  {
    if rest == [] then Ok(parsed)
    else
      match a.fetch("/" + rest[0])
      case OpenFailed(reason) => Err(AssetError(rest[0], reason))
      case ReadFailed(reason) => Err(AssetError(rest[0], reason))
      case Read(text) =>
        match a.parse(parsed, text)
        case ParseFailed(reason) => Err(ParseError(frags, reason))
        case ParseOk =>
          var r := ParseFrom(a, frags, rest[1..], parsed + [text]);
          assert r.Ok? ==> r.value[..|parsed|] == (r.value[..|parsed| + 1])[..|parsed|];
          r
  }

  /** The unit compiled from the effective set `frags`. A template that parsed
      nothing has no definitions, so an empty set fails the `ROOT` lookup. */
  function CompileUnit(a: Assets, frags: seq<string>): (r: Result<Unit, CompileError>)
    ensures r.Ok? ==> |r.value.sources| == |frags| > 0 && r.value.entry == "ROOT"
  {
    match ParseFrom(a, frags, frags, [])
    case Err(e) => Err(e)
    case Ok(sources) =>
      if sources != [] && a.definesRoot(sources) then Ok(Unit(sources, "ROOT"))
      else Err(MissingRoot(frags))
  }

  /** Fragment `i` of `frags` fetched as `sources[i]` and parsed without error
      after `sources[..i]`. */
  ghost predicate FragmentLoads(a: Assets, frags: seq<string>, sources: seq<string>, i: int)
    requires 0 <= i < |frags| && |sources| == |frags|
  {
    a.fetch("/" + frags[i]) == Read(sources[i]) && a.parse(sources[..i], sources[i]) == ParseOk
  }

  /** Every fragment of `frags` loads, and `sources` are their texts in order. */
  ghost predicate AllFragmentsLoad(a: Assets, frags: seq<string>, sources: seq<string>) {
    |sources| == |frags| && forall i :: 0 <= i < |frags| ==> FragmentLoads(a, frags, sources, i)
  }

  /** Each of `rest` is fetched as the next source of `out` after `parsed`,
      and parses after all the sources before it. */
  ghost predicate LoadsAs(a: Assets, rest: seq<string>, parsed: seq<string>, out: seq<string>) {
    && |out| == |parsed| + |rest| && out[..|parsed|] == parsed
    && forall i :: 0 <= i < |rest| ==>
         a.fetch("/" + rest[i]) == Read(out[|parsed| + i]) &&
         a.parse(out[..|parsed| + i], out[|parsed| + i]) == ParseOk
  }

  /** A load of `rest` whose first source is `text` is a load of the
      remaining fragments after `parsed + [text]`. */
  lemma LoadsAsTail(a: Assets, rest: seq<string>, parsed: seq<string>, text: string, out: seq<string>)
    requires rest != [] && LoadsAs(a, rest, parsed, out) && a.fetch("/" + rest[0]) == Read(text)
    ensures LoadsAs(a, rest[1..], parsed + [text], out)
  {
    var next := parsed + [text];
    assert out[|parsed|] == text;
    assert out[..|next|] == next by {
      assert out[..|parsed| + 1] == out[..|parsed|] + [out[|parsed|]];
    }
    forall i | 0 <= i < |rest[1..]|
      ensures a.fetch("/" + rest[1..][i]) == Read(out[|next| + i])
      ensures a.parse(out[..|next| + i], out[|next| + i]) == ParseOk
    {
      assert rest[1..][i] == rest[i + 1];
      assert |next| + i == |parsed| + (i + 1);
    }
  }

  /** Conversely, a first fragment that loads as `text`, followed by a load
      of the remaining fragments after `parsed + [text]`, is a load of `rest`. */
  lemma LoadsAsCons(a: Assets, rest: seq<string>, parsed: seq<string>, text: string, out: seq<string>)
    requires rest != [] && a.fetch("/" + rest[0]) == Read(text) && a.parse(parsed, text) == ParseOk
    requires LoadsAs(a, rest[1..], parsed + [text], out)
    ensures LoadsAs(a, rest, parsed, out)
  {
    var next := parsed + [text];
    assert out[..|parsed|] == parsed by {
      assert out[..|parsed|] == out[..|next|][..|parsed|];
    }
    assert out[|parsed|] == text by {
      assert out[|parsed|] == out[..|next|][|parsed|];
    }
    forall i | 0 <= i < |rest|
      ensures a.fetch("/" + rest[i]) == Read(out[|parsed| + i])
      ensures a.parse(out[..|parsed| + i], out[|parsed| + i]) == ParseOk
    {
      if i > 0 {
        assert rest[i] == rest[1..][i - 1];
        assert |next| + (i - 1) == |parsed| + i;
      }
    }
  }

  /** `ParseFrom` succeeds exactly when each remaining fragment is fetched as
      the next source of the result and parses after all sources before it. */
  lemma {:induction false} ParseFromOkIff(a: Assets, frags: seq<string>, rest: seq<string>,
                                          parsed: seq<string>, out: seq<string>)
    ensures ParseFrom(a, frags, rest, parsed) == Ok(out) <==> LoadsAs(a, rest, parsed, out)
    decreases |rest|
  {
    if rest == [] {
      if LoadsAs(a, rest, parsed, out) {
        assert out == out[..|parsed|];
      }
    } else if a.fetch("/" + rest[0]).Read? && a.parse(parsed, a.fetch("/" + rest[0]).text).ParseOk? {
      var text := a.fetch("/" + rest[0]).text;
      assert ParseFrom(a, frags, rest, parsed) == ParseFrom(a, frags, rest[1..], parsed + [text]);
      ParseFromOkIff(a, frags, rest[1..], parsed + [text], out);
      if LoadsAs(a, rest, parsed, out) {
        LoadsAsTail(a, rest, parsed, text, out);
      }
      if LoadsAs(a, rest[1..], parsed + [text], out) {
        LoadsAsCons(a, rest, parsed, text, out);
      }
    }
    // Otherwise the first fragment fails to load: both sides are false.
  }

  /** A set compiles to `u` exactly when every fragment of it loads, in
      order, as `u`'s sources, the set is not empty, the parsed sources define
      `ROOT`, and `u` is the `ROOT` definition. */
  lemma CompileUnitOkIff(a: Assets, frags: seq<string>, u: Unit)
    ensures CompileUnit(a, frags) == Ok(u) <==>
      (AllFragmentsLoad(a, frags, u.sources) && u.sources != [] &&
       a.definesRoot(u.sources) && u.entry == "ROOT")
  {
    ParseFromOkIff(a, frags, frags, [], u.sources);
    AllFragmentsLoadFromStart(a, frags, u.sources);
  }

  /** Loading every fragment of the set is loading it from an empty template. */
  lemma AllFragmentsLoadFromStart(a: Assets, frags: seq<string>, sources: seq<string>)
    ensures AllFragmentsLoad(a, frags, sources) <==> LoadsAs(a, frags, [], sources)
  {
    var empty: seq<string> := [];
    if AllFragmentsLoad(a, frags, sources) {
      assert sources[..|empty|] == empty;
      forall i | 0 <= i < |frags|
        ensures a.fetch("/" + frags[i]) == Read(sources[|empty| + i])
        ensures a.parse(sources[..|empty| + i], sources[|empty| + i]) == ParseOk
      {
        assert FragmentLoads(a, frags, sources, i);
        assert |empty| + i == i;
      }
      assert LoadsAs(a, frags, empty, sources);
    }
    if LoadsAs(a, frags, empty, sources) {
      forall i | 0 <= i < |frags| ensures FragmentLoads(a, frags, sources, i) {
        assert |empty| + i == i;
        assert a.fetch("/" + frags[i]) == Read(sources[|empty| + i]);
        assert a.parse(sources[..|empty| + i], sources[|empty| + i]) == ParseOk;
      }
    }
  }

  /** When the fragments before `frags[i]` all load as `before`, compilation
      stops at `frags[i]` if that fragment cannot be opened or read (an asset
      error naming it) or does not parse (a parse error naming the set). */
  lemma StopsAtFirstBadFragment(a: Assets, frags: seq<string>, before: seq<string>, i: nat)
    requires i < |frags| && |before| == i
    requires forall j :: 0 <= j < i ==>
      a.fetch("/" + frags[j]) == Read(before[j]) && a.parse(before[..j], before[j]) == ParseOk
    ensures a.fetch("/" + frags[i]).OpenFailed? ==>
      CompileUnit(a, frags) == Err(AssetError(frags[i], a.fetch("/" + frags[i]).reason))
    ensures a.fetch("/" + frags[i]).ReadFailed? ==>
      CompileUnit(a, frags) == Err(AssetError(frags[i], a.fetch("/" + frags[i]).reason))
    ensures a.fetch("/" + frags[i]).Read? && a.parse(before, a.fetch("/" + frags[i]).text).ParseFailed? ==>
      CompileUnit(a, frags) == Err(ParseError(frags, a.parse(before, a.fetch("/" + frags[i]).text).reason))
  {
    ParseFromSkipsPrefix(a, frags, before, i);
  }

  /** Parsing the whole set is parsing its suffix after a prefix that loads. */
  lemma {:induction false} ParseFromSkipsPrefix(a: Assets, frags: seq<string>, before: seq<string>, i: nat)
    requires i <= |frags| && |before| == i
    requires forall j :: 0 <= j < i ==>
      a.fetch("/" + frags[j]) == Read(before[j]) && a.parse(before[..j], before[j]) == ParseOk
    ensures ParseFrom(a, frags, frags, []) == ParseFrom(a, frags, frags[i..], before)
    decreases i
  {
    if i > 0 {
      var k := i - 1;
      forall j | 0 <= j < k
        ensures a.fetch("/" + frags[j]) == Read(before[..k][j])
        ensures a.parse(before[..k][..j], before[..k][j]) == ParseOk
      {
        assert before[..k][..j] == before[..j];
      }
      ParseFromSkipsPrefix(a, frags, before[..k], k);
      assert frags[k..][1..] == frags[i..];
      assert frags[k..][0] == frags[k];
      assert before[..k] + [before[k]] == before;
    }
  }

  /** A compiled set has a definite key: the first name of its effective set. */
  function Key(a: Assets, setv: seq<string>, layout: Option<seq<string>>): (k: string)
    requires CompileUnit(a, EffectiveSet(setv, layout)).Ok?
    ensures |EffectiveSet(setv, layout)| > 0 && k == EffectiveSet(setv, layout)[0]
    ensures setv != [] ==> k == setv[0]
  {
    EffectiveSet(setv, layout)[0]
  }

  /** The registry contents and the error, if any, after compiling `sets`. */
  datatype Registration = Registration(templates: map<string, Unit>, error: Option<CompileError>)

  /** Compiling `sets` one after another into a registry holding `m`: each
      set that compiles is added under its first name; the first failure ends
      compilation (the process exits) with what was registered so far. */
  function RegisterSets(m: map<string, Unit>, a: Assets, sets: seq<seq<string>>,
                        layout: Option<seq<string>>): (r: Registration)
    ensures r.error.Some? ==> FailsWith(a, sets, layout, r.error.value)
    decreases |sets|
  {
    if sets == [] then Registration(m, None)
    else
      var frags := EffectiveSet(sets[0], layout);
      match CompileUnit(a, frags)
      case Err(e) => Registration(m, Some(e))
      case Ok(u) =>
        var r := RegisterSets(m[Key(a, sets[0], layout) := u], a, sets[1..], layout);
        assert r.error.Some? ==> FailsWith(a, sets, layout, r.error.value) by {
          if r.error.Some? {
            var i :| 0 <= i < |sets[1..]| && CompileUnit(a, EffectiveSet(sets[1..][i], layout)) == Err(r.error.value);
            assert sets[1..][i] == sets[i + 1];
          }
        }
        r
  }

  /** `e` is the compilation error of one of `sets`. */
  ghost predicate FailsWith(a: Assets, sets: seq<seq<string>>, layout: Option<seq<string>>, e: CompileError) {
    exists i :: 0 <= i < |sets| && CompileUnit(a, EffectiveSet(sets[i], layout)) == Err(e)
  }

  /** `k` is the first name of the effective set of one of `sets`. */
  ghost predicate IsKeyOf(k: string, sets: seq<seq<string>>, layout: Option<seq<string>>) {
    exists i :: 0 <= i < |sets| && EffectiveSet(sets[i], layout) != [] && EffectiveSet(sets[i], layout)[0] == k
  }

  /** No two of `sets` share a first name. */
  ghost predicate DistinctKeys(sets: seq<seq<string>>, layout: Option<seq<string>>) {
    forall i, j :: 0 <= i < j < |sets| && EffectiveSet(sets[i], layout) != [] && EffectiveSet(sets[j], layout) != [] ==>
      EffectiveSet(sets[i], layout)[0] != EffectiveSet(sets[j], layout)[0]
  }

  /** Compilation registers units under first names only: every other name
      keeps what it had. */
  lemma {:induction false} RegisterSetsOnlyAtKeys(m: map<string, Unit>, a: Assets, sets: seq<seq<string>>,
                                                  layout: Option<seq<string>>, k: string)
    requires !IsKeyOf(k, sets, layout)
    ensures Lookup(RegisterSets(m, a, sets, layout).templates, k) == Lookup(m, k)
    decreases |sets|
  {
    if sets != [] {
      var frags := EffectiveSet(sets[0], layout);
      if CompileUnit(a, frags).Ok? {
        NotKeyOfTail(k, sets, layout);
        assert Key(a, sets[0], layout) != k;
        RegisterSetsOnlyAtKeys(m[Key(a, sets[0], layout) := CompileUnit(a, frags).value], a, sets[1..], layout, k);
      }
    }
  }

  /** A name that is registered stays registered while later sets compile. */
  lemma {:induction false} RegisterSetsKeepsNames(m: map<string, Unit>, a: Assets, sets: seq<seq<string>>,
                                                  layout: Option<seq<string>>)
    ensures m.Keys <= RegisterSets(m, a, sets, layout).templates.Keys
    decreases |sets|
  {
    if sets != [] {
      var frags := EffectiveSet(sets[0], layout);
      if CompileUnit(a, frags).Ok? {
        RegisterSetsKeepsNames(m[Key(a, sets[0], layout) := CompileUnit(a, frags).value], a, sets[1..], layout);
      }
    }
  }

  /** Compilation reports no error exactly when every set compiles. */
  lemma {:induction false} RegisterSetsOkIff(m: map<string, Unit>, a: Assets, sets: seq<seq<string>>,
                                             layout: Option<seq<string>>)
    ensures RegisterSets(m, a, sets, layout).error.None? <==>
      forall i :: 0 <= i < |sets| ==> CompileUnit(a, EffectiveSet(sets[i], layout)).Ok?
    decreases |sets|
  {
    if sets != [] {
      var frags := EffectiveSet(sets[0], layout);
      if CompileUnit(a, frags).Ok? {
        var m' := m[Key(a, sets[0], layout) := CompileUnit(a, frags).value];
        RegisterSetsOkIff(m', a, sets[1..], layout);
        assert forall i :: 1 <= i < |sets| ==> sets[1..][i - 1] == sets[i];
      }
    }
  }

  /** A name that is not a first name of `sets` is not one of `sets[1..]`. */
  lemma NotKeyOfTail(k: string, sets: seq<seq<string>>, layout: Option<seq<string>>)
    requires sets != [] && !IsKeyOf(k, sets, layout)
    ensures !IsKeyOf(k, sets[1..], layout)
  {
    forall j | 0 <= j < |sets[1..]|
      ensures !(EffectiveSet(sets[1..][j], layout) != [] && EffectiveSet(sets[1..][j], layout)[0] == k)
    {
      assert sets[1..][j] == sets[j + 1];
    }
  }

  /** With distinct first names, the first set's name is none of the others',
      and the others' names are still distinct. */
  lemma DistinctKeysTail(sets: seq<seq<string>>, layout: Option<seq<string>>)
    requires sets != [] && EffectiveSet(sets[0], layout) != [] && DistinctKeys(sets, layout)
    ensures !IsKeyOf(EffectiveSet(sets[0], layout)[0], sets[1..], layout)
    ensures DistinctKeys(sets[1..], layout)
  {
    var k := EffectiveSet(sets[0], layout)[0];
    forall j | 0 <= j < |sets[1..]|
      ensures !(EffectiveSet(sets[1..][j], layout) != [] && EffectiveSet(sets[1..][j], layout)[0] == k)
    {
      assert sets[1..][j] == sets[j + 1];
    }
    forall i, j | 0 <= i < j < |sets[1..]| && EffectiveSet(sets[1..][i], layout) != [] &&
      EffectiveSet(sets[1..][j], layout) != []
      ensures EffectiveSet(sets[1..][i], layout)[0] != EffectiveSet(sets[1..][j], layout)[0]
    {
      assert sets[1..][i] == sets[i + 1] && sets[1..][j] == sets[j + 1];
    }
  }

  /** Once every set has compiled, each is registered under its first name. */
  lemma {:induction false} RegisterSetsAllCompiled(m: map<string, Unit>, a: Assets, sets: seq<seq<string>>,
                                                   layout: Option<seq<string>>)
    requires forall i :: 0 <= i < |sets| ==> CompileUnit(a, EffectiveSet(sets[i], layout)).Ok?
    ensures forall i :: 0 <= i < |sets| ==> Key(a, sets[i], layout) in RegisterSets(m, a, sets, layout).templates
    decreases |sets|
  {
    if sets != [] {
      var k := Key(a, sets[0], layout);
      var m' := m[k := CompileUnit(a, EffectiveSet(sets[0], layout)).value];
      assert forall i :: 1 <= i < |sets| ==> sets[1..][i - 1] == sets[i];
      RegisterSetsAllCompiled(m', a, sets[1..], layout);
      RegisterSetsKeepsNames(m', a, sets[1..], layout);
    }
  }

  /** Once every set has compiled, and no two share a first name, each first
      name holds the unit compiled from its own set. */
  lemma {:induction false} RegisterSetsOwnUnits(m: map<string, Unit>, a: Assets, sets: seq<seq<string>>,
                                                layout: Option<seq<string>>)
    requires forall i :: 0 <= i < |sets| ==> CompileUnit(a, EffectiveSet(sets[i], layout)).Ok?
    requires DistinctKeys(sets, layout)
    ensures forall i :: 0 <= i < |sets| ==>
      Lookup(RegisterSets(m, a, sets, layout).templates, Key(a, sets[i], layout)) ==
      Some(CompileUnit(a, EffectiveSet(sets[i], layout)).value)
    decreases |sets|
  {
    if sets != [] {
      var k := Key(a, sets[0], layout);
      var m' := m[k := CompileUnit(a, EffectiveSet(sets[0], layout)).value];
      assert forall i :: 1 <= i < |sets| ==> sets[1..][i - 1] == sets[i];
      DistinctKeysTail(sets, layout);
      RegisterSetsOwnUnits(m', a, sets[1..], layout);
      RegisterSetsOnlyAtKeys(m', a, sets[1..], layout, k);
    }
  }

  /** When set `j` is the first that fails, compilation reports its error,
      and the registry holds exactly what the sets before it registered:
      nothing is registered for set `j` or any set after it. */
  lemma {:induction false} RegisterSetsStopsAtFailure(m: map<string, Unit>, a: Assets, sets: seq<seq<string>>,
                                                      layout: Option<seq<string>>, j: nat)
    requires j < |sets|
    requires forall i :: 0 <= i < j ==> CompileUnit(a, EffectiveSet(sets[i], layout)).Ok?
    requires CompileUnit(a, EffectiveSet(sets[j], layout)).Err?
    ensures RegisterSets(m, a, sets, layout) ==
      Registration(RegisterSets(m, a, sets[..j], layout).templates,
                   Some(CompileUnit(a, EffectiveSet(sets[j], layout)).error))
    decreases j
  {
    if j > 0 {
      var frags := EffectiveSet(sets[0], layout);
      var m' := m[Key(a, sets[0], layout) := CompileUnit(a, frags).value];
      assert sets[1..][j - 1] == sets[j];
      assert forall i :: 0 <= i < j - 1 ==> sets[1..][i] == sets[i + 1];
      RegisterSetsStopsAtFailure(m', a, sets[1..], layout, j - 1);
      assert sets[..j][0] == sets[0];
      assert sets[..j][1..] == sets[1..][..j - 1];
    }
  }

  /** `parseHTMLTemplates`: compiles one fragment set, as `CompileUnit`
      describes: fetch and parse every fragment in order, then look up `ROOT`. */
  method CompileSet(a: Assets, frags: seq<string>) returns (r: Result<Unit, CompileError>)
    ensures r == CompileUnit(a, frags)
  {
    var parsed: seq<string> := [];
    var i := 0;
    while i < |frags|
      invariant 0 <= i <= |frags|
      invariant ParseFrom(a, frags, frags, []) == ParseFrom(a, frags, frags[i..], parsed)
    {
      var tname := frags[i];
      assert frags[i..][0] == tname && frags[i..][1..] == frags[i + 1..];
      match a.fetch("/" + tname) {
        case OpenFailed(reason) =>
          return Err(AssetError(tname, reason));
        case ReadFailed(reason) =>
          return Err(AssetError(tname, reason));
        case Read(text) =>
          match a.parse(parsed, text) {
            case ParseFailed(reason) =>
              return Err(ParseError(frags, reason));
            case ParseOk =>
              parsed := parsed + [text];
          }
      }
      i := i + 1;
    }
    if parsed != [] && a.definesRoot(parsed) {
      r := Ok(Unit(parsed, "ROOT"));
    } else {
      r := Err(MissingRoot(frags));
    }
  }

  /** `parseHTMLTemplates(sets, layout)`: compiles every set, extended with
      the layout, and registers each unit under its first name; the first
      failure stops it and is returned. */
  method ParseHTMLTemplates(reg: TemplateRegistry, a: Assets, sets: seq<seq<string>>,
                            layout: Option<seq<string>>) returns (err: Option<CompileError>)
    modifies reg
    ensures Registration(reg.templates, err) == RegisterSets(old(reg.templates), a, sets, layout)
  {
    var i := 0;
    while i < |sets|
      invariant 0 <= i <= |sets|
      invariant RegisterSets(old(reg.templates), a, sets, layout) == RegisterSets(reg.templates, a, sets[i..], layout)
    {
      assert sets[i..][0] == sets[i] && sets[i..][1..] == sets[i + 1..];
      var frags := EffectiveSet(sets[i], layout);
      var compiled := CompileSet(a, frags);
      match compiled {
        case Err(e) =>
          return Some(e);
        case Ok(t) =>
          reg.Add(frags[0], t);
      }
      i := i + 1;
    }
    err := None;
  }

  /** A declared fragment set: every declared page names at least one fragment. */
  type DeclaredSet = s: seq<string> | s != [] witness ["ROOT"]

  /** A family of page templates sharing one layout list. */
  datatype Family = Family(sets: seq<DeclaredSet>, layout: Option<seq<string>>)

  // The repository pages (`repoTemplates`), one set per page.
  const RepoMain: DeclaredSet := ["repo/main.html", "repo/readme.inc.html", "repo/tree.inc.html", "repo/tree/dir.inc.html", "repo/commit.inc.html"]
  const RepoBadges: DeclaredSet := ["repo/badges.html", "repo/badges_and_counters.html"]
  const RepoCounters: DeclaredSet := ["repo/counters.html", "repo/badges_and_counters.html"]
  const RepoBuilds: DeclaredSet := ["repo/builds.html", "builds/build.inc.html"]
  const RepoBuild: DeclaredSet := ["repo/build.html", "builds/build.inc.html", "repo/commit.inc.html"]
  const RepoTreeFile: DeclaredSet := ["repo/tree/file.html"]
  const RepoTreeDoc: DeclaredSet := ["repo/tree/doc.html", "repo/commit.inc.html"]
  const RepoTreeDir: DeclaredSet := ["repo/tree/dir.html", "repo/tree/dir.inc.html", "repo/commit.inc.html"]
  const RepoSearch: DeclaredSet := ["repo/search.html"]
  const RepoFrame: DeclaredSet := ["repo/frame.html", "error/common.html"]
  const RepoCommit: DeclaredSet := ["repo/commit.html", "repo/commit.inc.html"]
  const RepoCommits: DeclaredSet := ["repo/commits.html", "repo/commit.inc.html"]
  const RepoBranches: DeclaredSet := ["repo/branches.html"]
  const RepoTags: DeclaredSet := ["repo/tags.html"]
  const RepoCompare: DeclaredSet := ["repo/compare.html", "repo/commit.inc.html"]
  const RepoNoVcsData: DeclaredSet := ["repo/no_vcs_data.html"]
  const DefExamples: DeclaredSet := ["def/examples.html", "def/examples.inc.html", "def/snippet.inc.html", "def/def.html"]
  const RepoLayout: seq<string> :=
    ["repo/repo.html", "repo/subnav.html", "common.html", "layout.html", "nav.html", "footer.html"]
  const RepoTemplates: Family := Family(
    [ RepoMain, RepoBadges, RepoCounters, RepoBuilds,
      RepoBuild, RepoTreeFile, RepoTreeDoc, RepoTreeDir,
      RepoSearch, RepoFrame, RepoCommit, RepoCommits,
      RepoBranches, RepoTags, RepoCompare, RepoNoVcsData,
      DefExamples ],
    Some(RepoLayout))

  // User pages, search, errors and the other common pages (`commonTemplates`).
  const UserLogin: DeclaredSet := ["user/login.html"]
  const UserSignup: DeclaredSet := ["user/signup.html"]
  const UserLoggedOut: DeclaredSet := ["user/logged_out.html"]
  const UserForgotPassword: DeclaredSet := ["user/forgot_password.html"]
  const UserPasswordReset: DeclaredSet := ["user/password_reset.html"]
  const UserNewPassword: DeclaredSet := ["user/new_password.html"]
  const UserSettingsProfile: DeclaredSet := ["user/settings/profile.html", "user/settings/common.inc.html"]
  const UserSettingsNotifications: DeclaredSet := ["user/settings/notifications.html", "user/settings/common.inc.html"]
  const UserSettingsKeys: DeclaredSet := ["user/settings/keys.html", "user/settings/common.inc.html"]
  const HomeDashboard: DeclaredSet := ["home/dashboard.html"]
  const BuildsBuilds: DeclaredSet := ["builds/builds.html", "builds/build.inc.html"]
  const CoverageCoverage: DeclaredSet := ["coverage/coverage.html"]
  const ErrorError: DeclaredSet := ["error/error.html", "error/common.html"]
  const OAuthAuthorize: DeclaredSet := ["oauth-provider/authorize.html"]
  const AppGlobal: DeclaredSet := ["app_global.html"]
  const CommonLayout: seq<string> := ["common.html", "layout.html", "nav.html", "footer.html"]
  const CommonTemplates: Family := Family(
    [ UserLogin, UserSignup, UserLoggedOut, UserForgotPassword,
      UserPasswordReset, UserNewPassword, UserSettingsProfile, UserSettingsNotifications,
      UserSettingsKeys, HomeDashboard, BuildsBuilds, CoverageCoverage,
      ErrorError, OAuthAuthorize, AppGlobal ],
    Some(CommonLayout))

  // Standalone pages (`standaloneTemplates`).
  const DefPopover: DeclaredSet := ["def/popover.html"]
  const StandaloneTemplates: Family := Family([DefPopover], Some(["common.html"]))

  /** The names a family's pages are registered under: the first fragment of
      each of its sets. */
  function FirstNames(f: Family): (names: seq<string>)
    ensures |names| == |f.sets|
    ensures forall i :: 0 <= i < |f.sets| ==> names[i] == f.sets[i][0]
  {
    seq(|f.sets|, (i: int) requires 0 <= i < |f.sets| => f.sets[i][0])
  }

  /** No name occurs twice in `names`. */
  ghost predicate NoDuplicates(names: seq<string>) {
    forall i, j :: 0 <= i < j < |names| ==> names[i] != names[j]
  }

  /** No name of `xs` is one of `ys`. */
  ghost predicate Disjoint(xs: seq<string>, ys: seq<string>) {
    forall i :: 0 <= i < |xs| ==> xs[i] !in ys
  }

  /** The first names of the repository pages, as declared. */
  lemma RepoFirstNames()
    ensures FirstNames(RepoTemplates) ==
      [ "repo/main.html", "repo/badges.html", "repo/counters.html", "repo/builds.html",
        "repo/build.html", "repo/tree/file.html", "repo/tree/doc.html", "repo/tree/dir.html",
        "repo/search.html", "repo/frame.html", "repo/commit.html", "repo/commits.html",
        "repo/branches.html", "repo/tags.html", "repo/compare.html", "repo/no_vcs_data.html",
        "def/examples.html" ]
  {
  }

  /** The first names of the common pages, as declared. */
  lemma CommonFirstNames()
    ensures FirstNames(CommonTemplates) ==
      [ "user/login.html", "user/signup.html", "user/logged_out.html", "user/forgot_password.html",
        "user/password_reset.html", "user/new_password.html", "user/settings/profile.html",
        "user/settings/notifications.html", "user/settings/keys.html", "home/dashboard.html",
        "builds/builds.html", "coverage/coverage.html", "error/error.html",
        "oauth-provider/authorize.html", "app_global.html" ]
  {
  }

  /** No two repository pages share a name. */
  lemma RepoNamesDistinct()
    ensures NoDuplicates(FirstNames(RepoTemplates))
  {
    RepoFirstNames();
    var names := FirstNames(RepoTemplates);
    forall i, j | 0 <= i < j < |names| ensures names[i] != names[j] {
    }
  }

  /** No two common pages share a name. */
  lemma CommonNamesDistinct()
    ensures NoDuplicates(FirstNames(CommonTemplates))
  {
    CommonFirstNames();
    var names := FirstNames(CommonTemplates);
    forall i, j | 0 <= i < j < |names| ensures names[i] != names[j] {
    }
  }

  /** No repository page shares a name with a common or the standalone page. */
  lemma RepoNamesApart()
    ensures Disjoint(FirstNames(RepoTemplates), FirstNames(CommonTemplates))
    ensures Disjoint(FirstNames(RepoTemplates), FirstNames(StandaloneTemplates))
  {
    RepoFirstNames();
    CommonFirstNames();
    var names, common := FirstNames(RepoTemplates), FirstNames(CommonTemplates);
    forall i, j | 0 <= i < |names| && 0 <= j < |common| ensures names[i] != common[j] {
    }
    assert FirstNames(StandaloneTemplates) == ["def/popover.html"];
  }

  /** No common page shares a name with the standalone page. */
  lemma CommonNamesApart()
    ensures Disjoint(FirstNames(CommonTemplates), FirstNames(StandaloneTemplates))
  {
    CommonFirstNames();
    assert FirstNames(StandaloneTemplates) == ["def/popover.html"];
  }

  /** No two declared pages, within a family or across families, are
      registered under the same name. */
  lemma DeclaredFirstNamesDistinct()
    ensures NoDuplicates(FirstNames(RepoTemplates))
    ensures NoDuplicates(FirstNames(CommonTemplates))
    ensures NoDuplicates(FirstNames(StandaloneTemplates))
    ensures Disjoint(FirstNames(RepoTemplates), FirstNames(CommonTemplates))
    ensures Disjoint(FirstNames(RepoTemplates), FirstNames(StandaloneTemplates))
    ensures Disjoint(FirstNames(CommonTemplates), FirstNames(StandaloneTemplates))
  {
    RepoNamesDistinct();
    CommonNamesDistinct();
    RepoNamesApart();
    CommonNamesApart();
  }

  /** The first name of a non-empty set is the first name of its effective set. */
  lemma EffectiveSetFirst(setv: seq<string>, layout: Option<seq<string>>)
    requires setv != []
    ensures EffectiveSet(setv, layout) != [] && EffectiveSet(setv, layout)[0] == setv[0]
  {
    if layout.Some? {
      assert EffectiveSet(setv, layout)[0] == EffectiveSet(setv, layout)[..|setv|][0];
    }
  }

  /** A family whose first names are all different has distinct keys. */
  lemma FamilyDistinctKeys(f: Family)
    requires NoDuplicates(FirstNames(f))
    ensures DistinctKeys(f.sets, f.layout)
  {
    forall i, j | 0 <= i < j < |f.sets| && EffectiveSet(f.sets[i], f.layout) != [] &&
      EffectiveSet(f.sets[j], f.layout) != []
      ensures EffectiveSet(f.sets[i], f.layout)[0] != EffectiveSet(f.sets[j], f.layout)[0]
    {
      EffectiveSetFirst(f.sets[i], f.layout);
      EffectiveSetFirst(f.sets[j], f.layout);
      assert FirstNames(f)[i] != FirstNames(f)[j];
    }
  }

  /** A name that is none of a family's first names is no key of it. */
  lemma NotKeyOfFamily(k: string, f: Family)
    requires k !in FirstNames(f)
    ensures !IsKeyOf(k, f.sets, f.layout)
  {
    forall j | 0 <= j < |f.sets|
      ensures !(EffectiveSet(f.sets[j], f.layout) != [] && EffectiveSet(f.sets[j], f.layout)[0] == k)
    {
      EffectiveSetFirst(f.sets[j], f.layout);
      assert FirstNames(f)[j] == f.sets[j][0];
    }
  }

  /** The registry after `Load`: the three families compiled in turn, stopping
      at the first failure. */
  function LoadAll(m: map<string, Unit>, a: Assets): (r: Registration)
    ensures r.error.Some? ==>
      || FailsWith(a, RepoTemplates.sets, RepoTemplates.layout, r.error.value)
      || FailsWith(a, CommonTemplates.sets, CommonTemplates.layout, r.error.value)
      || FailsWith(a, StandaloneTemplates.sets, StandaloneTemplates.layout, r.error.value)
  {
    var repo := RegisterSets(m, a, RepoTemplates.sets, RepoTemplates.layout);
    if repo.error.Some? then repo
    else
      var common := RegisterSets(repo.templates, a, CommonTemplates.sets, CommonTemplates.layout);
      if common.error.Some? then common
      else RegisterSets(common.templates, a, StandaloneTemplates.sets, StandaloneTemplates.layout)
  }

  /** `Load`: (re)compiles every declared page family into the registry. */
  method Load(reg: TemplateRegistry, a: Assets) returns (err: Option<CompileError>)
    modifies reg
    ensures Registration(reg.templates, err) == LoadAll(old(reg.templates), a)
  {
    err := ParseHTMLTemplates(reg, a, RepoTemplates.sets, RepoTemplates.layout);
    if err.Some? {
      return;
    }
    err := ParseHTMLTemplates(reg, a, CommonTemplates.sets, CommonTemplates.layout);
    if err.Some? {
      return;
    }
    err := ParseHTMLTemplates(reg, a, StandaloneTemplates.sets, StandaloneTemplates.layout);
  }

  /** Every set of a family that compiled without error is registered
      under its first fragment name. */
  lemma FamilyRegistered(m: map<string, Unit>, a: Assets, f: Family, i: nat)
    requires RegisterSets(m, a, f.sets, f.layout).error.None?
    requires i < |f.sets| && f.sets[i] != []
    ensures f.sets[i][0] in RegisterSets(m, a, f.sets, f.layout).templates
  {
    RegisterSetsOkIff(m, a, f.sets, f.layout);
    RegisterSetsAllCompiled(m, a, f.sets, f.layout);
    assert Key(a, f.sets[i], f.layout) == f.sets[i][0];
  }

  /** After a `Load` that reports no error, every declared page is found
      under its first fragment name, holding the unit compiled from its own
      set: for the repository pages, ... */
  lemma LoadRegistersRepoPages(m: map<string, Unit>, a: Assets, i: nat)
    requires i < |RepoTemplates.sets|
    requires LoadAll(m, a).error.None?
    ensures RepoTemplates.sets[i][0] in LoadAll(m, a).templates
    ensures CompileUnit(a, EffectiveSet(RepoTemplates.sets[i], RepoTemplates.layout)) ==
      Ok(LoadAll(m, a).templates[RepoTemplates.sets[i][0]])
  {
    var repo := RegisterSets(m, a, RepoTemplates.sets, RepoTemplates.layout);
    var common := RegisterSets(repo.templates, a, CommonTemplates.sets, CommonTemplates.layout);
    var k := RepoTemplates.sets[i][0];
    DeclaredFirstNamesDistinct();
    RegisterSetsOkIff(m, a, RepoTemplates.sets, RepoTemplates.layout);
    FamilyDistinctKeys(RepoTemplates);
    RegisterSetsOwnUnits(m, a, RepoTemplates.sets, RepoTemplates.layout);
    assert Key(a, RepoTemplates.sets[i], RepoTemplates.layout) == k;
    assert FirstNames(RepoTemplates)[i] == k;
    NotKeyOfFamily(k, CommonTemplates);
    NotKeyOfFamily(k, StandaloneTemplates);
    RegisterSetsOnlyAtKeys(repo.templates, a, CommonTemplates.sets, CommonTemplates.layout, k);
    RegisterSetsOnlyAtKeys(common.templates, a, StandaloneTemplates.sets, StandaloneTemplates.layout, k);
  }

  /** ... for the common pages, ... */
  lemma LoadRegistersCommonPages(m: map<string, Unit>, a: Assets, i: nat)
    requires i < |CommonTemplates.sets|
    requires LoadAll(m, a).error.None?
    ensures CommonTemplates.sets[i][0] in LoadAll(m, a).templates
    ensures CompileUnit(a, EffectiveSet(CommonTemplates.sets[i], CommonTemplates.layout)) ==
      Ok(LoadAll(m, a).templates[CommonTemplates.sets[i][0]])
  {
    var repo := RegisterSets(m, a, RepoTemplates.sets, RepoTemplates.layout);
    var common := RegisterSets(repo.templates, a, CommonTemplates.sets, CommonTemplates.layout);
    var k := CommonTemplates.sets[i][0];
    DeclaredFirstNamesDistinct();
    RegisterSetsOkIff(repo.templates, a, CommonTemplates.sets, CommonTemplates.layout);
    FamilyDistinctKeys(CommonTemplates);
    RegisterSetsOwnUnits(repo.templates, a, CommonTemplates.sets, CommonTemplates.layout);
    assert Key(a, CommonTemplates.sets[i], CommonTemplates.layout) == k;
    assert FirstNames(CommonTemplates)[i] == k;
    NotKeyOfFamily(k, StandaloneTemplates);
    RegisterSetsOnlyAtKeys(common.templates, a, StandaloneTemplates.sets, StandaloneTemplates.layout, k);
  }

  /** ... and for the standalone pages. */
  lemma LoadRegistersStandalonePages(m: map<string, Unit>, a: Assets, i: nat)
    requires i < |StandaloneTemplates.sets|
    requires LoadAll(m, a).error.None?
    ensures StandaloneTemplates.sets[i][0] in LoadAll(m, a).templates
    ensures CompileUnit(a, EffectiveSet(StandaloneTemplates.sets[i], StandaloneTemplates.layout)) ==
      Ok(LoadAll(m, a).templates[StandaloneTemplates.sets[i][0]])
  {
    var repo := RegisterSets(m, a, RepoTemplates.sets, RepoTemplates.layout);
    var common := RegisterSets(repo.templates, a, CommonTemplates.sets, CommonTemplates.layout);
    DeclaredFirstNamesDistinct();
    RegisterSetsOkIff(common.templates, a, StandaloneTemplates.sets, StandaloneTemplates.layout);
    FamilyDistinctKeys(StandaloneTemplates);
    RegisterSetsOwnUnits(common.templates, a, StandaloneTemplates.sets, StandaloneTemplates.layout);
    assert Key(a, StandaloneTemplates.sets[i], StandaloneTemplates.layout) == StandaloneTemplates.sets[i][0];
  }
}
