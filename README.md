# Template registry and render pipeline (`app/internal/tmpl`)

A Dafny model of the app's template engine. It has three parts:

- **The registry.** A process-wide map from template name to compiled unit, with `Get`, `Add` and `Delete`.
- **Compilation.** `parseHTMLTemplates` and `Load` compile each declared fragment set, extended with its family's shared layout fragments, into one unit. The unit must define `ROOT` and is registered under the set's first fragment name. Any failure is fatal.
- **The render pipeline.** `Exec` injects a request-derived `Common` context into the caller's page data and logs an app event and a page view. It then buffers headers, status and body, and writes the buffer to the real response only when rendering fully succeeds.

Files and modules:

- `types.dfy` (`Types`): option and result types, URLs, header maps, Go's `http.Header.Get`, and `strings.Contains` proved against a substring definition.
- `registry.dfy` (`Registry`): compiled units and the `TemplateRegistry` class. Its `templates` map is updated in place.
- `compile.dfy` (`Compile`): the asset and parser oracles, the compilation of one set (`CompileSet`, specified by `CompileUnit`), the compilation of a list of sets into the registry (`ParseHTMLTemplates`, specified by `RegisterSets`), the declared page families and `Load`.
- `common.dfy` (`CommonContext`): the `Common` record, the request collaborators, the Cache-Control heuristic, the error correlation ID and the `Common` merge.
- `render.dfy` (`Render`): page data, the response sink and the event log as classes, header copying, the content-type default, `executeTemplateBase` and `Exec`.

Modelling choices:

- Fetching an asset, parsing a fragment and looking up `ROOT` are oracles. Each either succeeds or fails with a reason.
- A compiled unit records the fragment sources parsed into it, in order.
- `log.Fatalf` / `log.Fatal` becomes a `CompileError` result that stops compilation.
- The per-set goroutines run one after another, in list order. When a set fails, the sets before it stay registered and no later set is compiled.
- Go's `http.Header.Get` canonicalises its argument. `Get("content-type")` therefore reads the `Content-Type` entry, and `Get("cache-control")` reads `Cache-Control`.
- A compiled set that parsed no fragments has no definitions, so its `ROOT` lookup fails. An empty effective set is therefore a `MissingRoot` error, raised before the source would index `set[0]`.
- The randomness of `randstring.NewLen` is a parameter `draw`. Only the ID's length, 6, is fixed.
- Template execution is an oracle from a unit and the page data to a body or an error.
- On status 304, `Exec` returns before the buffer is flushed (tmpl.go:335-337). Neither the 304 status nor the buffered headers reach the real response. The model follows the code here, and `Exec`'s contract says the sink is unchanged.

## Model

| member | source | states |
|---|---|---|
| `Registry.TemplateRegistry.constructor` | app/internal/tmpl/tmpl.go:38-41 | the registry starts empty |
| `Registry.TemplateRegistry.Get` | app/internal/tmpl/tmpl.go:46-51 | returns the unit registered under the name, and nil exactly when none is |
| `Registry.TemplateRegistry.Add` | app/internal/tmpl/tmpl.go:57-61 | the name now maps to the given unit; every other name keeps its entry |
| `Registry.TemplateRegistry.Delete` | app/internal/tmpl/tmpl.go:64-68 | the name is no longer registered; every other name keeps its entry |
| `Registry.LookupAfterUpdate` | app/internal/tmpl/tmpl.go:46-68 | `Get` after `Add(name, t)` returns `t`; `Get` after `Delete(name)` returns nil; neither affects other names |
| `Compile.EffectiveSet` | app/internal/tmpl/tmpl.go:357-360 | the compiled fragments are the set followed by the layout when a layout is given, and the set alone otherwise |
| `Compile.ParseFrom` | app/internal/tmpl/tmpl.go:368-381 | a successful parse yields one source per fragment, appended after those already parsed |
| `Compile.CompileUnit` | app/internal/tmpl/tmpl.go:365-386 | a compiled unit has one source per fragment of a non-empty set, and its entry is `ROOT` |
| `Compile.ParseFromOkIff` | app/internal/tmpl/tmpl.go:368-381 | parsing succeeds with sources `out` iff each fragment is fetched as the next source and parses after all sources before it |
| `Compile.CompileUnitOkIff` | app/internal/tmpl/tmpl.go:365-386 | a set compiles to `u` iff all its fragments load in order as `u`'s sources, the set is non-empty, the sources define `ROOT`, and `u` is the `ROOT` entry |
| `Compile.StopsAtFirstBadFragment` | app/internal/tmpl/tmpl.go:368-381 | after a prefix that loads, a fragment that fails to open or read gives an asset error naming it; one that fails to parse gives a parse error naming the set |
| `Compile.ParseFromSkipsPrefix` | app/internal/tmpl/tmpl.go:368-381 | fragments are parsed strictly in order: parsing the set is parsing its rest after a prefix that loaded |
| `Compile.RegisterSets` | app/internal/tmpl/tmpl.go:356-389 | compiling a list of sets reports, if anything, the compilation error of one of those sets |
| `Compile.Key` | app/internal/tmpl/tmpl.go:387 | a compiled set's registry key is the first name of its effective set, which is `setv[0]` for a non-empty set |
| `Compile.CompileSet` | app/internal/tmpl/tmpl.go:362-388 | the per-set loop computes exactly `CompileUnit` of the set |
| `Compile.ParseHTMLTemplates` | app/internal/tmpl/tmpl.go:354-392 | the registry and error after the loop over sets are exactly `RegisterSets` of the old registry |
| `Compile.RegisterSetsOnlyAtKeys` | app/internal/tmpl/tmpl.go:387 | a name that is no set's first name keeps what it had before compilation |
| `Compile.RegisterSetsKeepsNames` | app/internal/tmpl/tmpl.go:387 | compilation never removes a registered name |
| `Compile.RegisterSetsOkIff` | app/internal/tmpl/tmpl.go:354-392 | compilation reports no error iff every set compiles |
| `Compile.RegisterSetsAllCompiled` | app/internal/tmpl/tmpl.go:354-392 | when every set compiles, every set's first name is registered |
| `Compile.RegisterSetsOwnUnits` | app/internal/tmpl/tmpl.go:387 | when every set compiles and first names are distinct, each first name holds the unit of its own set |
| `Compile.RegisterSetsStopsAtFailure` | app/internal/tmpl/tmpl.go:368-386 | at the first failing set, its error is reported and the registry holds only what the earlier sets registered |
| `Compile.LoadAll` | app/internal/tmpl/tmpl.go:142-152 | an error reported by `Load` is the compilation error of a declared repository, common or standalone page |
| `Compile.Load` | app/internal/tmpl/tmpl.go:142-152 | compiles the repository, common and standalone families in turn, stopping at the first error |
| `Compile.FamilyRegistered` | app/internal/tmpl/tmpl.go:354-392 | after a family compiles without error, each of its sets is registered under its first fragment name |
| `Compile.RepoFirstNames` | app/internal/tmpl/tmpl.go:73-90 | the repository pages are registered under the 17 first file names of lines 73-90, in order |
| `Compile.CommonFirstNames` | app/internal/tmpl/tmpl.go:106-124 | the common pages are registered under the 15 first file names of lines 106-124, in order |
| `Compile.DeclaredFirstNamesDistinct` | app/internal/tmpl/tmpl.go:71-139 | no two declared pages share a registry name, within a family or across the three families |
| `Compile.LoadRegistersRepoPages` | app/internal/tmpl/tmpl.go:71-100 | after an error-free `Load`, `Get` finds every repository page under its first fragment name, holding the unit compiled from that page's own set and the repository layout |
| `Compile.LoadRegistersCommonPages` | app/internal/tmpl/tmpl.go:104-131 | the same for every common page, with the common layout |
| `Compile.LoadRegistersStandalonePages` | app/internal/tmpl/tmpl.go:135-139 | the same for the standalone page, with `common.html` as its layout |
| `Types.HeaderGet` | app/internal/tmpl/tmpl.go:331 | a header lookup gives the first value stored under the key, or `""` when there is none |
| `Types.Contains` | app/internal/tmpl/tmpl.go:274 | `strings.Contains` is true iff the substring occurs at some position |
| `CommonContext.CacheControlFor` | app/internal/tmpl/tmpl.go:273-276 | the result is `no-cache` iff the request value contains `no-cache` or `max-age=0`; otherwise it is `""`; it is never anything else |
| `CommonContext.CacheControlExamples` | app/internal/tmpl/tmpl.go:270-276 | `no-cache` and `max-age=0, private` propagate as `no-cache`; an absent value and `max-age=3600` propagate as `""` |
| `CommonContext.NewLen` | app/internal/tmpl/tmpl.go:265 | the random string has exactly the requested length, its characters taken from the randomness source in order |
| `CommonContext.ErrorIDFor` | app/internal/tmpl/tmpl.go:262-268 | the correlation ID has length 6 iff the page data has an `Err` field, and is `""` otherwise |
| `CommonContext.ErrorMessage` | app/internal/tmpl/tmpl.go:267 | the message is `ErrorID:`, then the ID, then ` Msg:`, then the error text, with nothing else |
| `CommonContext.ErrorMessageCarriesID` | app/internal/tmpl/tmpl.go:267 | the app event message holds the 6-character ID right after `ErrorID:`, followed by the error text |
| `CommonContext.SessionOf` | app/internal/tmpl/tmpl.go:246-247 | the injected session is present exactly when a session was read, and is then that session; `ErrNoSession` leaves it absent |
| `CommonContext.InjectedCommon` | app/internal/tmpl/tmpl.go:251-312 | the new `Common` keeps the caller's `HideMOTD` and a caller-set `CanonicalURL` (otherwise derived from the current URL); `TemplateName` is `name`; `HideSearch` is false and `HostName` empty; it carries the error ID, the derived cache control, the read session, the request URL as `CurrentURI`, the URL resolved against the app URL as `CurrentURL`, and the app URL |
| `CommonContext.InjectedCommonIgnoresOtherFields` | app/internal/tmpl/tmpl.go:278-312 | two callers whose `Common` agree on `HideMOTD` and `CanonicalURL` get the same injected value |
| `CommonContext.InjectedCommonIsFreshButTwoFields` | app/internal/tmpl/tmpl.go:251-312 | the injected value is the one derived for an all-zero caller `Common`, with `HideMOTD` and a set `CanonicalURL` put back |
| `CommonContext.InjectedCommonIdempotent` | app/internal/tmpl/tmpl.go:255-311 | injecting again for the same request changes nothing |
| `Render.AppEvent` | app/internal/tmpl/tmpl.go:234-243 | the event has type `app`, the app URL as service, the template name as method, the status as result, the request URL, the current user's UID and the given message |
| `Render.CopyHeader` | app/internal/tmpl/tmpl.go:328-330 | every supplied header is in the buffer with its values; headers already in the buffer and not supplied are kept |
| `Render.WithContentType` | app/internal/tmpl/tmpl.go:331-333 | a non-empty supplied `Content-Type` is kept and nothing changes; otherwise `Content-Type` becomes `text/html; charset=utf-8`; all other headers are unchanged |
| `Render.ExecuteTemplateBase` | app/internal/tmpl/tmpl.go:221-227 | a name not in the registry gives the lookup-miss error, whose text is `Template <name> not found`; otherwise the result is the execution's body or its error |
| `Render.ResponseSink.WriteResponse` | app/internal/tmpl/tmpl.go:344 | the flush appends the whole buffered response to the sink in one step |
| `Render.EventLog.LogEvent` | app/internal/tmpl/tmpl.go:315 | records one app event |
| `Render.EventLog.LogPageView` | app/internal/tmpl/tmpl.go:316 | records one page view |
| `Render.Exec` | app/internal/tmpl/tmpl.go:230-345 | a non-`ErrNoSession` session error returns at once with `Common`, logs and sink untouched; without data no session error arises; otherwise `Common` becomes `InjectedCommon` of the old value, and exactly one app event (whose message embeds the error ID when `Err` exists) and one page view are logged; status 304 succeeds without writing; a lookup miss or an execution error is returned with the sink untouched; full success appends the buffer (status, headers with the content-type default, body) once; the sink is written at most once, and only on success |

## Left out

- The mutex `templatesMu`, the goroutines and `sync.WaitGroup`. Compilation and registry access are sequential. Duplicate first names among sets would be resolved last-wins, while Go's concurrent order is nondeterministic. No declared page shares a first name with another (`Compile.DeclaredFirstNamesDistinct`), so for `Load` the order makes no difference.
- How a fatal error ends compilation. In the source, a failing goroutine ends the process while other sets may still be compiling. The model registers the earlier sets and then stops.
- `html/template` itself, `FuncMap`, `tmpldata.Data.Open` and `ioutil.ReadAll`. These are oracles (`Assets`, the `execute` parameter).
- `log.Fatal` process termination, which becomes an error result. It includes `Load`'s own checks of the family results: `parseHTMLTemplates` always returns nil, so those checks never fire.
- Reflection on `data`. Page data is a `PageData` object with a `Common` field and an optional `Err`. A page type whose `Err` field holds a nil error would make the type assertion at line 266 panic; the model represents only page data whose `Err`, when present, is a real error. Page data that is not a pointer to a struct with a `Common` field (a panic in the source) is not modelled either.
- The request collaborators: `nosurf`, `handlerutil`, `httpctx`, `mux.Vars`, `traceutil`, `returnto.BestGuess`, `canonicalurl.FromURL`, `conf.AppURL`, URL resolution, `appconf` and `feature`. Their answers are fields of the `Request` and `Site` inputs.
- `randstring.NewLen`'s alphabet and randomness. The characters come from the `draw` parameter; only the length 6 is modelled.
- `Render.Exec`: the event's `Result` field is the status as an integer, not its `strconv.Itoa` decimal text.
- `Render.Exec`: a failing write of the buffer to the real response (the error `bw.WriteTo` can return) is not modelled. The flush always succeeds.
- `metricutil.LogEvent` and `eventsutil.LogPageView` beyond recording the event and the page view in `EventLog`.
- `cmd/frontend/graphqlbackend/threadlikes.go`. It holds only interface and input declarations and has no behaviour to model.
