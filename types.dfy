/** Values shared by the template engine: optional and error results, URLs
    and HTTP header maps. */
module Types {

  /** A nil pointer (`None`) or a present value. */
  datatype Option<+T> = None | Some(value: T)

  /** A value or an error, for operations that can fail. */
  datatype Result<+T, +E> = Ok(value: T) | Err(error: E)

  /** An operation that either succeeds or fails with an error (a Go `error` return). */
  datatype Outcome<+E> = Pass | Fail(error: E)

  /** A parsed URL; `text` is what its `String()` method renders. */
  datatype Url = Url(text: string)

  /** An HTTP header: canonical header name to its list of values. */
  type Header = map<string, seq<string>>

  /** The value `http.Header.Get` returns: the first value stored under `key`,
      or the empty string when there is none. `key` is the canonical form Go
      derives from the name passed to `Get`. */
  function HeaderGet(h: Header, key: string): (v: string)
    ensures key !in h ==> v == ""
    ensures key in h && h[key] != [] ==> v == h[key][0]
    ensures key in h && h[key] == [] ==> v == ""
  {
    if key in h && |h[key]| > 0 then h[key][0] else ""
  }

  /** `sub` occurs in `s` starting at index `i`. */
  ghost predicate OccursAt(sub: string, s: string, i: int) {
    0 <= i && i + |sub| <= |s| && s[i..i + |sub|] == sub
  }

  /** The substring relation `strings.Contains` decides. */
  ghost predicate IsSubstring(sub: string, s: string) {
    exists i :: OccursAt(sub, s, i)
  }

  /** `strings.Contains(s, sub)`: whether `sub` occurs somewhere in `s`. */
  function Contains(s: string, sub: string): (b: bool)
    ensures b <==> IsSubstring(sub, s)
    decreases |s|
  {
    if |s| < |sub| then false
    else if s[..|sub|] == sub then
      assert OccursAt(sub, s, 0);
      true
    else
      OccurrenceMovesOn(s, sub);
      Contains(s[1..], sub)
  }

  /** When `s` does not start with `sub`, every occurrence of `sub` in `s`
      is an occurrence in `s[1..]`, shifted by one, and back. */
  lemma OccurrenceMovesOn(s: string, sub: string)
    requires |sub| <= |s| && s[..|sub|] != sub
    ensures |s| > 0
    ensures IsSubstring(sub, s) <==> IsSubstring(sub, s[1..])
  {
    if IsSubstring(sub, s) {
      var i :| OccursAt(sub, s, i);
      assert i != 0;
      assert s[1..][i - 1..i - 1 + |sub|] == s[i..i + |sub|];
      assert OccursAt(sub, s[1..], i - 1);
    }
    if IsSubstring(sub, s[1..]) {
      var i :| OccursAt(sub, s[1..], i);
      assert s[i + 1..i + 1 + |sub|] == s[1..][i..i + |sub|];
      assert OccursAt(sub, s, i + 1);
    }
  }
}
