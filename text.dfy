/**
 * The few string operations the connector relies on: ASCII case mapping
 * (`str.upper`, `str.lower`), prefix and substring tests (`startswith`, `in`)
 * and the "blank after `strip()`" test.
 */
module Text {

  function UpperChar(c: char): char {
    if 'a' <= c <= 'z' then (c as int - 32) as char else c
  }

  function LowerChar(c: char): char {
    if 'A' <= c <= 'Z' then (c as int + 32) as char else c
  }

  /** `s.upper()`, restricted to the ASCII letters. */
  function Upper(s: string): (r: string)
    ensures |r| == |s|
    ensures forall i :: 0 <= i < |s| ==> r[i] == UpperChar(s[i])
  {
    if s == [] then [] else [UpperChar(s[0])] + Upper(s[1..])
  }

  /** `s.lower()`, restricted to the ASCII letters. */
  function Lower(s: string): (r: string)
    ensures |r| == |s|
    ensures forall i :: 0 <= i < |s| ==> r[i] == LowerChar(s[i])
  {
    if s == [] then [] else [LowerChar(s[0])] + Lower(s[1..])
  }

  /** A word without lower-case letters is its own upper-case form. */
  lemma UpperFixed(w: string)
    requires forall c :: c in w ==> !('a' <= c <= 'z')
    ensures Upper(w) == w
  {
    assert forall i :: 0 <= i < |w| ==> w[i] in w;
  }

  /** A word without upper-case letters is its own lower-case form. */
  lemma LowerFixed(w: string)
    requires forall c :: c in w ==> !('A' <= c <= 'Z')
    ensures Lower(w) == w
  {
    assert forall i :: 0 <= i < |w| ==> w[i] in w;
  }

  /** `s.startswith(p)`. */
  predicate StartsWith(s: string, p: string) {
    |p| <= |s| && s[..|p|] == p
  }

  /** `sub in s` for strings: `sub` occurs somewhere in `s`. */
  predicate Contains(s: string, sub: string)
    decreases |s|
  {
    StartsWith(s, sub) || (|s| > 0 && Contains(s[1..], sub))
  }

  /** The characters Python's `str.strip()` removes (ASCII whitespace). */
  predicate IsSpace(c: char) {
    c == ' ' || c == '\t' || c == '\n' || c == '\r' || c == '\U{000B}' || c == '\U{000C}'
  }

  /** `bool(s.strip())`: some character of `s` is not whitespace. */
  predicate NonBlank(s: string) {
    exists i :: 0 <= i < |s| && !IsSpace(s[i])
  }
}
