/**
  The string primitives the parser relies on: `__prettify_string`
  (SiouxParser.py:60-67), Python's `str.find` and `in` on strings, and
  ASCII lower-casing for month-name lookups.
*/
module Text {

  /** Characters Python 2.7's `unicode.strip()` treats as whitespace. */
  predicate IsSpace(c: char) {
    c == ' ' || '\t' <= c <= '\r' || '\U{1c}' <= c <= '\U{1f}'
    || c == '\U{85}' || c == '\U{a0}' || c == '\U{1680}' || c == '\U{180e}'
    || '\U{2000}' <= c <= '\U{200a}' || c == '\U{2028}' || c == '\U{2029}'
    || c == '\U{202f}' || c == '\U{205f}' || c == '\U{3000}'
  }

  /** `\d` of a non-Unicode Python regular expression. */
  predicate IsDigit(c: char) {
    '0' <= c <= '9'
  }

  /** Python's `str.lower()` restricted to ASCII letters. */
  function Lower(s: string): (r: string)
    ensures |r| == |s|
    ensures forall k :: 0 <= k < |s| ==> ('a' <= s[k] <= 'z' ==> r[k] == s[k])
  {
    if s == [] then []
    else [if 'A' <= s[0] <= 'Z' then (s[0] as int + 32) as char else s[0]] + Lower(s[1..])
  }

  // ---- str.strip() ------------------------------------------------------------

  function StripLeft(s: string): (r: string)
    ensures |r| <= |s| && r == s[|s| - |r|..]
    ensures r == [] || !IsSpace(r[0])
    ensures forall k :: 0 <= k < |s| - |r| ==> IsSpace(s[k])
  {
    if |s| > 0 && IsSpace(s[0]) then StripLeft(s[1..]) else s
  }

  function StripRight(s: string): (r: string)
    ensures |r| <= |s| && r == s[..|r|]
    ensures r == [] || !IsSpace(r[|r| - 1])
    ensures forall k :: |r| <= k < |s| ==> IsSpace(s[k])
  {
    if |s| > 0 && IsSpace(s[|s| - 1]) then StripRight(s[..|s| - 1]) else s
  }

  /** `s.strip()`: `s` without its leading and trailing whitespace. */
  function Strip(s: string): (r: string)
    ensures r == [] || (!IsSpace(r[0]) && !IsSpace(r[|r| - 1]))
  {
    StripRight(StripLeft(s))
  }

  /** `s.replace(c, '')` for a single character `c`. */
  function Remove(s: string, c: char): (r: string)
    ensures c !in r
    ensures |r| <= |s|
    ensures forall x :: x != c ==> (x in r <==> x in s)
    ensures |s| > 0 && s[0] != c ==> |r| > 0 && r[0] == s[0]
    ensures |s| > 0 && s[|s| - 1] != c ==> |r| > 0 && r[|r| - 1] == s[|s| - 1]
    ensures c !in s ==> r == s
    ensures forall x :: x != c ==> multiset(r)[x] == multiset(s)[x]
  {
    if s == [] then []
    else
      assert s == [s[0]] + s[1..];
      (if s[0] == c then [] else [s[0]]) + Remove(s[1..], c)
  }

  /**
    `__prettify_string`: strip the ends, then drop every newline and tab.
    The result holds no newline and no tab, starts and ends with a
    non-whitespace character, and keeps every other character of the
    stripped text as often as it occurs there.
  */
  function Prettify(s: string): (r: string)
    ensures '\n' !in r && '\t' !in r
    ensures r == [] || (!IsSpace(r[0]) && !IsSpace(r[|r| - 1]))
    ensures forall x :: x != '\n' && x != '\t' ==> (x in r <==> x in Strip(s))
    ensures forall x :: x != '\n' && x != '\t' ==> multiset(r)[x] == multiset(Strip(s))[x]
  {
    Remove(Remove(Strip(s), '\n'), '\t')
  }

  lemma StripOfStripped(s: string)
    requires s == [] || (!IsSpace(s[0]) && !IsSpace(s[|s| - 1]))
    ensures Strip(s) == s
  {
  }

  /** Prettifying twice gives what prettifying once gives. */
  lemma PrettifyIdempotent(s: string)
    ensures Prettify(Prettify(s)) == Prettify(s)
  {
    var p := Prettify(s);
    StripOfStripped(p);
    assert Remove(p, '\n') == p;
    assert Remove(p, '\t') == p;
  }

  // ---- substring search ---------------------------------------------------------

  /** `sub` occurs in `s` at offset `i`. */
  predicate OccursAt(s: string, sub: string, i: int) {
    0 <= i && i + |sub| <= |s| && s[i..i + |sub|] == sub
  }

  /** Python's `sub in s`. */
  predicate Contains(s: string, sub: string) {
    exists i :: 0 <= i <= |s| && OccursAt(s, sub, i)
  }

  function FindFrom(s: string, sub: string, i: nat): (r: int)
    requires i <= |s|
    ensures r == -1 || (i <= r && OccursAt(s, sub, r))
    ensures r == -1 ==> forall j :: i <= j ==> !OccursAt(s, sub, j)
    ensures r != -1 ==> forall j :: i <= j < r ==> !OccursAt(s, sub, j)
    decreases |s| - i
  {
    if OccursAt(s, sub, i) then i
    else if i == |s| then -1
    else FindFrom(s, sub, i + 1)
  }

  /**
    Python's `s.find(sub)`: the lowest offset where `sub` occurs, or -1 when
    it does not occur at all.
  */
  function Find(s: string, sub: string): (r: int)
    ensures r == -1 <==> !Contains(s, sub)
    ensures r != -1 ==> OccursAt(s, sub, r) && forall j :: 0 <= j < r ==> !OccursAt(s, sub, j)
  {
    FindFrom(s, sub, 0)
  }
}
