/** The string primitives the scanners are built from. */
module Text {
  import opened Ordering

  /** Characters with the Unicode White_Space property. */
  predicate IsWhitespace(c: char) {
    || '\t' <= c <= '\r' || c == ' ' || c == '\U{85}' || c == '\U{A0}' || c == '\U{1680}'
    || '\U{2000}' <= c <= '\U{200A}' || c == '\U{2028}' || c == '\U{2029}' || c == '\U{202F}'
    || c == '\U{205F}' || c == '\U{3000}'
  }

  predicate AllWhitespace(s: string) {
    forall c :: c in s ==> IsWhitespace(c)
  }

  function TrimStart(s: string): string {
    if s != [] && IsWhitespace(s[0]) then TrimStart(s[1..]) else s
  }

  function TrimEnd(s: string): string {
    if s != [] && IsWhitespace(s[|s| - 1]) then TrimEnd(s[..|s| - 1]) else s
  }

  function Trim(s: string): string {
    TrimEnd(TrimStart(s))
  }

  predicate OccursAt(text: string, needle: string, i: int) {
    0 <= i <= i + |needle| <= |text| && forall k :: 0 <= k < |needle| ==> text[i + k] == needle[k]
  }

  /** Leftmost occurrence of `needle` starting at or after `from`. */
  function Find(text: string, needle: string, from: nat): (r: Option<nat>)
    requires from <= |text|
    ensures r.Some? ==> from <= r.value && OccursAt(text, needle, r.value)
    ensures r.Some? ==> forall i :: from <= i < r.value ==> !OccursAt(text, needle, i)
    ensures r.None? ==> forall i :: from <= i ==> !OccursAt(text, needle, i)
    decreases |text| - from
  {
    if OccursAt(text, needle, from) then Some(from)
    else if from == |text| then None
    else Find(text, needle, from + 1)
  }

  /** Rightmost position of `c` before `limit`. */
  function FindLast(text: string, c: char, limit: nat): (r: Option<nat>)
    requires limit <= |text|
    ensures r.Some? ==> r.value < limit && text[r.value] == c
    ensures r.Some? ==> forall i :: r.value < i < limit ==> text[i] != c
    ensures r.None? ==> forall i :: 0 <= i < limit ==> text[i] != c
  {
    if limit == 0 then None
    else if text[limit - 1] == c then Some(limit - 1)
    else FindLast(text, c, limit - 1)
  }

  /** Among ASCII characters: tab, line feed, vertical tab, form feed, carriage return and space. */
  lemma AsciiWhitespace(c: char)
    requires c < 128 as char
    ensures IsWhitespace(c) <==> c == '\t' || c == '\n' || c == '\U{0B}' || c == '\U{0C}' || c == '\r' || c == ' '
  {
  }
}
