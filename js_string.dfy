/**
 * The three JavaScript string methods the intake form relies on, with
 * their ECMAScript meaning: `indexOf` and `lastIndexOf` answer -1 when the
 * pattern does not occur, and `substring` swaps its arguments when the
 * start lies after the end. Strings are `seq<char>`, so positions count
 * Unicode scalar values where JavaScript counts UTF-16 code units; the
 * two differ only after a character outside the Basic Multilingual Plane.
 */
module JsString {

  /** `pat` occurs in `s` starting at position `k`. */
  predicate OccursAt(s: string, pat: string, k: int) {
    0 <= k && k + |pat| <= |s| && s[k..k + |pat|] == pat
  }

  /** `pat` occurs somewhere in `s`. */
  ghost predicate Contains(s: string, pat: string) {
    exists k :: OccursAt(s, pat, k)
  }

  /** `k` is the position of the leftmost occurrence of `pat` in `s`. */
  ghost predicate FirstOccurrence(s: string, pat: string, k: int) {
    OccursAt(s, pat, k) && forall j :: 0 <= j < k ==> !OccursAt(s, pat, j)
  }

  /** `k` is the position of the rightmost occurrence of `pat` in `s`. */
  ghost predicate LastOccurrence(s: string, pat: string, k: int) {
    OccursAt(s, pat, k) && forall j :: k < j ==> !OccursAt(s, pat, j)
  }

  /** A one-character pattern occurs exactly where that character stands. */
  lemma OccursAtChar(s: string, c: char, k: int)
    ensures OccursAt(s, [c], k) <==> 0 <= k < |s| && s[k] == c
  {
    if 0 <= k < |s| {
      assert s[k..k + 1] == [s[k]];
    }
  }

  /** Leftmost occurrence of `pat` at or after `from`, or -1. */
  function IndexOfFrom(s: string, pat: string, from: nat): (r: int)
    ensures r == -1 || (from <= r && OccursAt(s, pat, r))
    ensures forall j :: from <= j && (r == -1 || j < r) ==> !OccursAt(s, pat, j)
    decreases |s| - from
  {
    if from + |pat| > |s| then -1
    else if s[from..from + |pat|] == pat then from
    else IndexOfFrom(s, pat, from + 1)
  }

  /** `s.indexOf(pat)`: the leftmost occurrence of `pat`, or -1 when there is none. */
  function IndexOf(s: string, pat: string): (r: int)
    ensures r == -1 <==> !Contains(s, pat)
    ensures r != -1 ==> FirstOccurrence(s, pat, r)
  {
    IndexOfFrom(s, pat, 0)
  }

  /** Rightmost occurrence of `pat` starting below `n`, or -1. */
  function LastIndexOfBelow(s: string, pat: string, n: nat): (r: int)
    ensures r == -1 || (r < n && OccursAt(s, pat, r))
    ensures forall j :: r < j < n ==> !OccursAt(s, pat, j)
  {
    if n == 0 then -1
    else if OccursAt(s, pat, n - 1) then n - 1
    else LastIndexOfBelow(s, pat, n - 1)
  }

  /** `s.lastIndexOf(pat)`: the rightmost occurrence of `pat`, or -1 when there is none. */
  function LastIndexOf(s: string, pat: string): (r: int)
    ensures r == -1 <==> !Contains(s, pat)
    ensures r != -1 ==> LastOccurrence(s, pat, r)
  {
    LastIndexOfBelow(s, pat, |s| + 1)
  }

  /**
   * `s.substring(start, end)` for indices inside the string: the text
   * between the two positions, whichever of them comes first.
   */
  function Substring(s: string, start: nat, end: nat): (r: string)
    requires start <= |s| && end <= |s|
    ensures start <= end ==> |r| == end - start && forall i :: 0 <= i < |r| ==> r[i] == s[start + i]
    ensures end < start ==> |r| == start - end && forall i :: 0 <= i < |r| ==> r[i] == s[end + i]
  {
    if start <= end then s[start..end] else s[end..start]
  }
}
