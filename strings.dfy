/** The two string operations the term search relies on: case folding and `in`. */
module Strings {

  /** ASCII case folding of one character (Python's `str.lower` on ASCII text). */
  function LowerChar(ch: char): (r: char)
    ensures !('A' <= r <= 'Z')
    ensures !('A' <= ch <= 'Z') ==> r == ch
    ensures 'A' <= ch <= 'Z' ==> r as int - ch as int == 'a' as int - 'A' as int
  {
    if 'A' <= ch <= 'Z' then (ch as int - 'A' as int + 'a' as int) as char else ch
  }

  /** `s.lower()`: the same string with every upper-case ASCII letter folded. */
  function Lower(s: string): (r: string)
    ensures |r| == |s|
    ensures forall i :: 0 <= i < |r| ==> r[i] == LowerChar(s[i])
  {
    seq(|s|, i requires 0 <= i < |s| => LowerChar(s[i]))
  }

  /** `needle` occurs in `haystack` starting at index `k`. */
  predicate OccursAt(haystack: string, needle: string, k: nat)
  {
    k + |needle| <= |haystack| && haystack[k..k + |needle|] == needle
  }

  /** Python's `needle in haystack` on strings: the empty string is in every string. */
  function Contains(haystack: string, needle: string): (r: bool)
    ensures needle == [] ==> r
    ensures r ==> |needle| <= |haystack|
    decreases |haystack|
  {
    needle <= haystack || (|haystack| > 0 && Contains(haystack[1..], needle))
  }

  /** An occurrence in the tail is an occurrence one place later in the whole string. */
  lemma OccursInTail(haystack: string, needle: string, k: nat)
    requires |haystack| > 0
    ensures OccursAt(haystack[1..], needle, k) <==> OccursAt(haystack, needle, k + 1)
  {
    if k + 1 + |needle| <= |haystack| {
      assert haystack[1..][k..k + |needle|] == haystack[k + 1..k + 1 + |needle|];
    }
  }

  /** `Contains` holds exactly when the needle occurs at some index of the haystack. */
  lemma {:induction false} ContainsIff(haystack: string, needle: string)
    ensures Contains(haystack, needle) <==> exists k: nat :: OccursAt(haystack, needle, k)
    decreases |haystack|
  {
    if needle <= haystack {
      assert OccursAt(haystack, needle, 0);
    } else if |haystack| > 0 {
      var tail := haystack[1..];
      ContainsIff(tail, needle);
      if k: nat :| OccursAt(tail, needle, k) {
        OccursInTail(haystack, needle, k);
      }
      if k: nat :| OccursAt(haystack, needle, k) {
        assert k != 0;
        OccursInTail(haystack, needle, k - 1);
      }
    }
  }
}
