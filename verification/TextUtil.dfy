/** `String.startsWith`, `String.indexOf` and `String.contains` on `seq<char>`. */
module TextUtil {

  /** The pattern `p` occurs in `s` starting at position `i`. */
  predicate OccursAt(s: string, p: string, i: nat) {
    i + |p| <= |s| && s[i..i + |p|] == p
  }

  /** `String.startsWith`: the text begins with the pattern, character for character. */
  predicate StartsWith(s: string, p: string) {
    |p| <= |s| && s[..|p|] == p
  }

  /** `s.indexOf(p, from)`: the first position at or after `from` where `p` occurs, or -1. */
  function IndexOfFrom(s: string, p: string, from: nat): (r: int)
    ensures r == -1 || (from <= r && OccursAt(s, p, r))
    ensures r == -1 ==> forall i: nat :: from <= i ==> !OccursAt(s, p, i)
    ensures r != -1 ==> forall i: nat :: from <= i < r ==> !OccursAt(s, p, i)
    decreases |s| - from
  {
    if from + |p| > |s| then -1
    else if s[from..from + |p|] == p then from
    else IndexOfFrom(s, p, from + 1)
  }

  /** `s.indexOf(p)`. */
  function IndexOf(s: string, p: string): (r: int)
    ensures r == -1 <==> forall i: nat :: !OccursAt(s, p, i)
    ensures r != -1 ==> 0 <= r && OccursAt(s, p, r) && forall i: nat :: i < r ==> !OccursAt(s, p, i)
  {
    IndexOfFrom(s, p, 0)
  }

  /** `s.contains(p)`, which Java defines as `indexOf(p) >= 0`. */
  predicate Contains(s: string, p: string) {
    IndexOf(s, p) >= 0
  }

  /** The empty string occurs in every string, at position 0. */
  lemma EmptyPatternAtZero(s: string)
    ensures IndexOf(s, "") == 0
  {
    assert OccursAt(s, "", 0);
  }
}
