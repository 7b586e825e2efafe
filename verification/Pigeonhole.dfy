/** The pigeonhole principle. */
module Pigeonhole {
  /** Among more than n numbers out of n two are equal. */
  lemma {:induction false} Twice(s: seq<int>, lo: int, n: nat) returns (i: nat, j: nat)
    requires |s| > n && forall k :: 0 <= k < |s| ==> lo <= s[k] < lo + n
    ensures i < j < |s| && s[i] == s[j]
    decreases n
  {
    assert lo <= s[0] < lo + n;
    var m := lo + n - 1;
    if k :| 0 <= k < |s| && s[k] == m {
      if l :| 0 <= l < |s| && l != k && s[l] == m {
        i, j := if k < l then k else l, if k < l then l else k;
      } else {
        var t := s[..k] + s[k + 1..];
        assert forall x :: 0 <= x < |t| ==> t[x] == s[if x < k then x else x + 1];
        var a, b := Twice(t, lo, n - 1);
        i, j := if a < k then a else a + 1, if b < k then b else b + 1;
      }
    } else {
      i, j := Twice(s, lo, n - 1);
    }
  }
}
