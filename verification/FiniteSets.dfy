/** Counting finite sets. */
module FiniteSets {

  lemma SubsetSize<T>(a: set<T>, b: set<T>)
    requires a <= b
    ensures |a| <= |b|
  {
    assert b == a + (b - a);
  }

  /** The numbers below n. */
  ghost function Range(n: nat): (r: set<nat>)
    ensures |r| == n && forall i: nat :: i in r <==> i < n
  {
    if n == 0 then {} else Range(n - 1) + {n - 1}
  }

  lemma {:induction false} DistinctImage(s: seq<nat>, n: nat)
    requires n <= |s| && forall i, j :: 0 <= i < j < |s| ==> s[i] != s[j]
    ensures |set i | 0 <= i < n :: s[i]| == n
  {
    if n == 0 {
    } else {
      DistinctImage(s, n - 1);
      assert (set i | 0 <= i < n :: s[i]) == (set i | 0 <= i < n - 1 :: s[i]) + {s[n - 1]};
    }
  }
}
