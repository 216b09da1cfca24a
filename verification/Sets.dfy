/** Finite sets of natural numbers. */
module Sets {

  function Upto(n: nat): (s: set<nat>)
    ensures |s| == n && forall i: nat :: i in s <==> i < n
  {
    if n == 0 then {} else Upto(n - 1) + {n - 1}
  }

  lemma {:induction false} SubsetSize<T>(a: set<T>, b: set<T>)
    requires a <= b
    ensures |a| <= |b|
  {
    assert |b| == |a| + |b - a| by { assert b == a + (b - a); }
  }

  /** Distinct numbers below `n` are all of them exactly when there are `n` of them. */
  lemma {:induction false} CompleteWhenCounted(s: set<nat>, n: nat)
    requires forall i :: i in s ==> i < n
    ensures |s| == n <==> s == Upto(n)
  {
    assert s <= Upto(n);
    if s != Upto(n) {
      assert |Upto(n) - s| > 0;
      assert |Upto(n)| == |s| + |Upto(n) - s|;
    }
  }
}
