/** A binary min-heap of timed tasks in a vector, with the steps of the standard heap algorithms. */
module ChronoHeap {

  datatype Task = Task(id: nat, time: int)

  function Parent(i: nat): nat
    requires i > 0
  {
    (i - 1) / 2
  }

  /** The task at `i` is not before its parent. */
  predicate Ordered(s: seq<Task>, i: nat)
    requires 0 < i < |s|
  {
    s[Parent(i)].time <= s[i].time
  }

  predicate IsHeap(s: seq<Task>, n: nat)
    requires n <= |s|
  {
    forall i :: 0 < i < n ==> Ordered(s, i)
  }

  function Swap<T>(s: seq<T>, i: nat, j: nat): (r: seq<T>)
    requires i < |s| && j < |s|
    ensures |r| == |s|
  {
    s[i := s[j]][j := s[i]]
  }

  function SiftUp(s: seq<Task>, k: nat): (r: seq<Task>)
    requires k < |s|
    ensures |r| == |s|
    decreases k
  {
    if k == 0 || Ordered(s, k) then s else SiftUp(Swap(s, k, Parent(k)), Parent(k))
  }

  /** The earlier child of `k` in the first `n` elements. */
  function EarlierChild(s: seq<Task>, k: nat, n: nat): (c: nat)
    requires 2 * k + 1 < n <= |s|
    ensures k < c < n && Parent(c) == k
  {
    var left := 2 * k + 1;
    if left + 1 < n && s[left + 1].time < s[left].time then left + 1 else left
  }

  function SiftDown(s: seq<Task>, k: nat, n: nat): (r: seq<Task>)
    requires n <= |s|
    ensures |r| == |s|
    decreases n - k
  {
    if 2 * k + 1 >= n then s
    else
      var c := EarlierChild(s, k, n);
      if Ordered(s, c) then s else SiftDown(Swap(s, k, c), c, n)
  }

  /** `push_heap`: the last element takes its place. */
  function PushHeap(s: seq<Task>): (r: seq<Task>)
    requires s != []
    ensures |r| == |s|
  {
    SiftUp(s, |s| - 1)
  }

  /** `pop_heap`: the first element goes last, and the element that was there takes its place among the others. */
  function PopHeap(s: seq<Task>): (r: seq<Task>)
    requires s != []
    ensures |r| == |s|
  {
    SiftDown(Swap(s, 0, |s| - 1), 0, |s| - 1)
  }

  function HeapFrom(s: seq<Task>, k: nat): (r: seq<Task>)
    requires k <= |s|
    ensures |r| == |s|
    decreases k
  {
    if k == 0 then s else HeapFrom(SiftDown(s, k - 1, |s|), k - 1)
  }

  function MakeHeap(s: seq<Task>): (r: seq<Task>)
    ensures |r| == |s|
  {
    HeapFrom(s, |s| / 2)
  }

  // ----- The order -----

  /** Ordered everywhere except at `k`, whose children are not before the parent of `k` either. */
  predicate AllButUp(s: seq<Task>, k: nat) {
    && k < |s|
    && (forall i :: 0 < i < |s| && i != k ==> Ordered(s, i))
    && (forall i :: 0 < i < |s| && k > 0 && Parent(i) == k ==> s[Parent(k)].time <= s[i].time)
  }

  lemma {:induction false} SwapUp(s: seq<Task>, k: nat)
    requires AllButUp(s, k) && k > 0 && !Ordered(s, k)
    ensures AllButUp(Swap(s, k, Parent(k)), Parent(k))
  {
    var p := Parent(k);
    var t := Swap(s, k, p);
    forall i | 0 < i < |t| && i != p ensures Ordered(t, i) {
      assert i != k ==> Ordered(s, i);
      assert Parent(i) == k ==> s[p].time <= s[i].time;
    }
    forall i | 0 < i < |t| && p > 0 && Parent(i) == p ensures t[Parent(p)].time <= t[i].time {
      assert Ordered(s, p);
      assert i != k ==> Ordered(s, i);
    }
  }

  lemma {:induction false} SiftUpOrders(s: seq<Task>, k: nat)
    requires AllButUp(s, k)
    ensures IsHeap(SiftUp(s, k), |s|)
    decreases k
  {
    if k > 0 && !Ordered(s, k) {
      SwapUp(s, k);
      SiftUpOrders(Swap(s, k, Parent(k)), Parent(k));
    }
  }

  lemma {:induction false} PushKeepsHeap(s: seq<Task>)
    requires s != [] && IsHeap(s, |s| - 1)
    ensures IsHeap(PushHeap(s), |s|)
  {
    SiftUpOrders(s, |s| - 1);
  }

  /** Among the first `n`, parents from `low` on are ordered before their children, except possibly `k`. */
  predicate AllButDown(s: seq<Task>, k: nat, n: nat, low: nat) {
    && n <= |s| && low <= k
    && (forall i :: 0 < i < n && low <= Parent(i) != k ==> Ordered(s, i))
    && (forall i :: 0 < i < n && Parent(i) == k && k > 0 && low <= Parent(k) ==> s[Parent(k)].time <= s[i].time)
  }

  predicate OrderedFrom(s: seq<Task>, n: nat, low: nat) {
    n <= |s| && forall i :: 0 < i < n && low <= Parent(i) ==> Ordered(s, i)
  }

  lemma {:induction false} SwapDown(s: seq<Task>, k: nat, n: nat, low: nat)
    requires AllButDown(s, k, n, low) && 2 * k + 1 < n
    requires !Ordered(s, EarlierChild(s, k, n))
    ensures var c := EarlierChild(s, k, n); AllButDown(Swap(s, k, c), c, n, low)
  {
    var c := EarlierChild(s, k, n);
    var t := Swap(s, k, c);
    forall i | 0 < i < n && low <= Parent(i) != c ensures Ordered(t, i) {
      assert Parent(i) != k ==> Ordered(s, i);
      if Parent(i) == k {
        assert i == 2 * k + 1 || i == 2 * k + 2;
      }
    }
    forall i | 0 < i < n && Parent(i) == c && low <= Parent(c) ensures t[Parent(c)].time <= t[i].time {
      assert Ordered(s, i);
    }
  }

  lemma {:induction false} SiftDownOrders(s: seq<Task>, k: nat, n: nat, low: nat)
    requires AllButDown(s, k, n, low)
    ensures OrderedFrom(SiftDown(s, k, n), n, low)
    decreases n - k
  {
    if 2 * k + 1 < n {
      var c := EarlierChild(s, k, n);
      if Ordered(s, c) {
        forall i | 0 < i < n && low <= Parent(i) ensures Ordered(s, i) {
          if Parent(i) == k {
            assert i == 2 * k + 1 || i == 2 * k + 2;
          }
        }
      } else {
        SwapDown(s, k, n, low);
        SiftDownOrders(Swap(s, k, c), c, n, low);
      }
    }
  }

  lemma {:induction false} HeapFromOrders(s: seq<Task>, k: nat)
    requires k <= |s| && OrderedFrom(s, |s|, k)
    ensures IsHeap(HeapFrom(s, k), |s|)
    decreases k
  {
    if k > 0 {
      SiftDownOrders(s, k - 1, |s|, k - 1);
      HeapFromOrders(SiftDown(s, k - 1, |s|), k - 1);
    }
  }

  lemma {:induction false} MakeHeapOrders(s: seq<Task>)
    ensures IsHeap(MakeHeap(s), |s|)
  {
    HeapFromOrders(s, |s| / 2);
  }

  /** Below the root the order holds: all that is left when the root has changed its time. */
  predicate HeapBelowRoot(s: seq<Task>) {
    forall i :: 0 < i < |s| && Parent(i) > 0 ==> Ordered(s, i)
  }

  /** The root is moved to the end and the others become a heap, whatever time the root now has. */
  lemma {:induction false} PopKeepsHeap(s: seq<Task>)
    requires s != [] && HeapBelowRoot(s)
    ensures IsHeap(PopHeap(s), |s| - 1)
    ensures PopHeap(s)[|s| - 1] == s[0]
  {
    var t := Swap(s, 0, |s| - 1);
    forall i | 0 < i < |s| - 1 && Parent(i) != 0 ensures Ordered(t, i) {
      assert Ordered(s, i);
    }
    SiftDownOrders(t, 0, |s| - 1, 0);
    SiftDownKeepsTail(t, 0, |s| - 1);
  }

  lemma {:induction false} SiftDownKeepsTail(s: seq<Task>, k: nat, n: nat)
    requires n <= |s|
    ensures forall i :: n <= i < |s| ==> SiftDown(s, k, n)[i] == s[i]
    decreases n - k
  {
    if 2 * k + 1 < n {
      var c := EarlierChild(s, k, n);
      if !Ordered(s, c) {
        SiftDownKeepsTail(Swap(s, k, c), c, n);
      }
    }
  }

  /** The front of a heap is a minimum. */
  lemma {:induction false} RootIsMinimum(s: seq<Task>, i: nat)
    requires i < |s| && IsHeap(s, |s|)
    ensures s[0].time <= s[i].time
  {
    if i > 0 {
      RootIsMinimum(s, Parent(i));
      assert Ordered(s, i);
    }
  }

  // ----- The contents -----

  lemma {:induction false} SwapKeeps<T>(s: seq<T>, i: nat, j: nat)
    requires i < |s| && j < |s|
    ensures multiset(Swap(s, i, j)) == multiset(s)
  {
  }

  lemma {:induction false} SiftUpKeeps(s: seq<Task>, k: nat)
    requires k < |s|
    ensures multiset(SiftUp(s, k)) == multiset(s)
    decreases k
  {
    if k > 0 && !Ordered(s, k) {
      SwapKeeps(s, k, Parent(k));
      SiftUpKeeps(Swap(s, k, Parent(k)), Parent(k));
    }
  }

  lemma {:induction false} SiftDownKeeps(s: seq<Task>, k: nat, n: nat)
    requires n <= |s|
    ensures multiset(SiftDown(s, k, n)) == multiset(s)
    decreases n - k
  {
    if 2 * k + 1 < n {
      var c := EarlierChild(s, k, n);
      if !Ordered(s, c) {
        SwapKeeps(s, k, c);
        SiftDownKeeps(Swap(s, k, c), c, n);
      }
    }
  }

  lemma {:induction false} HeapFromKeeps(s: seq<Task>, k: nat)
    requires k <= |s|
    ensures multiset(HeapFrom(s, k)) == multiset(s)
    decreases k
  {
    if k > 0 {
      SiftDownKeeps(s, k - 1, |s|);
      HeapFromKeeps(SiftDown(s, k - 1, |s|), k - 1);
    }
  }

  lemma {:induction false} InitContents<T>(s: seq<T>)
    requires s != []
    ensures multiset(s[..|s| - 1]) == multiset(s) - multiset{s[|s| - 1]}
  {
    assert s == s[..|s| - 1] + [s[|s| - 1]];
  }

  /** Popping puts the front last and loses nothing. */
  lemma {:induction false} PopKeeps(s: seq<Task>)
    requires s != []
    ensures multiset(PopHeap(s)[..|s| - 1]) == multiset(s) - multiset{s[0]}
    ensures multiset(PopHeap(s)) == multiset(s) && PopHeap(s)[|s| - 1] == s[0]
  {
    var t := Swap(s, 0, |s| - 1);
    SwapKeeps(s, 0, |s| - 1);
    SiftDownKeeps(t, 0, |s| - 1);
    SiftDownKeepsTail(t, 0, |s| - 1);
    assert PopHeap(s)[|s| - 1] == s[0];
    InitContents(PopHeap(s));
  }
}
