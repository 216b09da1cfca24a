/** The sorted queue of handles for tasks that need several groups (the slow path of a group). */
module LockQueue {

  /** `ref` is the identity of the shared handle object; the other fields are those it holds. */
  datatype LockHandle = LockHandle(ref: nat, taskId: int, priority: int, locked: bool, notified: bool)

  /** Higher priorities first, then lower task ids. */
  predicate Before(a: LockHandle, b: LockHandle) {
    if a.priority == b.priority then a.taskId < b.taskId else a.priority > b.priority
  }

  predicate Sorted(q: seq<LockHandle>) {
    forall i, j :: 0 <= i < j < |q| ==> !Before(q[j], q[i])
  }

  predicate DistinctRefs(q: seq<LockHandle>) {
    forall i, j :: 0 <= i < j < |q| ==> q[i].ref != q[j].ref
  }

  /** A locked handle holds one token. */
  function LockWeight(h: LockHandle): int { if h.locked then 1 else 0 }

  /** How many of the first `n` handles are not locked. */
  function Unlocked(q: seq<LockHandle>, n: nat): nat
    requires n <= |q|
  {
    if n == 0 then 0 else Unlocked(q, n - 1) + (if q[n - 1].locked then 0 else 1)
  }

  /** Enough tokens are free for every unlocked handle up to and including this one. */
  predicate Eligible(q: seq<LockHandle>, tokens: int, i: nat)
    requires i < |q|
  {
    Unlocked(q, i + 1) <= tokens
  }

  predicate HasRef(q: seq<LockHandle>, ref: nat) {
    exists i :: 0 <= i < |q| && q[i].ref == ref
  }

  /** The position of the handle with this identity, or the length of the queue. */
  function Find(q: seq<LockHandle>, ref: nat): (i: nat)
    ensures i <= |q|
    ensures i < |q| ==> q[i].ref == ref
    ensures forall j :: 0 <= j < i ==> q[j].ref != ref
    ensures i < |q| <==> HasRef(q, ref)
  {
    if q == [] then 0
    else if q[0].ref == ref then 0
    else
      assert HasRef(q[1..], ref) ==> HasRef(q, ref) by {
        if HasRef(q[1..], ref) {
          var j :| 0 <= j < |q[1..]| && q[1..][j].ref == ref;
          assert q[j + 1].ref == ref;
        }
      }
      1 + Find(q[1..], ref)
  }

  /** `std::lower_bound`: the first position whose handle does not come before `h`. */
  function InsertionPoint(q: seq<LockHandle>, h: LockHandle): (p: nat)
    ensures p <= |q|
    ensures p < |q| ==> !Before(q[p], h)
    ensures forall j :: 0 <= j < p ==> Before(q[j], h)
  {
    if q == [] || !Before(q[0], h) then 0 else 1 + InsertionPoint(q[1..], h)
  }

  /** `q` with `h` put in at position `p`. */
  function With(q: seq<LockHandle>, p: nat, h: LockHandle): (r: seq<LockHandle>)
    requires p <= |q|
    ensures |r| == |q| + 1
    ensures forall i :: 0 <= i < |r| ==> r[i] == if i < p then q[i] else if i == p then h else q[i - 1]
  {
    q[..p] + [h] + q[p..]
  }

  /** `q` without the handle at position `p`. */
  function Without(q: seq<LockHandle>, p: nat): (r: seq<LockHandle>)
    requires p < |q|
    ensures |r| == |q| - 1
    ensures forall i :: 0 <= i < |r| ==> r[i] == if i < p then q[i] else q[i + 1]
  {
    q[..p] + q[p + 1..]
  }

  function Inserted(q: seq<LockHandle>, h: LockHandle): seq<LockHandle> {
    With(q, InsertionPoint(q, h), h)
  }

  function Removed(q: seq<LockHandle>, ref: nat): seq<LockHandle> {
    if HasRef(q, ref) then Without(q, Find(q, ref)) else q
  }

  /** Marks every unlocked handle for which there are now enough tokens as notified. */
  function Notified(q: seq<LockHandle>, tokens: int): (r: seq<LockHandle>)
    ensures |r| == |q|
  {
    seq(|q|, i requires 0 <= i < |q| =>
      if Eligible(q, tokens, i) && !q[i].locked then q[i].(notified := true) else q[i])
  }

  /** Clears the mark of every handle for which there are no longer enough tokens. */
  function Unnotified(q: seq<LockHandle>, tokens: int): (r: seq<LockHandle>)
    ensures |r| == |q|
  {
    seq(|q|, i requires 0 <= i < |q| =>
      if Eligible(q, tokens, i) then q[i] else q[i].(notified := false))
  }

  // ----- How the counts change -----

  lemma {:induction false} UnlockedDependsOnLocks(q: seq<LockHandle>, r: seq<LockHandle>, n: nat)
    requires n <= |q| && n <= |r|
    requires forall i :: 0 <= i < n ==> q[i].locked == r[i].locked
    ensures Unlocked(q, n) == Unlocked(r, n)
  {
    if n > 0 {
      UnlockedDependsOnLocks(q, r, n - 1);
    }
  }

  lemma {:induction false} UnlockedGrows(q: seq<LockHandle>, m: nat, n: nat)
    requires m <= n <= |q|
    ensures Unlocked(q, m) <= Unlocked(q, n) <= n
    ensures m < n && !q[m].locked ==> Unlocked(q, m) < Unlocked(q, n)
    decreases n
  {
    if m < n {
      UnlockedGrows(q, m, n - 1);
    } else if n > 0 {
      UnlockedGrows(q, n - 1, n - 1);
    }
  }

  lemma {:induction false} UnlockedOfLocked(q: seq<LockHandle>, i: nat, n: nat)
    requires i < |q| && !q[i].locked && n <= |q|
    ensures Unlocked(q[i := q[i].(locked := true)], n) == Unlocked(q, n) - (if i < n then 1 else 0)
    decreases n
  {
    if n > 0 {
      UnlockedOfLocked(q, i, n - 1);
    }
  }

  /** Putting a handle in only takes tokens from those behind it. */
  lemma {:induction false} UnlockedOfWith(q: seq<LockHandle>, p: nat, h: LockHandle, n: nat)
    requires p <= |q| && n <= |q| + 1
    ensures Unlocked(With(q, p, h), n) ==
            if n <= p then Unlocked(q, n) else Unlocked(q, n - 1) + (if h.locked then 0 else 1)
  {
    if n > 0 {
      UnlockedOfWith(q, p, h, n - 1);
    }
  }

  lemma {:induction false} UnlockedOfWithout(q: seq<LockHandle>, p: nat, n: nat)
    requires p < |q| && n < |q|
    ensures Unlocked(Without(q, p), n) ==
            if n <= p then Unlocked(q, n) else Unlocked(q, n + 1) - (if q[p].locked then 0 else 1)
  {
    if n > 0 {
      UnlockedOfWithout(q, p, n - 1);
    }
  }

  lemma WithoutThenWith(q: seq<LockHandle>, p: nat)
    requires p < |q|
    ensures With(Without(q, p), p, q[p]) == q
  {
  }

  /** Insertion at the lower bound keeps the order, also among handles that tie. */
  lemma {:induction false} InsertedIsSorted(q: seq<LockHandle>, h: LockHandle)
    requires Sorted(q)
    ensures Sorted(Inserted(q, h))
  {
    var p := InsertionPoint(q, h);
    var r := With(q, p, h);
    forall i, j | 0 <= i < j < |r| ensures !Before(r[j], r[i]) {
      if i == p {
        assert !Before(q[j - 1], q[p]);
      } else if j == p {
        assert Before(q[i], h);
      }
    }
  }

  /** A new handle goes behind all that have a higher priority, or the same priority and a lower id, and no other. */
  lemma {:induction false} InsertedPlace(q: seq<LockHandle>, h: LockHandle) returns (p: nat)
    requires Sorted(q)
    ensures p <= |q| && Inserted(q, h) == q[..p] + [h] + q[p..]
    ensures forall i :: 0 <= i < p ==>
              q[i].priority > h.priority || (q[i].priority == h.priority && q[i].taskId < h.taskId)
    ensures forall i :: p <= i < |q| ==>
              q[i].priority < h.priority || (q[i].priority == h.priority && q[i].taskId >= h.taskId)
  {
    p := InsertionPoint(q, h);
    forall i | 0 <= i < p ensures Before(q[i], h) {
    }
    forall i | p <= i < |q| ensures !Before(q[i], h) {
      assert i > p ==> !Before(q[i], q[p]);
    }
  }

  lemma {:induction false} NotifyKeepsCounts(q: seq<LockHandle>, tokens: int, n: nat)
    requires n <= |q|
    ensures Unlocked(Notified(q, tokens), n) == Unlocked(q, n)
    ensures Unlocked(Unnotified(q, tokens), n) == Unlocked(q, n)
  {
    UnlockedDependsOnLocks(q, Notified(q, tokens), n);
    UnlockedDependsOnLocks(q, Unnotified(q, tokens), n);
  }

  // ----- Positions by identity -----

  lemma {:induction false} FindIsUnique(q: seq<LockHandle>, i: nat)
    requires DistinctRefs(q) && i < |q|
    ensures Find(q, q[i].ref) == i
  {
    assert HasRef(q, q[i].ref);
  }

  lemma {:induction false} DistinctWith(q: seq<LockHandle>, p: nat, h: LockHandle)
    requires p <= |q| && DistinctRefs(q) && !HasRef(q, h.ref)
    ensures DistinctRefs(With(q, p, h))
  {
    var r := With(q, p, h);
    forall i, j | 0 <= i < j < |r| ensures r[i].ref != r[j].ref {
      if i == p {
        assert q[j - 1].ref != h.ref;
      } else if j == p {
        assert q[i].ref != h.ref;
      }
    }
  }

  /** The handle with the identity of a removed one is gone, and the others have moved up. */
  lemma {:induction false} FindInWithout(q: seq<LockHandle>, p: nat, ref: nat)
    requires p < |q| && DistinctRefs(q)
    ensures DistinctRefs(Without(q, p)) && !HasRef(Without(q, p), q[p].ref)
    ensures ref != q[p].ref ==> HasRef(Without(q, p), ref) == HasRef(q, ref)
    ensures ref != q[p].ref && HasRef(q, ref) ==>
              Find(Without(q, p), ref) == (if Find(q, ref) < p then Find(q, ref) else Find(q, ref) - 1)
  {
    var r := Without(q, p);
    WithoutThenWith(q, p);
    if ref != q[p].ref {
      FindInWith(r, p, q[p], ref);
    }
  }

  lemma {:induction false} FindInWith(q: seq<LockHandle>, p: nat, h: LockHandle, ref: nat)
    requires p <= |q| && DistinctRefs(With(q, p, h)) && ref != h.ref
    ensures HasRef(With(q, p, h), ref) == HasRef(q, ref)
    ensures HasRef(q, ref) ==> Find(With(q, p, h), ref) == (if Find(q, ref) < p then Find(q, ref) else Find(q, ref) + 1)
  {
    var r := With(q, p, h);
    if HasRef(q, ref) {
      var i := Find(q, ref);
      var k := if i < p then i else i + 1;
      assert r[k].ref == ref;
      FindIsUnique(r, k);
    }
    if HasRef(r, ref) {
      var k := Find(r, ref);
      assert q[if k < p then k else k - 1].ref == ref;
    }
  }

  lemma {:induction false} FindIsKept(q: seq<LockHandle>, r: seq<LockHandle>, ref: nat)
    requires |q| == |r| && DistinctRefs(q)
    requires forall i :: 0 <= i < |q| ==> q[i].ref == r[i].ref
    ensures DistinctRefs(r)
    ensures HasRef(q, ref) == HasRef(r, ref)
    ensures HasRef(q, ref) ==> Find(q, ref) == Find(r, ref)
  {
    if HasRef(q, ref) {
      assert r[Find(q, ref)].ref == ref;
      FindIsUnique(r, Find(q, ref));
    }
    if HasRef(r, ref) {
      assert q[Find(r, ref)].ref == ref;
    }
  }
}
