/** The weighted sum of tokens, locks, waiters and decrements in flight, which every atomic step keeps. */
module GroupConservation {
  import opened Sums
  import Priority
  import opened LockQueue
  import opened GroupThreads

  /** Decrements this thread has made and not yet attributed, less those it still owes. */
  function ThreadWeight(th: Thread): int {
    if th.Recheck? || th.Release? || th.Reserved? || th.Claim? then 1
    else if th.Owe? || (th.Dispatch? && th.uncounted) then -1
    else 0
  }

  /** One token for a waiter that is counted and not yet running. */
  function WaiterWeight(x: Waiter): int {
    if x.slot && !x.place.Dispatched? then 1 else 0
  }

  /** Threads between raising `slow_pending` and queueing, or between dequeueing and lowering it. */
  function PendingWeight(th: Thread): int {
    if th.Insert? || th.Unpend? then 1 else 0
  }

  function Live(s: State): int {
    s.running + Sum(s.queue, LockWeight)
  }

  function InFlight(s: State): int {
    Sum(s.waiters, WaiterWeight) + Sum(s.threads, ThreadWeight)
  }

  predicate Conserved(s: State) {
    && s.tokens + Live(s) + InFlight(s) == s.concurrency
    && s.slowPending == |s.queue| + Sum(s.threads, PendingWeight)
    && s.running >= 0
    && (forall t :: 0 <= t < |s.threads| && s.threads[t].Insert? ==> !s.threads[t].handle.locked)
  }

  lemma {:induction false} NotifyKeepsLocks(q: seq<LockHandle>, tokens: int)
    ensures Sum(Notified(q, tokens), LockWeight) == Sum(q, LockWeight)
    ensures Sum(Unnotified(q, tokens), LockWeight) == Sum(q, LockWeight)
  {
    SumSame(q, Notified(q, tokens), LockWeight);
    SumSame(q, Unnotified(q, tokens), LockWeight);
  }

  lemma {:induction false} ThreadSums(s: State, s': State, t: nat)
    requires t < |s.threads| == |s'.threads|
    requires s'.threads == s.threads[t := s'.threads[t]]
    ensures Sum(s'.threads, ThreadWeight)
         == Sum(s.threads, ThreadWeight) - ThreadWeight(s.threads[t]) + ThreadWeight(s'.threads[t])
    ensures Sum(s'.threads, PendingWeight)
         == Sum(s.threads, PendingWeight) - PendingWeight(s.threads[t]) + PendingWeight(s'.threads[t])
  {
    SumUpdate(s.threads, t, s'.threads[t], ThreadWeight);
    SumUpdate(s.threads, t, s'.threads[t], PendingWeight);
  }

  lemma {:induction false} WaiterStepConserves(s: State, t: nat, spurious: bool)
    requires Valid(s) && Conserved(s) && t < |s.threads|
    requires s.threads[t].Exchange? || s.threads[t].Dispatch? || s.threads[t].Claim?
    ensures Conserved(Advance(s, t, spurious))
  {
    var s' := Advance(s, t, spurious);
    var w := s.threads[t].waiter;
    assert ThreadOk(s, t) && WaiterOk(s, w);
    ThreadSums(s, s', t);
    SumUpdate(s.waiters, w, s'.waiters[w], WaiterWeight);
  }

  lemma {:induction false} BucketStepConserves(s: State, t: nat, spurious: bool)
    requires Valid(s) && Conserved(s) && t < |s.threads|
    requires s.threads[t].Scan? || s.threads[t].Publish?
    ensures Conserved(Advance(s, t, spurious))
  {
    var s' := Advance(s, t, spurious);
    ThreadSums(s, s', t);
    var th := s.threads[t];
    if th.Publish? {
      SumAppend(s.waiters, s'.waiters[|s.waiters|], WaiterWeight);
    } else if th.bucket < Priority.BUCKETS && s.buckets[th.bucket] != [] {
      assert BucketOk(s, th.bucket);
      var w := s.buckets[th.bucket][0];
      SumUpdate(s.waiters, w, s'.waiters[w], WaiterWeight);
    }
  }

  lemma {:induction false} QueueStepConserves(s: State, t: nat, spurious: bool)
    requires Valid(s) && Conserved(s) && t < |s.threads|
    requires s.threads[t].NotifySlow? || s.threads[t].Insert?
    ensures Conserved(Advance(s, t, spurious))
  {
    ThreadSums(s, Advance(s, t, spurious), t);
    if s.threads[t].NotifySlow? {
      NotifyKeepsLocks(s.queue, s.tokens);
    } else {
      var handle := s.threads[t].handle;
      NotifyKeepsLocks(Inserted(s.queue, handle), s.tokens);
      SumInsert(s.queue, InsertionPoint(s.queue, handle), handle, LockWeight);
    }
  }

  predicate Plain(th: Thread) {
    || th.LoadSlow? || th.LoadTokens? || th.Cas? || th.Recheck? || th.Release? || th.Released? || th.Owe?
    || th.Reserve? || th.Reserved? || th.Unpend? || th.Handback?
  }

  /** The steps that move only counters keep the weighted sum of the counters and of the moving thread. */
  lemma {:induction false} PlainStep(s: State, t: nat, spurious: bool)
    requires Valid(s) && t < |s.threads| && Plain(s.threads[t])
    ensures var s' := Advance(s, t, spurious);
            && s' == s.(tokens := s'.tokens, running := s'.running, slowPending := s'.slowPending, handed := s'.handed,
                        threads := s.threads[t := s'.threads[t]])
            && s'.running >= s.running
            && !s'.threads[t].Insert?
            && s'.tokens + s'.running + ThreadWeight(s'.threads[t])
               == s.tokens + s.running + ThreadWeight(s.threads[t])
            && s'.slowPending - s.slowPending == PendingWeight(s'.threads[t]) - PendingWeight(s.threads[t])
  {
  }

  lemma {:induction false} AdvanceConserves(s: State, t: nat, spurious: bool)
    requires Valid(s) && Conserved(s) && t < |s.threads|
    ensures Conserved(Advance(s, t, spurious))
  {
    var th := s.threads[t];
    if th.Exchange? || th.Dispatch? || th.Claim? {
      WaiterStepConserves(s, t, spurious);
    } else if th.Scan? || th.Publish? {
      BucketStepConserves(s, t, spurious);
    } else if th.NotifySlow? || th.Insert? {
      QueueStepConserves(s, t, spurious);
    } else if Plain(th) {
      PlainStep(s, t, spurious);
      ThreadSums(s, Advance(s, t, spurious), t);
    }
  }

  lemma {:induction false} DroppedLocks(q: seq<LockHandle>, ref: nat, tokens: int)
    requires HasRef(q, ref)
    ensures |Notified(Removed(q, ref), tokens)| == |q| - 1
    ensures Sum(Notified(Removed(q, ref), tokens), LockWeight) == Sum(q, LockWeight) - LockWeight(q[Find(q, ref)])
  {
    SumRemove(q, Find(q, ref), LockWeight);
    NotifyKeepsLocks(Removed(q, ref), tokens);
  }

  lemma {:induction false} DropConserves(s: State, t: nat, ref: nat)
    requires Valid(s) && Conserved(s) && t < |s.threads| && s.threads[t] == Idle && CanBegin(s, DropHandle(ref))
    ensures Conserved(Begin(s, t, DropHandle(ref)))
  {
    var s' := Begin(s, t, DropHandle(ref));
    ThreadSums(s, s', t);
    DroppedLocks(s.queue, ref, s'.tokens);
  }

  lemma {:induction false} BeginConserves(s: State, t: nat, op: Op)
    requires Valid(s) && Conserved(s) && t < |s.threads| && s.threads[t] == Idle && CanBegin(s, op)
    ensures Conserved(Begin(s, t, op))
  {
    if op.DropHandle? {
      DropConserves(s, t, op.ref);
    } else {
      var s' := Begin(s, t, op);
      assert s'.threads == s.threads[t := s'.threads[t]];
      SumUpdate(s.threads, t, s'.threads[t], ThreadWeight);
      SumUpdate(s.threads, t, s'.threads[t], PendingWeight);
      if op.TryLock? {
        var i := Find(s.queue, op.ref);
        SumUpdate(s.queue, i, s.queue[i].(locked := true), LockWeight);
      }
    }
  }
}
