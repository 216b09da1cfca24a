/** What holds in every interleaving of the threads of a group. */
module GroupInterleaving {
  import opened Sums
  import opened LockQueue
  import opened GroupThreads
  import opened GroupConservation
  import opened GroupWakeups

  predicate Mannered(s: State) {
    forall t :: 0 <= t < |s.threads| && s.threads[t].Unpend? ==> s.threads[t].wasLocked
  }

  lemma {:induction false} NextIsValid(s: State, step: Step)
    requires Valid(s) && Enabled(s, step)
    ensures Valid(Next(s, step))
  {
    match step {
      case Begins(t, op) => BeginIsValid(s, t, op);
      case Advances(t, spurious) => AdvanceIsValid(s, t, spurious);
    }
  }

  lemma {:induction false} NextConserves(s: State, step: Step)
    requires Valid(s) && Conserved(s) && Enabled(s, step)
    ensures Conserved(Next(s, step)) && Next(s, step).concurrency == s.concurrency
  {
    match step {
      case Begins(t, op) => BeginConserves(s, t, op);
      case Advances(t, spurious) => AdvanceConserves(s, t, spurious);
    }
  }

  lemma {:induction false} NextIsMannered(s: State, step: Step)
    requires Valid(s) && Mannered(s) && Enabled(s, step) && Polite(s, step)
    ensures Mannered(Next(s, step))
  {
  }

  lemma {:induction false} NextIsWatched(s: State, step: Step)
    requires Valid(s) && Conserved(s) && Watched(s) && Mannered(s) && Enabled(s, step) && Polite(s, step)
    requires s.concurrency >= 1
    ensures Watched(Next(s, step))
  {
    match step {
      case Begins(t, op) => BeginIsWatched(s, t, op);
      case Advances(t, spurious) => AdvanceIsWatched(s, t, spurious);
    }
  }

  /** `steps`, in this order, lead from `s` to `end`. */
  ghost predicate Leads(s: State, steps: seq<Step>, end: State)
    requires Valid(s)
    decreases |steps|
  {
    if steps == [] then end == s
    else
      && Enabled(s, steps[0])
      && (NextIsValid(s, steps[0]); Leads(Next(s, steps[0]), steps[1..], end))
  }

  /** As `Leads`, and slow locks are only destroyed after they have been locked. */
  ghost predicate LeadsPolitely(s: State, steps: seq<Step>, end: State)
    requires Valid(s)
    decreases |steps|
  {
    if steps == [] then end == s
    else
      && Enabled(s, steps[0]) && Polite(s, steps[0])
      && (NextIsValid(s, steps[0]); LeadsPolitely(Next(s, steps[0]), steps[1..], end))
  }

  lemma InitHolds(concurrency: int, threads: nat)
    ensures Conserved(Init(concurrency, threads))
    ensures Watched(Init(concurrency, threads)) && Mannered(Init(concurrency, threads))
  {
    var s := Init(concurrency, threads);
    ZeroSum(s.threads, ThreadWeight);
    ZeroSum(s.threads, PendingWeight);
  }

  lemma {:induction false} RunConserves(s: State, steps: seq<Step>, end: State)
    requires Valid(s) && Conserved(s) && Leads(s, steps, end)
    ensures Valid(end) && Conserved(end) && end.concurrency == s.concurrency
    decreases |steps|
  {
    if steps != [] {
      NextIsValid(s, steps[0]);
      NextConserves(s, steps[0]);
      RunConserves(Next(s, steps[0]), steps[1..], end);
    }
  }

  lemma {:induction false} PoliteRunIsWatched(s: State, steps: seq<Step>, end: State)
    requires Valid(s) && Conserved(s) && Watched(s) && Mannered(s) && s.concurrency >= 1
    requires LeadsPolitely(s, steps, end)
    ensures Valid(end) && Conserved(end) && Watched(end) && end.concurrency == s.concurrency
    decreases |steps|
  {
    if steps != [] {
      NextIsValid(s, steps[0]);
      NextConserves(s, steps[0]);
      NextIsWatched(s, steps[0]);
      NextIsMannered(s, steps[0]);
      PoliteRunIsWatched(Next(s, steps[0]), steps[1..], end);
    }
  }

  /** Nothing is live, in flight, or counted. */
  predicate Quiescent(s: State) {
    && s.running == 0
    && (forall t :: 0 <= t < |s.threads| ==> s.threads[t] == Idle)
    && (forall i :: 0 <= i < |s.queue| ==> !s.queue[i].locked)
  }

  /**
   * Conservation: in every state of every interleaving the tokens, the live locks, the counted waiters and the
   * decrements in flight add up to the concurrency. Without live locks and operations in flight, only counted
   * waiters can be missing from the counter.
   */
  lemma {:induction false} TokensAreConserved(concurrency: int, threads: nat, steps: seq<Step>, s: State)
    requires Leads(Init(concurrency, threads), steps, s)
    ensures s.tokens + s.running + Sum(s.queue, LockWeight) + Sum(s.waiters, WaiterWeight)
            + Sum(s.threads, ThreadWeight) == concurrency
    ensures forall w :: 0 <= w < |s.waiters| ==> s.waiters[w].wins <= 1
    ensures forall w :: 0 <= w < |s.waiters| && s.waiters[w].place.Dispatched? ==> s.waiters[w].wins == 1
    ensures Quiescent(s) && (forall w :: 0 <= w < |s.waiters| ==> s.waiters[w].place.Dispatched?) ==>
              s.tokens == concurrency
  {
    InitHolds(concurrency, threads);
    RunConserves(Init(concurrency, threads), steps, s);
    forall w | 0 <= w < |s.waiters| ensures s.waiters[w].wins == (if s.waiters[w].slot then 1 else 0)
      ensures s.waiters[w].place.Dispatched? ==> s.waiters[w].slot
    {
      assert WaiterOk(s, w);
    }
    if Quiescent(s) && (forall w :: 0 <= w < |s.waiters| ==> s.waiters[w].place.Dispatched?) {
      ZeroSum(s.queue, LockWeight);
      ZeroSum(s.threads, ThreadWeight);
      ZeroSum(s.waiters, WaiterWeight);
    }
  }

  /**
   * No lost wakeup: in every interleaving in which slow locks are only destroyed after having been locked, a parked
   * waiter is either still being reconciled by its own thread, or something live or in flight will hand out a waiter.
   * Once everything is released and no operation is in flight, every waiter has run and all tokens are back.
   */
  lemma {:induction false} NoWaiterIsStranded(concurrency: int, threads: nat, steps: seq<Step>, s: State)
    requires concurrency >= 1
    requires LeadsPolitely(Init(concurrency, threads), steps, s)
    ensures (exists w :: Asleep(s, w)) ==> SomeAgent(s)
    ensures Quiescent(s) && s.queue == [] ==>
              && (forall w :: 0 <= w < |s.waiters| ==> s.waiters[w].place.Dispatched?)
              && (forall b :: 0 <= b < |s.buckets| ==> s.buckets[b] == [])
              && s.tokens == concurrency
  {
    InitHolds(concurrency, threads);
    PoliteRunIsWatched(Init(concurrency, threads), steps, s);
    if Quiescent(s) && s.queue == [] {
      ZeroSum(s.threads, PendingWeight);
      assert !SomeAgent(s);
      forall b | 0 <= b < |s.buckets| && s.buckets[b] != []
        ensures s.buckets[b][0] < |s.waiters| && s.waiters[s.buckets[b][0]].place.Parked?
      {
        assert BucketOk(s, b);
      }
      forall w | 0 <= w < |s.waiters| ensures s.waiters[w].place.Dispatched? {
        assert WaiterOk(s, w);
        assert !Asleep(s, w);
      }
      ZeroSum(s.threads, ThreadWeight);
      ZeroSum(s.waiters, WaiterWeight);
    }
  }

  /** In every interleaving the fast path takes a token only while one is free, and one token only. */
  lemma {:induction false} FastPathTakesFreeTokens(
    concurrency: int, threads: nat, steps: seq<Step>, s: State, t: nat, spurious: bool)
    requires Leads(Init(concurrency, threads), steps, s) && t < |s.threads| && s.threads[t].Cas?
    ensures Valid(s)
    ensures var s' := Advance(s, t, spurious);
            s'.tokens == s.tokens || (s.tokens > 0 && s'.tokens == s.tokens - 1 && s'.threads[t].Recheck?)
    ensures Advance(s, t, spurious).threads[t].Recheck? ==> s.tokens > 0
  {
    InitHolds(concurrency, threads);
    RunConserves(Init(concurrency, threads), steps, s);
  }

  /**
   * In every interleaving the fast path starts a task only while no task waits for several groups: no handle is
   * queued, and none is about to be.
   */
  lemma {:induction false} FastPathNeverOvertakes(
    concurrency: int, threads: nat, steps: seq<Step>, s: State, t: nat, spurious: bool)
    requires Leads(Init(concurrency, threads), steps, s) && t < |s.threads| && s.threads[t].Recheck?
    ensures Valid(s)
    ensures Advance(s, t, spurious).running > s.running ==>
              s.queue == [] && forall u :: 0 <= u < |s.threads| ==> !s.threads[u].Insert?
  {
    InitHolds(concurrency, threads);
    RunConserves(Init(concurrency, threads), steps, s);
    NonNegativeSum(s.threads, PendingWeight);
    if s.slowPending <= 0 {
      forall u | 0 <= u < |s.threads| ensures !s.threads[u].Insert? {
        TermBelowSum(s.threads, PendingWeight, u);
      }
    }
  }

  /** A waiter is at one position of one bucket, or in the hands of one thread, or it has been dispatched. */
  lemma {:induction false} WaiterIsInOnePlace(concurrency: int, threads: nat, steps: seq<Step>, s: State, w: nat)
    requires Leads(Init(concurrency, threads), steps, s) && w < |s.waiters|
    ensures forall b, i, c, j | 0 <= b < |s.buckets| && 0 <= i < |s.buckets[b]| && 0 <= c < |s.buckets|
              && 0 <= j < |s.buckets[c]| && s.buckets[b][i] == w && s.buckets[c][j] == w :: b == c && i == j
    ensures forall t, u | 0 <= t < |s.threads| && 0 <= u < |s.threads| && HoldsEntry(s.threads[t], w)
              && HoldsEntry(s.threads[u], w) :: t == u
    ensures (exists b :: 0 <= b < |s.buckets| && w in s.buckets[b]) <==> s.waiters[w].place.Parked?
    ensures (exists t :: 0 <= t < |s.threads| && HoldsEntry(s.threads[t], w)) <==> s.waiters[w].place.InHand?
  {
    InitHolds(concurrency, threads);
    RunConserves(Init(concurrency, threads), steps, s);
    assert WaiterOk(s, w);
    forall b | 0 <= b < |s.buckets|
      ensures w in s.buckets[b] ==> s.waiters[w].place.Parked? && s.waiters[w].bucket == b
      ensures forall i, j | 0 <= i < |s.buckets[b]| && 0 <= j < |s.buckets[b]|
                && s.buckets[b][i] == w && s.buckets[b][j] == w :: i == j
    {
      assert BucketOk(s, b);
    }
    forall t | 0 <= t < |s.threads| && HoldsEntry(s.threads[t], w) ensures s.waiters[w].place == InHand(t) {
      assert ThreadOk(s, t);
    }
  }
}
