/** Whoever sleeps in a bucket is watched: something live or in flight will hand a waiter out. */
module GroupWakeups {
  import opened Sums
  import opened LockQueue
  import opened GroupThreads
  import opened GroupConservation

  /** A waiter that nobody will hand out unless some other thread releases a token. */
  ghost predicate Asleep(s: State, w: nat) {
    && w < |s.waiters|
    && s.waiters[w].place.Parked?
    && s.waiters[w].owner < |s.threads|
    && s.threads[s.waiters[w].owner] != Reserve(w)
  }

  /** A thread that will hand out a waiter or leave a live lock behind. */
  ghost predicate Active(s: State, t: nat) {
    && t < |s.threads|
    && var th := s.threads[t];
       || th.Recheck? || th.Release? || th.Released? || th.Exchange? || th.Dispatch? || th.Handback?
       || (th.Unpend? && th.wasLocked)
       || ((th.Reserved? || th.Claim?)
           && (th.prev > 0 || (th.waiter < |s.waiters| && !s.waiters[th.waiter].place.Parked?)))
  }

  /** A draining thread that has not yet passed a bucket that is not empty. */
  ghost predicate WillFind(s: State, t: nat, b: nat) {
    && t < |s.threads|
    && s.threads[t].Scan?
    && s.threads[t].bucket <= b < |s.buckets|
    && s.buckets[b] != []
  }

  ghost predicate LockedHandle(s: State, i: nat) {
    i < |s.queue| && s.queue[i].locked
  }

  ghost predicate SomeAgent(s: State) {
    || s.running > 0
    || s.slowPending > 0
    || (exists i :: LockedHandle(s, i))
    || (exists t :: Active(s, t))
    || (exists t, b :: WillFind(s, t, b))
  }

  /** Whenever a waiter sleeps there is something that will wake a waiter. */
  ghost predicate Watched(s: State) {
    (exists w :: Asleep(s, w)) ==> SomeAgent(s)
  }

  /** When no token is free, the missing tokens are held by an agent or counted for a sleeping waiter. */
  lemma {:induction false} NoTokenMeansAgentOrSleeper(s: State)
    requires Valid(s) && Conserved(s) && s.tokens <= 0 && s.concurrency >= 1
    ensures SomeAgent(s) || exists w :: Asleep(s, w)
  {
    if Sum(s.queue, LockWeight) > 0 {
      var i := PositiveTerm(s.queue, LockWeight);
      assert LockedHandle(s, i);
    } else if Sum(s.waiters, WaiterWeight) > 0 {
      var w := PositiveTerm(s.waiters, WaiterWeight);
      assert WaiterOk(s, w);
      if s.waiters[w].place.InHand? {
        assert Active(s, s.waiters[w].place.holder);
      } else {
        CountedSleeps(s, w);
      }
    } else if s.running <= 0 {
      var t := PositiveTerm(s.threads, ThreadWeight);
      assert ThreadOk(s, t);
      if !Active(s, t) {
        assert Asleep(s, s.threads[t].waiter);
      }
    }
  }

  lemma {:induction false} CountedSleeps(s: State, w: nat)
    requires Valid(s) && w < |s.waiters| && s.waiters[w].slot && s.waiters[w].place.Parked?
    requires s.waiters[w].owner < |s.threads|
    ensures Asleep(s, w)
  {
    assert ThreadOk(s, s.waiters[w].owner);
  }

  /** An agent other than the moving thread remains one, as long as the step only adds locks, handles and waiters. */
  lemma {:induction false} AgentPersists(s: State, s': State, t: nat)
    requires SomeAgent(s) && |s.threads| == |s'.threads| && |s.buckets| == |s'.buckets|
    requires s'.running >= s.running && s'.slowPending >= s.slowPending
    requires forall u :: 0 <= u < |s.threads| && u != t ==> s'.threads[u] == s.threads[u]
    requires |s.waiters| <= |s'.waiters|
    requires forall w :: 0 <= w < |s.waiters| && s'.waiters[w].place.Parked? ==> s.waiters[w].place.Parked?
    requires forall b :: 0 <= b < |s.buckets| && s.buckets[b] != [] ==> s'.buckets[b] != []
    requires forall i :: LockedHandle(s, i) ==> LockedHandle(s', i)
    requires !Active(s, t)
    requires forall b :: WillFind(s, t, b) ==> WillFind(s', t, b)
    ensures SomeAgent(s')
  {
    if s.running > 0 || s.slowPending > 0 {
    } else if i :| LockedHandle(s, i) {
      assert LockedHandle(s', i);
    } else if u :| Active(s, u) {
      assert Active(s', u);
    } else {
      var u, b :| WillFind(s, u, b);
      assert WillFind(s', u, b);
    }
  }

  /** A drain that starts while something is parked will find it. */
  lemma {:induction false} FreshScanFinds(s: State, t: nat, w: nat)
    requires Valid(s) && Asleep(s, w) && t < |s.threads|
    requires s.threads[t].Scan? && s.threads[t].bucket == 0
    ensures SomeAgent(s)
  {
    assert WaiterOk(s, w);
    assert WillFind(s, t, s.waiters[w].bucket);
  }

  lemma {:induction false} AdvanceIsWatched(s: State, t: nat, spurious: bool)
    requires Valid(s) && Conserved(s) && Watched(s) && t < |s.threads| && s.threads[t] != Idle && s.concurrency >= 1
    requires s.threads[t].Unpend? ==> s.threads[t].wasLocked
    ensures Watched(Advance(s, t, spurious))
  {
    var s' := Advance(s, t, spurious);
    AdvanceIsValid(s, t, spurious);
    if w :| Asleep(s', w) {
      var th := s.threads[t];
      assert ThreadOk(s, t);
      if s'.threads[t].Scan? && s'.threads[t].bucket == 0 {
        FreshScanFinds(s', t, w);
      } else if Active(s', t) {
      } else if th.Reserve? {
        ReserveIsWatched(s, t, w);
      } else if th.Scan? {
        ScanIsWatched(s, t, spurious, w);
      } else if Plain(th) {
        PlainIsWatched(s, t, spurious, w);
      } else {
        OtherIsWatched(s, t, spurious, w);
      }
    }
  }

  lemma {:induction false} ReserveIsWatched(s: State, t: nat, w: nat)
    requires Valid(s) && Conserved(s) && Watched(s) && t < |s.threads| && s.threads[t].Reserve? && s.concurrency >= 1
    requires !Active(Advance(s, t, false), t) && Asleep(Advance(s, t, false), w)
    ensures SomeAgent(Advance(s, t, false))
  {
    assert ThreadOk(s, t);
    NoTokenMeansAgentOrSleeper(s);
    AgentPersists(s, Advance(s, t, false), t);
  }

  lemma {:induction false} ScanIsWatched(s: State, t: nat, spurious: bool, w: nat)
    requires Valid(s) && Watched(s) && t < |s.threads| && s.threads[t].Scan?
    requires !Active(Advance(s, t, spurious), t) && Asleep(Advance(s, t, spurious), w)
    ensures SomeAgent(Advance(s, t, spurious))
  {
    assert Asleep(s, w);
    AgentPersists(s, Advance(s, t, spurious), t);
  }

  lemma {:induction false} SlowPendingIsNatural(s: State)
    requires Conserved(s)
    ensures s.slowPending >= |s.queue| >= 0
  {
    NonNegativeSum(s.threads, PendingWeight);
  }

  lemma {:induction false} PlainIsWatched(s: State, t: nat, spurious: bool, w: nat)
    requires Valid(s) && Conserved(s) && Watched(s) && t < |s.threads|
    requires Plain(s.threads[t]) && !s.threads[t].Reserve?
    requires s.threads[t].Unpend? ==> s.threads[t].wasLocked
    requires !Active(Advance(s, t, spurious), t) && Asleep(Advance(s, t, spurious), w)
    requires !(Advance(s, t, spurious).threads[t].Scan? && Advance(s, t, spurious).threads[t].bucket == 0)
    ensures SomeAgent(Advance(s, t, spurious))
  {
    var s' := Advance(s, t, spurious);
    PlainStep(s, t, spurious);
    SlowPendingIsNatural(s);
    if s'.running > 0 || s'.slowPending > 0 {
    } else {
      assert Asleep(s, w);
      assert !Active(s, t);
      AgentPersists(s, s', t);
    }
  }

  lemma {:induction false} OtherIsWatched(s: State, t: nat, spurious: bool, w: nat)
    requires Valid(s) && Conserved(s) && Watched(s) && t < |s.threads|
    requires s.threads[t].NotifySlow? || s.threads[t].Insert? || s.threads[t].Exchange? || s.threads[t].Dispatch?
          || s.threads[t].Claim? || s.threads[t].Publish?
    requires !Active(Advance(s, t, spurious), t) && Asleep(Advance(s, t, spurious), w)
    requires !(Advance(s, t, spurious).threads[t].Scan? && Advance(s, t, spurious).threads[t].bucket == 0)
    ensures SomeAgent(Advance(s, t, spurious))
  {
    var s' := Advance(s, t, spurious);
    var th := s.threads[t];
    if th.Dispatch? {
      assert s'.running > 0;
    } else if th.Insert? {
      AdvanceConserves(s, t, spurious);
      SlowPendingIsNatural(s');
    } else if th.Claim? {
      ClaimIsWatched(s, t, spurious, w);
    } else if th.Publish? {
      assert Asleep(s, w);
      AgentPersists(s, s', t);
    } else if th.NotifySlow? {
      assert Asleep(s, w);
      AgentPersists(s, s', t);
    }
  }

  lemma {:induction false} ClaimIsWatched(s: State, t: nat, spurious: bool, w: nat)
    requires Valid(s) && Watched(s) && t < |s.threads| && s.threads[t].Claim?
    requires !Active(Advance(s, t, spurious), t) && Asleep(Advance(s, t, spurious), w)
    requires !Advance(s, t, spurious).threads[t].Scan?
    ensures SomeAgent(Advance(s, t, spurious))
  {
    var s' := Advance(s, t, spurious);
    var v := s.threads[t].waiter;
    assert ThreadOk(s, t) && WaiterOk(s, v);
    if s.waiters[v].place.InHand? {
      assert Active(s', s.waiters[v].place.holder);
    } else {
      assert Asleep(s, w);
      AgentPersists(s, s', t);
    }
  }

  lemma {:induction false} BeginIsWatched(s: State, t: nat, op: Op)
    requires Valid(s) && Conserved(s) && Watched(s) && t < |s.threads| && s.threads[t] == Idle && CanBegin(s, op)
    requires Polite(s, Begins(t, op))
    ensures Watched(Begin(s, t, op))
  {
    var s' := Begin(s, t, op);
    if w :| Asleep(s', w) {
      SlowPendingIsNatural(s);
      if Active(s', t) || s'.slowPending > 0 {
      } else {
        assert Asleep(s, w);
        AgentPersists(s, s', t);
      }
    }
  }
}
