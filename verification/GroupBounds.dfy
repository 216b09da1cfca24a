/**
 * How many locks of a group are live. Operations that are not disturbed keep to the concurrency, as a group that one
 * thread uses does; two threads are enough to exceed it by any number, and for good.
 */
module GroupBounds {
  import opened Sums
  import opened LockQueue
  import opened GroupThreads
  import opened GroupConservation
  import opened GroupWakeups
  import opened GroupInterleaving
  import opened GroupRefinement
  import G = GroupTokens
  import P = GroupPromises
  import Priority

  // ----- Undisturbed runs -----

  /** The step is taken while all other threads are outside the group's operations. */
  predicate Undisturbed(s: State, step: Step) {
    OthersIdle(s, step.thread)
  }

  predicate OthersIdle(s: State, t: nat) {
    forall u :: 0 <= u < |s.threads| && u != t ==> s.threads[u] == Idle
  }

  /** As `Leads`, and every step is undisturbed. */
  ghost predicate LeadsAlone(s: State, steps: seq<Step>, end: State)
    requires Valid(s)
    decreases |steps|
  {
    if steps == [] then end == s
    else
      && Enabled(s, steps[0]) && Undisturbed(s, steps[0])
      && (NextIsValid(s, steps[0]); LeadsAlone(Next(s, steps[0]), steps[1..], end))
  }

  /** Once the operation of `t` is over, the group will be as `g`. */
  predicate Tracks(s: State, t: nat, g: G.GroupState) {
    Known(s) && t < |s.threads| && OthersIdle(s, t) && Alone(s, t) && Finish(s, t) == g
  }

  lemma {:induction false} AdvanceTracks(s: State, t: nat, spurious: bool, u: nat, g: G.GroupState)
    requires Valid(s) && Tracks(s, t, g) && u < |s.threads| && s.threads[u] != Idle
    ensures Tracks(Advance(s, u, spurious), u, g)
  {
    assert u == t;
    AdvanceFollows(s, t, spurious);
    OthersStayIdle(s, t, spurious);
  }

  lemma {:induction false} OthersStayIdle(s: State, t: nat, spurious: bool)
    requires Valid(s) && t < |s.threads| && OthersIdle(s, t)
    ensures OthersIdle(Advance(s, t, spurious), t)
  {
  }

  lemma {:induction false} BeginTracks(s: State, t: nat, g: G.GroupState, u: nat, op: Op)
    requires Valid(s) && Conserved(s) && Tracks(s, t, g) && Enabled(s, Begins(u, op)) && OthersIdle(s, u)
    ensures G.CanApply(g, Whole(op)) && |g.buckets| == Priority.BUCKETS
    ensures Tracks(Begin(s, u, op), u, G.Apply(g, Whole(op)))
  {
    SlowPendingIsNatural(s);
    assert s.threads[t] == Idle && g == Seen(s);
    BeginFollows(s, u, op);
  }

  /** The whole operations that the steps begin, in order. */
  function Begun(steps: seq<Step>): seq<G.Op> {
    if steps == [] then [] else Begun1(steps[0]) + Begun(steps[1..])
  }

  function Begun1(step: Step): seq<G.Op> {
    if step.Begins? then [Whole(step.op)] else []
  }

  /** The operations lead to a state in which the group will be once the operation under way is over. */
  ghost predicate Shadows(concurrency: int, ops: seq<G.Op>, s: State) {
    exists ss, t :: P.Path(concurrency, ss, ops) && Tracks(s, t, ss[|ops|])
  }

  lemma {:induction false} PathGrows(concurrency: int, ss: seq<G.GroupState>, ops: seq<G.Op>, op: G.Op)
    requires P.Path(concurrency, ss, ops) && |ss[|ops|].buckets| == Priority.BUCKETS && G.CanApply(ss[|ops|], op)
    ensures P.Path(concurrency, ss + [G.Apply(ss[|ops|], op)], ops + [op])
  {
  }

  lemma {:induction false} BeginShadows(concurrency: int, ops: seq<G.Op>, s: State, u: nat, op: Op)
    requires Valid(s) && Conserved(s) && Shadows(concurrency, ops, s)
    requires Enabled(s, Begins(u, op)) && OthersIdle(s, u)
    ensures Shadows(concurrency, ops + [Whole(op)], Begin(s, u, op))
  {
    var ss, t :| P.Path(concurrency, ss, ops) && Tracks(s, t, ss[|ops|]);
    var g := ss[|ops|];
    BeginTracks(s, t, g, u, op);
    PathGrows(concurrency, ss, ops, Whole(op));
    var more := ss + [G.Apply(g, Whole(op))];
    assert Tracks(Begin(s, u, op), u, more[|ops + [Whole(op)]|]);
  }

  lemma {:induction false} AdvanceShadows(concurrency: int, ops: seq<G.Op>, s: State, u: nat, spurious: bool)
    requires Valid(s) && Shadows(concurrency, ops, s) && Enabled(s, Advances(u, spurious))
    ensures Shadows(concurrency, ops, Advance(s, u, spurious))
  {
    var ss, t :| P.Path(concurrency, ss, ops) && Tracks(s, t, ss[|ops|]);
    AdvanceTracks(s, t, spurious, u, ss[|ops|]);
  }

  lemma {:induction false} StepShadows(concurrency: int, ops: seq<G.Op>, s: State, step: Step)
    requires Valid(s) && Conserved(s) && Shadows(concurrency, ops, s) && Enabled(s, step) && Undisturbed(s, step)
    ensures Shadows(concurrency, ops + Begun1(step), Next(s, step))
  {
    match step
    case Begins(u, op) => BeginShadows(concurrency, ops, s, u, op);
    case Advances(u, spurious) =>
      AdvanceShadows(concurrency, ops, s, u, spurious);
      assert ops + Begun1(step) == ops;
  }

  lemma {:induction false} FirstShadows(concurrency: int, ops: seq<G.Op>, s: State, steps: seq<Step>, end: State)
    returns (next: State)
    requires Valid(s) && Conserved(s) && steps != [] && LeadsAlone(s, steps, end) && Shadows(concurrency, ops, s)
    ensures Valid(next) && Conserved(next) && LeadsAlone(next, steps[1..], end)
    ensures Shadows(concurrency, ops + Begun1(steps[0]), next)
  {
    NextIsValid(s, steps[0]);
    next := Next(s, steps[0]);
    NextConserves(s, steps[0]);
    StepShadows(concurrency, ops, s, steps[0]);
  }

  lemma {:induction false} BegunFirst(ops: seq<G.Op>, steps: seq<Step>)
    ensures ops + Begun([]) == ops
    ensures steps != [] ==> ops + Begun(steps) == (ops + Begun1(steps[0])) + Begun(steps[1..])
  {
  }

  lemma {:induction false} RunShadows(
    concurrency: int, ops: seq<G.Op>, s: State, steps: seq<Step>, end: State, all: seq<G.Op>)
    requires Valid(s) && Conserved(s) && LeadsAlone(s, steps, end) && Shadows(concurrency, ops, s)
    requires all == ops + Begun(steps)
    ensures Shadows(concurrency, all, end)
    decreases |steps|
  {
    BegunFirst(ops, steps);
    if steps != [] {
      var next := FirstShadows(concurrency, ops, s, steps, end);
      RunShadows(concurrency, ops + Begun1(steps[0]), next, steps[1..], end, all);
    }
  }

  lemma {:induction false} InitShadows(concurrency: int, threads: nat)
    requires threads > 0
    ensures Shadows(concurrency, [], Init(concurrency, threads))
  {
    var z := Init(concurrency, threads);
    assert Seen(z).buckets == G.Init(concurrency).buckets;
    assert P.Path(concurrency, [G.Init(concurrency)], []) && Tracks(z, 0, [G.Init(concurrency)][0]);
  }

  /**
   * A run whose operations do not disturb one another is a run of whole operations, in the order in which they were
   * begun; between two operations the group is exactly as after those begun so far.
   */
  lemma {:induction false} UndisturbedRunIsWhole(concurrency: int, threads: nat, steps: seq<Step>, s: State)
    returns (t: nat, ss: seq<G.GroupState>)
    requires LeadsAlone(Init(concurrency, threads), steps, s) && threads > 0
    ensures P.Path(concurrency, ss, Begun(steps)) && Tracks(s, t, ss[|Begun(steps)|])
    ensures Known(s) && (OthersIdle(s, |s.threads|) ==> Seen(s) == ss[|Begun(steps)|])
  {
    InitHolds(concurrency, threads);
    InitShadows(concurrency, threads);
    assert [] + Begun(steps) == Begun(steps);
    RunShadows(concurrency, [], Init(concurrency, threads), steps, s, Begun(steps));
    ss, t :| P.Path(concurrency, ss, Begun(steps)) && Tracks(s, t, ss[|Begun(steps)|]);
  }

  // ----- The rest of an operation only adds locks -----

  lemma {:induction false} ReleaseAdds(g: G.GroupState)
    ensures G.ReleaseToken(g).running >= g.running && G.Locked(G.ReleaseToken(g)) == G.Locked(g)
  {
    NotifyKeepsLocks(g.queue, g.tokens + 1);
  }

  lemma {:induction false} ResumedAdds(g: G.GroupState, next: After)
    requires |g.buckets| == Priority.BUCKETS
    ensures Resumed(g, next).running >= g.running && G.Locked(Resumed(g, next)) == G.Locked(g)
  {
    if next.Park? {
      var parked := G.ParkPublish(g, next.task, next.priority);
      ReleaseAdds(parked.(tokens := g.tokens - 1));
    }
  }

  lemma {:induction false} FinishAdds(s: State, t: nat)
    requires Known(s) && t < |s.threads| && Alone(s, t)
    ensures Live(s) <= Finish(s, t).running + G.Locked(Finish(s, t))
  {
    var g := Seen(s);
    var th := s.threads[t];
    ReleaseAdds(g);
    NotifyKeepsLocks(g.queue, g.tokens);
    if th.Insert? {
      InsertAdds(g.queue, th.handle, g.tokens);
    } else if th.Reserve? {
      ReleaseAdds(g.(tokens := g.tokens - 1));
    } else if th.Publish? {
      ResumedAdds(g, Park(th.task, th.priority));
    } else if th.LoadSlow? || th.LoadTokens? || th.Cas? {
      ResumedAdds(g, th.next);
    } else if th.Release? {
      ResumedAdds(G.ReleaseToken(g), th.next);
    } else if th.Released? || th.NotifySlow? {
      ResumedAdds(g.(queue := Notified(g.queue, g.tokens)), th.next);
      ResumedAdds(G.HandOut(g), th.next);
    } else if th.Scan? {
      ResumedAdds(G.HandOut(g), th.next);
    } else if th.Exchange? {
      ResumedAdds(Started(g, s.waiters[th.waiter].task, !s.waiters[th.waiter].slot), th.next);
    } else if th.Dispatch? {
      ResumedAdds(Started(g, s.waiters[th.waiter].task, th.uncounted), th.next);
    } else if th.Owe? {
      ResumedAdds(g.(tokens := g.tokens - 1), th.next);
    }
  }

  lemma {:induction false} InsertAdds(q: seq<LockHandle>, h: LockHandle, tokens: int)
    ensures Sum(Unnotified(Inserted(q, h), tokens), LockWeight) >= Sum(q, LockWeight)
  {
    NotifyKeepsLocks(Inserted(q, h), tokens);
    SumInsert(q, InsertionPoint(q, h), h, LockWeight);
  }

  /** Undisturbed operations keep to the concurrency, also while they are under way. */
  lemma {:induction false} UndisturbedBound(concurrency: nat, threads: nat, steps: seq<Step>, s: State)
    requires LeadsAlone(Init(concurrency, threads), steps, s) && threads > 0
    ensures Live(s) <= concurrency
  {
    var t, ss := UndisturbedRunIsWhole(concurrency, threads, steps, s);
    P.PathKeepsInv(concurrency, ss, Begun(steps), |Begun(steps)|);
    FinishAdds(s, t);
  }

  /** All steps of a single thread are undisturbed. */
  lemma {:induction false} OneThreadIsAlone(s: State, steps: seq<Step>, end: State)
    requires Valid(s) && |s.threads| <= 1 && Leads(s, steps, end)
    ensures LeadsAlone(s, steps, end)
    decreases |steps|
  {
    if steps != [] {
      NextIsValid(s, steps[0]);
      OneThreadIsAlone(Next(s, steps[0]), steps[1..], end);
    }
  }

  // ----- Two threads exceed the concurrency -----

  ghost predicate Reaches(z: State, s: State) {
    Valid(z) && Valid(s) && exists steps :: Leads(z, steps, s)
  }

  lemma {:induction false} OneMore(s: State, steps: seq<Step>, mid: State, step: Step, end: State)
    returns (steps': seq<Step>)
    requires Valid(s) && Leads(s, steps, mid) && Valid(mid) && Enabled(mid, step)
    requires Valid(end) && end == Next(mid, step)
    ensures Leads(s, steps', end)
    decreases |steps|
  {
    if steps == [] {
      steps' := [step];
      assert Leads(end, steps'[1..], end);
    } else {
      NextIsValid(s, steps[0]);
      var more := OneMore(Next(s, steps[0]), steps[1..], mid, step, end);
      steps' := [steps[0]] + more;
      assert steps'[1..] == more;
    }
  }

  lemma {:induction false} Reach(z: State, s: State, step: Step, end: State)
    requires Reaches(z, s) && Enabled(s, step) && end == Next(s, step)
    ensures Reaches(z, end)
  {
    var steps :| Leads(z, steps, s);
    NextIsValid(s, step);
    var steps' := OneMore(z, steps, s, step, end);
  }

  /** An undisturbed `try_acquire_running_lock` takes a free token. */
  lemma {:induction false} Acquires(z: State, s: State, t: nat) returns (s': State)
    requires Reaches(z, s)
    requires t < |s.threads| && s.threads[t] == Idle && s.tokens > 0 && s.slowPending == 0
    ensures Reaches(z, s') && s' == s.(tokens := s.tokens - 1, running := s.running + 1)
  {
    var s1 := s.(threads := s.threads[t := LoadSlow(Return)]);
    Reach(z, s, Begins(t, TryAcquire), s1);
    var s2 := s.(threads := s.threads[t := LoadTokens(Return)]);
    Reach(z, s1, Advances(t, false), s2);
    var s3 := s.(threads := s.threads[t := Cas(Return, s.tokens)]);
    Reach(z, s2, Advances(t, false), s3);
    var s4 := s.(tokens := s.tokens - 1, threads := s.threads[t := Recheck(Return)]);
    Reach(z, s3, Advances(t, false), s4);
    s' := s.(tokens := s.tokens - 1, running := s.running + 1);
    assert s.threads[t := Idle] == s.threads;
    Reach(z, s4, Advances(t, false), s');
  }

  /** An undisturbed `try_submit` without a free token publishes its task. */
  lemma {:induction false} Publishes(z: State, s: State, t: nat, task: nat, priority: int) returns (s': State)
    requires Reaches(z, s)
    requires t < |s.threads| && s.threads[t] == Idle && s.tokens <= 0 && s.slowPending == 0
    ensures Reaches(z, s')
    ensures var b := Priority.Index(priority);
            s' == s.(waiters := s.waiters + [Waiter(task, priority, b, t, false, 0, Parked)],
                     buckets := s.buckets[b := s.buckets[b] + [|s.waiters|]],
                     threads := s.threads[t := Reserve(|s.waiters|)])
  {
    var s1 := s.(threads := s.threads[t := LoadSlow(Park(task, priority))]);
    Reach(z, s, Begins(t, TrySubmit(task, priority)), s1);
    var s2 := s.(threads := s.threads[t := LoadTokens(Park(task, priority))]);
    Reach(z, s1, Advances(t, false), s2);
    var s3 := s.(threads := s.threads[t := Cas(Park(task, priority), s.tokens)]);
    Reach(z, s2, Advances(t, false), s3);
    var s4 := s.(threads := s.threads[t := Publish(task, priority)]);
    Reach(z, s3, Advances(t, false), s4);
    s' := Next(s4, Advances(t, false));
    Reach(z, s4, Advances(t, false), s');
    assert s'.threads == s.threads[t := Reserve(|s.waiters|)];
  }

  /** Destroying a RunningLock starts a drain when no slow handle is pending. */
  lemma {:induction false} StartsDrain(z: State, s: State, t: nat) returns (s': State)
    requires Reaches(z, s)
    requires t < |s.threads| && s.threads[t] == Idle && s.tokens >= 0 && s.slowPending == 0 && s.running > 0
    ensures Reaches(z, s')
    ensures s' == s.(tokens := s.tokens + 1, running := s.running - 1, threads := s.threads[t := Scan(0, Return)])
  {
    var s1 := s.(running := s.running - 1, threads := s.threads[t := Release(Return)]);
    Reach(z, s, Begins(t, DropRunning), s1);
    var s2 := s1.(tokens := s.tokens + 1, threads := s.threads[t := Released(Return)]);
    Reach(z, s1, Advances(t, false), s2);
    s' := s2.(threads := s.threads[t := Scan(0, Return)]);
    Reach(z, s2, Advances(t, false), s');
  }

  /** A drain dispatches the first waiter of bucket 0; the decrement for an uncounted one is still owed. */
  lemma {:induction false} Dispatches(z: State, s: State, t: nat, w: nat) returns (s': State)
    requires Reaches(z, s) && t < |s.threads| && s.threads[t] == Scan(0, Return)
    requires s.buckets[0] != [] && s.buckets[0][0] == w < |s.waiters|
    ensures Reaches(z, s') && |s'.waiters| == |s.waiters| && s'.waiters[w].slot
    ensures forall v :: 0 <= v < |s.waiters| && v != w ==> s'.waiters[v] == s.waiters[v]
    ensures s'.buckets == s.buckets[0 := s.buckets[0][1..]]
    ensures s'.threads == s.threads[t := if s.waiters[w].slot then Idle else Owe(Return)]
    ensures s'.running == s.running + 1 && s'.tokens == s.tokens
    ensures s'.concurrency == s.concurrency && s'.queue == s.queue && s'.slowPending == s.slowPending
  {
    var s1 := Next(s, Advances(t, false));
    Reach(z, s, Advances(t, false), s1);
    assert s1.threads == s.threads[t := Exchange(w, Return)] && s1.waiters[w].slot == s.waiters[w].slot;
    s' := Starts(z, s1, t, w);
    assert s'.threads == s.threads[t := if s.waiters[w].slot then Idle else Owe(Return)];
  }

  lemma {:induction false} Starts(z: State, s: State, t: nat, w: nat) returns (s': State)
    requires Reaches(z, s) && t < |s.threads| && s.threads[t] == Exchange(w, Return) && w < |s.waiters|
    ensures Reaches(z, s') && |s'.waiters| == |s.waiters| && s'.waiters[w].slot
    ensures forall v :: 0 <= v < |s.waiters| && v != w ==> s'.waiters[v] == s.waiters[v]
    ensures s'.threads == s.threads[t := if s.waiters[w].slot then Idle else Owe(Return)]
    ensures s'.running == s.running + 1 && s'.tokens == s.tokens && s'.buckets == s.buckets
    ensures s'.concurrency == s.concurrency && s'.queue == s.queue && s'.slowPending == s.slowPending
  {
    var s1 := Next(s, Advances(t, false));
    Reach(z, s, Advances(t, false), s1);
    assert s1.threads == s.threads[t := Dispatch(w, !s.waiters[w].slot, Return)];
    s' := Next(s1, Advances(t, false));
    Reach(z, s1, Advances(t, false), s');
    assert s'.threads == s.threads[t := if s.waiters[w].slot then Idle else Owe(Return)];
  }

  /** Thread 0 takes the only token; thread 1 publishes a waiter and has not reserved yet. */
  lemma {:induction false} OneRunsOneWaits(z: State) returns (s: State)
    requires z == Init(1, 3)
    ensures Reaches(z, s)
    ensures s.concurrency == 1 && s.tokens == 0 && s.slowPending == 0 && s.running == 1
    ensures s.waiters == [Waiter(0, 1000, 0, 1, false, 0, Parked)] && |s.buckets| == 5 && s.buckets[0] == [0]
    ensures s.threads == [Idle, Reserve(0), Idle]
  {
    assert Leads(z, [], z);
    s := Acquires(z, z, 0);
    s := Publishes(z, s, 1, 0, 1000);
  }

  /** Thread 0 lets the waiter run and still owes its decrement; thread 2 takes the token instead. */
  lemma {:induction false} TokenIsTakenTwice(z: State, s: State) returns (s': State)
    requires Reaches(z, s)
    requires s.tokens == 0 && s.slowPending == 0 && s.running == 1
    requires |s.threads| == 3 && s.threads[0] == Idle && s.threads[2] == Idle
    requires s.buckets[0] == [0] && |s.waiters| == 1 && !s.waiters[0].slot
    ensures Reaches(z, s') && s'.concurrency == s.concurrency && s'.running == 2
  {
    var s1 := StartsDrain(z, s, 0);
    var s2 := Dispatches(z, s1, 0, 0);
    s' := Acquires(z, s2, 2);
  }

  /**
   * Two RunningLocks are live in a group of concurrency 1: a drainer dispatches an uncounted waiter, and before it
   * performs the decrement it owes another thread takes the token that the decrement was for.
   */
  lemma {:induction false} ConcurrencyIsExceeded() returns (z: State, steps: seq<Step>, s: State)
    ensures z == Init(1, 3) && Leads(z, steps, s)
    ensures s.concurrency == 1 && s.running == 2
  {
    z := Init(1, 3);
    var s1 := OneRunsOneWaits(z);
    s := TokenIsTakenTwice(z, s1);
    steps :| Leads(z, steps, s);
  }

  // ----- Two threads exceed the concurrency by any number -----

  /** All threads are outside, `n` locks too many are live, and nobody waits. */
  predicate Excess(s: State, n: nat) {
    && |s.threads| >= 2 && (forall t :: 0 <= t < |s.threads| ==> s.threads[t] == Idle)
    && s.queue == [] && s.slowPending == 0 && |s.buckets| == Priority.BUCKETS
    && (forall b :: 0 <= b < |s.buckets| ==> s.buckets[b] == [])
    && s.running == s.concurrency + n && s.tokens + n == 0
  }

  /** A published waiter subtracts its token when none is free. */
  lemma {:induction false} Subtracts(z: State, s: State, t: nat, w: nat) returns (s': State)
    requires Reaches(z, s) && t < |s.threads| && s.threads[t] == Reserve(w) && s.tokens <= 0
    ensures Reaches(z, s')
    ensures s' == s.(tokens := s.tokens - 1, threads := s.threads[t := Claim(w, s.tokens)])
  {
    var s1 := s.(tokens := s.tokens - 1, threads := s.threads[t := Reserved(w, s.tokens)]);
    Reach(z, s, Advances(t, false), s1);
    s' := s1.(threads := s.threads[t := Claim(w, s.tokens)]);
    Reach(z, s1, Advances(t, false), s');
  }

  /** It then counts itself. */
  lemma {:induction false} Counts(z: State, s: State, t: nat, w: nat) returns (s': State)
    requires Reaches(z, s) && t < |s.threads| && s.threads[t] == Reserve(w)
    requires w < |s.waiters| && !s.waiters[w].slot && s.tokens <= 0
    ensures Reaches(z, s')
    ensures s' == ClaimSlot(s, w).(tokens := s.tokens - 1, threads := s.threads[t := Idle])
  {
    var s1 := Subtracts(z, s, t, w);
    s' := Next(s1, Advances(t, false));
    Reach(z, s1, Advances(t, false), s');
    assert s'.threads == s.threads[t := Idle];
  }

  /** A published waiter whose decrement a drainer has made gives its own back, which starts another drain. */
  lemma {:induction false} GivesBack(z: State, s: State, t: nat, w: nat) returns (s': State)
    requires Reaches(z, s) && t < |s.threads| && s.threads[t] == Reserve(w)
    requires w < |s.waiters| && s.waiters[w].slot && s.tokens <= 0
    ensures Reaches(z, s') && s' == s.(threads := s.threads[t := Scan(0, Return)])
  {
    var s1 := Subtracts(z, s, t, w);
    var s2 := s1.(threads := s.threads[t := Release(Return)]);
    Reach(z, s1, Advances(t, false), s2);
    s' := s.(threads := s.threads[t := Scan(0, Return)]);
    Reach(z, s2, Advances(t, false), s');
  }

  /** Destroying a RunningLock while waiters are counted starts a drain. */
  lemma {:induction false} DropsForWaiter(z: State, s: State, t: nat) returns (s': State)
    requires Reaches(z, s) && t < |s.threads| && s.threads[t] == Idle && s.running > 0 && s.tokens < 0
    ensures Reaches(z, s')
    ensures s' == s.(tokens := s.tokens + 1, running := s.running - 1, threads := s.threads[t := Scan(0, Return)])
  {
    var s1 := s.(running := s.running - 1, threads := s.threads[t := Release(Return)]);
    Reach(z, s, Begins(t, DropRunning), s1);
    s' := s1.(tokens := s.tokens + 1, threads := s.threads[t := Scan(0, Return)]);
    Reach(z, s1, Advances(t, false), s');
  }

  /** A drain that has started dispatches the first waiter of bucket 0, and pays for it when it is uncounted. */
  lemma {:induction false} DrainsOne(z: State, s: State, t: nat, w: nat) returns (s': State)
    requires Reaches(z, s) && t < |s.threads| && s.threads[t] == Scan(0, Return)
    requires s.buckets[0] != [] && s.buckets[0][0] == w < |s.waiters|
    ensures Reaches(z, s') && |s'.waiters| == |s.waiters| && s'.waiters[w].slot
    ensures forall v :: 0 <= v < |s.waiters| && v != w ==> s'.waiters[v] == s.waiters[v]
    ensures s'.buckets == s.buckets[0 := s.buckets[0][1..]]
    ensures s'.running == s.running + 1 && s'.threads == s.threads[t := Idle]
    ensures s'.tokens == if s.waiters[w].slot then s.tokens else s.tokens - 1
    ensures s'.concurrency == s.concurrency && s'.queue == s.queue && s'.slowPending == s.slowPending
  {
    s' := Dispatches(z, s, t, w);
    if !s.waiters[w].slot {
      var owing := s';
      s' := Next(owing, Advances(t, false));
      Reach(z, owing, Advances(t, false), s');
    }
    assert s'.threads == s.threads[t := Idle];
  }

  /** Thread 1 publishes a waiter and pauses; thread 0 then parks another one, behind it. */
  lemma {:induction false} TwoWait(z: State, s: State, n: nat) returns (s': State, w: nat)
    requires Reaches(z, s) && Excess(s, n)
    ensures Reaches(z, s') && w + 2 == |s'.waiters| && !s'.waiters[w].slot && s'.waiters[w + 1].slot
    ensures s'.threads == s.threads[1 := Reserve(w)] && s'.buckets == s.buckets[0 := [w, w + 1]]
    ensures s'.tokens + n + 1 == 0 && s'.running == s.running && s'.concurrency == s.concurrency
    ensures s'.queue == [] && s'.slowPending == 0
  {
    w := |s.waiters|;
    assert Priority.Index(1000) == 0;
    var s1 := Publishes(z, s, 1, 0, 1000);
    var s2 := Publishes(z, s1, 0, 0, 1000);
    s' := Counts(z, s2, 0, w + 1);
    assert s'.buckets[0] == [w, w + 1];
    assert s'.threads == s.threads[1 := Reserve(w)];
  }

  /** Thread 0 drops a lock and drains the paused waiter; thread 1 goes on and drains the other one for nothing. */
  lemma {:induction false} OneTooMany(z: State, s: State, n: nat) returns (s': State)
    requires Reaches(z, s) && Excess(s, n) && s.concurrency >= 1
    ensures Reaches(z, s') && Excess(s', n + 1) && s'.concurrency == s.concurrency
  {
    var s1, w := TwoWait(z, s, n);
    var s2 := DropsForWaiter(z, s1, 0);
    var s3 := DrainsOne(z, s2, 0, w);
    assert s3.threads == s.threads[1 := Reserve(w)] && s3.buckets[0] == [w + 1];
    var s4 := GivesBack(z, s3, 1, w);
    s' := DrainsOne(z, s4, 1, w + 1);
    assert s'.buckets[0] == [];
    assert s'.threads == s.threads;
  }

  /** All tokens are taken. */
  lemma {:induction false} FillsUp(z: State, threads: nat, k: nat) returns (s: State)
    requires threads >= 2 && z.concurrency >= k && z == Init(z.concurrency, threads)
    ensures Reaches(z, s) && s == z.(tokens := z.concurrency - k, running := k)
  {
    if k == 0 {
      assert Leads(z, [], z);
      s := z;
    } else {
      var before := FillsUp(z, threads, k - 1);
      s := Acquires(z, before, 0);
    }
  }

  /**
   * With two threads or more the live locks exceed the concurrency by any number, and nothing is under way that
   * would end it.
   */
  lemma {:induction false} ExcessIsUnbounded(concurrency: int, threads: nat, n: nat)
    returns (steps: seq<Step>, s: State)
    requires concurrency >= 1 && threads >= 2
    ensures Leads(Init(concurrency, threads), steps, s) && s.concurrency == concurrency && Excess(s, n)
  {
    var z := Init(concurrency, threads);
    s := ExcessFrom(z, threads, n);
    steps :| Leads(z, steps, s);
  }

  lemma {:induction false} ExcessFrom(z: State, threads: nat, n: nat) returns (s: State)
    requires z.concurrency >= 1 && threads >= 2 && z == Init(z.concurrency, threads)
    ensures Reaches(z, s) && Excess(s, n) && s.concurrency == z.concurrency
  {
    if n == 0 {
      s := FillsUp(z, threads, z.concurrency);
    } else {
      var before := ExcessFrom(z, threads, n - 1);
      s := OneTooMany(z, before, n - 1);
    }
  }

  // ----- A group without tokens -----

  predicate IsDormant(th: Thread) {
    || th.Idle? || th.LoadSlow? || th.LoadTokens? || th.Publish? || th.Reserve? || th.Insert?
    || (th.Cas? && th.expected <= 0) || (th.Reserved? && th.prev <= 0) || (th.Claim? && th.prev <= 0)
    || (th.Unpend? && !th.wasLocked)
  }

  /** No token is free or taken, and nothing gives one back. */
  predicate Dormant(s: State) {
    && s.tokens <= 0 && s.running == 0
    && (forall i :: 0 <= i < |s.queue| ==> !s.queue[i].locked)
    && (forall w :: 0 <= w < |s.waiters| ==> s.waiters[w].place.Parked?)
    && (forall t :: 0 <= t < |s.threads| ==> IsDormant(s.threads[t]))
    && (forall t :: 0 <= t < |s.threads| && s.threads[t].Insert? ==> !s.threads[t].handle.locked)
  }

  lemma {:induction false} BeginIsDormant(s: State, t: nat, op: Op)
    requires Valid(s) && Dormant(s) && Enabled(s, Begins(t, op))
    ensures Dormant(Begin(s, t, op))
  {
    if op.TryLock? {
      var i := Find(s.queue, op.ref);
      if Eligible(s.queue, s.tokens, i) {
        G.EligibleNeedsTokens(s.queue, s.tokens, i);
      }
    }
  }

  lemma {:induction false} AdvanceIsDormant(s: State, t: nat, spurious: bool)
    requires Valid(s) && Dormant(s) && t < |s.threads|
    ensures Dormant(Advance(s, t, spurious))
  {
    assert ThreadOk(s, t) && IsDormant(s.threads[t]);
  }

  lemma {:induction false} DormantRun(s: State, steps: seq<Step>, end: State)
    requires Valid(s) && Dormant(s) && Leads(s, steps, end)
    ensures Dormant(end)
    decreases |steps|
  {
    if steps != [] {
      NextIsValid(s, steps[0]);
      match steps[0] {
        case Begins(t, op) => BeginIsDormant(s, t, op);
        case Advances(t, spurious) => AdvanceIsDormant(s, t, spurious);
      }
      DormantRun(Next(s, steps[0]), steps[1..], end);
    }
  }

  // ----- When the bound holds -----

  ghost predicate IsBounded(concurrency: int, threads: nat) {
    forall steps, s :: Leads(Init(concurrency, threads), steps, s) ==> Live(s) <= G.Max(concurrency, 0)
  }

  lemma {:induction false} FewAreBounded(concurrency: int, threads: nat, steps: seq<Step>, s: State)
    requires concurrency <= 0 || threads <= 1
    requires Leads(Init(concurrency, threads), steps, s)
    ensures Live(s) <= G.Max(concurrency, 0)
  {
    var z := Init(concurrency, threads);
    if concurrency <= 0 {
      DormantRun(z, steps, s);
      ZeroSum(s.queue, LockWeight);
    } else if threads == 0 {
      assert steps == [];
    } else {
      OneThreadIsAlone(z, steps, s);
      UndisturbedBound(concurrency, threads, steps, s);
    }
  }

  /** The bound holds in every interleaving if and only if at most one thread uses the group, or it has no tokens. */
  lemma {:induction false} BoundExactly(concurrency: int, threads: nat)
    ensures IsBounded(concurrency, threads) <==> concurrency <= 0 || threads <= 1
  {
    if concurrency <= 0 || threads <= 1 {
      forall steps, s | Leads(Init(concurrency, threads), steps, s) ensures Live(s) <= G.Max(concurrency, 0) {
        FewAreBounded(concurrency, threads, steps, s);
      }
    } else {
      var steps, s := ExcessIsUnbounded(concurrency, threads, 1);
      assert Live(s) > G.Max(concurrency, 0);
    }
  }
}
