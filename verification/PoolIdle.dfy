/** Idle accounting over all pools of a scheduler: two levels of counters, and the step that reaches global idle. */
module PoolIdle {
  import opened Sums
  import opened Sets
  import opened PoolSteps

  datatype System = System(pools: seq<PoolState>, activePools: int, global: seq<nat>)

  datatype Step =
    | Create(descriptor: Descriptor)
    | StartPool(i: nat)
    | SubmitTask(i: nat, task: Task, clearIdle: bool, force: bool)
    | NotifyPool(i: nat, clearIdle: bool)
    | RegisterWaiter(i: nat)
    | UnregisterWaiter(i: nat)
    | PollPool(i: nat, t: nat, acquired: bool)
    | StopPool(i: nat, final: bool)
    | SetIdle(i: nat, reactions: seq<nat>)         // a reaction bound to one pool is added or removed
    | SetGlobalIdle(reactions: seq<nat>)           // a reaction bound to all pools is added or removed

  predicate Enabled(s: System, step: Step) {
    (step.Create? || step.SetGlobalIdle? || step.i < |s.pools|)
    && match step
       case StartPool(i) => !s.pools[i].started
       case SubmitTask(i, _, _, _) => Shaped(s.pools[i])
       case PollPool(i, t, _) => Shaped(s.pools[i]) && t < Workers(s.pools[i]) && t !in s.pools[i].exited
       case _ => true
  }

  function ViewOf(s: System, i: nat): View
    requires i < |s.pools|
  {
    View(s.pools[i], s.activePools)
  }

  function WithView(s: System, i: nat, v: View): System
    requires i < |s.pools|
  {
    s.(pools := s.pools[i := v.p], activePools := v.activePools)
  }

  /** What happens to one pool and the counter. */
  function Moved(s: System, step: Step): View
    requires Enabled(s, step) && !step.Create? && !step.SetGlobalIdle?
  {
    var v := ViewOf(s, step.i);
    match step
    case StartPool(_) => v.(p := Start(v.p))
    case SubmitTask(_, task, clearIdle, force) => Submit(v, task, clearIdle, force)
    case NotifyPool(_, clearIdle) => Notify(v, clearIdle)
    case RegisterWaiter(_) => v.(p := Register(v.p, |v.p.idleTasks| > 0 || |s.global| > 0))
    case UnregisterWaiter(_) => v.(p := Unregister(v.p))
    case PollPool(_, t, acquired) => Poll(v, t, acquired, s.global).view
    case StopPool(_, final) => v.(p := Stop(v.p, final))
    case SetIdle(_, reactions) => v.(p := v.p.(idleTasks := reactions))
  }

  function Next(s: System, step: Step): System
    requires Enabled(s, step)
  {
    match step
    case Create(d) =>
      // A counted pool adds itself to the counter, and its initial idle lock takes it off again.
      s.(pools := s.pools + [Fresh(d)])
    case SetGlobalIdle(reactions) => s.(global := reactions)
    case _ => WithView(s, step.i, Moved(s, step))
  }

  // ----- The invariant -----

  predicate CountedOk(p: PoolState) {
    && p.active == Workers(p) - |p.idleThreads|
    && p.idleThreads <= Upto(Workers(p))
    && p.busy <= Upto(Workers(p)) - p.idleThreads
    && (p.mark != NotIdle ==> p.busy == {})
    && (p.mark == Earned ==> p.active == 0 && p.started)
  }

  predicate PoolOk(p: PoolState) {
    && Shaped(p)
    && if p.descriptor.countsForIdle then CountedOk(p) else p.active == 0 && p.idleThreads == {} && p.mark == NotIdle
  }

  function ActiveWeight(p: PoolState): int {
    if p.descriptor.countsForIdle && p.mark == NotIdle then 1 else 0
  }

  predicate Inv(s: System) {
    && (forall i :: 0 <= i < |s.pools| ==> PoolOk(s.pools[i]))
    && s.activePools == Sum(s.pools, ActiveWeight)
  }

  /** A change of one pool that keeps its accounts and moves the counter with its mark. */
  predicate Accounted(v: View, w: View) {
    && PoolOk(w.p)
    && w.p.descriptor == v.p.descriptor
    && w.activePools - v.activePools == ActiveWeight(w.p) - ActiveWeight(v.p)
  }

  // ----- The parts of a step -----

  lemma {:induction false} ClearKeeps(v: View)
    requires PoolOk(v.p)
    ensures Accounted(v, ClearMark(v))
  {
  }

  lemma {:induction false} SubmitKeeps(v: View, task: Task, clearIdle: bool, force: bool)
    requires PoolOk(v.p)
    ensures Accounted(v, Submit(v, task, clearIdle, force))
  {
    ClearKeeps(v.(p := Enqueued(v.p, task)));
  }

  lemma {:induction false} WorkerIdleKeeps(v: View, t: nat)
    requires PoolOk(v.p) && v.p.descriptor.countsForIdle && t < Workers(v.p) && t !in v.p.busy
    ensures Accounted(v, v.(p := WorkerIdle(v.p, t)))
    ensures WorkerIdle(v.p, t).mark == v.p.mark && t !in WorkerIdle(v.p, t).busy
  {
    if t !in v.p.idleThreads {
      SubsetSize(v.p.idleThreads + {t}, Upto(Workers(v.p)));
    }
  }

  lemma {:induction false} MarkIdleKeeps(v: View)
    requires PoolOk(v.p) && v.p.descriptor.countsForIdle && v.p.started
    ensures Accounted(v, MarkIdle(v))
  {
    if v.p.active == 0 {
      CompleteWhenCounted(v.p.idleThreads, Workers(v.p));
      assert v.p.busy <= {};
    }
  }

  lemma {:induction false} WorkerBusyKeeps(v: View, t: nat)
    requires PoolOk(v.p) && t < Workers(v.p)
    ensures Accounted(v, WorkerBusy(v, t))
  {
  }

  lemma {:induction false} GoIdleKeeps(v: View, t: nat, global: seq<nat>)
    requires PoolOk(v.p) && t < Workers(v.p) && t !in v.p.busy
    ensures Accounted(v, GoIdle(v, t, global).view)
  {
    if CountsIdle(v.p) {
      WorkerIdleKeeps(v, t);
      MarkIdleKeeps(v.(p := WorkerIdle(v.p, t)));
    }
  }

  /** The queue and the flag `live` play no part in the accounts. */
  lemma QueueKeeps(v: View, w: View)
    requires PoolOk(v.p) && Shaped(w.p) && w.activePools == v.activePools
    requires w.p == v.p.(buckets := w.p.buckets, pending := w.p.pending, live := w.p.live)
    ensures Accounted(v, w)
  {
  }

  lemma {:induction false} LookKeeps(v: View, t: nat, acquired: bool, global: seq<nat>)
    requires PoolOk(v.p) && t < Workers(v.p) && t !in v.p.busy
    ensures Accounted(v, Look(v, t, acquired, global).view)
  {
    if v.p.live && HasTask(v.p) {
      var w := v.(p := Dequeued(v.p));
      WorkerBusyKeeps(w, t);
      QueueKeeps(v, w);
      QueueKeeps(v, v.(p := Enqueued(w.p, NextTask(v.p)).(live := false)));
    } else {
      GoIdleKeeps(v.(p := v.p.(live := false)), t, global);
    }
  }

  lemma {:induction false} LatchedKeeps(v: View, t: nat)
    requires PoolOk(v.p) && t < Workers(v.p) && t !in v.p.busy
    ensures Accounted(v, Latched(v, t)) && t !in Latched(v, t).p.busy
    ensures Latched(v, t).activePools == v.activePools
    ensures Latched(v, t).p.mark == v.p.mark && Workers(Latched(v, t).p) == Workers(v.p)
  {
    var q := v.(p := v.p.(pendingIdle := false));
    if CountsIdle(q.p) {
      WorkerIdleKeeps(q, t);
    }
  }

  lemma {:induction false} PollKeeps(v: View, t: nat, acquired: bool, global: seq<nat>)
    requires PoolOk(v.p) && t < Workers(v.p)
    ensures Accounted(v, Poll(v, t, acquired, global).view)
  {
    var w := Finished(v, t);
    if !MayExit(w.p) {
      LatchedKeeps(w, t);
      LookKeeps(Latched(w, t), t, acquired, global);
    }
  }

  lemma {:induction false} MovedKeeps(s: System, step: Step)
    requires Inv(s) && Enabled(s, step) && !step.Create? && !step.SetGlobalIdle?
    ensures Accounted(ViewOf(s, step.i), Moved(s, step))
  {
    var v := ViewOf(s, step.i);
    match step
    case SubmitTask(_, task, clearIdle, force) => SubmitKeeps(v, task, clearIdle, force);
    case NotifyPool(_, _) => ClearKeeps(v);
    case PollPool(_, t, acquired) => PollKeeps(v, t, acquired, s.global);
    case _ =>
  }

  /** The accounts are right after every step of any pool. */
  lemma {:induction false} OnePoolKeeps(s: System, i: nat, v: View)
    requires Inv(s) && i < |s.pools| && Accounted(ViewOf(s, i), v)
    ensures Inv(WithView(s, i, v))
  {
    SumUpdate(s.pools, i, v.p, ActiveWeight);
  }

  lemma {:induction false} NextKeepsInv(s: System, step: Step)
    requires Inv(s) && Enabled(s, step)
    ensures Inv(Next(s, step))
  {
    match step
    case Create(d) => SumAppend(s.pools, Fresh(d), ActiveWeight);
    case SetGlobalIdle(_) =>
    case _ =>
      MovedKeeps(s, step);
      OnePoolKeeps(s, step.i, Moved(s, step));
  }

  // ----- What the counters mean -----

  predicate IsIdle(p: PoolState) {
    p.descriptor.countsForIdle ==> p.mark != NotIdle
  }

  predicate AllIdle(s: System) {
    forall i :: 0 <= i < |s.pools| ==> IsIdle(s.pools[i])
  }

  lemma {:induction false} ZeroMeansAllIdle(s: System)
    requires Inv(s)
    ensures s.activePools >= 0
    ensures s.activePools == 0 <==> AllIdle(s)
  {
    NonNegativeSum(s.pools, ActiveWeight);
    if AllIdle(s) {
      assert forall i :: 0 <= i < |s.pools| ==> IsIdle(s.pools[i]);
      ZeroSum(s.pools, ActiveWeight);
    } else {
      var i :| 0 <= i < |s.pools| && !IsIdle(s.pools[i]);
      TermBelowSum(s.pools, ActiveWeight, i);
    }
  }

  ghost predicate Moves(ss: seq<System>, steps: seq<Step>, i: nat)
    requires i < |steps| < |ss|
  {
    Enabled(ss[i], steps[i]) && ss[i + 1] == Next(ss[i], steps[i])
  }

  ghost predicate Path(ss: seq<System>, steps: seq<Step>) {
    |ss| == |steps| + 1 && ss[0] == System([], 0, []) && forall i :: 0 <= i < |steps| ==> Moves(ss, steps, i)
  }

  lemma {:induction false} PathKeepsInv(ss: seq<System>, steps: seq<Step>, k: nat)
    requires Path(ss, steps) && k < |ss|
    ensures Inv(ss[k])
  {
    if k > 0 {
      PathKeepsInv(ss, steps, k - 1);
      assert Moves(ss, steps, k - 1);
      NextKeepsInv(ss[k - 1], steps[k - 1]);
    }
  }

  /** In every run: the two counters are what they should be, and an idle pool runs nothing it took from its queue. */
  lemma {:induction false} CountersInRuns(ss: seq<System>, steps: seq<Step>, k: nat, i: nat)
    requires Path(ss, steps) && k < |ss|
    requires i < |ss[k].pools| && ss[k].pools[i].descriptor.countsForIdle
    ensures var p := ss[k].pools[i];
            && p.active == Workers(p) - |p.idleThreads| >= 0
            && (p.mark == Earned ==> p.idleThreads == Upto(Workers(p)))
            && (p.mark != NotIdle ==> p.busy == {})
    ensures ss[k].activePools == Sum(ss[k].pools, ActiveWeight) >= 0
  {
    PathKeepsInv(ss, steps, k);
    var p := ss[k].pools[i];
    assert PoolOk(p);
    SubsetSize(p.idleThreads, Upto(Workers(p)));
    CompleteWhenCounted(p.idleThreads, Workers(p));
    NonNegativeSum(ss[k].pools, ActiveWeight);
  }

  function OutcomeOf(s: System, i: nat, t: nat, acquired: bool): Outcome
    requires i < |s.pools| && Shaped(s.pools[i])
  {
    Poll(ViewOf(s, i), t, acquired, s.global).outcome
  }

  /** The latest round of the worker took a task from the queue. */
  ghost predicate RunsSince(ss: seq<System>, steps: seq<Step>, i: nat, t: nat, j: nat, k: nat)
    requires j < k <= |steps| <= |ss|
  {
    && IsRoundOf(steps[j], i, t) && i < |ss[j].pools| && Shaped(ss[j].pools[i])
    && OutcomeOf(ss[j], i, t, steps[j].acquired).Run?
    && forall m :: j < m < k ==> !IsRoundOf(steps[m], i, t)
  }

  predicate IsRoundOf(step: Step, i: nat, t: nat) {
    step.PollPool? && step.i == i && step.t == t
  }

  lemma GoIdleOnlyCounts(v: View, t: nat, global: seq<nat>)
    ensures var w := GoIdle(v, t, global).view;
            w.p.busy == v.p.busy && w.p.pendingIdle == v.p.pendingIdle && w.p.live == v.p.live
  {
  }

  lemma {:induction false} LookBusy(v: View, t: nat, acquired: bool, global: seq<nat>)
    requires Shaped(v.p)
    ensures var look := Look(v, t, acquired, global);
            look.view.p.busy == if look.outcome.Run? then v.p.busy + {t} else v.p.busy
  {
    if !(v.p.live && HasTask(v.p)) {
      GoIdleOnlyCounts(v.(p := v.p.(live := false)), t, global);
    }
  }

  lemma {:induction false} PollBusy(v: View, u: nat, t: nat, acquired: bool, global: seq<nat>)
    requires Shaped(v.p)
    ensures t in Poll(v, u, acquired, global).view.p.busy <==>
            if t == u then Poll(v, u, acquired, global).outcome.Run? else t in v.p.busy
  {
    LookBusy(Latched(Finished(v, u), u), u, acquired, global);
  }

  lemma {:induction false} StepBusy(s: System, step: Step, i: nat, t: nat)
    requires Enabled(s, step) && i < |s.pools| && Shaped(s.pools[i])
    ensures i < |Next(s, step).pools|
    ensures t in Next(s, step).pools[i].busy <==>
            if IsRoundOf(step, i, t) then OutcomeOf(s, i, t, step.acquired).Run? else t in s.pools[i].busy
  {
    match step
    case PollPool(j, u, acquired) =>
      if j == i {
        PollBusy(ViewOf(s, i), u, t, acquired, s.global);
      }
    case _ =>
  }

  /** In every run a worker counts as busy exactly from a round that returned a task to its next round. */
  lemma {:induction false} BusyExactly(ss: seq<System>, steps: seq<Step>, i: nat, t: nat, k: nat)
    requires Path(ss, steps) && k <= |steps| && i < |ss[k].pools|
    ensures t in ss[k].pools[i].busy <==> exists j | 0 <= j < k :: RunsSince(ss, steps, i, t, j, k)
  {
    if k > 0 {
      assert Moves(ss, steps, k - 1);
      if i < |ss[k - 1].pools| {
        BusyExactly(ss, steps, i, t, k - 1);
        PathKeepsInv(ss, steps, k - 1);
        assert PoolOk(ss[k - 1].pools[i]);
        StepBusy(ss[k - 1], steps[k - 1], i, t);
        RunsMore(ss, steps, i, t, k - 1, k);
      } else {
        FewerBefore(ss, steps, k - 1);
      }
    }
  }

  lemma {:induction false} RunsMore(ss: seq<System>, steps: seq<Step>, i: nat, t: nat, k: nat, n: nat)
    requires k < n == k + 1 <= |steps| <= |ss| && i < |ss[k].pools| && Shaped(ss[k].pools[i])
    ensures (exists j | 0 <= j < n :: RunsSince(ss, steps, i, t, j, n)) <==>
            if IsRoundOf(steps[k], i, t) then OutcomeOf(ss[k], i, t, steps[k].acquired).Run?
            else exists j | 0 <= j < k :: RunsSince(ss, steps, i, t, j, k)
  {
    if IsRoundOf(steps[k], i, t) && OutcomeOf(ss[k], i, t, steps[k].acquired).Run? {
      assert RunsSince(ss, steps, i, t, k, n);
    }
    if j :| 0 <= j < n && RunsSince(ss, steps, i, t, j, n) {
      assert j < k ==> RunsSince(ss, steps, i, t, j, k);
    }
    if j :| 0 <= j < k && RunsSince(ss, steps, i, t, j, k) {
      assert !IsRoundOf(steps[k], i, t) ==> RunsSince(ss, steps, i, t, j, n);
    }
  }

  lemma {:induction false} FewerBefore(ss: seq<System>, steps: seq<Step>, k: nat)
    requires Path(ss, steps) && k <= |steps|
    ensures forall j :: 0 <= j <= k ==> |ss[j].pools| <= |ss[k].pools|
  {
    if k > 0 {
      assert Moves(ss, steps, k - 1);
      FewerBefore(ss, steps, k - 1);
    }
  }

  lemma {:induction false} LookMarks(v: View, t: nat, acquired: bool, global: seq<nat>)
    requires Shaped(v.p) && v.p.mark != Initial
    ensures Look(v, t, acquired, global).view.p.mark != Initial
  {
  }

  lemma {:induction false} StepMarks(s: System, step: Step, i: nat)
    requires Enabled(s, step) && i < |s.pools| && s.pools[i].mark != Initial
    ensures i < |Next(s, step).pools| && Next(s, step).pools[i].mark != Initial
  {
    match step
    case PollPool(j, t, acquired) =>
      if j == i {
        LookMarks(Latched(Finished(ViewOf(s, i), t), t), t, acquired, s.global);
      }
    case _ =>
  }

  /** A pool that has once lost the lock of its construction never has it again. */
  lemma {:induction false} InitialLockIsHeldOnce(ss: seq<System>, steps: seq<Step>, i: nat, j: nat, k: nat)
    requires Path(ss, steps) && j <= k <= |steps| && i < |ss[j].pools| && ss[j].pools[i].mark != Initial
    ensures i < |ss[k].pools| && ss[k].pools[i].mark != Initial
    decreases k
  {
    if j < k {
      InitialLockIsHeldOnce(ss, steps, i, j, k - 1);
      assert Moves(ss, steps, k - 1);
      StepMarks(ss[k - 1], steps[k - 1], i);
    }
  }

  /** The lock that a pool is constructed with is held while its workers are active. */
  lemma {:induction false} InitialLockIsHeldByActivePool(d: Descriptor) returns (ss: seq<System>, steps: seq<Step>)
    requires d.countsForIdle && d.concurrency > 0
    ensures Path(ss, steps) && |steps| == 2 && |ss[2].pools| == 1
    ensures ss[2].pools[0].mark == Initial && ss[2].pools[0].active > 0 && AllIdle(ss[2])
  {
    var s0 := System([], 0, []);
    var s1 := Next(s0, Create(d));
    assert s1.pools == [Fresh(d)];
    var s2 := Next(s1, StartPool(0));
    ss, steps := [s0, s1, s2], [Create(d), StartPool(0)];
    assert Moves(ss, steps, 0) && Moves(ss, steps, 1);
  }

  // ----- The step that reaches global idle -----

  lemma {:induction false} LookCollects(v: View, t: nat, acquired: bool, global: seq<nat>)
    requires PoolOk(v.p) && global != []
    ensures var polled := Look(v, t, acquired, global);
            polled.outcome.Dispatch? && polled.outcome.global != [] <==>
            v.p.mark == NotIdle && polled.view.p.mark != NotIdle && polled.view.activePools == 0
  {
  }

  lemma {:induction false} PollCollects(v: View, t: nat, acquired: bool, global: seq<nat>)
    requires PoolOk(v.p) && t < Workers(v.p) && global != []
    ensures var polled := Poll(v, t, acquired, global);
            polled.outcome.Dispatch? && polled.outcome.global != [] <==>
            v.p.mark == NotIdle && polled.view.p.mark != NotIdle && polled.view.activePools == 0
  {
    var w := Finished(v, t);
    LatchedKeeps(w, t);
    LookCollects(Latched(w, t), t, acquired, global);
  }

  /** Global idle reactions are collected exactly by the round that makes the last counted pool idle. */
  lemma {:induction false} GlobalIdleExactly(ss: seq<System>, steps: seq<Step>, k: nat, i: nat, t: nat, acquired: bool)
    requires Path(ss, steps) && k < |steps| && steps[k] == PollPool(i, t, acquired) && ss[k].global != []
    ensures i < |ss[k].pools| && Shaped(ss[k].pools[i])
    ensures var outcome := OutcomeOf(ss[k], i, t, acquired);
            outcome.Dispatch? && outcome.global != [] <==> !AllIdle(ss[k]) && AllIdle(ss[k + 1])
  {
    var s, u := ss[k], ss[k + 1];
    assert Moves(ss, steps, k);
    PathKeepsInv(ss, steps, k);
    PathKeepsInv(ss, steps, k + 1);
    ZeroMeansAllIdle(s);
    ZeroMeansAllIdle(u);
    PollCollects(ViewOf(s, i), t, acquired, s.global);
    PollKeeps(ViewOf(s, i), t, acquired, s.global);
    if AllIdle(s) {
      assert IsIdle(s.pools[i]);
    } else if AllIdle(u) {
      var j :| 0 <= j < |s.pools| && !IsIdle(s.pools[j]);
      assert IsIdle(u.pools[j]);
      assert j == i;
    }
    if s.pools[i].mark == NotIdle && u.pools[i].mark != NotIdle {
      assert PoolOk(u.pools[i]) && !IsIdle(s.pools[i]);
    }
  }

  /** No other step makes the last counted pool idle. */
  lemma {:induction false} OnlyRoundsReachIdle(s: System, step: Step)
    requires Inv(s) && Enabled(s, step) && !AllIdle(s) && AllIdle(Next(s, step))
    ensures step.PollPool?
  {
    var j :| 0 <= j < |s.pools| && !IsIdle(s.pools[j]);
    assert IsIdle(Next(s, step).pools[j]);
  }

  /** When global idle reactions are collected, no worker of a counted pool runs a task from its queue. */
  lemma {:induction false} GlobalIdleIsQuiet(
    ss: seq<System>, steps: seq<Step>, k: nat, i: nat, t: nat, acquired: bool, j: nat)
    requires Path(ss, steps) && k < |steps| && steps[k] == PollPool(i, t, acquired)
    requires i < |ss[k].pools| && Shaped(ss[k].pools[i]) && OutcomeOf(ss[k], i, t, acquired).Dispatch?
    requires OutcomeOf(ss[k], i, t, acquired).global != []
    requires j < |ss[k + 1].pools| && ss[k + 1].pools[j].descriptor.countsForIdle
    ensures ss[k + 1].pools[j].busy == {}
    ensures ss[k + 1].pools[j].mark == Initial || ss[k + 1].pools[j].active == 0
  {
    assert ss[k].global != [];
    GlobalIdleExactly(ss, steps, k, i, t, acquired);
    PathKeepsInv(ss, steps, k + 1);
    assert PoolOk(ss[k + 1].pools[j]) && IsIdle(ss[k + 1].pools[j]);
  }

  // ----- What ends and what keeps idleness -----

  /** An accepted task, or a notification, that clears the idle lock of its pool. */
  predicate Clears(s: System, step: Step, i: nat) {
    match step
    case SubmitTask(j, _, clearIdle, force) => j == i < |s.pools| && clearIdle && (force || s.pools[i].accept)
    case NotifyPool(j, clearIdle) => j == i && clearIdle
    case _ => false
  }

  /** After a clearing step its counted pool is not idle, so that no global reaction can be collected before it is. */
  lemma {:induction false} ClearingWakes(ss: seq<System>, steps: seq<Step>, k: nat, i: nat)
    requires Path(ss, steps) && k < |steps| && Clears(ss[k], steps[k], i)
    ensures i < |ss[k].pools| == |ss[k + 1].pools| && ss[k + 1].pools[i].descriptor == ss[k].pools[i].descriptor
    ensures ss[k + 1].pools[i].live
    ensures ss[k].pools[i].descriptor.countsForIdle ==>
              ss[k + 1].pools[i].mark == NotIdle && ss[k + 1].activePools > 0 && !AllIdle(ss[k + 1])
  {
    assert Moves(ss, steps, k);
    PathKeepsInv(ss, steps, k + 1);
    ZeroMeansAllIdle(ss[k + 1]);
    if ss[k].pools[i].descriptor.countsForIdle {
      assert !IsIdle(ss[k + 1].pools[i]);
    }
  }

  /** A submit or notification that does not clear leaves all marks and the counter as they were. */
  lemma {:induction false} OthersClearNothing(ss: seq<System>, steps: seq<Step>, k: nat, i: nat)
    requires Path(ss, steps) && k < |steps| && (steps[k].SubmitTask? || steps[k].NotifyPool?)
    requires i < |ss[k].pools| && !Clears(ss[k], steps[k], i)
    ensures i < |ss[k + 1].pools| && ss[k + 1].pools[i].mark == ss[k].pools[i].mark
    ensures !Clears(ss[k], steps[k], steps[k].i) ==> ss[k + 1].activePools == ss[k].activePools
  {
    assert Moves(ss, steps, k);
  }

  /** A round of the pool that can take no task: none is queued, or a lock could not be acquired. */
  predicate FindsNothing(s: System, step: Step, i: nat) {
    && step.PollPool? && step.i == i < |s.pools| && Shaped(s.pools[i])
    && !(s.pools[i].live && HasTask(s.pools[i]))
  }

  /** No premature idle: a round that finds a live pool with tasks queued collects no global reaction. */
  lemma {:induction false} QueuedWorkIsNotIdle(v: View, t: nat, acquired: bool, global: seq<nat>)
    requires Shaped(v.p) && v.p.live && HasTask(v.p)
    ensures var polled := Poll(v, t, acquired, global);
            && (polled.outcome.Dispatch? ==> polled.outcome.global == [])
            && (v.p.mark == NotIdle ==> polled.view.p.mark == NotIdle && polled.view.activePools == v.activePools)
  {
    var w := Latched(Finished(v, t), t);
    assert w.p.live && w.p.buckets == v.p.buckets && w.p.mark == v.p.mark && w.activePools == v.activePools;
  }

  /** Only such a round makes a pool idle. */
  lemma {:induction false} OnlyEmptyRoundsIdle(s: System, step: Step, i: nat)
    requires Inv(s) && Enabled(s, step) && i < |s.pools|
    requires s.pools[i].mark == NotIdle && Next(s, step).pools[i].mark != NotIdle
    ensures FindsNothing(s, step, i)
  {
    match step
    case PollPool(j, t, acquired) =>
      if j == i {
        if s.pools[i].live && HasTask(s.pools[i]) {
          QueuedWorkIsNotIdle(ViewOf(s, i), t, acquired, s.global);
        }
      }
    case _ =>
  }

  ghost predicate FoundNothing(ss: seq<System>, steps: seq<Step>, i: nat, j: nat, k: nat)
    requires j < k <= |steps| <= |ss|
  {
    exists m | j < m < k :: FindsNothing(ss[m], steps[m], i)
  }

  /** A counted pool that is idle has had a round that found nothing since it was last cleared. */
  lemma {:induction false} IdleSinceCleared(ss: seq<System>, steps: seq<Step>, i: nat, j: nat, k: nat)
    requires Path(ss, steps) && j < k <= |steps| && Clears(ss[j], steps[j], i)
    ensures i < |ss[j].pools| <= |ss[k].pools| && ss[k].pools[i].descriptor == ss[j].pools[i].descriptor
    ensures ss[j].pools[i].descriptor.countsForIdle && ss[k].pools[i].mark != NotIdle ==>
              FoundNothing(ss, steps, i, j, k)
    decreases k
  {
    assert Moves(ss, steps, j);
    if j + 1 == k {
      ClearingWakes(ss, steps, j, i);
    } else {
      IdleSinceCleared(ss, steps, i, j, k - 1);
      assert Moves(ss, steps, k - 1);
      PathKeepsInv(ss, steps, k - 1);
      StaysInPlace(ss[k - 1], steps[k - 1], i);
      if ss[k - 1].pools[i].mark == NotIdle && ss[k].pools[i].mark != NotIdle {
        OnlyEmptyRoundsIdle(ss[k - 1], steps[k - 1], i);
        assert FindsNothing(ss[k - 1], steps[k - 1], i);
      } else if FoundNothing(ss, steps, i, j, k - 1) {
        var m :| j < m < k - 1 && FindsNothing(ss[m], steps[m], i);
        assert FoundNothing(ss, steps, i, j, k);
      }
    }
  }

  lemma {:induction false} StaysInPlace(s: System, step: Step, i: nat)
    requires Inv(s) && Enabled(s, step) && i < |s.pools|
    ensures i < |Next(s, step).pools| && Next(s, step).pools[i].descriptor == s.pools[i].descriptor
  {
    if !step.Create? && !step.SetGlobalIdle? {
      MovedKeeps(s, step);
    }
  }

  /**
   * When global reactions are collected, every counted pool has had a round that found nothing since its last clearing
   * submit or notification.
   */
  lemma {:induction false} GlobalIdleFollowsWork(
    ss: seq<System>, steps: seq<Step>, k: nat, i: nat, t: nat, acquired: bool, c: nat, j: nat)
    requires Path(ss, steps) && k < |steps| && steps[k] == PollPool(i, t, acquired)
    requires i < |ss[k].pools| && Shaped(ss[k].pools[i]) && OutcomeOf(ss[k], i, t, acquired).Dispatch?
    requires OutcomeOf(ss[k], i, t, acquired).global != []
    requires j <= k && Clears(ss[j], steps[j], c)
    ensures c < |ss[j].pools| && (ss[j].pools[c].descriptor.countsForIdle ==> FoundNothing(ss, steps, c, j, k + 1))
  {
    assert ss[k].global != [];
    IdleSinceCleared(ss, steps, c, j, k + 1);
    GlobalIdleExactly(ss, steps, k, i, t, acquired);
    assert IsIdle(ss[k + 1].pools[c]);
  }

  /** A waiter is registered at the pool while idle reactions could fire. */
  predicate SetsLatch(s: System, step: Step, i: nat) {
    step == RegisterWaiter(i) && i < |s.pools| && (s.pools[i].idleTasks != [] || s.global != [])
  }

  /** A round of the pool that does not exit. */
  predicate TakesLatch(s: System, step: Step, i: nat) {
    step.PollPool? && step.i == i < |s.pools| && !MayExit(s.pools[i])
  }

  ghost predicate LatchedSince(ss: seq<System>, steps: seq<Step>, i: nat, j: nat, k: nat)
    requires j < k <= |steps| <= |ss|
  {
    SetsLatch(ss[j], steps[j], i) && forall m :: j < m < k ==> !TakesLatch(ss[m], steps[m], i)
  }

  ghost predicate IsLatched(ss: seq<System>, steps: seq<Step>, i: nat, k: nat)
    requires k <= |steps| <= |ss|
  {
    exists j | 0 <= j < k :: LatchedSince(ss, steps, i, j, k)
  }

  lemma {:induction false} LookKeepsLatch(v: View, t: nat, acquired: bool, global: seq<nat>)
    requires Shaped(v.p)
    ensures Look(v, t, acquired, global).view.p.pendingIdle == v.p.pendingIdle
  {
    if v.p.live && HasTask(v.p) {
      assert WorkerBusy(v.(p := Dequeued(v.p)), t).p.pendingIdle == v.p.pendingIdle;
    } else {
      GoIdleOnlyCounts(v.(p := v.p.(live := false)), t, global);
    }
  }

  lemma {:induction false} StepLatches(s: System, step: Step, i: nat)
    requires Enabled(s, step) && i < |s.pools|
    ensures i < |Next(s, step).pools|
    ensures Next(s, step).pools[i].pendingIdle <==>
            SetsLatch(s, step, i) || (s.pools[i].pendingIdle && !TakesLatch(s, step, i))
  {
    match step
    case PollPool(j, t, acquired) =>
      if j == i {
        LookKeepsLatch(Latched(Finished(ViewOf(s, i), t), t), t, acquired, s.global);
      }
    case _ =>
  }

  lemma {:induction false} LatchedMore(ss: seq<System>, steps: seq<Step>, i: nat, k: nat, n: nat)
    requires k < n == k + 1 <= |steps| <= |ss|
    ensures IsLatched(ss, steps, i, n) <==>
            SetsLatch(ss[k], steps[k], i) || (IsLatched(ss, steps, i, k) && !TakesLatch(ss[k], steps[k], i))
  {
    if SetsLatch(ss[k], steps[k], i) {
      assert LatchedSince(ss, steps, i, k, n);
    }
    if IsLatched(ss, steps, i, n) {
      var j :| 0 <= j < n && LatchedSince(ss, steps, i, j, n);
      assert j < k ==> LatchedSince(ss, steps, i, j, k);
    }
    if IsLatched(ss, steps, i, k) && !TakesLatch(ss[k], steps[k], i) {
      var j :| 0 <= j < k && LatchedSince(ss, steps, i, j, k);
      assert LatchedSince(ss, steps, i, j, n);
    }
  }

  /** In every run the latch of a pool is set exactly since a relevant waiter was registered and until a round. */
  lemma {:induction false} LatchExactly(ss: seq<System>, steps: seq<Step>, i: nat, k: nat)
    requires Path(ss, steps) && k <= |steps| && i < |ss[k].pools|
    ensures ss[k].pools[i].pendingIdle <==> IsLatched(ss, steps, i, k)
  {
    if k > 0 {
      assert Moves(ss, steps, k - 1);
      LatchedMore(ss, steps, i, k - 1, k);
      if i < |ss[k - 1].pools| {
        LatchExactly(ss, steps, i, k - 1);
        StepLatches(ss[k - 1], steps[k - 1], i);
      } else {
        NeverLatched(ss, steps, i, k - 1);
      }
    }
  }

  lemma {:induction false} NeverLatched(ss: seq<System>, steps: seq<Step>, i: nat, k: nat)
    requires Path(ss, steps) && k <= |steps| && i >= |ss[k].pools|
    ensures !IsLatched(ss, steps, i, k)
  {
    if k > 0 {
      assert Moves(ss, steps, k - 1);
      NeverLatched(ss, steps, i, k - 1);
      LatchedMore(ss, steps, i, k - 1, k);
    }
  }

  /** The latch set for a parked waiter stays until the next round of the pool. */
  lemma {:induction false} LatchStays(ss: seq<System>, steps: seq<Step>, i: nat, j: nat, k: nat)
    requires Path(ss, steps) && j < k <= |steps| && steps[j] == RegisterWaiter(i)
    requires i < |ss[j].pools| && (ss[j].pools[i].idleTasks != [] || ss[j].global != [])
    requires forall m :: j < m < k ==> !(steps[m].PollPool? && steps[m].i == i)
    ensures i < |ss[k].pools| && ss[k].pools[i].pendingIdle
    decreases k
  {
    assert Moves(ss, steps, k - 1);
    if j + 1 < k {
      LatchStays(ss, steps, i, j, k - 1);
    }
  }

  lemma {:induction false} LatchedRound(v: View, t: nat, acquired: bool, global: seq<nat>)
    requires PoolOk(v.p) && CountsIdle(v.p) && v.p.idleTasks != [] && t < Workers(v.p) && v.p.pendingIdle
    ensures Poll(v, t, acquired, global).outcome == Dispatch(v.p.idleTasks, []) <==>
            v.p.active == 1 && t !in v.p.idleThreads
  {
  }

  /**
   * The latch of a parked waiter: whether or not tasks are queued by then, the next round of the running pool
   * dispatches the pool's own idle reactions if and only if its worker is the last active one.
   */
  lemma {:induction false} LatchDispatchesExactly(
    ss: seq<System>, steps: seq<Step>, i: nat, j: nat, k: nat, t: nat, acquired: bool)
    requires Path(ss, steps) && j < k < |steps| && steps[j] == RegisterWaiter(i) && steps[k] == PollPool(i, t, acquired)
    requires i < |ss[j].pools| && (ss[j].pools[i].idleTasks != [] || ss[j].global != [])
    requires forall m :: j < m < k ==> !(steps[m].PollPool? && steps[m].i == i)
    ensures i < |ss[k].pools| && Shaped(ss[k].pools[i])
    ensures var p := ss[k].pools[i];
            CountsIdle(p) && p.idleTasks != [] ==>
              (OutcomeOf(ss[k], i, t, acquired) == Dispatch(p.idleTasks, []) <==>
               p.active == 1 && t !in p.idleThreads)
  {
    LatchStays(ss, steps, i, j, k);
    assert Moves(ss, steps, k);
    PathKeepsInv(ss, steps, k);
    if CountsIdle(ss[k].pools[i]) && ss[k].pools[i].idleTasks != [] {
      LatchedRound(ViewOf(ss[k], i), t, acquired, ss[k].global);
    }
  }

  // ----- The step that makes one pool idle -----

  lemma {:induction false} ActiveIsBusy(p: PoolState, t: nat)
    requires PoolOk(p) && p.descriptor.countsForIdle && t < Workers(p)
    ensures p.active >= 0 && (p.active == 0 ==> t in p.idleThreads)
  {
    SubsetSize(p.idleThreads, Upto(Workers(p)));
    CompleteWhenCounted(p.idleThreads, Workers(p));
  }

  lemma {:induction false} GoIdleCollectsLocal(v: View, t: nat, global: seq<nat>)
    requires CountsIdle(v.p) && v.p.idleTasks != [] && (v.p.active == 0 ==> t in v.p.idleThreads)
    ensures var polled := GoIdle(v, t, global);
            polled.outcome.Dispatch? && polled.outcome.local != [] <==> v.p.active != 0 && polled.view.p.active == 0
  {
  }

  lemma {:induction false} LookCollectsLocal(v: View, t: nat, acquired: bool, global: seq<nat>)
    requires PoolOk(v.p) && CountsIdle(v.p) && v.p.idleTasks != [] && t < Workers(v.p)
    ensures var polled := Look(v, t, acquired, global);
            polled.outcome.Dispatch? && polled.outcome.local != [] <==> v.p.active != 0 && polled.view.p.active == 0
  {
    ActiveIsBusy(v.p, t);
    GoIdleCollectsLocal(v.(p := v.p.(live := false)), t, global);
  }

  lemma {:induction false} LatchReachesZero(v: View, t: nat)
    requires PoolOk(v.p) && CountsIdle(v.p) && v.p.idleTasks != [] && t < Workers(v.p)
    ensures LatchedReactions(v.p, t) != [] ==> v.p.active != 0 && Latched(v, t).p.active == 0
    ensures LatchedReactions(v.p, t) == [] ==> (Latched(v, t).p.active == 0 <==> v.p.active == 0)
  {
    ActiveIsBusy(v.p, t);
  }

  /** A pool's own idle reactions are collected exactly by the round that takes its active workers to zero. */
  lemma {:induction false} LocalIdleExactly(v: View, t: nat, acquired: bool, global: seq<nat>)
    requires PoolOk(v.p) && CountsIdle(v.p) && v.p.idleTasks != [] && t < Workers(v.p)
    ensures var polled := Poll(v, t, acquired, global);
            polled.outcome.Dispatch? && polled.outcome.local != [] <==> v.p.active != 0 && polled.view.p.active == 0
  {
    var w := Finished(v, t);
    LatchedKeeps(w, t);
    LatchReachesZero(w, t);
    if LatchedReactions(w.p, t) == [] {
      LookCollectsLocal(Latched(w, t), t, acquired, global);
    }
  }
}
