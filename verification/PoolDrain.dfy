/**
 * One pool under NORMAL and FINAL stops: what a stop ends, and that no accepted task and no waiter registered in time
 * is lost when the workers exit.
 * The rest of the scheduler may change the idle reactions and the counter of active pools at any moment.
 */
module PoolDrain {
  import opened Sets
  import opened PoolSteps
  import Priority

  datatype Drain = Drain(
    v: View,
    global: seq<nat>,
    parked: multiset<Task>,    // registered waiters in the buckets of groups
    transit: nat,              // waiters submitted whose registration is still held
    accepted: multiset<Task>,  // everything accepted by `submit` or registered
    handed: multiset<Task>,    // everything handed out by `get_task`
    late: multiset<Task>       // what was accepted or registered after the last worker had exited
  )

  datatype Step =
    | StartPool
    | SubmitTask(task: Task, clearIdle: bool)
    | Park(task: Task)                         // `park_publish`: register, then enqueue at the group
    | HandIn(task: Task, clearIdle: bool)      // `drain_one_to_pool`: a forced submit, the registration still held
    | Release                                  // the end of a registration whose task has been submitted
    | NotifyPool(clearIdle: bool)
    | PollPool(t: nat, acquired: bool)
    | StopPool(final: bool)                    // a NORMAL stop, or the FINAL one
    | Others(activePools: int, global: seq<nat>, idleTasks: seq<nat>)

  predicate Enabled(s: Drain, step: Step) {
    && Shaped(s.v.p)
    && match step
       case StartPool => !s.v.p.started
       case HandIn(task, _) => task in s.parked
       case Release => s.transit > 0
       case PollPool(t, _) => t < Workers(s.v.p) && t !in s.v.p.exited
       case _ => true
  }

  function Init(d: Descriptor): Drain {
    Drain(View(Fresh(d), 0), [], multiset{}, 0, multiset{}, multiset{}, multiset{})
  }

  function Round(s: Drain, t: nat, acquired: bool): Polled
    requires Shaped(s.v.p)
  {
    Poll(s.v, t, acquired, s.global)
  }

  function Next(s: Drain, step: Step): Drain
    requires Enabled(s, step)
  {
    match step
    case StartPool => s.(v := s.v.(p := Start(s.v.p)))
    case SubmitTask(task, clearIdle) =>
      s.(v := Submit(s.v, task, clearIdle, false),
         accepted := if s.v.p.accept then s.accepted + multiset{task} else s.accepted,
         late := if s.v.p.accept && AllExited(s.v.p) then s.late + multiset{task} else s.late)
    case Park(task) =>
      s.(v := s.v.(p := Register(s.v.p, |s.v.p.idleTasks| > 0 || |s.global| > 0)),
         parked := s.parked + multiset{task},
         accepted := s.accepted + multiset{task},
         late := if AllExited(s.v.p) then s.late + multiset{task} else s.late)
    case HandIn(task, clearIdle) =>
      s.(v := Submit(s.v, task, clearIdle, true), parked := s.parked - multiset{task}, transit := s.transit + 1)
    case Release => s.(v := s.v.(p := Unregister(s.v.p)), transit := s.transit - 1)
    case NotifyPool(clearIdle) => s.(v := Notify(s.v, clearIdle))
    case PollPool(t, acquired) =>
      var round := Round(s, t, acquired);
      s.(v := round.view,
         handed := if round.outcome.Run? then s.handed + multiset{round.outcome.task} else s.handed)
    case StopPool(final) => s.(v := s.v.(p := Stop(s.v.p, final)))
    case Others(activePools, global, idleTasks) =>
      s.(v := View(s.v.p.(idleTasks := idleTasks), activePools), global := global)
  }

  predicate AllExited(p: PoolState) {
    Workers(p) > 0 && p.exited == Upto(Workers(p))
  }

  // ----- The contents of the buckets -----

  function Contents(buckets: seq<seq<Task>>): multiset<Task> {
    if buckets == [] then multiset{} else multiset(buckets[0]) + Contents(buckets[1..])
  }

  lemma {:induction false} ContentsUpdate(buckets: seq<seq<Task>>, b: nat, bucket: seq<Task>, x: Task)
    requires b < |buckets|
    ensures Contents(buckets[b := bucket])[x] + multiset(buckets[b])[x] == Contents(buckets)[x] + multiset(bucket)[x]
  {
    var u := buckets[b := bucket];
    assert Contents(u)[x] == multiset(u[0])[x] + Contents(u[1..])[x];
    assert Contents(buckets)[x] == multiset(buckets[0])[x] + Contents(buckets[1..])[x];
    if b == 0 {
      assert u[1..] == buckets[1..];
    } else {
      ContentsUpdate(buckets[1..], b - 1, bucket, x);
      assert u[1..] == buckets[1..][b - 1 := bucket];
    }
  }

  lemma {:induction false} ContentsEmpty(buckets: seq<seq<Task>>)
    requires forall b :: 0 <= b < |buckets| ==> buckets[b] == []
    ensures Contents(buckets) == multiset{}
  {
    if buckets != [] {
      ContentsEmpty(buckets[1..]);
    }
  }

  lemma {:induction false} EnqueueAdds(p: PoolState, task: Task)
    requires Shaped(p)
    ensures Contents(Enqueued(p, task).buckets) == Contents(p.buckets) + multiset{task}
  {
    var b := Priority.Index(task.priority);
    assert multiset(p.buckets[b] + [task]) == multiset(p.buckets[b]) + multiset{task};
    forall x ensures Contents(Enqueued(p, task).buckets)[x] == (Contents(p.buckets) + multiset{task})[x] {
      ContentsUpdate(p.buckets, b, p.buckets[b] + [task], x);
    }
  }

  lemma {:induction false} DequeueTakes(p: PoolState)
    requires Shaped(p) && HasTask(p)
    ensures Contents(p.buckets) == Contents(Dequeued(p).buckets) + multiset{NextTask(p)}
  {
    var b := FirstTask(p);
    assert p.buckets[b] == [p.buckets[b][0]] + p.buckets[b][1..];
    assert multiset(p.buckets[b]) == multiset{p.buckets[b][0]} + multiset(p.buckets[b][1..]);
    forall x ensures Contents(p.buckets)[x] == (Contents(Dequeued(p).buckets) + multiset{NextTask(p)})[x] {
      ContentsUpdate(p.buckets, b, p.buckets[b][1..], x);
    }
  }

  // ----- The invariant -----

  predicate QueueOk(p: PoolState) {
    Shaped(p) && p.pending == |Contents(p.buckets)|
  }

  /** A persistent pool accepts everything, any other as long as it runs, which it does not once a worker has exited. */
  predicate StopOk(p: PoolState) {
    && (if p.descriptor.persistent then p.accept else p.accept == p.running && (p.exited != {} ==> !p.running))
    && p.exited <= Upto(Workers(p))
  }

  predicate Inv(s: Drain) {
    QueueOk(s.v.p) && StopOk(s.v.p) && LedgerOk(s) && LateOk(s)
  }

  /** Everything accepted is handed out, queued or parked. */
  predicate LedgerOk(s: Drain) {
    && s.v.p.external == |s.parked| + s.transit
    && s.accepted == s.handed + Contents(s.v.p.buckets) + s.parked
  }

  predicate LateOk(s: Drain) {
    if AllExited(s.v.p) then s.accepted == s.handed + s.late else s.late == multiset{}
  }

  /** Everything but the idle accounts and the wake-up flags. */
  predicate SameWork(p: PoolState, q: PoolState) {
    && q.descriptor == p.descriptor && q.started == p.started
    && q.running == p.running && q.accept == p.accept
    && q.buckets == p.buckets && q.pending == p.pending && q.external == p.external
    && q.exited == p.exited
  }

  lemma SubmitWork(v: View, task: Task, clearIdle: bool, force: bool)
    requires Shaped(v.p)
    ensures SameWork(if force || v.p.accept then Enqueued(v.p, task) else v.p, Submit(v, task, clearIdle, force).p)
  {
  }

  lemma {:induction false} GoIdleWork(v: View, t: nat, global: seq<nat>)
    ensures SameWork(v.p, GoIdle(v, t, global).view.p)
    ensures !GoIdle(v, t, global).outcome.Run? && !GoIdle(v, t, global).outcome.Exit?
  {
  }

  lemma BusyWork(v: View, t: nat)
    ensures SameWork(v.p, WorkerBusy(v, t).p)
  {
  }

  /** The first task has gone to the back of its bucket. */
  predicate Rotates(p: PoolState, q: PoolState)
    requires Shaped(p)
  {
    HasTask(p) && SameWork(Enqueued(Dequeued(p), NextTask(p)), q)
  }

  /** A round either exits, hands out the first task, moves the first task to the back, or leaves the queue alone. */
  lemma {:induction false} LookWork(v: View, t: nat, acquired: bool, global: seq<nat>)
    requires Shaped(v.p)
    ensures var look := Look(v, t, acquired, global);
            && !look.outcome.Exit?
            && if look.outcome.Run?
               then HasTask(v.p) && look.outcome.task == NextTask(v.p) && SameWork(Dequeued(v.p), look.view.p)
               else SameWork(v.p, look.view.p) || Rotates(v.p, look.view.p)
  {
    if v.p.live && HasTask(v.p) {
      BusyWork(v.(p := Dequeued(v.p)), t);
    } else {
      GoIdleWork(v.(p := v.p.(live := false)), t, global);
    }
  }

  lemma {:induction false} LookKeepsQueue(v: View, t: nat, acquired: bool, global: seq<nat>)
    requires QueueOk(v.p)
    ensures var look := Look(v, t, acquired, global);
            && !look.outcome.Exit?
            && SameWork(v.p, look.view.p.(buckets := v.p.buckets, pending := v.p.pending))
            && QueueOk(look.view.p)
            && Contents(v.p.buckets) == Contents(look.view.p.buckets) +
                                        (if look.outcome.Run? then multiset{look.outcome.task} else multiset{})
  {
    LookWork(v, t, acquired, global);
    if HasTask(v.p) {
      DequeueTakes(v.p);
      EnqueueAdds(Dequeued(v.p), NextTask(v.p));
    }
  }

  lemma {:induction false} LatchedWork(v: View, t: nat)
    ensures SameWork(v.p, Finished(v, t).p) && SameWork(v.p, Latched(Finished(v, t), t).p)
    ensures MayExit(Finished(v, t).p) <==> MayExit(v.p)
  {
  }

  lemma {:induction false} RoundKeepsQueue(s: Drain, t: nat, acquired: bool)
    requires QueueOk(s.v.p)
    ensures var p := s.v.p;
            var round := Round(s, t, acquired);
            var q := round.view.p;
            && SameWork(p, q.(buckets := p.buckets, pending := p.pending, exited := p.exited))
            && QueueOk(q)
            && Contents(p.buckets) == Contents(q.buckets) +
                                      (if round.outcome.Run? then multiset{round.outcome.task} else multiset{})
            && (round.outcome.Exit? <==> MayExit(p))
            && q.exited == if MayExit(p) then p.exited + {t} else p.exited
  {
    LatchedWork(s.v, t);
    if !MayExit(s.v.p) {
      LookKeepsQueue(Latched(Finished(s.v, t), t), t, acquired, s.global);
    }
  }

  /** A worker exits only when everything accepted so far has been handed out. */
  lemma {:induction false} ExitMeansHandedOut(s: Drain)
    requires Inv(s) && MayExit(s.v.p)
    ensures s.accepted == s.handed && s.parked == multiset{} && s.transit == 0
    ensures Contents(s.v.p.buckets) == multiset{}
  {
  }

  lemma {:induction false} PollKeepsLedger(s: Drain, t: nat, acquired: bool)
    requires QueueOk(s.v.p) && LedgerOk(s) && Enabled(s, PollPool(t, acquired))
    ensures QueueOk(Next(s, PollPool(t, acquired)).v.p) && LedgerOk(Next(s, PollPool(t, acquired)))
  {
    RoundKeepsQueue(s, t, acquired);
  }

  lemma {:induction false} PollKeepsInv(s: Drain, t: nat, acquired: bool)
    requires Inv(s) && Enabled(s, PollPool(t, acquired))
    ensures Inv(Next(s, PollPool(t, acquired)))
  {
    PollKeepsLedger(s, t, acquired);
    RoundKeepsQueue(s, t, acquired);
    assert !AllExited(s.v.p);
    if MayExit(s.v.p) {
      ExitMeansHandedOut(s);
    }
  }

  lemma {:induction false} SubmitKeepsLedger(s: Drain, task: Task, clearIdle: bool)
    requires QueueOk(s.v.p) && LedgerOk(s)
    ensures var t := Next(s, SubmitTask(task, clearIdle)); QueueOk(t.v.p) && LedgerOk(t)
  {
    SubmitWork(s.v, task, clearIdle, false);
    EnqueueAdds(s.v.p, task);
  }

  lemma {:induction false} SubmitKeepsInv(s: Drain, task: Task, clearIdle: bool)
    requires Inv(s)
    ensures Inv(Next(s, SubmitTask(task, clearIdle)))
  {
    SubmitKeepsLedger(s, task, clearIdle);
    SubmitWork(s.v, task, clearIdle, false);
  }

  lemma {:induction false} HandInKeepsLedger(s: Drain, task: Task, clearIdle: bool)
    requires LedgerOk(s) && Shaped(s.v.p) && task in s.parked
    ensures LedgerOk(Next(s, HandIn(task, clearIdle)))
  {
    SubmitWork(s.v, task, clearIdle, true);
    EnqueueAdds(s.v.p, task);
    MovesOver(Contents(s.v.p.buckets), s.parked, task);
  }

  lemma MovesOver(queued: multiset<Task>, parked: multiset<Task>, task: Task)
    requires task in parked
    ensures queued + parked == (queued + multiset{task}) + (parked - multiset{task})
    ensures |parked - multiset{task}| == |parked| - 1
  {
  }

  lemma {:induction false} HandInKeepsInv(s: Drain, task: Task, clearIdle: bool)
    requires Inv(s) && task in s.parked
    ensures Inv(Next(s, HandIn(task, clearIdle)))
  {
    HandInKeepsLedger(s, task, clearIdle);
    SubmitWork(s.v, task, clearIdle, true);
    EnqueueAdds(s.v.p, task);
  }

  lemma {:induction false} ParkKeepsLedger(s: Drain, task: Task)
    requires LedgerOk(s) && Shaped(s.v.p)
    ensures LedgerOk(Next(s, Park(task)))
  {
  }

  lemma {:induction false} ParkKeepsInv(s: Drain, task: Task)
    requires Inv(s)
    ensures Inv(Next(s, Park(task)))
  {
    ParkKeepsLedger(s, task);
  }

  lemma {:induction false} StartKeepsInv(s: Drain)
    requires Inv(s) && Enabled(s, StartPool)
    ensures Inv(Next(s, StartPool))
  {
    assert s.v.p.exited == {};
  }

  lemma {:induction false} StopKeepsInv(s: Drain, final: bool)
    requires Inv(s)
    ensures Inv(Next(s, StopPool(final)))
  {
  }

  lemma {:induction false} ReleaseKeepsInv(s: Drain)
    requires Inv(s) && Enabled(s, Release)
    ensures Inv(Next(s, Release))
  {
  }

  lemma {:induction false} SameWorkKeepsInv(s: Drain, v: View, global: seq<nat>)
    requires Inv(s) && SameWork(s.v.p, v.p)
    ensures Inv(s.(v := v, global := global))
  {
  }

  lemma {:induction false} NotifyKeepsInv(s: Drain, clearIdle: bool)
    requires Inv(s)
    ensures Inv(Next(s, NotifyPool(clearIdle)))
  {
    SameWorkKeepsInv(s, Notify(s.v, clearIdle), s.global);
  }

  lemma {:induction false} OthersKeepInv(s: Drain, activePools: int, global: seq<nat>, idleTasks: seq<nat>)
    requires Inv(s)
    ensures Inv(Next(s, Others(activePools, global, idleTasks)))
  {
    SameWorkKeepsInv(s, View(s.v.p.(idleTasks := idleTasks), activePools), global);
  }

  lemma {:induction false} NextKeepsInv(s: Drain, step: Step)
    requires Inv(s) && Enabled(s, step)
    ensures Inv(Next(s, step))
  {
    match step
    case StartPool => StartKeepsInv(s);
    case SubmitTask(task, clearIdle) => SubmitKeepsInv(s, task, clearIdle);
    case Park(task) => ParkKeepsInv(s, task);
    case HandIn(task, clearIdle) => HandInKeepsInv(s, task, clearIdle);
    case Release => ReleaseKeepsInv(s);
    case NotifyPool(clearIdle) => NotifyKeepsInv(s, clearIdle);
    case PollPool(t, acquired) => PollKeepsInv(s, t, acquired);
    case StopPool(final) => StopKeepsInv(s, final);
    case Others(activePools, global, idleTasks) => OthersKeepInv(s, activePools, global, idleTasks);
  }

  // ----- Runs -----

  ghost predicate Moves(ss: seq<Drain>, steps: seq<Step>, i: nat)
    requires i < |steps| < |ss|
  {
    Enabled(ss[i], steps[i]) && ss[i + 1] == Next(ss[i], steps[i])
  }

  ghost predicate Path(d: Descriptor, ss: seq<Drain>, steps: seq<Step>) {
    |ss| == |steps| + 1 && ss[0] == Init(d) && forall i :: 0 <= i < |steps| ==> Moves(ss, steps, i)
  }

  lemma {:induction false} PathKeepsInv(d: Descriptor, ss: seq<Drain>, steps: seq<Step>, k: nat)
    requires Path(d, ss, steps) && k < |ss|
    ensures Inv(ss[k]) && ss[k].v.p.descriptor == d
  {
    if k > 0 {
      PathKeepsInv(d, ss, steps, k - 1);
      assert Moves(ss, steps, k - 1);
      NextKeepsInv(ss[k - 1], steps[k - 1]);
      SameDescriptor(ss[k - 1], steps[k - 1]);
    } else {
      ContentsEmpty(ss[0].v.p.buckets);
    }
  }

  lemma {:induction false} SameDescriptor(s: Drain, step: Step)
    requires Inv(s) && Enabled(s, step)
    ensures Next(s, step).v.p.descriptor == s.v.p.descriptor
  {
    match step
    case PollPool(t, acquired) => RoundKeepsQueue(s, t, acquired);
    case SubmitTask(task, clearIdle) => SubmitWork(s.v, task, clearIdle, false);
    case HandIn(task, clearIdle) => SubmitWork(s.v, task, clearIdle, true);
    case NotifyPool(clearIdle) => assert SameWork(s.v.p, Notify(s.v, clearIdle).p);
    case _ =>
  }

  /** Conservation: in every run what was accepted is handed out, queued or parked, each exactly once. */
  lemma {:induction false} NothingIsLost(d: Descriptor, ss: seq<Drain>, steps: seq<Step>, k: nat)
    requires Path(d, ss, steps) && k < |ss|
    ensures ss[k].accepted == ss[k].handed + Contents(ss[k].v.p.buckets) + ss[k].parked
    ensures ss[k].v.p.pending == |Contents(ss[k].v.p.buckets)|
    ensures ss[k].v.p.external == |ss[k].parked| + ss[k].transit
  {
    PathKeepsInv(d, ss, steps, k);
  }

  /** Whenever a worker exits, everything accepted or registered until then has been handed out. */
  lemma {:induction false} DrainedAtExit(
    d: Descriptor, ss: seq<Drain>, steps: seq<Step>, k: nat, t: nat, acquired: bool)
    requires Path(d, ss, steps) && k < |steps| && steps[k] == PollPool(t, acquired)
    requires t in ss[k + 1].v.p.exited
    ensures ss[k].accepted == ss[k].handed && ss[k + 1].accepted == ss[k + 1].handed
  {
    PathKeepsInv(d, ss, steps, k);
    assert Moves(ss, steps, k);
    RoundKeepsQueue(ss[k], t, acquired);
    ExitMeansHandedOut(ss[k]);
  }

  /** Once all workers have exited, only what was registered or accepted after that has not been handed out. */
  lemma {:induction false} DrainedForGood(d: Descriptor, ss: seq<Drain>, steps: seq<Step>, k: nat)
    requires Path(d, ss, steps) && k < |ss| && AllExited(ss[k].v.p)
    ensures ss[k].accepted == ss[k].handed + ss[k].late
    ensures (forall i :: 0 <= i < k && Comes(d, steps[i]) ==> !AllExited(ss[i].v.p)) ==> ss[k].accepted == ss[k].handed
  {
    PathKeepsInv(d, ss, steps, k);
    if forall i :: 0 <= i < k && Comes(d, steps[i]) ==> !AllExited(ss[i].v.p) {
      NoneIsLate(d, ss, steps, k);
    }
  }

  /** A waiter is registered, or a persistent pool accepts a task. */
  predicate Comes(d: Descriptor, step: Step) {
    step.Park? || (step.SubmitTask? && d.persistent)
  }

  lemma {:induction false} NoneIsLate(d: Descriptor, ss: seq<Drain>, steps: seq<Step>, k: nat)
    requires Path(d, ss, steps) && k < |ss|
    requires forall i :: 0 <= i < k && Comes(d, steps[i]) ==> !AllExited(ss[i].v.p)
    ensures ss[k].late == multiset{}
  {
    if k > 0 {
      assert Moves(ss, steps, k - 1);
      NoneIsLate(d, ss, steps, k - 1);
      PathKeepsInv(d, ss, steps, k - 1);
    }
  }

  // ----- What a stop ends -----

  /** The `j`th step is a stop, and for a persistent pool a FINAL one after which no NORMAL one has come. */
  predicate EndedSince(d: Descriptor, steps: seq<Step>, j: nat, k: nat)
    requires j < k <= |steps|
  {
    steps[j].StopPool? && (d.persistent ==> steps[j].final && forall i :: j < i < k ==> steps[i] != StopPool(false))
  }

  ghost predicate Ended(d: Descriptor, steps: seq<Step>, k: nat)
    requires k <= |steps|
  {
    exists j | 0 <= j < k :: EndedSince(d, steps, j, k)
  }

  ghost predicate Stopped(steps: seq<Step>, k: nat)
    requires k <= |steps|
  {
    exists j :: 0 <= j < k && steps[j].StopPool?
  }

  lemma {:induction false} StepFlags(s: Drain, step: Step)
    requires Inv(s) && Enabled(s, step)
    ensures var p, q := s.v.p, Next(s, step).v.p;
            && (q.running <==> if step.StopPool? then p.descriptor.persistent && !step.final else p.running)
            && (q.accept <==> p.accept && (step.StopPool? ==> p.descriptor.persistent))
  {
    match step
    case PollPool(t, acquired) => RoundKeepsQueue(s, t, acquired);
    case SubmitTask(task, clearIdle) => SubmitWork(s.v, task, clearIdle, false);
    case HandIn(task, clearIdle) => SubmitWork(s.v, task, clearIdle, true);
    case NotifyPool(clearIdle) => assert SameWork(s.v.p, Notify(s.v, clearIdle).p);
    case _ =>
  }

  /**
   * In every run a pool runs until its first stop, a persistent one until its latest stop is FINAL, and refuses tasks
   * from its first stop on unless it is persistent.
   */
  lemma {:induction false} StopsExactly(d: Descriptor, ss: seq<Drain>, steps: seq<Step>, k: nat)
    requires Path(d, ss, steps) && k <= |steps|
    ensures ss[k].v.p.running <==> !Ended(d, steps, k)
    ensures ss[k].v.p.accept <==> d.persistent || !Stopped(steps, k)
  {
    if k > 0 {
      StopsExactly(d, ss, steps, k - 1);
      PathKeepsInv(d, ss, steps, k - 1);
      assert Moves(ss, steps, k - 1);
      StepFlags(ss[k - 1], steps[k - 1]);
      EndedMore(d, steps, k);
    }
  }

  lemma {:induction false} EndedMore(d: Descriptor, steps: seq<Step>, k: nat)
    requires 0 < k <= |steps|
    ensures var step := steps[k - 1];
            && (step.StopPool? ==> (Ended(d, steps, k) <==> step.final || !d.persistent))
            && (!step.StopPool? ==> (Ended(d, steps, k) <==> Ended(d, steps, k - 1)))
    ensures Stopped(steps, k) <==> Stopped(steps, k - 1) || steps[k - 1].StopPool?
  {
    var step := steps[k - 1];
    if step.StopPool? && (step.final || !d.persistent) {
      assert EndedSince(d, steps, k - 1, k);
    }
    if Ended(d, steps, k) {
      var j :| 0 <= j < k && EndedSince(d, steps, j, k);
      assert j < k - 1 ==> EndedSince(d, steps, j, k - 1);
    }
    if !step.StopPool? && Ended(d, steps, k - 1) {
      var j :| 0 <= j < k - 1 && EndedSince(d, steps, j, k - 1);
      assert EndedSince(d, steps, j, k);
    }
  }

  /**
   * In every run a round ends its worker if and only if a stop has ended the pool, everything accepted so far has been
   * handed out, and no registration is held.
   */
  lemma {:induction false} ExitsExactly(
    d: Descriptor, ss: seq<Drain>, steps: seq<Step>, k: nat, t: nat, acquired: bool)
    requires Path(d, ss, steps) && k < |steps| && steps[k] == PollPool(t, acquired)
    ensures t in ss[k + 1].v.p.exited <==>
            Ended(d, steps, k) && ss[k].accepted == ss[k].handed && ss[k].transit == 0
    ensures Shaped(ss[k].v.p) && (t in ss[k + 1].v.p.exited <==> Round(ss[k], t, acquired).outcome.Exit?)
  {
    PathKeepsInv(d, ss, steps, k);
    StopsExactly(d, ss, steps, k);
    assert Moves(ss, steps, k);
    RoundKeepsQueue(ss[k], t, acquired);
    NoneIsLeft(ss[k].accepted, ss[k].handed, Contents(ss[k].v.p.buckets), ss[k].parked);
  }

  lemma NoneIsLeft(accepted: multiset<Task>, handed: multiset<Task>, queued: multiset<Task>, parked: multiset<Task>)
    requires accepted == handed + queued + parked
    ensures accepted == handed <==> |queued| == 0 && |parked| == 0
  {
    assert |accepted| == |handed| + |queued| + |parked|;
  }

  /** An unforced submit is accepted unless a stop has come before it; a refused one changes nothing at all. */
  lemma {:induction false} AcceptsExactly(
    d: Descriptor, ss: seq<Drain>, steps: seq<Step>, k: nat, task: Task, clearIdle: bool)
    requires Path(d, ss, steps) && k < |steps| && steps[k] == SubmitTask(task, clearIdle)
    ensures d.persistent || !Stopped(steps, k) ==>
              && ss[k + 1].accepted == ss[k].accepted + multiset{task}
              && Contents(ss[k + 1].v.p.buckets) == Contents(ss[k].v.p.buckets) + multiset{task}
    ensures !d.persistent && Stopped(steps, k) ==> ss[k + 1] == ss[k]
  {
    PathKeepsInv(d, ss, steps, k);
    StopsExactly(d, ss, steps, k);
    assert Moves(ss, steps, k);
    SubmitWork(ss[k].v, task, clearIdle, false);
    EnqueueAdds(ss[k].v.p, task);
  }

  // ----- Priorities -----

  predicate BucketsOk(p: PoolState) {
    && Shaped(p)
    && forall b, i :: 0 <= b < |p.buckets| && 0 <= i < |p.buckets[b]| ==> Priority.Index(p.buckets[b][i].priority) == b
  }

  lemma {:induction false} EnqueueKeepsBuckets(p: PoolState, task: Task)
    requires BucketsOk(p)
    ensures BucketsOk(Enqueued(p, task))
  {
  }

  lemma {:induction false} DequeueKeepsBuckets(p: PoolState)
    requires BucketsOk(p) && HasTask(p)
    ensures BucketsOk(Dequeued(p))
  {
  }

  lemma {:induction false} NextKeepsBuckets(s: Drain, step: Step)
    requires BucketsOk(s.v.p) && Enabled(s, step)
    ensures BucketsOk(Next(s, step).v.p)
  {
    match step
    case SubmitTask(task, clearIdle) =>
      SubmitWork(s.v, task, clearIdle, false);
      EnqueueKeepsBuckets(s.v.p, task);
    case HandIn(task, clearIdle) =>
      SubmitWork(s.v, task, clearIdle, true);
      EnqueueKeepsBuckets(s.v.p, task);
    case PollPool(t, acquired) =>
      RoundKeepsBuckets(s, t, acquired);
    case _ =>
  }

  lemma {:induction false} LookKeepsBuckets(v: View, t: nat, acquired: bool, global: seq<nat>)
    requires BucketsOk(v.p)
    ensures BucketsOk(Look(v, t, acquired, global).view.p)
    ensures Look(v, t, acquired, global).outcome.Run? ==>
              HasTask(v.p) && Look(v, t, acquired, global).outcome.task == NextTask(v.p)
  {
    LookWork(v, t, acquired, global);
    if HasTask(v.p) {
      DequeueKeepsBuckets(v.p);
      EnqueueKeepsBuckets(Dequeued(v.p), NextTask(v.p));
    }
  }

  lemma {:induction false} RoundKeepsBuckets(s: Drain, t: nat, acquired: bool)
    requires BucketsOk(s.v.p)
    ensures BucketsOk(Round(s, t, acquired).view.p)
    ensures Round(s, t, acquired).outcome.Run? ==>
              HasTask(s.v.p) && Round(s, t, acquired).outcome.task == NextTask(s.v.p)
  {
    var w := Latched(Finished(s.v, t), t);
    assert w.p.buckets == s.v.p.buckets;
    LookKeepsBuckets(w, t, acquired, s.global);
  }

  lemma {:induction false} PathKeepsBuckets(d: Descriptor, ss: seq<Drain>, steps: seq<Step>, k: nat)
    requires Path(d, ss, steps) && k < |ss|
    ensures BucketsOk(ss[k].v.p)
  {
    if k > 0 {
      PathKeepsBuckets(d, ss, steps, k - 1);
      assert Moves(ss, steps, k - 1);
      NextKeepsBuckets(ss[k - 1], steps[k - 1]);
    }
  }

  /** The task handed out is the oldest of its level, and no queued task has a better level. */
  lemma {:induction false} BestTaskIsHandedOut(
    d: Descriptor, ss: seq<Drain>, steps: seq<Step>, k: nat, t: nat, acquired: bool, b: nat, i: nat)
    requires Path(d, ss, steps) && k < |steps| && steps[k] == PollPool(t, acquired)
    requires Shaped(ss[k].v.p) && Round(ss[k], t, acquired).outcome.Run?
    requires b < Priority.BUCKETS && i < |ss[k].v.p.buckets[b]|
    ensures var task := Round(ss[k], t, acquired).outcome.task;
            var level := Priority.Index(task.priority);
            && ss[k].v.p.buckets[level] != [] && task == ss[k].v.p.buckets[level][0]
            && level <= Priority.Index(ss[k].v.p.buckets[b][i].priority)
            && forall l :: l in Priority.LEVELS ==> !(task.priority < l <= ss[k].v.p.buckets[b][i].priority)
  {
    PathKeepsBuckets(d, ss, steps, k);
    RoundKeepsBuckets(ss[k], t, acquired);
    Priority.LevelsExactly(ss[k].v.p.buckets[b][i].priority, Round(ss[k], t, acquired).outcome.task.priority);
  }

  // ----- Sleeping while tasks are queued -----

  /** The condition that `get_task` waits for. */
  predicate MayWake(p: PoolState) {
    p.live || p.pendingIdle || MayExit(p)
  }

  predicate LockQueued(p: PoolState) {
    exists b, i :: 0 <= b < |p.buckets| && 0 <= i < |p.buckets[b]| && p.buckets[b][i].hasLock
  }

  /** The pool has gone quiet only because of a task that could not acquire its lock. */
  predicate QuietOk(p: PoolState) {
    Shaped(p) && (HasTask(p) && !p.live ==> LockQueued(p))
  }

  lemma {:induction false} LookIsQuietOk(v: View, t: nat, acquired: bool, global: seq<nat>)
    requires QuietOk(v.p)
    ensures QuietOk(Look(v, t, acquired, global).view.p)
  {
    if v.p.live && HasTask(v.p) {
      var task, q := NextTask(v.p), Dequeued(v.p);
      if task.hasLock && !acquired {
        var b := Priority.Index(task.priority);
        assert Enqueued(q, task).buckets[b][|q.buckets[b]|] == task;
      }
    } else {
      GoIdleWork(v.(p := v.p.(live := false)), t, global);
      GoIdleIsQuiet(v.(p := v.p.(live := false)), t, global);
    }
  }

  lemma GoIdleIsQuiet(v: View, t: nat, global: seq<nat>)
    ensures GoIdle(v, t, global).view.p.live == v.p.live
    ensures GoIdle(v, t, global).view.p.pendingIdle == v.p.pendingIdle
  {
  }

  lemma {:induction false} RoundIsQuietOk(s: Drain, t: nat, acquired: bool)
    requires QuietOk(s.v.p)
    ensures QuietOk(Round(s, t, acquired).view.p)
  {
    var w := Latched(Finished(s.v, t), t);
    assert w.p.buckets == s.v.p.buckets && w.p.live == s.v.p.live;
    LookIsQuietOk(w, t, acquired, s.global);
  }

  lemma {:induction false} NextIsQuietOk(s: Drain, step: Step)
    requires QuietOk(s.v.p) && Enabled(s, step)
    ensures QuietOk(Next(s, step).v.p)
  {
    match step
    case PollPool(t, acquired) => RoundIsQuietOk(s, t, acquired);
    case SubmitTask(_, _) => assert s.v.p.accept ==> Next(s, step).v.p.live;
    case HandIn(_, _) => assert Next(s, step).v.p.live;
    case _ =>
  }

  lemma {:induction false} PathIsQuietOk(d: Descriptor, ss: seq<Drain>, steps: seq<Step>, k: nat)
    requires Path(d, ss, steps) && k < |ss|
    ensures QuietOk(ss[k].v.p)
  {
    if k > 0 {
      PathIsQuietOk(d, ss, steps, k - 1);
      assert Moves(ss, steps, k - 1);
      NextIsQuietOk(ss[k - 1], steps[k - 1]);
    }
  }

  /** No wake-up is lost: workers sleep on a queued task only while some queued task has a lock to acquire. */
  lemma {:induction false} SleepsOnlyOnLocks(d: Descriptor, ss: seq<Drain>, steps: seq<Step>, k: nat)
    requires Path(d, ss, steps) && k < |ss|
    requires Shaped(ss[k].v.p) && HasTask(ss[k].v.p) && !LockQueued(ss[k].v.p)
    ensures MayWake(ss[k].v.p)
  {
    PathIsQuietOk(d, ss, steps, k);
  }

  lemma {:induction false} LookWaits(v: View, t: nat, acquired: bool, global: seq<nat>)
    requires Shaped(v.p) && Look(v, t, acquired, global).outcome.Wait?
    ensures var q := Look(v, t, acquired, global).view.p; !q.live && q.pendingIdle == v.p.pendingIdle
  {
    if !(v.p.live && HasTask(v.p)) {
      GoIdleIsQuiet(v.(p := v.p.(live := false)), t, global);
    }
  }

  /** No busy waiting: a round that ends in the wait leaves nothing that would end the wait. */
  lemma {:induction false} WaitsUntilWoken(
    d: Descriptor, ss: seq<Drain>, steps: seq<Step>, k: nat, t: nat, acquired: bool)
    requires Path(d, ss, steps) && k < |steps| && steps[k] == PollPool(t, acquired)
    ensures Shaped(ss[k].v.p)
    ensures Round(ss[k], t, acquired).outcome.Wait? ==> !MayWake(ss[k + 1].v.p)
  {
    PathKeepsInv(d, ss, steps, k);
    assert Moves(ss, steps, k);
    var w := Finished(ss[k].v, t);
    if Round(ss[k], t, acquired).outcome.Wait? {
      LookWaits(Latched(w, t), t, acquired, ss[k].global);
      LatchedWork(ss[k].v, t);
      LookKeepsQueue(Latched(w, t), t, acquired, ss[k].global);
    }
  }

  /** Tasks are queued and nothing tells the workers so. */
  predicate Asleep(p: PoolState)
    requires Shaped(p)
  {
    !p.live && HasTask(p)
  }

  /** A round that takes the first task, fails to acquire its lock and puts it back. */
  predicate Stalls(s: Drain, step: Step) {
    && step.PollPool? && Shaped(s.v.p) && !MayExit(s.v.p)
    && LatchedReactions(Finished(s.v, step.t).p, step.t) == []
    && s.v.p.live && HasTask(s.v.p) && NextTask(s.v.p).hasLock && !step.acquired
  }

  /** A step that tells the workers to look for a task. */
  predicate Wakes(s: Drain, step: Step) {
    (step.SubmitTask? && s.v.p.accept) || step.HandIn? || step.NotifyPool? || step.StopPool?
  }

  lemma {:induction false} LookSleeps(v: View, t: nat, acquired: bool, global: seq<nat>)
    requires Shaped(v.p)
    ensures var q := Look(v, t, acquired, global).view.p;
            && Shaped(q)
            && (Asleep(q) <==> HasTask(v.p) && (v.p.live ==> NextTask(v.p).hasLock && !acquired))
  {
    if v.p.live && HasTask(v.p) {
      var b := Priority.Index(NextTask(v.p).priority);
      assert Enqueued(Dequeued(v.p), NextTask(v.p)).buckets[b] != [];
    } else {
      GoIdleWork(v.(p := v.p.(live := false)), t, global);
      GoIdleIsQuiet(v.(p := v.p.(live := false)), t, global);
    }
  }

  /**
   * A round that finds the pool live with tasks queued, and neither exits nor dispatches at once, leaves the pool
   * asleep on queued tasks if and only if the first task has a lock that it can not acquire.
   */
  lemma {:induction false} RoundSleepsExactly(s: Drain, t: nat, acquired: bool)
    requires Shaped(s.v.p) && s.v.p.live && HasTask(s.v.p)
    requires !MayExit(s.v.p) && LatchedReactions(Finished(s.v, t).p, t) == []
    ensures var q := Round(s, t, acquired).view.p;
            Shaped(q) && (Asleep(q) <==> NextTask(s.v.p).hasLock && !acquired)
  {
    var w := Latched(Finished(s.v, t), t);
    assert w.p.buckets == s.v.p.buckets && w.p.live;
    LookSleeps(w, t, acquired, s.global);
  }

  lemma {:induction false} RoundSleeps(s: Drain, t: nat, acquired: bool)
    requires Shaped(s.v.p)
    ensures var q := Round(s, t, acquired).view.p;
            Shaped(q) && (Asleep(q) <==> Stalls(s, PollPool(t, acquired)) || Asleep(s.v.p))
  {
    var w := Latched(Finished(s.v, t), t);
    assert w.p.buckets == s.v.p.buckets && w.p.live == s.v.p.live;
    LookSleeps(w, t, acquired, s.global);
  }

  lemma {:induction false} StepSleeps(s: Drain, step: Step)
    requires Shaped(s.v.p) && Enabled(s, step)
    ensures var t := Next(s, step);
            Shaped(t.v.p) && (Asleep(t.v.p) <==> Stalls(s, step) || (Asleep(s.v.p) && !Wakes(s, step)))
  {
    match step
    case PollPool(t, acquired) => RoundSleeps(s, t, acquired);
    case SubmitTask(task, clearIdle) => SubmitWork(s.v, task, clearIdle, false);
    case HandIn(task, clearIdle) => SubmitWork(s.v, task, clearIdle, true);
    case _ =>
  }

  /** The `j`th step is such a round, and no step after it and before the `k`th wakes the workers. */
  ghost predicate StalledSince(ss: seq<Drain>, steps: seq<Step>, j: nat, k: nat)
    requires j < k <= |steps| <= |ss|
  {
    Stalls(ss[j], steps[j]) && forall i :: j < i < k ==> !Wakes(ss[i], steps[i])
  }

  ghost predicate Stalled(ss: seq<Drain>, steps: seq<Step>, k: nat)
    requires k <= |steps| <= |ss|
  {
    exists j | 0 <= j < k :: StalledSince(ss, steps, j, k)
  }

  lemma {:induction false} StalledMore(ss: seq<Drain>, steps: seq<Step>, k: nat, n: nat)
    requires k < n == k + 1 <= |steps| <= |ss|
    ensures Stalled(ss, steps, n) <==>
            Stalls(ss[k], steps[k]) || (Stalled(ss, steps, k) && !Wakes(ss[k], steps[k]))
  {
    if Stalls(ss[k], steps[k]) {
      assert StalledSince(ss, steps, k, n);
    }
    if Stalled(ss, steps, n) {
      var j :| 0 <= j < n && StalledSince(ss, steps, j, n);
      assert j < k ==> StalledSince(ss, steps, j, k);
    }
    if Stalled(ss, steps, k) && !Wakes(ss[k], steps[k]) {
      var j :| 0 <= j < k && StalledSince(ss, steps, j, k);
      assert StalledSince(ss, steps, j, n);
    }
  }

  lemma {:induction false} PathSleeps(d: Descriptor, ss: seq<Drain>, steps: seq<Step>, k: nat)
    requires Path(d, ss, steps) && k < |steps|
    ensures Shaped(ss[k].v.p) && Shaped(ss[k + 1].v.p)
    ensures Asleep(ss[k + 1].v.p) <==> Stalls(ss[k], steps[k]) || (Asleep(ss[k].v.p) && !Wakes(ss[k], steps[k]))
  {
    PathKeepsBuckets(d, ss, steps, k);
    assert Moves(ss, steps, k);
    StepSleeps(ss[k], steps[k]);
  }

  /**
   * In every run the pool is asleep on queued tasks if and only if a round failed to acquire the lock of the first
   * task and no step has woken the workers since.
   */
  lemma {:induction false} AsleepExactly(d: Descriptor, ss: seq<Drain>, steps: seq<Step>, k: nat)
    requires Path(d, ss, steps) && k <= |steps|
    ensures Shaped(ss[k].v.p)
    ensures Asleep(ss[k].v.p) <==> Stalled(ss, steps, k)
  {
    if k == 0 {
      assert !Asleep(Init(d).v.p);
    } else {
      AsleepExactly(d, ss, steps, k - 1);
      PathSleeps(d, ss, steps, k - 1);
      StalledMore(ss, steps, k - 1, k);
    }
  }

  lemma {:induction false} TakesAndReturns(v: View, t: nat, first: Task, second: Task, global: seq<nat>)
    requires Shaped(v.p) && v.p.live && v.p.running && !v.p.pendingIdle
    requires v.p.buckets == [[first, second], [], [], [], []] && first.hasLock && first.priority >= 1000
    ensures var q := Poll(v, t, false, global).view.p;
            q.buckets == [[second, first], [], [], [], []] && !q.live && q.running && !q.pendingIdle
  {
    assert FirstTask(v.p) == 0 && Priority.Index(first.priority) == 0;
    var q := Dequeued(v.p);
    assert q.buckets == [[second], [], [], [], []];
    assert [second] + [first] == [second, first];
    assert Enqueued(q, first).buckets == [[second, first], [], [], [], []];
  }

  lemma {:induction false} SubmitsToFront(v: View, task: Task, bucket: seq<Task>)
    requires Shaped(v.p) && v.p.accept && v.p.buckets == [bucket, [], [], [], []] && task.priority >= 1000
    ensures var w := Submit(v, task, false, false);
            w.p == v.p.(buckets := [bucket + [task], [], [], [], []], pending := v.p.pending + 1, live := true)
  {
    assert Priority.Index(task.priority) == 0;
    assert v.p.buckets[0 := bucket + [task]] == [bucket + [task], [], [], [], []];
  }

  lemma {:induction false} Submitted(s: Drain, task: Task, bucket: seq<Task>) returns (t: Drain)
    requires Shaped(s.v.p) && s.v.p.accept && s.v.p.buckets == [bucket, [], [], [], []] && task.priority >= 1000
    ensures Enabled(s, SubmitTask(task, false)) && t == Next(s, SubmitTask(task, false))
    ensures t.v.p == s.v.p.(buckets := [bucket + [task], [], [], [], []], pending := s.v.p.pending + 1, live := true)
  {
    SubmitsToFront(s.v, task, bucket);
    t := Next(s, SubmitTask(task, false));
  }

  lemma {:induction false} OneMore(d: Descriptor, ss: seq<Drain>, steps: seq<Step>, step: Step, t: Drain)
    returns (ss': seq<Drain>, steps': seq<Step>)
    requires Path(d, ss, steps) && Enabled(ss[|steps|], step) && t == Next(ss[|steps|], step)
    ensures Path(d, ss', steps') && |steps'| == |steps| + 1 && ss'[|steps'|] == t
  {
    ss', steps' := ss + [t], steps + [step];
    forall i | 0 <= i < |steps'| ensures Moves(ss', steps', i) {
      assert i < |steps| ==> Moves(ss, steps, i);
    }
  }

  lemma {:induction false} BothSubmitted(first: Task, second: Task) returns (ss: seq<Drain>, steps: seq<Step>)
    requires first.priority >= 1000 && second.priority >= 1000
    ensures Path(Descriptor(1, false, false), ss, steps) && |steps| == 3
    ensures var p := ss[3].v.p;
            && p.buckets == [[first, second], [], [], [], []] && p.started && p.descriptor.concurrency == 1
            && p.running && p.live && !p.pendingIdle && p.exited == {}
  {
    var d := Descriptor(1, false, false);
    var s1 := Next(Init(d), StartPool);
    assert s1.v.p.buckets == [[], [], [], [], []];
    ss, steps := OneMore(d, [Init(d)], [], StartPool, s1);
    assert [] + [first] == [first] && [first] + [second] == [first, second];
    var s2 := Submitted(s1, first, []);
    ss, steps := OneMore(d, ss, steps, SubmitTask(first, false), s2);
    var s3 := Submitted(s2, second, [first]);
    ss, steps := OneMore(d, ss, steps, SubmitTask(second, false), s3);
  }

  /** A task at the front that can not acquire its lock makes the worker sleep on a task that needs no lock. */
  lemma {:induction false} BlockedTaskDelaysOthers(first: Task, second: Task)
    returns (ss: seq<Drain>, steps: seq<Step>)
    requires first.priority >= 1000 && second.priority >= 1000 && first.hasLock && !second.hasLock
    ensures Path(Descriptor(1, false, false), ss, steps) && |steps| == 4
    ensures ss[4].v.p.buckets == [[second, first], [], [], [], []] && !MayWake(ss[4].v.p)
  {
    ss, steps := BothSubmitted(first, second);
    var s := ss[3];
    TakesAndReturns(s.v, 0, first, second, s.global);
    var t := Next(s, PollPool(0, false));
    ss, steps := OneMore(Descriptor(1, false, false), ss, steps, PollPool(0, false), t);
  }
}
