/**
 * A thread pool, one step for each section under its mutex and for each whole `submit`. The functions specify the
 * methods of `Pools.Pool`; a view pairs the pool with the scheduler's counter of active pools.
 */
module PoolSteps {
  import Priority

  /** `hasLock` tells whether the task must still acquire a lock when it is taken from the queue. */
  datatype Task = Task(id: nat, priority: int, hasLock: bool)

  datatype Descriptor = Descriptor(concurrency: nat, countsForIdle: bool, persistent: bool)

  /** The pool's own idle lock: none, the one it is constructed with, or one made by an idle worker. */
  datatype Mark = NotIdle | Initial | Earned

  datatype PoolState = PoolState(
    descriptor: Descriptor,
    started: bool,
    running: bool,
    accept: bool,
    live: bool,
    pendingIdle: bool,
    buckets: seq<seq<Task>>,
    pending: int,
    external: int,                 // external waiters
    active: int,
    idleThreads: set<nat>,         // workers that hold an idle lock
    mark: Mark,
    idleTasks: seq<nat>,           // reactions bound to this pool being idle
    busy: set<nat>,                // workers that run a task taken from the queue
    exited: set<nat>
  )

  datatype View = View(p: PoolState, activePools: int)

  datatype Outcome =
    | Exit
    | Run(task: Task)
    | Dispatch(local: seq<nat>, global: seq<nat>)  // submits these idle reactions
    | Wait

  datatype Polled = Polled(view: View, outcome: Outcome)

  function Fresh(d: Descriptor): PoolState {
    PoolState(d, false, true, true, true, false, seq(Priority.BUCKETS, _ => []), 0, 0, 0, {},
              if d.countsForIdle then Initial else NotIdle, [], {}, {})
  }

  function Start(p: PoolState): PoolState {
    p.(started := true, active := if p.descriptor.countsForIdle then p.descriptor.concurrency else 0)
  }

  function Workers(p: PoolState): nat {
    if p.started then p.descriptor.concurrency else 0
  }

  function Shaped(p: PoolState): bool {
    |p.buckets| == Priority.BUCKETS
  }

  function Enqueued(p: PoolState, task: Task): PoolState
    requires Shaped(p)
  {
    var b := Priority.Index(task.priority);
    p.(buckets := p.buckets[b := p.buckets[b] + [task]], pending := p.pending + 1)
  }

  function ClearMark(v: View): View {
    if v.p.mark == NotIdle then v else View(v.p.(mark := NotIdle), v.activePools + 1)
  }

  function Notify(v: View, clearIdle: bool): View {
    var w := if clearIdle then ClearMark(v) else v;
    w.(p := w.p.(live := true))
  }

  function Submit(v: View, task: Task, clearIdle: bool, force: bool): View
    requires Shaped(v.p)
  {
    if !force && !v.p.accept then v else Notify(v.(p := Enqueued(v.p, task)), clearIdle)
  }

  /** A NORMAL stop, or the FINAL one that also ends persistent pools. */
  function Stop(p: PoolState, final: bool): PoolState {
    p.(live := true, accept := p.descriptor.persistent, running := p.descriptor.persistent && !final)
  }

  function Register(p: PoolState, idleRelevant: bool): PoolState {
    p.(external := p.external + 1, pendingIdle := p.pendingIdle || idleRelevant)
  }

  function Unregister(p: PoolState): PoolState {
    p.(external := p.external - 1)
  }

  // ----- Going idle -----

  predicate CountsIdle(p: PoolState) {
    p.running && p.descriptor.countsForIdle
  }

  function WorkerIdle(p: PoolState, t: nat): PoolState {
    if t in p.idleThreads then p else p.(active := p.active - 1, idleThreads := p.idleThreads + {t})
  }

  /** The reactions collected by the worker whose idle lock takes the active workers to zero. */
  function LocalReactions(p: PoolState, t: nat): seq<nat> {
    if t !in p.idleThreads && p.active - 1 == 0 then p.idleTasks else []
  }

  function MarkIdle(v: View): View {
    if v.p.mark == NotIdle && v.p.active == 0 then View(v.p.(mark := Earned), v.activePools - 1) else v
  }

  /** The reactions collected by the pool whose idle lock takes the active pools to zero. */
  function GlobalReactions(v: View, global: seq<nat>): seq<nat> {
    if v.p.mark == NotIdle && v.p.active == 0 && v.activePools - 1 == 0 then global else []
  }

  function WorkerBusy(v: View, t: nat): View {
    var p := v.p;
    var awake := if t in p.idleThreads then p.(active := p.active + 1, idleThreads := p.idleThreads - {t}) else p;
    ClearMark(v.(p := awake.(busy := p.busy + {t})))
  }

  // ----- One round of `get_task` -----

  function FirstTask(p: PoolState): nat
    requires Shaped(p)
  {
    Priority.FirstBucket(p.buckets, 0)
  }

  predicate HasTask(p: PoolState)
    requires Shaped(p)
  {
    FirstTask(p) < Priority.BUCKETS
  }

  function NextTask(p: PoolState): Task
    requires Shaped(p) && HasTask(p)
  {
    p.buckets[FirstTask(p)][0]
  }

  function Dequeued(p: PoolState): PoolState
    requires Shaped(p) && HasTask(p)
  {
    var b := FirstTask(p);
    p.(buckets := p.buckets[b := p.buckets[b][1..]], pending := p.pending - 1)
  }

  predicate MayExit(p: PoolState) {
    !p.running && p.pending <= 0 && p.external <= 0
  }

  function GoIdle(v: View, t: nat, global: seq<nat>): Polled {
    if !CountsIdle(v.p) then Polled(v, Wait)
    else
      var local := LocalReactions(v.p, t);
      var idle := v.(p := WorkerIdle(v.p, t));
      var reactions := GlobalReactions(idle, global);
      Polled(MarkIdle(idle), if local + reactions == [] then Wait else Dispatch(local, reactions))
  }

  /** Looks for a task; `acquired` is whether the lock of that task can be acquired now. */
  function Look(v: View, t: nat, acquired: bool, global: seq<nat>): Polled
    requires Shaped(v.p)
  {
    if v.p.live && HasTask(v.p) then
      var task := NextTask(v.p);
      var w := v.(p := Dequeued(v.p));
      if !task.hasLock || acquired then Polled(WorkerBusy(w, t), Run(task))
      else Polled(w.(p := Enqueued(w.p, task).(live := false)), Wait)
    else GoIdle(v.(p := v.p.(live := false)), t, global)
  }

  /** The latch set for a parked waiter is consumed, and makes the worker count as idle at once. */
  function Latched(v: View, t: nat): View {
    if !v.p.pendingIdle then v
    else
      var q := v.p.(pendingIdle := false);
      v.(p := if CountsIdle(q) then WorkerIdle(q, t) else q)
  }

  function LatchedReactions(p: PoolState, t: nat): seq<nat> {
    if p.pendingIdle && CountsIdle(p) then LocalReactions(p, t) else []
  }

  function Finished(v: View, t: nat): View {
    v.(p := v.p.(busy := v.p.busy - {t}))
  }

  function Poll(v: View, t: nat, acquired: bool, global: seq<nat>): Polled
    requires Shaped(v.p)
  {
    var w := Finished(v, t);
    if MayExit(w.p) then Polled(w.(p := w.p.(exited := w.p.exited + {t})), Exit)
    else if LatchedReactions(w.p, t) != [] then Polled(Latched(w, t), Dispatch(LatchedReactions(w.p, t), []))
    else Look(Latched(w, t), t, acquired, global)
  }
}
