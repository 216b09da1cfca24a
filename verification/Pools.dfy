/** The pool object with its counting locks; every method does what the step functions say. */
module Pools {
  import opened PoolSteps
  import Priority

  /** A shared atomic integer. */
  class Counter {
    var value: int

    constructor (value: int)
      ensures this.value == value
    {
      this.value := value;
    }
  }

  /** Steps a counter while it exists, and remembers whether that reached the target. */
  class CountingLock {
    const counter: Counter
    const step: int
    const locked: bool

    constructor (counter: Counter, step: int, target: int)
      modifies counter
      ensures this.counter == counter && this.step == step
      ensures counter.value == old(counter.value) + step
      ensures locked <==> counter.value == target
    {
      this.counter, this.step := counter, step;
      counter.value := counter.value + step;
      locked := counter.value == target;
    }

    /** The destructor. */
    method Release()
      modifies counter
      ensures counter.value == old(counter.value) - step
    {
      counter.value := counter.value - step;
    }
  }

  class Pool {
    const descriptor: Descriptor
    const active: Counter
    const activePools: Counter
    var running: bool
    var accept: bool
    var live: bool
    var pendingIdle: bool
    var buckets: seq<seq<Task>>
    var pendingTasks: int
    var externalWaiters: int
    var idleTasks: seq<nat>
    var threadIdle: map<nat, CountingLock?>
    var poolIdle: CountingLock?
    ghost var started: bool
    ghost var initial: bool       // the idle lock is the one made by the constructor
    ghost var busy: set<nat>
    ghost var exited: set<nat>

    ghost predicate Valid()
      reads this
    {
      && active != activePools
      && |buckets| == Priority.BUCKETS
      && (forall t :: t in threadIdle ==> StepsDown(threadIdle[t], active))
      && StepsDown(poolIdle, activePools)
    }

    ghost function State(): PoolState
      reads this, active
    {
      PoolState(descriptor, started, running, accept, live, pendingIdle, buckets, pendingTasks, externalWaiters,
                active.value, set t | t in threadIdle && threadIdle[t] != null,
                if poolIdle == null then NotIdle else if initial then Initial else Earned,
                idleTasks, busy, exited)
    }

    ghost function V(): View
      reads this, active, activePools
    {
      View(State(), activePools.value)
    }

    constructor (descriptor: Descriptor, activePools: Counter)
      modifies activePools
      ensures Valid() && this.activePools == activePools && fresh(active)
      ensures V() == View(Fresh(descriptor), old(activePools.value))
    {
      this.descriptor, this.activePools := descriptor, activePools;
      active := new Counter(0);
      running, accept, live, pendingIdle := true, true, true, false;
      buckets, pendingTasks, externalWaiters, idleTasks := seq(Priority.BUCKETS, _ => []), 0, 0, [];
      threadIdle, poolIdle := map[], null;
      started, initial, busy, exited := false, true, {}, {};
      new;
      if descriptor.countsForIdle {
        activePools.value := activePools.value + 1;
        poolIdle := new CountingLock(activePools, -1, 0);
      }
    }

    method Start()
      requires Valid()
      modifies this`started, active
      ensures Valid() && V() == old(V().(p := PoolSteps.Start(State())))
    {
      active.value := if descriptor.countsForIdle then descriptor.concurrency else 0;
      started := true;
    }

    method Stop(final: bool)
      requires Valid()
      modifies this`live, this`accept, this`running
      ensures Valid() && V() == old(V().(p := PoolSteps.Stop(State(), final)))
    {
      live := true;
      accept := descriptor.persistent;
      running := if final then false else descriptor.persistent;
    }

    method ClearPoolIdle()
      requires Valid()
      modifies this`poolIdle, activePools
      ensures Valid() && V() == old(ClearMark(V()))
    {
      if poolIdle != null {
        poolIdle.Release();
        poolIdle := null;
      }
    }

    method Notify(clearIdle: bool)
      requires Valid()
      modifies this`poolIdle, this`live, activePools
      ensures Valid() && V() == old(PoolSteps.Notify(V(), clearIdle))
    {
      if clearIdle {
        ClearPoolIdle();
      }
      live := true;
    }

    method Enqueue(task: Task)
      requires Valid()
      modifies this`buckets, this`pendingTasks
      ensures Valid() && V() == old(V().(p := Enqueued(State(), task)))
    {
      var bucket := Priority.Index(task.priority);
      pendingTasks := pendingTasks + 1;
      buckets := buckets[bucket := buckets[bucket] + [task]];
    }

    method Submit(task: Task, clearIdle: bool, force: bool)
      requires Valid()
      modifies this, activePools
      ensures Valid() && V() == old(PoolSteps.Submit(V(), task, clearIdle, force))
    {
      if !force && !accept {
        return;
      }
      Enqueue(task);
      Notify(clearIdle);
    }

    method RegisterExternalWaiter(idleRelevant: bool)
      requires Valid()
      modifies this`externalWaiters, this`pendingIdle
      ensures Valid() && V() == old(V().(p := Register(State(), idleRelevant)))
    {
      externalWaiters := externalWaiters + 1;
      if idleRelevant {
        pendingIdle := true;
      }
    }

    method UnregisterExternalWaiter()
      requires Valid()
      modifies this`externalWaiters
      ensures Valid() && V() == old(V().(p := Unregister(State())))
    {
      externalWaiters := externalWaiters - 1;
    }

    /** Makes a lock on the active workers unless this one has it, and collects when that was the last of them. */
    method CollectLocalIdleReactions(t: nat) returns (tasks: seq<nat>)
      requires Valid()
      modifies this`threadIdle, active
      ensures Valid() && V() == old(V().(p := WorkerIdle(State(), t)))
      ensures tasks == old(LocalReactions(State(), t))
    {
      tasks := [];
      if t !in threadIdle || threadIdle[t] == null {
        var lock := new CountingLock(active, -1, 0);
        threadIdle := threadIdle[t := lock];
        if lock.locked {
          tasks := idleTasks;
        }
      }
    }

    method GetLocalIdleTask(t: nat) returns (local: seq<nat>)
      requires Valid()
      modifies this`threadIdle, active
      ensures Valid() && V() == old(V().(p := if CountsIdle(State()) then WorkerIdle(State(), t) else State()))
      ensures local == old(if CountsIdle(State()) then LocalReactions(State(), t) else [])
    {
      if !running || !descriptor.countsForIdle {
        return [];
      }
      local := CollectLocalIdleReactions(t);
    }

    method GetIdleTask(t: nat, global: seq<nat>) returns (outcome: Outcome)
      requires Valid()
      modifies this`threadIdle, this`poolIdle, this`initial, active, activePools
      ensures Valid() && Polled(V(), outcome) == old(GoIdle(V(), t, global))
    {
      if !running || !descriptor.countsForIdle {
        return Wait;
      }
      var local := CollectLocalIdleReactions(t);
      var reactions := [];
      if poolIdle == null && active.value == 0 {
        poolIdle := new CountingLock(activePools, -1, 0);
        initial := false;
        if poolIdle.locked {
          reactions := global;
        }
      }
      outcome := if local + reactions == [] then Wait else Dispatch(local, reactions);
    }

    /** Takes the first task of the first bucket that has one. */
    method TryDequeueTask() returns (got: bool, task: Task)
      requires Valid()
      modifies this`buckets, this`pendingTasks
      ensures Valid() && got == old(HasTask(State()))
      ensures got ==> task == old(NextTask(State())) && V() == old(V().(p := Dequeued(State())))
      ensures !got ==> V() == old(V())
    {
      var i := 0;
      while i < Priority.BUCKETS
        invariant i <= Priority.BUCKETS
        invariant Priority.FirstBucket(buckets, 0) == Priority.FirstBucket(buckets, i)
      {
        if buckets[i] != [] {
          task := buckets[i][0];
          buckets := buckets[i := buckets[i][1..]];
          pendingTasks := pendingTasks - 1;
          return true, task;
        }
        i := i + 1;
      }
      return false, Task(0, 0, false);
    }

    method SetBusy(t: nat)
      requires Valid()
      modifies this`threadIdle, this`poolIdle, this`busy, active, activePools
      ensures Valid() && V() == old(WorkerBusy(V(), t))
    {
      if t in threadIdle && threadIdle[t] != null {
        threadIdle[t].Release();
      }
      threadIdle := threadIdle[t := null];
      busy := busy + {t};
      ClearPoolIdle();
    }

    method LookForTask(t: nat, acquired: bool, global: seq<nat>) returns (outcome: Outcome)
      requires Valid()
      modifies this, active, activePools
      ensures Valid() && Polled(V(), outcome) == old(Look(V(), t, acquired, global))
    {
      if live {
        var got, task := TryDequeueTask();
        if got {
          if !task.hasLock || acquired {
            SetBusy(t);
            return Run(task);
          }
          Enqueue(task);
          live := false;
          return Wait;
        }
      }
      live := false;
      outcome := GetIdleTask(t, global);
    }

    /** Clears the latch of a parked waiter; the check of the pool's own idle reactions is done at once. */
    method ConsumeLatch(t: nat) returns (local: seq<nat>)
      requires Valid()
      modifies this`pendingIdle, this`threadIdle, active
      ensures Valid() && V() == old(Latched(V(), t))
      ensures local == old(LatchedReactions(State(), t))
    {
      local := [];
      if pendingIdle {
        pendingIdle := false;
        local := GetLocalIdleTask(t);
      }
    }

    /** One round of `get_task`, from the loop condition to a result or to the wait. */
    method GetTaskRound(t: nat, acquired: bool, global: seq<nat>) returns (outcome: Outcome)
      requires Valid()
      modifies this, active, activePools
      ensures Valid() && Polled(V(), outcome) == old(Poll(V(), t, acquired, global))
    {
      busy := busy - {t};
      if !running && pendingTasks <= 0 && externalWaiters <= 0 {
        exited := exited + {t};
        return Exit;
      }
      var local := ConsumeLatch(t);
      if local != [] {
        return Dispatch(local, []);
      }
      outcome := LookForTask(t, acquired, global);
    }
  }

  ghost predicate StepsDown(lock: CountingLock?, counter: Counter) {
    lock != null ==> lock.counter == counter && lock.step == -1
  }
}
