/**
 * Hold and wait: as long as arriving handles leave the tokens that partial holders rely on, the first waiting task
 * waits only for tasks that run, and the system never gets stuck. A more important task that arrives at the wrong
 * moment can break both.
 */
module Deadlocks {
  import opened LockQueue
  import opened GroupTokens
  import opened GroupPromises
  import opened Reservation
  import opened MultiGroup
  import Priority
  import Sums

  // ----- No hold and wait -----

  /** Higher priorities go first, and then lower ids. */
  predicate Outranks(s: System, i: int, j: int)
    requires i in s.tasks && j in s.tasks
  {
    s.tasks[i].priority > s.tasks[j].priority || (s.tasks[i].priority == s.tasks[j].priority && i < j)
  }

  /** The most important, and then oldest, of the tasks that have not started. */
  predicate FirstWaiting(s: System, id: int) {
    && id in s.tasks && !s.tasks[id].started
    && (forall j :: j in s.tasks && j != id && !s.tasks[j].started ==> Outranks(s, id, j))
  }

  /** All tokens of the group are with single-group tasks and with started tasks. */
  predicate HeldByRunning(s: System, g: nat)
    requires g < |s.groups|
  {
    && s.groups[g].running + Locked(s.groups[g]) == s.groups[g].concurrency
    && (forall i :: 0 <= i < |s.groups[g].queue| && s.groups[g].queue[i].locked ==>
          s.groups[g].queue[i].taskId in s.tasks && s.tasks[s.groups[g].queue[i].taskId].started)
  }

  /** The component is held, can be locked now, or waits only for tasks that run. */
  predicate WaitsForRunning(s: System, m: Membership) {
    Joined(s, m) && (Holds(s, m) || CanLock(s.groups[m.group], m.ref) || HeldByRunning(s, m.group))
  }

  /** A task has one handle in a group. */
  lemma {:induction false} OneHandle(s: System, g: nat, i: nat, j: nat)
    requires Ok(s) && g < |s.groups| && i < |s.groups[g].queue| && j < |s.groups[g].queue|
    requires s.groups[g].queue[i].taskId == s.groups[g].queue[j].taskId
    ensures i == j
  {
    assert GroupOk(s, g);
    var a, b := s.groups[g].queue[i], s.groups[g].queue[j];
    assert HandleOk(s, g, a) && HandleOk(s, g, b) && TaskOk(s, a.taskId);
    assert Membership(g, a.ref) == Membership(g, b.ref);
  }

  lemma {:induction false} AheadOfFirst(s: System, id: int, g: nat, at: nat, i: nat)
    requires Ok(s) && FirstWaiting(s, id) && g < |s.groups| && i < at < |s.groups[g].queue|
    requires s.groups[g].queue[at].taskId == id
    ensures s.groups[g].queue[i].locked && s.groups[g].queue[i].taskId in s.tasks
    ensures s.tasks[s.groups[g].queue[i].taskId].started
  {
    assert GroupOk(s, g);
    var h, mine := s.groups[g].queue[i], s.groups[g].queue[at];
    assert HandleOk(s, g, h) && HandleOk(s, g, mine) && !Before(mine, h);
    if h.taskId == id {
      OneHandle(s, g, i, at);
    }
  }

  /** Everything ahead of the first waiting task is locked, so it needs a single token. */
  lemma {:induction false} NothingWaitsAhead(s: System, id: int, g: nat, at: nat, n: nat)
    requires Ok(s) && FirstWaiting(s, id) && g < |s.groups| && n <= at < |s.groups[g].queue|
    requires s.groups[g].queue[at].taskId == id
    ensures Unlocked(s.groups[g].queue, n) == 0
  {
    if n > 0 {
      NothingWaitsAhead(s, id, g, at, n - 1);
      AheadOfFirst(s, id, g, at, n - 1);
    }
  }

  lemma {:induction false} NoLockBehind(q: seq<LockHandle>, tokens: int, waiting: set<int>, at: nat, i: nat)
    requires Reserves(q, tokens, waiting) && tokens <= 0 && at < i < |q| && !q[at].locked && q[i].locked
    ensures q[i].taskId !in waiting
  {
    UnlockedGrows(q, at, i);
  }

  /** Without a free token, every lock in a group where the first waiting task waits belongs to a started task. */
  lemma {:induction false} LockedHasStarted(s: System, id: int, g: nat, at: nat, i: nat)
    requires Ok(s) && FirstWaiting(s, id) && g < |s.groups| && at < |s.groups[g].queue| && i < |s.groups[g].queue|
    requires s.groups[g].queue[at].taskId == id && !s.groups[g].queue[at].locked && s.groups[g].tokens <= 0
    requires s.groups[g].queue[i].locked
    ensures s.groups[g].queue[i].taskId in s.tasks && s.tasks[s.groups[g].queue[i].taskId].started
  {
    assert GroupOk(s, g);
    assert HandleOk(s, g, s.groups[g].queue[i]);
    if i < at {
      AheadOfFirst(s, id, g, at, i);
    } else {
      NoLockBehind(s.groups[g].queue, s.groups[g].tokens, Waiting(s), at, i);
    }
  }

  /**
   * No hold and wait: each group of the first waiting task is already locked by it, can be locked now, or is fully
   * held by tasks that run.
   */
  lemma {:induction false} NoHoldAndWait(s: System, id: int, k: nat)
    requires Ok(s) && FirstWaiting(s, id) && k < |s.tasks[id].locks|
    ensures WaitsForRunning(s, s.tasks[id].locks[k])
  {
    assert TaskOk(s, id) && MembershipOk(s, id, k);
    var m := s.tasks[id].locks[k];
    assert GroupOk(s, m.group);
    var grp := s.groups[m.group];
    var at := Find(grp.queue, m.ref);
    if !grp.queue[at].locked {
      NothingWaitsAhead(s, id, m.group, at, at);
      if grp.tokens <= 0 {
        forall i | 0 <= i < |grp.queue| && grp.queue[i].locked
          ensures grp.queue[i].taskId in s.tasks && s.tasks[grp.queue[i].taskId].started
        {
          LockedHasStarted(s, id, m.group, at, i);
        }
      }
    }
  }

  /** `steps` lead from `s` to `end`; when `yielding`, every arriving handle yields. */
  ghost predicate Leads(s: System, steps: seq<Step>, end: System, yielding: bool)
    decreases |steps|
  {
    if steps == [] then end == s
    else
      && Enabled(s, steps[0]) && (yielding ==> Yielding(s, steps[0]))
      && Leads(Next(s, steps[0]), steps[1..], end, yielding)
  }

  lemma InitIsOk(concurrencies: seq<nat>)
    ensures Ok(NewSystem(concurrencies))
  {
    var s := NewSystem(concurrencies);
    forall g | 0 <= g < |s.groups| ensures GroupOk(s, g) {
      PathKeepsInv(concurrencies[g], [s.groups[g]], [], 0);
    }
  }

  lemma {:induction false} RunIsOk(s: System, steps: seq<Step>, end: System)
    requires Ok(s) && Leads(s, steps, end, true)
    ensures Ok(end)
    decreases |steps|
  {
    if steps != [] {
      NextIsOk(s, steps[0]);
      RunIsOk(Next(s, steps[0]), steps[1..], end);
    }
  }

  /** In every state of every run whose arrivals yield, the first waiting task waits only for running ones. */
  lemma {:induction false} FirstTaskWaitsForRunning(
    concurrencies: seq<nat>, steps: seq<Step>, s: System, id: int, k: nat)
    requires Leads(NewSystem(concurrencies), steps, s, true) && FirstWaiting(s, id) && k < |s.tasks[id].locks|
    ensures WaitsForRunning(s, s.tasks[id].locks[k])
  {
    InitIsOk(concurrencies);
    RunIsOk(NewSystem(concurrencies), steps, s);
    NoHoldAndWait(s, id, k);
  }

  /**
   * The condition is needed: without a free token, a handle that makes its task the first to wait does so only for
   * tasks that run if and only if it yields.
   */
  lemma {:induction false} ArrivalExactly(s: System, id: int, g: nat, priority: int)
    requires Ok(s) && Enabled(s, Join(id, g, priority)) && s.groups[g].tokens <= 0
    requires FirstWaiting(Next(s, Join(id, g, priority)), id)
    ensures WaitsForRunning(Next(s, Join(id, g, priority)), Membership(g, s.groups[g].nextRef)) <==>
            Yielding(s, Join(id, g, priority))
  {
    assert GroupOk(s, g);
    NewCanNotLock(s.groups[g], id, priority);
    YieldingToAll(s, id, g, priority);
    HeldAfterArrival(s, id, g, priority);
  }

  /** Without a free token a new handle is neither locked nor lockable. */
  lemma {:induction false} NewCanNotLock(s: GroupState, taskId: int, priority: int)
    requires Inv(s) && s.tokens <= 0
    ensures var t := NewHandle(s, taskId, priority);
            && |t.buckets| == Priority.BUCKETS && HasRef(t.queue, s.nextRef)
            && !t.queue[Find(t.queue, s.nextRef)].locked && !CanLock(t, s.nextRef)
  {
    var t := NewHandle(s, taskId, priority);
    var p := Created(s, taskId, priority);
    ApplyKeepsInv(s, Create(taskId, priority));
    FindIsUnique(t.queue, p);
    UnlockedGrows(t.queue, p, p + 1);
  }

  /** Whoever arrives first yields, without a free token, only if no waiting task holds a lock. */
  lemma {:induction false} YieldingToAll(s: System, id: int, g: nat, priority: int)
    requires Ok(s) && Enabled(s, Join(id, g, priority)) && s.groups[g].tokens <= 0
    requires FirstWaiting(Next(s, Join(id, g, priority)), id)
    ensures Yielding(s, Join(id, g, priority)) <==>
            forall i :: 0 <= i < |s.groups[g].queue| && s.groups[g].queue[i].locked ==>
              s.groups[g].queue[i].taskId !in Waiting(s)
  {
    forall i | 0 <= i < |s.groups[g].queue|
      ensures var h := LockHandle(s.groups[g].nextRef, id, priority, false, false);
              i < InsertionPoint(s.groups[g].queue, h) ==> s.groups[g].queue[i].taskId !in Waiting(s)
    {
      ArrivedBehind(s, id, g, priority, i);
    }
  }

  /** What is locked ahead of the first waiting task belongs to a started one. */
  lemma {:induction false} ArrivedBehind(s: System, id: int, g: nat, priority: int, i: nat)
    requires Ok(s) && Enabled(s, Join(id, g, priority)) && FirstWaiting(Next(s, Join(id, g, priority)), id)
    requires i < |s.groups[g].queue|
    ensures var p := InsertionPoint(s.groups[g].queue, LockHandle(s.groups[g].nextRef, id, priority, false, false));
            var s' := Next(s, Join(id, g, priority));
            var j := s.groups[g].queue[i].taskId;
            && j in s.tasks && j in s'.tasks && j != id
            && (i < p ==> j !in Waiting(s)) && (s'.tasks[j].started <==> j !in Waiting(s))
  {
    assert GroupOk(s, g);
    var h := s.groups[g].queue[i];
    assert HandleOk(s, g, h);
    var s' := Next(s, Join(id, g, priority));
    if h.taskId in Waiting(s) {
      assert Outranks(s', id, h.taskId);
    }
  }

  lemma {:induction false} HeldAfterArrival(s: System, id: int, g: nat, priority: int)
    requires Ok(s) && Enabled(s, Join(id, g, priority)) && s.groups[g].tokens <= 0
    requires FirstWaiting(Next(s, Join(id, g, priority)), id)
    ensures HeldByRunning(Next(s, Join(id, g, priority)), g) <==>
            forall i :: 0 <= i < |s.groups[g].queue| && s.groups[g].queue[i].locked ==>
              s.groups[g].queue[i].taskId !in Waiting(s)
  {
    var s' := Next(s, Join(id, g, priority));
    assert GroupOk(s, g);
    var was, t := s.groups[g], s'.groups[g];
    var p := Created(was, id, priority);
    ApplyKeepsInv(was, Create(id, priority));
    forall i | 0 <= i < |was.queue|
      ensures var j := was.queue[i].taskId; j in s'.tasks && (s'.tasks[j].started <==> j !in Waiting(s))
    {
      ArrivedBehind(s, id, g, priority, i);
    }
    HeldBoth(s', was.queue, t.queue, p, Waiting(s));
    HeldMeans(s', g);
  }

  /** Without a free token only the owners of the locks matter. */
  lemma {:induction false} HeldMeans(s: System, g: nat)
    requires g < |s.groups| && Inv(s.groups[g]) && s.groups[g].tokens <= 0
    ensures HeldByRunning(s, g) <==> OwnersRun(s, s.groups[g].queue)
  {
  }

  predicate OwnersRun(s: System, q: seq<LockHandle>) {
    forall i :: 0 <= i < |q| && q[i].locked ==> q[i].taskId in s.tasks && s.tasks[q[i].taskId].started
  }

  lemma {:induction false} HeldBoth(s: System, q: seq<LockHandle>, r: seq<LockHandle>, p: nat, waiting: set<int>)
    requires |r| == |q| + 1 && p <= |q| && !r[p].locked
    requires forall i :: 0 <= i < |q| ==> SameHandle(q[i], r[if i < p then i else i + 1])
    requires forall i :: 0 <= i < |q| ==>
               q[i].taskId in s.tasks && (s.tasks[q[i].taskId].started <==> q[i].taskId !in waiting)
    ensures OwnersRun(s, r) <==> forall i :: 0 <= i < |q| && q[i].locked ==> q[i].taskId !in waiting
  {
    if OwnersRun(s, r) {
      forall i | 0 <= i < |q| && q[i].locked ensures q[i].taskId !in waiting {
        assert SameHandle(q[i], r[if i < p then i else i + 1]);
      }
    } else {
      var i :| 0 <= i < |r| && r[i].locked && !(r[i].taskId in s.tasks && s.tasks[r[i].taskId].started);
      assert i != p;
      assert SameHandle(q[if i < p then i else i - 1], r[i]);
    }
  }

  // ----- Progress -----

  /** Nothing runs in the group: no RunningLock is live and no handle belongs to a started task. */
  predicate Quiet(s: System, g: nat)
    requires g < |s.groups|
  {
    && s.groups[g].running == 0 && s.groups[g].concurrency >= 1
    && (forall i :: 0 <= i < |s.groups[g].queue| && s.groups[g].queue[i].taskId in s.tasks ==>
          !s.tasks[s.groups[g].queue[i].taskId].started)
  }

  predicate AllQuiet(s: System, id: int)
    requires id in s.tasks
  {
    forall k :: 0 <= k < |s.tasks[id].locks| ==>
      s.tasks[id].locks[k].group < |s.groups| && Quiet(s, s.tasks[id].locks[k].group)
  }

  lemma {:induction false} QuietGroupIsNotHeld(s: System, g: nat)
    requires g < |s.groups| && GroupOk(s, g) && Quiet(s, g)
    ensures !HeldByRunning(s, g)
  {
    if Locked(s.groups[g]) > 0 {
      var i := Sums.PositiveTerm(s.groups[g].queue, LockWeight);
      assert s.groups[g].queue[i].locked && HandleOk(s, g, s.groups[g].queue[i]);
    }
  }

  lemma {:induction false} TryNextIsQuiet(s: System, id: int, k: nat)
    requires Ok(s) && FirstWaiting(s, id) && AllQuiet(s, id) && Enabled(s, TryNext(id, k))
    ensures var t := Next(s, TryNext(id, k)); t.tasks == s.tasks && FirstWaiting(t, id) && AllQuiet(t, id)
  {
    var t := Next(s, TryNext(id, k));
    forall j | j in t.tasks && j != id && !t.tasks[j].started ensures Outranks(t, id, j) {
      assert Outranks(s, id, j);
    }
  }

  lemma {:induction false} LockedIsHeld(s: GroupState, ref: nat)
    requires DistinctRefs(s.queue) && HasRef(s.queue, ref) && CanLock(s, ref)
    ensures var t := TryLock(s, ref); HasRef(t.queue, ref) && t.queue[Find(t.queue, ref)].locked
  {
    FindIsKept(s.queue, TryLock(s, ref).queue, ref);
  }

  /** The component of the first waiting task that is tried next can be locked when its group is quiet. */
  lemma {:induction false} QuietComponentLocks(s: System, id: int, k: nat)
    requires Ok(s) && FirstWaiting(s, id) && AllQuiet(s, id) && Enabled(s, TryNext(id, k))
    ensures Holds(Next(s, TryNext(id, k)), s.tasks[id].locks[k])
  {
    NoHoldAndWait(s, id, k);
    var m := s.tasks[id].locks[k];
    assert GroupOk(s, m.group);
    QuietGroupIsNotHeld(s, m.group);
    LockedIsHeld(s.groups[m.group], m.ref);
  }

  /** Trying one component does not touch the others. */
  lemma {:induction false} OthersStay(s: System, id: int, k: nat, j: nat)
    requires Ok(s) && Enabled(s, TryNext(id, k)) && j < |s.tasks[id].locks| && j != k
    ensures var t, m := Next(s, TryNext(id, k)), s.tasks[id].locks[j];
            Joined(t, m) && (Holds(s, m) ==> Holds(t, m))
  {
    assert TaskOk(s, id) && MembershipOk(s, id, j) && GroupOk(s, s.tasks[id].locks[j].group);
  }

  /** One more component locks, and all that was held is still held. */
  lemma {:induction false} NextComponentLocks(s: System, id: int, k: nat)
    requires Ok(s) && FirstWaiting(s, id) && AllQuiet(s, id) && Enabled(s, TryNext(id, k))
    ensures var t := Next(s, TryNext(id, k));
            && Ok(t) && t.tasks == s.tasks && FirstWaiting(t, id) && AllQuiet(t, id)
            && (forall j :: 0 <= j <= k ==> Holds(t, s.tasks[id].locks[j]))
  {
    TryNextIsOk(s, id, k);
    TryNextIsQuiet(s, id, k);
    QuietComponentLocks(s, id, k);
    forall j | 0 <= j < k ensures Holds(Next(s, TryNext(id, k)), s.tasks[id].locks[j]) {
      OthersStay(s, id, k, j);
    }
  }

  lemma {:induction false} IsJoined(s: System, id: int, k: nat)
    requires Ok(s) && id in s.tasks && k < |s.tasks[id].locks|
    ensures Joined(s, s.tasks[id].locks[k])
  {
    assert TaskOk(s, id) && MembershipOk(s, id, k) && GroupOk(s, s.tasks[id].locks[k].group);
  }

  /** The tasks once this one has started. */
  function WithStarted(s: System, id: int): map<int, Task>
    requires id in s.tasks
  {
    s.tasks[id := s.tasks[id].(started := true)]
  }

  lemma {:induction false} LockTheRest(s: System, id: int, k: nat) returns (steps: seq<Step>, end: System)
    requires Ok(s) && FirstWaiting(s, id) && AllQuiet(s, id) && k <= |s.tasks[id].locks|
    requires forall j :: 0 <= j < k ==> Holds(s, s.tasks[id].locks[j])
    ensures Leads(s, steps, end, true) && end.tasks == WithStarted(s, id)
    ensures forall j :: 0 <= j < |s.tasks[id].locks| ==> Holds(end, s.tasks[id].locks[j])
    ensures forall i :: 0 <= i < |steps| ==> steps[i] == Start(id) || (steps[i].TryNext? && steps[i].id == id)
    decreases |s.tasks[id].locks| - k
  {
    if k == |s.tasks[id].locks| {
      end := Next(s, Start(id));
      steps := OneFirst(s, Start(id), end, [], end);
    } else {
      IsJoined(s, id, k);
      NextComponentLocks(s, id, k);
      var t := Next(s, TryNext(id, k));
      var more;
      more, end := LockTheRest(t, id, k + 1);
      steps := OneFirst(s, TryNext(id, k), t, more, end);
    }
  }

  lemma {:induction false} OneFirst(s: System, step: Step, t: System, more: seq<Step>, end: System)
    returns (steps: seq<Step>)
    requires Enabled(s, step) && Yielding(s, step) && t == Next(s, step) && Leads(t, more, end, true)
    ensures steps == [step] + more && Leads(s, steps, end, true)
  {
    steps := [step] + more;
    assert steps[1..] == more;
  }

  /** Progress: when nothing runs in its groups, the first waiting task can lock all of them and then starts. */
  lemma {:induction false} FirstTaskStarts(concurrencies: seq<nat>, steps: seq<Step>, s: System, id: int)
    returns (more: seq<Step>, end: System)
    requires Leads(NewSystem(concurrencies), steps, s, true) && FirstWaiting(s, id) && AllQuiet(s, id)
    ensures Leads(s, more, end, true) && end.tasks == WithStarted(s, id)
    ensures forall j :: 0 <= j < |s.tasks[id].locks| ==> Holds(end, s.tasks[id].locks[j])
    ensures forall i :: 0 <= i < |more| ==> more[i] == Start(id) || (more[i].TryNext? && more[i].id == id)
  {
    InitIsOk(concurrencies);
    RunIsOk(NewSystem(concurrencies), steps, s);
    more, end := LockTheRest(s, id, 0);
  }

  /** Every task has a component. */
  predicate AllHaveLocks(s: System) {
    forall id :: id in s.tasks ==> s.tasks[id].locks != []
  }

  /** In every run a task is there from its first component until it has given up the last. */
  lemma {:induction false} TasksHaveLocks(s: System, steps: seq<Step>, end: System, yielding: bool)
    requires AllHaveLocks(s) && Leads(s, steps, end, yielding)
    ensures AllHaveLocks(end)
    decreases |steps|
  {
    if steps != [] {
      TasksHaveLocks(Next(s, steps[0]), steps[1..], end, yielding);
    }
  }

  // ----- The system does not get stuck -----

  /** No task has started, nothing runs, and the next component of every task can not be locked. */
  predicate Stuck(s: System) {
    && (forall g :: 0 <= g < |s.groups| ==> s.groups[g].running == 0)
    && (forall id :: id in s.tasks ==> !s.tasks[id].started && BlockedAt(s, id))
  }

  predicate BlockedAt(s: System, id: int)
    requires id in s.tasks
  {
    exists k :: 0 <= k < |s.tasks[id].locks| && BlockedOn(s, id, k)
  }

  predicate BlockedOn(s: System, id: int, k: nat)
    requires id in s.tasks && k < |s.tasks[id].locks|
  {
    && Enabled(s, TryNext(id, k))
    && !Holds(s, s.tasks[id].locks[k])
    && !CanLock(s.groups[s.tasks[id].locks[k].group], s.tasks[id].locks[k].ref)
  }

  lemma {:induction false} SomeoneIsFirst(s: System, ids: set<int>, any: int) returns (id: int)
    requires any in ids && forall j :: j in ids ==> j in s.tasks
    ensures id in ids && forall j :: j in ids && j != id ==> Outranks(s, id, j)
    decreases |ids|
  {
    id := any;
    if other :| other in ids && other != any {
      var first := SomeoneIsFirst(s, ids - {any}, other);
      id := if Outranks(s, any, first) then any else first;
      forall j | j in ids && j != id ensures Outranks(s, id, j) {
        assert j in ids - {any} && j != first ==> Outranks(s, first, j);
      }
    }
  }

  /** Every group has a token to begin with. */
  predicate Staffed(s: System) {
    forall g :: 0 <= g < |s.groups| ==> s.groups[g].concurrency >= 1
  }

  lemma {:induction false} RunIsStaffed(s: System, steps: seq<Step>, end: System, yielding: bool)
    requires Staffed(s) && Leads(s, steps, end, yielding)
    ensures Staffed(end)
    decreases |steps|
  {
    if steps != [] {
      NextIsStaffed(s, steps[0]);
      RunIsStaffed(Next(s, steps[0]), steps[1..], end, yielding);
    }
  }

  lemma {:induction false} NextIsStaffed(s: System, step: Step)
    requires Staffed(s) && Enabled(s, step)
    ensures Staffed(Next(s, step))
  {
  }

  lemma {:induction false} OkIsNotStuck(s: System, any: int)
    requires Ok(s) && Staffed(s) && any in s.tasks
    ensures !Stuck(s)
  {
    if Stuck(s) {
      var id := SomeoneIsFirst(s, s.tasks.Keys, any);
      assert BlockedAt(s, id);
      var k :| 0 <= k < |s.tasks[id].locks| && BlockedOn(s, id, k);
      var g := s.tasks[id].locks[k].group;
      assert GroupOk(s, g);
      QuietGroupIsNotHeld(s, g);
      NoHoldAndWait(s, id, k);
    }
  }

  /** In no run whose arrivals yield do waiting tasks block one another. */
  lemma {:induction false} YieldingRunsAreNotStuck(concurrencies: seq<nat>, steps: seq<Step>, s: System, id: int)
    requires forall g :: 0 <= g < |concurrencies| ==> concurrencies[g] >= 1
    requires Leads(NewSystem(concurrencies), steps, s, true) && id in s.tasks
    ensures !Stuck(s)
  {
    InitIsOk(concurrencies);
    RunIsOk(NewSystem(concurrencies), steps, s);
    RunIsStaffed(NewSystem(concurrencies), steps, s, true);
    OkIsNotStuck(s, id);
  }

  // ----- Arrivals in order -----

  /** A task that joins a group ranks behind all other tasks that wait, in whichever groups they do. */
  predicate InOrder(s: System, step: Step) {
    step.Join? ==>
      forall j :: j in Waiting(s) && j != step.id ==>
        s.tasks[j].priority > step.priority || (s.tasks[j].priority == step.priority && j < step.id)
  }

  /** `steps` lead from `s` to `end`, and tasks arrive in the order of their ranks. */
  ghost predicate LeadsInOrder(s: System, steps: seq<Step>, end: System)
    decreases |steps|
  {
    if steps == [] then end == s
    else
      && Enabled(s, steps[0]) && InOrder(s, steps[0])
      && LeadsInOrder(Next(s, steps[0]), steps[1..], end)
  }

  lemma RankIsPlace(s: System, g: nat, h: LockHandle, other: LockHandle)
    requires HandleOk(s, g, h)
    ensures Before(h, other) <==>
            || s.tasks[h.taskId].priority > other.priority
            || (s.tasks[h.taskId].priority == other.priority && h.taskId < other.taskId)
  {
  }

  /** Behind the place of a new handle that goes last, no handle belongs to another waiting task. */
  lemma {:induction false} InOrderYields(s: System, step: Step)
    requires Ok(s) && Enabled(s, step) && InOrder(s, step)
    ensures Yielding(s, step)
  {
    if step.Join? {
      var q := s.groups[step.group].queue;
      var h := LockHandle(s.groups[step.group].nextRef, step.id, step.priority, false, false);
      var p := InsertionPoint(q, h);
      assert GroupOk(s, step.group);
      forall i | p <= i < |q| ensures q[i].taskId !in Waiting(s) {
        assert HandleOk(s, step.group, q[i]);
        RankIsPlace(s, step.group, q[i], h);
      }
    }
  }

  lemma {:induction false} InOrderLeads(s: System, steps: seq<Step>, end: System)
    requires Ok(s) && LeadsInOrder(s, steps, end)
    ensures Leads(s, steps, end, true)
    decreases |steps|
  {
    if steps != [] {
      InOrderYields(s, steps[0]);
      NextIsOk(s, steps[0]);
      InOrderLeads(Next(s, steps[0]), steps[1..], end);
    }
  }

  /**
   * Tasks that arrive in the order of their ranks, as tasks of one priority do when each joins all its groups before
   * the next is made, never block one another.
   */
  lemma {:induction false} InOrderIsDeadlockFree(concurrencies: seq<nat>, steps: seq<Step>, s: System, id: int)
    requires forall g :: 0 <= g < |concurrencies| ==> concurrencies[g] >= 1
    requires LeadsInOrder(NewSystem(concurrencies), steps, s) && id in s.tasks
    ensures !Stuck(s)
    ensures FirstWaiting(s, id) ==>
              forall k :: 0 <= k < |s.tasks[id].locks| ==> WaitsForRunning(s, s.tasks[id].locks[k])
  {
    InitIsOk(concurrencies);
    InOrderLeads(NewSystem(concurrencies), steps, s);
    YieldingRunsAreNotStuck(concurrencies, steps, s, id);
    if FirstWaiting(s, id) {
      forall k | 0 <= k < |s.tasks[id].locks| ensures WaitsForRunning(s, s.tasks[id].locks[k]) {
        FirstTaskWaitsForRunning(concurrencies, steps, s, id, k);
      }
    }
  }

  // ----- A more important arrival can deadlock -----

  lemma StuckCanNotStart(s: System, id: int)
    requires Stuck(s)
    ensures !Enabled(s, Start(id))
  {
    assert id in s.tasks ==> BlockedAt(s, id);
  }

  lemma TriesInOrder(s: System, id: int, j: nat, k: nat)
    requires Enabled(s, TryNext(id, k)) && j < |s.tasks[id].locks|
    ensures j < k ==> Holds(s, s.tasks[id].locks[j])
  {
  }

  /** Whatever component a blocked task can try is held already or can not be locked. */
  lemma {:induction false} CanNotAdvance(s: System, id: int, k: nat)
    requires Enabled(s, TryNext(id, k)) && BlockedAt(s, id)
    ensures var m := s.tasks[id].locks[k]; Holds(s, m) || !CanLock(s.groups[m.group], m.ref)
  {
    var b :| 0 <= b < |s.tasks[id].locks| && BlockedOn(s, id, b);
    TriesInOrder(s, id, b, k);
    TriesInOrder(s, id, k, b);
  }

  lemma {:induction false} BlockedStays(s: System, id: int, k: nat)
    requires Enabled(s, TryNext(id, k)) && BlockedAt(s, id)
    ensures Next(s, TryNext(id, k)) == s
  {
    CanNotAdvance(s, id, k);
    var m := s.tasks[id].locks[k];
    assert TryLock(s.groups[m.group], m.ref) == s.groups[m.group];
  }

  /** A stuck system stays as it is until another task arrives, or the pool of a task refuses it. */
  lemma {:induction false} StuckStaysStuck(s: System, step: Step)
    requires Stuck(s) && Enabled(s, step) && !step.Join? && !step.Leave? && !(step.Fast? && !step.op.Release?)
    ensures Next(s, step) == s
  {
    match step {
      case TryNext(id, k) =>
        assert BlockedAt(s, id);
        BlockedStays(s, id, k);
      case Start(id) => StuckCanNotStart(s, id);
      case _ =>
    }
  }

  const Low := LockHandle(0, 1, 500, false, false)
  const High := LockHandle(1, 2, 750, false, false)

  // The states of a group of concurrency 1 in the run below.
  const Empty := GroupTokens.Init(1)
  const LowWaits := Empty.(queue := [Low], slowPending := 1, nextRef := 1)
  const LowHolds := LowWaits.(tokens := 0, queue := [Low.(locked := true)])
  const HighBehindHolder := LowHolds.(queue := [High, Low.(locked := true)], slowPending := 2, nextRef := 2)
  const HighBeforeLow := LowWaits.(queue := [High, Low], slowPending := 2, nextRef := 2)

  lemma {:induction false} GroupSteps()
    ensures NewHandle(Empty, 1, 500) == LowWaits
    ensures HasRef(LowWaits.queue, 0) && TryLock(LowWaits, 0) == LowHolds
    ensures NewHandle(LowHolds, 2, 750) == HighBehindHolder
    ensures NewHandle(LowWaits, 2, 750) == HighBeforeLow
  {
    assert Inserted([], Low) == [Low];
    assert LowWaits.queue[0].ref == 0;
    assert Unlocked(LowWaits.queue, 1) == 1;
    InsertAhead(LowHolds, High);
    InsertAhead(LowWaits, High);
  }

  lemma {:induction false} OneMoreStep(s: System, step: Step, steps: seq<Step>, end: System)
    requires Enabled(s, step) && Leads(Next(s, step), steps, end, false)
    ensures Leads(s, [step] + steps, end, false)
  {
    assert ([step] + steps)[1..] == steps;
  }

  /** What `Join` does to the tasks, with the concatenation carried out. */
  lemma JoinStep(s: System, id: int, g: nat, priority: int, t: GroupState, locks: seq<Membership>)
    requires Enabled(s, Join(id, g, priority)) && NewHandle(s.groups[g], id, priority) == t
    requires locks == (if id in s.tasks then s.tasks[id].locks else []) + [Membership(g, s.groups[g].nextRef)]
    ensures Next(s, Join(id, g, priority)) == System(s.groups[g := t], s.tasks[id := Task(priority, locks, false)])
  {
  }

  /** Task 1 joins both groups and locks the first. */
  lemma {:induction false} LowArrives(steps: seq<Step>, end: System) returns (all: seq<Step>)
    requires Leads(System([LowHolds, LowWaits], map[1 := Task(500, [Membership(0, 0), Membership(1, 0)], false)]),
                   steps, end, false)
    ensures Leads(NewSystem([1, 1]), all, end, false)
  {
    GroupSteps();
    var s0 := NewSystem([1, 1]);
    assert s0.groups == [Empty, Empty];
    JoinStep(s0, 1, 0, 500, LowWaits, [Membership(0, 0)]);
    var s1 := Next(s0, Join(1, 0, 500));
    JoinStep(s1, 1, 1, 500, LowWaits, [Membership(0, 0), Membership(1, 0)]);
    var s2 := Next(s1, Join(1, 1, 500));
    assert s2 == System([LowWaits, LowWaits], map[1 := Task(500, [Membership(0, 0), Membership(1, 0)], false)]);
    LowLocks(s2);
    OneMoreStep(s2, TryNext(1, 0), steps, end);
    OneMoreStep(s1, Join(1, 1, 500), [TryNext(1, 0)] + steps, end);
    OneMoreStep(s0, Join(1, 0, 500), [Join(1, 1, 500)] + ([TryNext(1, 0)] + steps), end);
    all := [Join(1, 0, 500)] + ([Join(1, 1, 500)] + ([TryNext(1, 0)] + steps));
  }

  lemma {:induction false} LowLocks(s: System)
    requires s == System([LowWaits, LowWaits], map[1 := Task(500, [Membership(0, 0), Membership(1, 0)], false)])
    ensures Enabled(s, TryNext(1, 0))
    ensures Next(s, TryNext(1, 0)) == s.(groups := [LowHolds, LowWaits])
  {
    GroupSteps();
  }

  /** Then the more important task 2 joins both, ahead of task 1, and neither can go on. */
  lemma {:induction false} PrioritiesCanDeadlock() returns (steps: seq<Step>, s: System)
    ensures Leads(NewSystem([1, 1]), steps, s, false) && Stuck(s) && s.tasks.Keys == {1, 2}
  {
    GroupSteps();
    var s3 := System([LowHolds, LowWaits], map[1 := Task(500, [Membership(0, 0), Membership(1, 0)], false)]);
    JoinStep(s3, 2, 0, 750, HighBehindHolder, [Membership(0, 1)]);
    var s4 := Next(s3, Join(2, 0, 750));
    JoinStep(s4, 2, 1, 750, HighBeforeLow, [Membership(0, 1), Membership(1, 1)]);
    s := Next(s4, Join(2, 1, 750));
    OneMoreStep(s4, Join(2, 1, 750), [], s);
    OneMoreStep(s3, Join(2, 0, 750), [Join(2, 1, 750)] + [], s);
    steps := LowArrives([Join(2, 0, 750)] + ([Join(2, 1, 750)] + []), s);
    BlockedHandles(s);
  }

  lemma {:induction false} InsertAhead(s: GroupState, h: LockHandle)
    requires |s.queue| == 1 && !Before(s.queue[0], h)
    ensures Inserted(s.queue, h) == [h] + s.queue
  {
  }

  /** In the final state of that run task 1 waits for B, reserved for task 2, and task 2 waits for A. */
  lemma {:induction false} BlockedHandles(s: System)
    requires |s.groups| == 2 && s.tasks.Keys == {1, 2}
    requires s.tasks[1] == Task(500, [Membership(0, 0), Membership(1, 0)], false)
    requires s.tasks[2] == Task(750, [Membership(0, 1), Membership(1, 1)], false)
    requires forall g :: 0 <= g < 2 ==>
               && s.groups[g].running == 0 && |s.groups[g].buckets| == Priority.BUCKETS
               && |s.groups[g].queue| == 2 && s.groups[g].queue[0].ref == 1 && s.groups[g].queue[1].ref == 0
               && !s.groups[g].queue[0].locked
    requires s.groups[0].queue[1].locked && s.groups[0].tokens == 0
    requires !s.groups[1].queue[1].locked && s.groups[1].tokens == 1
    ensures Stuck(s)
  {
    var a, b := s.groups[0], s.groups[1];
    assert a.queue[1].ref == 0 && b.queue[1].ref == 0 && a.queue[0].ref == 1;
    assert Find(a.queue, 0) == 1 && Find(b.queue, 0) == 1 && Find(a.queue, 1) == 0;
    assert Unlocked(a.queue, 0) == 0 && Unlocked(a.queue, 1) == 1;
    assert Unlocked(b.queue, 1) == 1 && Unlocked(b.queue, 2) == 2;
    assert Holds(s, s.tasks[1].locks[0]);
    assert !CanLock(b, 0) && BlockedOn(s, 1, 1);
    assert !CanLock(a, 1) && BlockedOn(s, 2, 0);
  }
}
