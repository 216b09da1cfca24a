/** The scheduler's routing of tasks: groups made on demand, the fast path of one group, and locks over several. */
module Schedulers {
  import opened LockQueue
  import opened GroupTokens
  import opened Groups
  import opened CombinedLocks
  import opened Pools
  import PoolDrain
  import PoolSteps
  import Priority

  /** Inline: the caller runs the task now, holding what has been locked for it. */
  datatype Route = Inline | Pooled | Waiting

  /** The pool after a task has been routed to it. */
  ghost function Delivered(v: PoolSteps.View, task: PoolSteps.Task, clearIdle: bool, relevant: bool, route: Route)
    : PoolSteps.View
    requires PoolSteps.Shaped(v.p)
  {
    match route
    case Inline => v
    case Pooled => PoolSteps.Submit(v, task, clearIdle, false)
    case Waiting => v.(p := PoolSteps.Register(v.p, relevant))
  }

  /**
   * A pooled task is queued unless the pool refuses it, and then wakes the pool and on demand ends its idleness; a
   * waiting one keeps the pool from ending; an inline one does not concern it.
   */
  lemma {:induction false} DeliveredExactly(
    v: PoolSteps.View, task: PoolSteps.Task, clearIdle: bool, relevant: bool, route: Route)
    requires PoolSteps.Shaped(v.p)
    ensures var w := Delivered(v, task, clearIdle, relevant, route);
            var queued := route == Pooled && v.p.accept;
            && PoolDrain.Contents(w.p.buckets) ==
               PoolDrain.Contents(v.p.buckets) + (if queued then multiset{task} else multiset{})
            && w.p.external == v.p.external + (if route == Waiting then 1 else 0)
            && (w.p.pendingIdle <==> v.p.pendingIdle || (route == Waiting && relevant))
            && (w.p.live <==> v.p.live || queued)
            && (w.p.mark == PoolSteps.NotIdle <==> v.p.mark == PoolSteps.NotIdle || (queued && clearIdle))
  {
    PoolDrain.EnqueueAdds(v.p, task);
  }

  /** What the group of a task has decided about it. */
  ghost predicate Entered(s: GroupState, t: GroupState, id: nat, priority: int, runInline: bool, route: Route)
    requires |s.buckets| == Priority.BUCKETS
  {
    && (route == Inline <==> runInline && s.slowPending <= 0 && s.tokens > 0)
    && (route == Pooled ==> s.slowPending == 0 && s.tokens > 0)
    && (route == Waiting ==> s.slowPending != 0 || s.tokens <= 0)
    && t == if route == Inline then TryAcquire(s) else TrySubmit(s, id, priority)
  }

  /** A new handle that has been locked at once. */
  function Started(s: GroupState, taskId: int, priority: int): GroupState {
    NewRefIsThere(s, taskId, priority);
    TryLock(NewHandle(s, taskId, priority), s.nextRef)
  }

  predicate CanStart(s: GroupState, taskId: int, priority: int) {
    NewRefIsThere(s, taskId, priority);
    CanLock(NewHandle(s, taskId, priority), s.nextRef)
  }

  /** A new handle can be locked at once if and only if tokens are free for all unlocked handles that go first. */
  lemma {:induction false} StartsExactly(s: GroupState, taskId: int, priority: int) returns (ahead: nat)
    requires Inv(s)
    ensures ahead <= |s.queue| && (CanStart(s, taskId, priority) <==> Unlocked(s.queue, ahead) < s.tokens)
    ensures forall i :: 0 <= i < |s.queue| ==>
              (i < ahead <==> s.queue[i].priority > priority ||
                              (s.queue[i].priority == priority && s.queue[i].taskId < taskId))
    ensures var t := Started(s, taskId, priority);
            t.tokens == if CanStart(s, taskId, priority) then s.tokens - 1 else s.tokens
  {
    var h := LockHandle(s.nextRef, taskId, priority, false, false);
    var t := NewHandle(s, taskId, priority);
    var p := InsertionPoint(s.queue, h);
    ahead := InsertedPlace(s.queue, h);
    assert (s.queue[..ahead] + [h] + s.queue[ahead..])[ahead] == h;
    assert !HasRef(s.queue, s.nextRef);
    assert Inserted(s.queue, h)[p].ref == s.nextRef;
    ApplyKeepsInv(s, Create(taskId, priority));
    assert t.queue[ahead].ref == s.nextRef && !t.queue[ahead].locked;
    FindIsUnique(t.queue, ahead);
    NotifyKeepsCounts(Inserted(s.queue, h), s.tokens, ahead + 1);
    UnlockedOfWith(s.queue, p, h, ahead + 1);
    assert p == ahead;
  }

  class Scheduler {
    const concurrency: nat -> int      // of the group with a descriptor
    var groups: map<nat, Group>

    ghost predicate Valid()
      reads this, groups.Values
    {
      && (forall d :: d in groups ==>
            groups[d].concurrency == concurrency(d) && |groups[d].waitBuckets| == Priority.BUCKETS)
      && (forall d, e :: d in groups && e in groups && d != e ==> groups[d] != groups[e])
    }

    /** A group that has not been made yet is as it will be when it is made. */
    ghost function StateOf(d: nat): GroupState
      reads this, groups.Values
    {
      if d in groups then groups[d].State() else Init(concurrency(d))
    }

    constructor (concurrency: nat -> int)
      ensures Valid() && groups == map[]
    {
      this.concurrency := concurrency;
      groups := map[];
    }

    method GetGroup(d: nat) returns (g: Group)
      requires Valid()
      modifies this`groups
      ensures Valid() && d in groups && groups[d] == g
      ensures d in old(groups) ==> groups == old(groups)
      ensures d !in old(groups) ==> fresh(g) && groups == old(groups)[d := g]
      ensures forall e :: StateOf(e) == old(StateOf(e))
    {
      if d !in groups {
        var made := new Group(concurrency(d));
        groups := groups[d := made];
      }
      g := groups[d];
    }

    /** Groups are only ever added. */
    twostate predicate Kept()
      reads this
    {
      && (forall e :: e in old(groups) ==> e in groups && groups[e] == old(groups)[e])
      && (forall e :: e in groups && e !in old(groups) ==> fresh(groups[e]))
    }

    /** The groups as they were. */
    twostate function Was(): (was: nat -> GroupState)
      reads this, groups.Values
      ensures forall d :: was(d) == old(StateOf(d))
    {
      (d: nat) => old(StateOf(d))
    }

    /** The lock has the handles that were created at these groups, in order. */
    ghost predicate LocksOf(was: nat -> GroupState, lock: CombinedLock, descs: seq<nat>)
      reads this, lock
    {
      && |lock.locks| == |descs|
      && forall i :: 0 <= i < |descs| ==>
           descs[i] in groups && lock.locks[i] == GroupLock(groups[descs[i]], was(descs[i]).nextRef)
    }

    /** A handle has been created at each of these groups, and nothing else has changed. */
    ghost predicate Queued(was: nat -> GroupState, taskId: int, priority: int, descs: seq<nat>)
      reads this, groups.Values
    {
      forall e :: StateOf(e) == if e in descs then NewHandle(was(e), taskId, priority) else was(e)
    }

    method JoinGroup(lock: CombinedLock, taskId: int, priority: int, g: Group)
      requires lock.Valid() && forall l :: l in lock.locks ==> l.group != g
      modifies g, lock
      ensures lock.Valid() && lock.locks == old(lock.locks) + [GroupLock(g, old(g.State()).nextRef)]
      ensures g.State() == NewHandle(old(g.State()), taskId, priority)
      ensures |g.waitBuckets| == old(|g.waitBuckets|)
    {
      NewRefIsThere(g.State(), taskId, priority);
      var ref := g.Lock(taskId, priority);
      lock.Add(GroupLock(g, ref));
    }

    /** Adds one group to a combined lock. */
    method Join(lock: CombinedLock, taskId: int, priority: int, d: nat)
      requires Valid() && lock.Valid()
      requires forall l :: l in lock.locks ==> l.group in groups.Values
      requires d in groups ==> forall l :: l in lock.locks ==> l.group != groups[d]
      modifies this`groups, groups.Values, lock
      ensures Valid() && lock.Valid() && Kept() && d in groups
      ensures lock.locks == old(lock.locks) + [GroupLock(groups[d], old(StateOf(d)).nextRef)]
      ensures StateOf(d) == NewHandle(old(StateOf(d)), taskId, priority)
      ensures forall e :: e != d ==> StateOf(e) == old(StateOf(e))
    {
      var g := GetGroup(d);
      assert g.State() == old(StateOf(d));
      JoinGroup(lock, taskId, priority, g);
    }

    method JoinNext(
      lock: CombinedLock, taskId: int, priority: int, done: seq<nat>, d: nat, ghost was: nat -> GroupState)
      requires Valid() && lock.Valid() && d !in done
      requires LocksOf(was, lock, done) && Queued(was, taskId, priority, done)
      modifies this`groups, groups.Values, lock
      ensures Valid() && lock.Valid() && Kept()
      ensures LocksOf(was, lock, done + [d]) && Queued(was, taskId, priority, done + [d])
    {
      assert StateOf(d) == was(d);
      Join(lock, taskId, priority, d);
    }

    /** A lock over the groups, with a handle at each, in their order; without groups there is none. */
    method GetGroupsLock(taskId: int, priority: int, descs: seq<nat>) returns (lock: CombinedLock?)
      requires Valid()
      requires forall i, j :: 0 <= i < j < |descs| ==> descs[i] != descs[j]
      modifies this`groups, groups.Values
      ensures Valid() && Kept() && Queued(Was(), taskId, priority, descs)
      ensures lock == null <==> descs == []
      ensures lock != null ==> fresh(lock) && lock.Valid() && LocksOf(Was(), lock, descs)
    {
      if descs == [] {
        return null;
      }
      ghost var was := Was();
      lock := new CombinedLock();
      var i := 0;
      while i < |descs|
        invariant i <= |descs| && lock != null && fresh(lock)
        invariant Valid() && lock.Valid() && Kept()
        invariant LocksOf(was, lock, descs[..i]) && Queued(was, taskId, priority, descs[..i])
      {
        assert descs[..i + 1] == descs[..i] + [descs[i]] && descs[i] !in descs[..i];
        JoinNext(lock, taskId, priority, descs[..i], descs[i], was);
        i := i + 1;
      }
      assert descs[..i] == descs;
    }

    /** Acquires a combined lock of these groups in order; `n` of them are held afterwards. */
    method LockGroups(lock: CombinedLock, descs: seq<nat>, ghost refs: seq<nat>) returns (ok: bool, ghost n: nat)
      requires Valid() && lock.Valid() && |lock.locks| == |descs| == |refs|
      requires forall i, j :: 0 <= i < j < |descs| ==> descs[i] != descs[j]
      requires forall i :: 0 <= i < |descs| ==>
                 descs[i] in groups && lock.locks[i] == GroupLock(groups[descs[i]], refs[i])
      modifies groups.Values
      ensures Valid() && n <= |descs| && (ok <==> n == |descs|)
      ensures forall i :: 0 <= i < n ==>
                && HasRef(old(StateOf(descs[i])).queue, refs[i]) && CanLock(old(StateOf(descs[i])), refs[i])
                && StateOf(descs[i]) == TryLock(old(StateOf(descs[i])), refs[i])
      ensures n < |descs| ==>
                HasRef(old(StateOf(descs[n])).queue, refs[n]) && !CanLock(old(StateOf(descs[n])), refs[n])
      ensures forall e :: e !in descs[..n] ==> StateOf(e) == old(StateOf(e))
    {
      ok, n := lock.Lock();
    }

    /** What the group does with a task of its own: run inline, let it run in its pool, or keep it waiting. */
    method EnterGroup(id: nat, priority: int, d: nat, runInline: bool) returns (route: Route)
      requires Valid()
      modifies this`groups, groups.Values
      ensures Valid() && Kept()
      ensures forall e :: e != d ==> StateOf(e) == old(StateOf(e))
      ensures Entered(old(StateOf(d)), StateOf(d), id, priority, runInline, route)
    {
      var g := GetGroup(d);
      route := Enter(g, id, priority, runInline);
    }

    method Enter(g: Group, id: nat, priority: int, runInline: bool) returns (route: Route)
      requires |g.waitBuckets| == Priority.BUCKETS
      modifies g
      ensures Entered(old(g.State()), g.State(), id, priority, runInline, route)
    {
      if runInline {
        var acquired := g.TryAcquireRunningLock();
        if acquired {
          return Inline;
        }
      }
      var submitted := g.TrySubmit(id, priority);
      route := if submitted then Pooled else Waiting;
    }

    /** A task of one group goes to its pool with a running lock, or is registered there as an external waiter. */
    method SubmitToGroup(id: nat, priority: int, d: nat, runInline: bool, pool: Pool, clearIdle: bool, relevant: bool)
      returns (route: Route)
      requires Valid() && pool.Valid()
      modifies this`groups, groups.Values, pool, pool.active, pool.activePools
      ensures Valid() && Kept() && pool.Valid()
      ensures forall e :: e != d ==> StateOf(e) == old(StateOf(e))
      ensures Entered(old(StateOf(d)), StateOf(d), id, priority, runInline, route)
      ensures pool.V() == Delivered(old(pool.V()), PoolSteps.Task(id, priority, false), clearIdle, relevant, route)
    {
      ghost var was := pool.V();
      route := EnterGroup(id, priority, d, runInline);
      assert pool.V() == was;
      match route
      case Inline =>
      case Pooled => pool.Submit(PoolSteps.Task(id, priority, false), clearIdle, false);
      case Waiting => pool.RegisterExternalWaiter(relevant);
    }

    /** A task of no group or of several: handles everywhere first, then inline if all can be locked, else queued. */
    method SubmitWithLock(id: nat, priority: int, descs: seq<nat>, runInline: bool, pool: Pool, clearIdle: bool)
      returns (route: Route, ghost n: nat)
      requires Valid() && pool.Valid()
      requires forall i, j :: 0 <= i < j < |descs| ==> descs[i] != descs[j]
      modifies this`groups, groups.Values, pool, pool.active, pool.activePools
      ensures Valid() && Kept() && pool.Valid() && route != Waiting && n <= |descs|
      ensures route == Inline <==> runInline && n == |descs|
      ensures !runInline ==> n == 0
      ensures Advanced(id, priority, descs, n)
      ensures runInline && n < |descs| ==> !CanStart(old(StateOf(descs[n])), id, priority)
      ensures pool.V() == Delivered(old(pool.V()), PoolSteps.Task(id, priority, descs != []), clearIdle, false, route)
    {
      ghost var was := pool.V();
      route, n := EnterGroups(id, priority, descs, runInline);
      assert pool.V() == was;
      if route == Pooled {
        pool.Submit(PoolSteps.Task(id, priority, descs != []), clearIdle, false);
      }
    }

    /** Handles have been created at these groups, and the first `n` of them locked. */
    twostate predicate Advanced(id: nat, priority: int, descs: seq<nat>, n: nat)
      requires n <= |descs|
      reads this, groups.Values
    {
      forall e :: StateOf(e) ==
        if e in descs[..n] then Started(old(StateOf(e)), id, priority)
        else if e in descs then NewHandle(old(StateOf(e)), id, priority)
        else old(StateOf(e))
    }

    method EnterGroups(id: nat, priority: int, descs: seq<nat>, runInline: bool) returns (route: Route, ghost n: nat)
      requires Valid()
      requires forall i, j :: 0 <= i < j < |descs| ==> descs[i] != descs[j]
      modifies this`groups, groups.Values
      ensures Valid() && Kept() && route != Waiting && n <= |descs|
      ensures route == Inline <==> runInline && n == |descs|
      ensures !runInline ==> n == 0
      ensures Advanced(id, priority, descs, n)
      ensures runInline && n < |descs| ==> !CanStart(old(StateOf(descs[n])), id, priority)
    {
      n := 0;
      var lock := GetGroupsLock(id, priority, descs);
      if !runInline {
        return Pooled, 0;
      }
      if lock == null {
        return Inline, 0;
      }
      ghost var refs := seq(|descs|, i requires 0 <= i < |descs| => old(StateOf(descs[i])).nextRef);
      var ok, held := LockGroups(lock, descs, refs);
      n := held;
      route := if ok then Inline else Pooled;
    }

    /** Routes a task: the fast path for exactly one group, a combined lock otherwise. */
    method Submit(
      id: nat, priority: int, descs: seq<nat>, runInline: bool, pool: Pool, clearIdle: bool, relevant: bool)
      returns (route: Route, ghost n: nat)
      requires Valid() && pool.Valid()
      requires forall i, j :: 0 <= i < j < |descs| ==> descs[i] != descs[j]
      modifies this`groups, groups.Values, pool, pool.active, pool.activePools
      ensures Valid() && Kept() && pool.Valid() && n <= |descs|
      ensures |descs| == 1 ==>
                && Entered(old(StateOf(descs[0])), StateOf(descs[0]), id, priority, runInline, route)
                && forall e :: e != descs[0] ==> StateOf(e) == old(StateOf(e))
      ensures |descs| != 1 ==>
                && Advanced(id, priority, descs, n) && route != Waiting
                && (route == Inline <==> runInline && n == |descs|)
                && (n < |descs| ==> !runInline || !CanStart(old(StateOf(descs[n])), id, priority))
      ensures pool.V() ==
              Delivered(old(pool.V()), PoolSteps.Task(id, priority, |descs| > 1), clearIdle, relevant, route)
    {
      if |descs| == 1 {
        n := 0;
        route := SubmitToGroup(id, priority, descs[0], runInline, pool, clearIdle, relevant);
      } else {
        route, n := SubmitWithLock(id, priority, descs, runInline, pool, clearIdle);
      }
    }
  }

  lemma {:induction false} NewRefIsThere(s: GroupState, taskId: int, priority: int)
    ensures HasRef(NewHandle(s, taskId, priority).queue, s.nextRef)
  {
    var h := LockHandle(s.nextRef, taskId, priority, false, false);
    var q := NewHandle(s, taskId, priority).queue;
    assert q[InsertionPoint(s.queue, h)].ref == s.nextRef;
  }
}
