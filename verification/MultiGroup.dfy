/**
 * Tasks that need several groups. A task joins the queue of each of its groups, locks them one after another in the
 * order in which it joined and keeps what it has locked, starts when it holds all of them, and then releases them. One
 * that its pool refuses gives up its components without having started. Tasks of a single group come and go beside it
 * on the fast path.
 */
module MultiGroup {
  import opened LockQueue
  import opened GroupTokens
  import opened Reservation
  import Priority

  /** One component of a task's combined lock: a group and the identity of the task's handle in it. */
  datatype Membership = Membership(group: nat, ref: nat)

  /** A task has the same priority in all its groups. */
  datatype Task = Task(priority: int, locks: seq<Membership>, started: bool)

  datatype System = System(groups: seq<GroupState>, tasks: map<int, Task>)

  datatype Step =
    | Fast(group: nat, op: Op)                        // a single-group operation
    | Join(id: int, group: nat, priority: int)        // add a group to the combined lock of a task
    | TryNext(id: int, k: nat)                        // the combined lock reaches its k-th component
    | Start(id: int)                                  // the combined lock has succeeded
    | Leave(id: int, k: nat)                          // the k-th component of a task is destroyed

  predicate Holds(s: System, m: Membership) {
    && m.group < |s.groups|
    && HasRef(s.groups[m.group].queue, m.ref)
    && s.groups[m.group].queue[Find(s.groups[m.group].queue, m.ref)].locked
  }

  /** The component refers to a queued handle. */
  predicate Joined(s: System, m: Membership) {
    m.group < |s.groups| && |s.groups[m.group].buckets| == Priority.BUCKETS && HasRef(s.groups[m.group].queue, m.ref)
  }

  predicate Enabled(s: System, step: Step) {
    match step
    case Fast(g, op) =>
      && g < |s.groups| && |s.groups[g].buckets| == Priority.BUCKETS
      && (op.Submit? || op.Acquire? || op.Release?) && CanApply(s.groups[g], op)
    case Join(id, g, priority) =>
      && g < |s.groups|
      && (id in s.tasks ==>
            && !s.tasks[id].started && s.tasks[id].priority == priority
            && forall m :: m in s.tasks[id].locks ==> m.group != g)
    case TryNext(id, k) =>
      && id in s.tasks && k < |s.tasks[id].locks| && Joined(s, s.tasks[id].locks[k])
      && (forall j :: 0 <= j < k ==> Holds(s, s.tasks[id].locks[j]))
    case Start(id) =>
      id in s.tasks && forall j :: 0 <= j < |s.tasks[id].locks| ==> Holds(s, s.tasks[id].locks[j])
    case Leave(id, k) =>
      id in s.tasks && k < |s.tasks[id].locks| && Joined(s, s.tasks[id].locks[k])
  }

  /** The tasks that have not started. */
  function Waiting(s: System): set<int> {
    set id | id in s.tasks && !s.tasks[id].started
  }

  /** An arriving handle does not take tokens that partial holders rely on. */
  predicate Yielding(s: System, step: Step) {
    step.Join? && step.group < |s.groups| ==> Yields(s.groups[step.group], step.id, step.priority, Waiting(s))
  }

  function Next(s: System, step: Step): System
    requires Enabled(s, step)
  {
    match step
    case Fast(g, op) => s.(groups := s.groups[g := Apply(s.groups[g], op)])
    case Join(id, g, priority) =>
      var m := Membership(g, s.groups[g].nextRef);
      var locks := if id in s.tasks then s.tasks[id].locks else [];
      System(s.groups[g := NewHandle(s.groups[g], id, priority)], s.tasks[id := Task(priority, locks + [m], false)])
    case TryNext(id, k) =>
      var m := s.tasks[id].locks[k];
      s.(groups := s.groups[m.group := TryLock(s.groups[m.group], m.ref)])
    case Start(id) => s.(tasks := s.tasks[id := s.tasks[id].(started := true)])
    case Leave(id, k) =>
      var locks := s.tasks[id].locks;
      var m, rest := locks[k], locks[..k] + locks[k + 1..];
      System(s.groups[m.group := DropHandle(s.groups[m.group], m.ref)],
             if rest == [] then s.tasks - {id} else s.tasks[id := s.tasks[id].(locks := rest)])
  }

  // ----- The invariant of the whole system -----

  /** The handles belong to tasks, started tasks hold what they queue, and partial holders have left tokens. */
  predicate GroupOk(s: System, g: nat)
    requires g < |s.groups|
  {
    var q := s.groups[g].queue;
    && Inv(s.groups[g])
    && Reserved(s.groups[g], Waiting(s))
    && (forall i :: 0 <= i < |q| ==> HandleOk(s, g, q[i]))
    && (forall i :: 0 <= i < |q| && s.tasks[q[i].taskId].started ==> q[i].locked)
  }

  /** The handle is a component of the combined lock of its task. */
  predicate HandleOk(s: System, g: nat, h: LockHandle) {
    h.taskId in s.tasks && h.priority == s.tasks[h.taskId].priority && Membership(g, h.ref) in s.tasks[h.taskId].locks
  }

  predicate MembershipOk(s: System, id: int, k: nat)
    requires id in s.tasks && k < |s.tasks[id].locks|
  {
    var m := s.tasks[id].locks[k];
    && m.group < |s.groups|
    && HasRef(s.groups[m.group].queue, m.ref)
    && s.groups[m.group].queue[Find(s.groups[m.group].queue, m.ref)].taskId == id
  }

  predicate TaskOk(s: System, id: int)
    requires id in s.tasks
  {
    var locks := s.tasks[id].locks;
    && (forall k :: 0 <= k < |locks| ==> MembershipOk(s, id, k))
    && (forall j, k :: 0 <= j < k < |locks| ==> locks[j].group != locks[k].group)
  }

  predicate Ok(s: System) {
    && (forall g :: 0 <= g < |s.groups| ==> GroupOk(s, g))
    && (forall id :: id in s.tasks ==> TaskOk(s, id))
  }

  function NewSystem(concurrencies: seq<nat>): System {
    System(seq(|concurrencies|, g requires 0 <= g < |concurrencies| => GroupTokens.Init(concurrencies[g])), map[])
  }

  // ----- Preservation -----

  /** What an operation on one group may do to the queue without disturbing the tasks: nothing but mark and lock. */
  predicate SameHandles(q: seq<LockHandle>, r: seq<LockHandle>) {
    && |q| == |r|
    && (forall i :: 0 <= i < |q| ==>
          && q[i].ref == r[i].ref && q[i].taskId == r[i].taskId && q[i].priority == r[i].priority
          && (q[i].locked ==> r[i].locked))
  }

  lemma {:induction false} ChangedGroupIsOk(s: System, s': System, g: nat, t: GroupState)
    requires Ok(s) && g < |s.groups| && s' == s.(groups := s.groups[g := t])
    requires Inv(t) && Reserved(t, Waiting(s)) && SameHandles(s.groups[g].queue, t.queue)
    ensures Ok(s')
  {
    assert Waiting(s') == Waiting(s);
    forall c | 0 <= c < |s'.groups| ensures GroupOk(s', c) {
      assert GroupOk(s, c);
    }
    forall id | id in s'.tasks ensures TaskOk(s', id) {
      assert TaskOk(s, id);
      forall k | 0 <= k < |s'.tasks[id].locks| ensures MembershipOk(s', id, k) {
        assert MembershipOk(s, id, k);
        var m := s.tasks[id].locks[k];
        if m.group == g {
          FindIsKept(s.groups[g].queue, t.queue, m.ref);
        }
      }
    }
  }

  lemma {:induction false} FastIsOk(s: System, g: nat, op: Op)
    requires Ok(s) && Enabled(s, Fast(g, op))
    ensures Ok(Next(s, Fast(g, op)))
  {
    assert GroupOk(s, g);
    ApplyKeepsInv(s.groups[g], op);
    FastKeepsReserved(s.groups[g], op, Waiting(s));
    ChangedGroupIsOk(s, Next(s, Fast(g, op)), g, Apply(s.groups[g], op));
  }

  lemma {:induction false} TryNextIsOk(s: System, id: int, k: nat)
    requires Ok(s) && Enabled(s, TryNext(id, k))
    ensures Ok(Next(s, TryNext(id, k)))
  {
    assert MembershipOk(s, id, k);
    var m := s.tasks[id].locks[k];
    assert GroupOk(s, m.group);
    ApplyKeepsInv(s.groups[m.group], Lock(m.ref));
    LockKeepsReserved(s.groups[m.group], m.ref, Waiting(s));
    ChangedGroupIsOk(s, Next(s, TryNext(id, k)), m.group, TryLock(s.groups[m.group], m.ref));
  }

  lemma {:induction false} StartIsOk(s: System, id: int)
    requires Ok(s) && Enabled(s, Start(id))
    ensures Ok(Next(s, Start(id)))
  {
    var s' := Next(s, Start(id));
    forall g | 0 <= g < |s'.groups| ensures GroupOk(s', g) {
      assert GroupOk(s, g);
      FewerWait(s.groups[g].queue, s.groups[g].tokens, Waiting(s), Waiting(s'));
      forall i | 0 <= i < |s.groups[g].queue| && s.groups[g].queue[i].taskId == id
        ensures s.groups[g].queue[i].locked
      {
        var h := s.groups[g].queue[i];
        var k :| 0 <= k < |s.tasks[id].locks| && s.tasks[id].locks[k] == Membership(g, h.ref);
        assert Holds(s, s.tasks[id].locks[k]);
        FindIsUnique(s.groups[g].queue, i);
      }
    }
    forall j | j in s'.tasks ensures TaskOk(s', j) {
      assert TaskOk(s, j);
      forall k | 0 <= k < |s'.tasks[j].locks| ensures MembershipOk(s', j, k) {
        assert MembershipOk(s, j, k);
      }
    }
  }

  /** The other handles stay as they were, in their order. */
  lemma {:induction false} Created(s: GroupState, taskId: int, priority: int) returns (p: nat)
    ensures p <= |s.queue| && p == InsertionPoint(s.queue, LockHandle(s.nextRef, taskId, priority, false, false))
    ensures var t := NewHandle(s, taskId, priority);
            && |t.queue| == |s.queue| + 1
            && (forall i :: 0 <= i < |s.queue| ==> SameHandle(s.queue[i], t.queue[if i < p then i else i + 1]))
            && SameHandle(LockHandle(s.nextRef, taskId, priority, false, false), t.queue[p])
  {
    var h := LockHandle(s.nextRef, taskId, priority, false, false);
    p := InsertionPoint(s.queue, h);
    InsertedAt(s.queue, Inserted(s.queue, h), NewHandle(s, taskId, priority).queue, p, h, s.tokens);
  }

  lemma {:induction false} InsertedAt(
    q: seq<LockHandle>, r: seq<LockHandle>, u: seq<LockHandle>, p: nat, h: LockHandle, tokens: int)
    requires p <= |q| && r == With(q, p, h) && u == Unnotified(r, tokens)
    ensures |u| == |q| + 1 && SameHandle(h, u[p])
    ensures forall i :: 0 <= i < |q| ==> SameHandle(q[i], u[if i < p then i else i + 1])
  {
    forall i | 0 <= i < |u| ensures SameHandle(r[i], u[i]) {
    }
  }

  predicate SameHandle(h: LockHandle, h': LockHandle) {
    h'.ref == h.ref && h'.taskId == h.taskId && h'.priority == h.priority && h'.locked == h.locked
  }

  lemma KeptAt(q: seq<LockHandle>, r: seq<LockHandle>, p: nat, i: nat, j: nat)
    requires |r| == |q| + 1 && i < |q| && j == if i < p then i else i + 1
    requires forall k :: 0 <= k < |q| ==> SameHandle(q[k], r[if k < p then k else k + 1])
    ensures SameHandle(q[i], r[j])
  {
  }

  /** A handle of the new queue is the new one, or one from before. */
  lemma {:induction false} CreatedAt(s: GroupState, taskId: int, priority: int, i: nat)
    returns (isNew: bool, i': nat)
    requires i <= |s.queue|
    ensures var t := NewHandle(s, taskId, priority);
            && |t.queue| == |s.queue| + 1
            && (isNew ==> SameHandle(LockHandle(s.nextRef, taskId, priority, false, false), t.queue[i]))
            && (!isNew ==> i' < |s.queue| && SameHandle(s.queue[i'], t.queue[i]))
  {
    var p := Created(s, taskId, priority);
    isNew, i' := i == p, if i > p then i - 1 else i;
    if !isNew {
      KeptAt(s.queue, NewHandle(s, taskId, priority).queue, p, i', i);
    }
  }

  lemma {:induction false} KeptHandle(s: System, s': System, id: int, g: nat, priority: int, c: nat, h: LockHandle)
    requires Enabled(s, Join(id, g, priority)) && s' == Next(s, Join(id, g, priority))
    requires HandleOk(s, c, h) && (s.tasks[h.taskId].started ==> h.locked)
    ensures HandleOk(s', c, h) && (s'.tasks[h.taskId].started ==> h.locked)
    ensures h.taskId in Waiting(s') ==> h.taskId in Waiting(s)
  {
    KeepsComponent(s, s', c, h);
  }

  lemma {:induction false} AddedHandle(s: System, s': System, id: int, g: nat, priority: int, h: LockHandle)
    requires Enabled(s, Join(id, g, priority)) && s' == Next(s, Join(id, g, priority))
    requires SameHandle(LockHandle(s.groups[g].nextRef, id, priority, false, false), h)
    ensures HandleOk(s', g, h) && !s'.tasks[h.taskId].started && !h.locked
  {
    var locks := if id in s.tasks then s.tasks[id].locks else [];
    assert s'.tasks[id].locks[|locks|] == Membership(g, s.groups[g].nextRef);
  }

  lemma {:induction false} JoinKeepsHandle(s: System, s': System, id: int, g: nat, priority: int, c: nat, i: nat)
    requires Ok(s) && Enabled(s, Join(id, g, priority)) && s' == Next(s, Join(id, g, priority))
    requires c < |s'.groups| && i < |s'.groups[c].queue|
    ensures var h := s'.groups[c].queue[i];
            HandleOk(s', c, h) && (s'.tasks[h.taskId].started ==> h.locked)
            && (h.locked && h.taskId in Waiting(s') ==> h.taskId in Waiting(s))
  {
    assert GroupOk(s, c);
    if c == g {
      var p := Created(s.groups[g], id, priority);
      var isNew, i' := CreatedAt(s.groups[g], id, priority, i);
      if isNew {
        AddedHandle(s, s', id, g, priority, s'.groups[g].queue[i]);
      } else {
        assert HandleOk(s, g, s.groups[g].queue[i']);
        KeptHandle(s, s', id, g, priority, g, s.groups[g].queue[i']);
      }
    } else {
      assert HandleOk(s, c, s.groups[c].queue[i]);
      KeptHandle(s, s', id, g, priority, c, s.groups[c].queue[i]);
    }
  }

  lemma {:induction false} JoinKeepsGroup(s: System, s': System, id: int, g: nat, priority: int, c: nat)
    requires Ok(s) && Enabled(s, Join(id, g, priority)) && Yielding(s, Join(id, g, priority))
    requires s' == Next(s, Join(id, g, priority)) && c < |s'.groups|
    ensures GroupOk(s', c)
  {
    assert GroupOk(s, c);
    forall i | 0 <= i < |s'.groups[c].queue|
      ensures var h := s'.groups[c].queue[i];
              HandleOk(s', c, h) && (s'.tasks[h.taskId].started ==> h.locked)
              && (h.locked && h.taskId in Waiting(s') ==> h.taskId in Waiting(s))
    {
      JoinKeepsHandle(s, s', id, g, priority, c, i);
    }
    if c == g {
      ApplyKeepsInv(s.groups[g], Create(id, priority));
      CreateKeepsReserved(s.groups[g], id, priority, Waiting(s));
    }
    FewerWait(s'.groups[c].queue, s'.groups[c].tokens, Waiting(s), Waiting(s'));
  }

  lemma KeepsComponent(s: System, s': System, g: nat, h: LockHandle)
    requires HandleOk(s, g, h) && h.taskId in s'.tasks && s'.tasks[h.taskId].priority == s.tasks[h.taskId].priority
    requires s.tasks[h.taskId].locks <= s'.tasks[h.taskId].locks
    ensures HandleOk(s', g, h)
  {
    var k :| 0 <= k < |s.tasks[h.taskId].locks| && s.tasks[h.taskId].locks[k] == Membership(g, h.ref);
    assert s'.tasks[h.taskId].locks[k] == Membership(g, h.ref);
  }

  /** The members of a group stay its members, and the new one is added. */
  lemma {:induction false} CreatedMembers(s: GroupState, taskId: int, priority: int, ref: nat)
    requires Inv(s) && (HasRef(s.queue, ref) || ref == s.nextRef)
    ensures var t := NewHandle(s, taskId, priority);
            && HasRef(t.queue, ref)
            && t.queue[Find(t.queue, ref)].taskId ==
               if HasRef(s.queue, ref) then s.queue[Find(s.queue, ref)].taskId else taskId
  {
    var p := Created(s, taskId, priority);
    ApplyKeepsShape(s, Create(taskId, priority));
    MemberWith(s.queue, NewHandle(s, taskId, priority).queue, p,
               LockHandle(s.nextRef, taskId, priority, false, false), ref);
  }

  lemma {:induction false} MemberWith(q: seq<LockHandle>, r: seq<LockHandle>, p: nat, h: LockHandle, ref: nat)
    requires DistinctRefs(r) && |r| == |q| + 1 && p <= |q| && SameHandle(h, r[p])
    requires forall i :: 0 <= i < |q| ==> SameHandle(q[i], r[if i < p then i else i + 1])
    requires HasRef(q, ref) || ref == h.ref
    ensures HasRef(r, ref)
    ensures r[Find(r, ref)].taskId == if HasRef(q, ref) then q[Find(q, ref)].taskId else h.taskId
  {
    if HasRef(q, ref) {
      var i := Find(q, ref);
      FoundAt(r, q[i], if i < p then i else i + 1);
    } else {
      FoundAt(r, h, p);
    }
  }

  lemma {:induction false} FoundAt(q: seq<LockHandle>, h: LockHandle, i: nat)
    requires DistinctRefs(q) && i < |q| && SameHandle(h, q[i])
    ensures HasRef(q, h.ref) && q[Find(q, h.ref)].taskId == h.taskId
  {
    FindIsUnique(q, i);
  }

  lemma {:induction false} JoinKeepsMembership(s: System, s': System, id: int, g: nat, priority: int, j: int, k: nat)
    requires Ok(s) && Enabled(s, Join(id, g, priority)) && s' == Next(s, Join(id, g, priority))
    requires j in s'.tasks && k < |s'.tasks[j].locks|
    ensures MembershipOk(s', j, k)
  {
    assert GroupOk(s, g);
    if j in s.tasks && k < |s.tasks[j].locks| {
      assert TaskOk(s, j) && MembershipOk(s, j, k);
      var m := s.tasks[j].locks[k];
      assert s'.tasks[j].locks[k] == m;
      if m.group == g {
        CreatedMembers(s.groups[g], id, priority, m.ref);
      }
    } else {
      CreatedMembers(s.groups[g], id, priority, s.groups[g].nextRef);
      assert !HasRef(s.groups[g].queue, s.groups[g].nextRef);
    }
  }

  lemma {:induction false} JoinIsOk(s: System, id: int, g: nat, priority: int)
    requires Ok(s) && Enabled(s, Join(id, g, priority)) && Yielding(s, Join(id, g, priority))
    ensures Ok(Next(s, Join(id, g, priority)))
  {
    var s' := Next(s, Join(id, g, priority));
    forall c | 0 <= c < |s'.groups| ensures GroupOk(s', c) {
      JoinKeepsGroup(s, s', id, g, priority, c);
    }
    forall j | j in s'.tasks ensures TaskOk(s', j) {
      if j in s.tasks {
        assert TaskOk(s, j);
      }
      forall k | 0 <= k < |s'.tasks[j].locks| ensures MembershipOk(s', j, k) {
        JoinKeepsMembership(s, s', id, g, priority, j, k);
      }
    }
  }

  lemma {:induction false} DestroyedQueue(s: GroupState, ref: nat)
    requires HasRef(s.queue, ref)
    ensures var q, t := Without(s.queue, Find(s.queue, ref)), DropHandle(s, ref);
            && |t.queue| == |q|
            && (forall i :: 0 <= i < |q| ==> SameHandle(q[i], t.queue[i]))
  {
  }

  lemma {:induction false} RestHas(locks: seq<Membership>, k: nat, m: Membership)
    requires k < |locks| && m in locks && m != locks[k]
    ensures m in locks[..k] + locks[k + 1..]
  {
    var j :| 0 <= j < |locks| && locks[j] == m;
    assert (locks[..k] + locks[k + 1..])[if j < k then j else j - 1] == m;
  }

  lemma {:induction false} LeaveKeepsHandle(s: System, s': System, id: int, k: nat, c: nat, h: LockHandle)
    requires Enabled(s, Leave(id, k)) && s' == Next(s, Leave(id, k))
    requires HandleOk(s, c, h) && Membership(c, h.ref) != s.tasks[id].locks[k]
    ensures HandleOk(s', c, h)
  {
    if h.taskId == id {
      RestHas(s.tasks[id].locks, k, Membership(c, h.ref));
    }
  }

  lemma {:induction false} LeaveKeepsOtherGroup(s: System, s': System, id: int, k: nat, c: nat)
    requires Ok(s) && Enabled(s, Leave(id, k)) && s' == Next(s, Leave(id, k))
    requires c < |s'.groups| && c != s.tasks[id].locks[k].group
    ensures GroupOk(s', c)
  {
    assert MembershipOk(s, id, k) && GroupOk(s, c);
    FewerWait(s.groups[c].queue, s.groups[c].tokens, Waiting(s), Waiting(s'));
    forall i | 0 <= i < |s.groups[c].queue| ensures HandleOk(s', c, s.groups[c].queue[i]) {
      assert HandleOk(s, c, s.groups[c].queue[i]);
      LeaveKeepsHandle(s, s', id, k, c, s.groups[c].queue[i]);
    }
  }

  /** The handle at `i` of a queue that another handle has left. */
  lemma {:induction false} LeftHandle(s: GroupState, ref: nat, i: nat) returns (i': nat)
    requires Inv(s) && HasRef(s.queue, ref) && i < |DropHandle(s, ref).queue|
    ensures i' < |s.queue| && s.queue[i'].ref != ref
    ensures var h, h' := s.queue[i'], DropHandle(s, ref).queue[i];
            SameHandle(h, h')
  {
    var at := Find(s.queue, ref);
    DestroyedQueue(s, ref);
    i' := if i >= at then i + 1 else i;
    assert s.queue[i'].ref != s.queue[at].ref;
  }

  lemma {:induction false} LeaveKeepsLeftHandle(s: System, s': System, id: int, k: nat, i: nat)
    requires Ok(s) && Enabled(s, Leave(id, k)) && s' == Next(s, Leave(id, k)) && MembershipOk(s, id, k)
    requires i < |s'.groups[s.tasks[id].locks[k].group].queue|
    ensures var g := s.tasks[id].locks[k].group;
            var h := s'.groups[g].queue[i];
            HandleOk(s', g, h) && (s'.tasks[h.taskId].started ==> h.locked)
  {
    var m := s.tasks[id].locks[k];
    assert GroupOk(s, m.group);
    var i' := LeftHandle(s.groups[m.group], m.ref, i);
    var h := s.groups[m.group].queue[i'];
    assert HandleOk(s, m.group, h);
    LeaveKeepsHandle(s, s', id, k, m.group, h);
  }

  lemma {:induction false} LeftGroupIsOk(s: GroupState, ref: nat, waiting: set<int>)
    requires Inv(s) && Reserved(s, waiting) && HasRef(s.queue, ref)
    ensures Inv(DropHandle(s, ref)) && Reserved(DropHandle(s, ref), waiting)
  {
    ApplyKeepsInv(s, Destroy(ref));
    DestroyKeepsReserved(s, ref, waiting);
  }

  lemma {:induction false} LeaveKeepsLeftGroup(s: System, s': System, id: int, k: nat)
    requires Ok(s) && Enabled(s, Leave(id, k)) && s' == Next(s, Leave(id, k)) && MembershipOk(s, id, k)
    ensures GroupOk(s', s.tasks[id].locks[k].group)
  {
    var m := s.tasks[id].locks[k];
    assert GroupOk(s, m.group);
    LeftGroupIsOk(s.groups[m.group], m.ref, Waiting(s));
    FewerWait(s'.groups[m.group].queue, s'.groups[m.group].tokens, Waiting(s), Waiting(s'));
    forall i | 0 <= i < |s'.groups[m.group].queue|
      ensures var h := s'.groups[m.group].queue[i];
              HandleOk(s', m.group, h) && (s'.tasks[h.taskId].started ==> h.locked)
    {
      LeaveKeepsLeftHandle(s, s', id, k, i);
    }
  }

  lemma {:induction false} LeftLocks(s: System, s': System, id: int, k: nat, j: int, l: nat, l': nat)
    requires Enabled(s, Leave(id, k)) && s' == Next(s, Leave(id, k))
    requires j in s'.tasks && l < |s'.tasks[j].locks| && l' == if j == id && l >= k then l + 1 else l
    ensures j in s.tasks && l' < |s.tasks[j].locks| && s'.tasks[j].locks[l] == s.tasks[j].locks[l']
  {
  }

  lemma {:induction false} LeaveKeepsMembership(s: System, s': System, id: int, k: nat, j: int, l: nat)
    requires Ok(s) && Enabled(s, Leave(id, k)) && s' == Next(s, Leave(id, k))
    requires j in s'.tasks && l < |s'.tasks[j].locks|
    ensures MembershipOk(s', j, l)
  {
    var l' := if j == id && l >= k then l + 1 else l;
    LeftLocks(s, s', id, k, j, l, l');
    assert TaskOk(s, id) && TaskOk(s, j);
    var m, n := s.tasks[id].locks[k], s.tasks[j].locks[l'];
    assert MembershipOk(s, id, k) && MembershipOk(s, j, l');
    if n.group == m.group {
      assert GroupOk(s, m.group);
      LeftMembership(s.groups[m.group], s'.groups[m.group], m.ref, n.ref, id, j);
    }
  }

  lemma {:induction false} LeftMembership(s: GroupState, t: GroupState, ref: nat, other: nat, id: int, j: int)
    requires Inv(s) && HasRef(s.queue, ref) && HasRef(s.queue, other) && t == DropHandle(s, ref)
    requires s.queue[Find(s.queue, ref)].taskId == id && s.queue[Find(s.queue, other)].taskId == j != id
    ensures HasRef(t.queue, other) && t.queue[Find(t.queue, other)].taskId == j
  {
    OtherHandleStays(s, ref, other, id, j);
  }

  lemma {:induction false} OtherIsFound(q: seq<LockHandle>, p: nat, r: seq<LockHandle>, other: nat)
    requires DistinctRefs(q) && p < |q| && HasRef(q, other) && q[p].ref != other
    requires |r| == |q| - 1 && forall i :: 0 <= i < |r| ==> SameHandle(Without(q, p)[i], r[i])
    ensures HasRef(r, other) && r[Find(r, other)].taskId == q[Find(q, other)].taskId
  {
    FindInWithout(q, p, other);
    FindIsKept(Without(q, p), r, other);
  }

  lemma {:induction false} OtherHandleStays(s: GroupState, ref: nat, other: nat, id: int, j: int)
    requires DistinctRefs(s.queue) && HasRef(s.queue, ref) && HasRef(s.queue, other)
    requires s.queue[Find(s.queue, ref)].taskId == id && s.queue[Find(s.queue, other)].taskId == j != id
    ensures var t := DropHandle(s, ref); HasRef(t.queue, other) && t.queue[Find(t.queue, other)].taskId == j
  {
    DestroyedQueue(s, ref);
    OtherIsFound(s.queue, Find(s.queue, ref), DropHandle(s, ref).queue, other);
  }

  lemma {:induction false} LeaveIsOk(s: System, id: int, k: nat)
    requires Ok(s) && Enabled(s, Leave(id, k))
    ensures Ok(Next(s, Leave(id, k)))
  {
    var s' := Next(s, Leave(id, k));
    assert MembershipOk(s, id, k);
    forall c | 0 <= c < |s'.groups| ensures GroupOk(s', c) {
      if c == s.tasks[id].locks[k].group {
        LeaveKeepsLeftGroup(s, s', id, k);
      } else {
        LeaveKeepsOtherGroup(s, s', id, k, c);
      }
    }
    forall j | j in s'.tasks ensures TaskOk(s', j) {
      assert TaskOk(s, j);
      forall l | 0 <= l < |s'.tasks[j].locks| ensures MembershipOk(s', j, l) {
        LeaveKeepsMembership(s, s', id, k, j, l);
      }
    }
  }

  lemma {:induction false} NextIsOk(s: System, step: Step)
    requires Ok(s) && Enabled(s, step) && Yielding(s, step)
    ensures Ok(Next(s, step))
  {
    match step {
      case Fast(g, op) => FastIsOk(s, g, op);
      case Join(id, g, priority) => JoinIsOk(s, id, g, priority);
      case TryNext(id, k) => TryNextIsOk(s, id, k);
      case Start(id) => StartIsOk(s, id);
      case Leave(id, k) => LeaveIsOk(s, id, k);
    }
  }
}
