/**
 * What a group promises at the grain of whole operations: tokens are reserved for the handles ahead, eligible handles
 * are told, no waiter is stranded, and the best waiter comes first.
 */
module GroupPromises {
  import opened Sums
  import opened LockQueue
  import opened GroupTokens
  import Priority

  // ----- Reservation -----

  /** Whoever stands ahead of a handle that can lock can lock as well. */
  lemma {:induction false} EligibleFromTheFront(q: seq<LockHandle>, tokens: int, i: nat, j: nat)
    requires i <= j < |q| && Eligible(q, tokens, j)
    ensures Eligible(q, tokens, i)
  {
    UnlockedGrows(q, i + 1, j + 1);
  }

  /** After a successful `lock()` there are still tokens for every unlocked handle ahead of it. */
  lemma {:induction false} LockLeavesTokensAhead(s: GroupState, ref: nat)
    requires HasRef(s.queue, ref) && !s.queue[Find(s.queue, ref)].locked && CanLock(s, ref)
    ensures var i, t := Find(s.queue, ref), TryLock(s, ref);
            && t.queue[i].locked
            && Unlocked(t.queue, i) <= t.tokens
            && (forall j :: 0 <= j < i ==> Eligible(t.queue, t.tokens, j))
  {
    var i, t := Find(s.queue, ref), TryLock(s, ref);
    UnlockedOfLocked(s.queue, i, i);
    forall j | 0 <= j < i ensures Eligible(t.queue, t.tokens, j) {
      UnlockedGrows(t.queue, j + 1, i);
    }
  }

  /** The handle waits for the group and there are enough tokens for it. */
  predicate MayLock(s: GroupState, ref: nat) {
    Waits(s.queue, s.tokens, ref)
  }

  predicate Waits(q: seq<LockHandle>, tokens: int, ref: nat) {
    HasRef(q, ref) &&
    var i := Find(q, ref);
    !q[i].locked && Eligible(q, tokens, i)
  }

  /** The handle may lock and its `notify` has not been called since it last could not. */
  predicate Silent(s: GroupState, ref: nat) {
    MayLock(s, ref) && !s.queue[Find(s.queue, ref)].notified
  }

  /** What a handle sees when the queue is only re-marked and the tokens do not grow. */
  lemma {:induction false} NotifyLeavesNoneSilent(s: GroupState, t: GroupState, ref: nat)
    requires DistinctRefs(s.queue) && t.queue == Notified(s.queue, s.tokens) && t.tokens <= s.tokens
    ensures !Silent(t, ref)
    ensures MayLock(t, ref) ==> MayLock(s, ref)
    ensures MayLock(s, ref) && t.tokens == s.tokens ==> MayLock(t, ref)
  {
    FindIsKept(s.queue, t.queue, ref);
    if HasRef(s.queue, ref) {
      NotifyKeepsEligibility(s.queue, s.tokens, Find(s.queue, ref));
    }
  }

  lemma {:induction false} NobodyMayLockWithoutTokens(s: GroupState, ref: nat)
    requires s.tokens <= 0 || s.queue == []
    ensures !MayLock(s, ref)
  {
    if MayLock(s, ref) {
      EligibleNeedsTokens(s.queue, s.tokens, Find(s.queue, ref));
    }
  }

  lemma {:induction false} ReleaseTellsAndKeeps(s: GroupState, ref: nat)
    requires Shape(s) && s.slowPending == |s.queue|
    ensures !Silent(ReleaseToken(s), ref)
    ensures MayLock(s, ref) ==> MayLock(ReleaseToken(s), ref)
  {
    var freed := s.(tokens := s.tokens + 1);
    if s.tokens < 0 || s.queue == [] {
      NobodyMayLockWithoutTokens(s, ref);
      NobodyMayLockWithoutTokens(ReleaseToken(s), ref);
    } else {
      NotifyLeavesNoneSilent(freed, ReleaseToken(s), ref);
    }
  }

  lemma {:induction false} SubmitTellsAndKeeps(s: GroupState, task: nat, priority: int, ref: nat)
    requires Shape(s) && Balanced(s)
    ensures !Silent(TrySubmit(s, task, priority), ref)
    ensures MayLock(s, ref) ==> MayLock(TrySubmit(s, task, priority), ref)
  {
    var t := TrySubmit(s, task, priority);
    if s.tokens > 0 && s.slowPending > 0 {
      NotifyLeavesNoneSilent(s, t, ref);
    } else {
      NobodyMayLockWithoutTokens(s, ref);
      NobodyMayLockWithoutTokens(t, ref);
    }
  }

  lemma {:induction false} InsertionPlaces(q: seq<LockHandle>, p: nat, h: LockHandle, ref: nat)
    requires p <= |q| && DistinctRefs(q) && !HasRef(q, h.ref) && ref != h.ref
    ensures var r := With(q, p, h);
            && DistinctRefs(r) && HasRef(r, ref) == HasRef(q, ref) && Find(r, h.ref) == p
            && (HasRef(q, ref) ==> Find(r, ref) == if Find(q, ref) < p then Find(q, ref) else Find(q, ref) + 1)
  {
    DistinctWith(q, p, h);
    FindInWith(q, p, h, ref);
    FindIsUnique(With(q, p, h), p);
  }

  lemma {:induction false} InsertionTakes(q: seq<LockHandle>, r: seq<LockHandle>, tokens: int, ref: nat, behind: bool)
    requires HasRef(q, ref) && HasRef(r, ref) && r[Find(r, ref)] == q[Find(q, ref)]
    requires Unlocked(r, Find(r, ref) + 1) == Unlocked(q, Find(q, ref) + 1) + if behind then 1 else 0
    ensures Waits(r, tokens, ref) ==> Waits(q, tokens, ref)
    ensures Waits(q, tokens, ref) ==> Waits(r, tokens, ref) || behind
  {
  }

  lemma {:induction false} InsertionCounts(q: seq<LockHandle>, p: nat, h: LockHandle, i: nat)
    requires p <= |q| && i < |q| && !h.locked
    ensures var r := With(q, p, h);
            var k := if i < p then i else i + 1;
            r[k] == q[i] && Unlocked(r, k + 1) == Unlocked(q, i + 1) + if p < k then 1 else 0
  {
    UnlockedOfWith(q, p, h, if i < p then i + 1 else i + 2);
  }

  lemma {:induction false} InsertionKeeps(
    q: seq<LockHandle>, r: seq<LockHandle>, p: nat, h: LockHandle, tokens: int, ref: nat, i: nat, k: nat)
    requires p <= |q| && DistinctRefs(q) && !HasRef(q, h.ref) && ref != h.ref && !h.locked && HasRef(q, ref)
    requires r == With(q, p, h) && i == Find(q, ref) && k == Find(r, ref)
    ensures HasRef(r, ref) && r[k] == q[i]
    ensures Waits(r, tokens, ref) ==> Waits(q, tokens, ref)
    ensures Waits(q, tokens, ref) ==> Waits(r, tokens, ref) || p < k
  {
    InsertionPlaces(q, p, h, ref);
    InsertionCounts(q, p, h, i);
    InsertionTakes(q, r, tokens, ref, p < k);
  }

  lemma {:induction false} UnmarkingKeeps(q: seq<LockHandle>, tokens: int, ref: nat)
    requires DistinctRefs(q)
    ensures var r := Unnotified(q, tokens);
            && HasRef(r, ref) == HasRef(q, ref) && Find(r, ref) == Find(q, ref)
            && Waits(r, tokens, ref) == Waits(q, tokens, ref)
            && (Waits(q, tokens, ref) ==> r[Find(q, ref)] == q[Find(q, ref)])
  {
    FindIsKept(q, Unnotified(q, tokens), ref);
    if HasRef(q, ref) {
      NotifyKeepsEligibility(q, tokens, Find(q, ref));
    }
  }

  /** A new handle can only take tokens from those it is inserted ahead of. */
  lemma {:induction false} CreateTellsAndKeeps(s: GroupState, taskId: int, priority: int, ref: nat)
    requires DistinctRefs(s.queue) && !HasRef(s.queue, s.nextRef) && ref != s.nextRef
    ensures Silent(NewHandle(s, taskId, priority), ref) ==> Silent(s, ref)
    ensures var t := NewHandle(s, taskId, priority);
            MayLock(s, ref) ==> MayLock(t, ref) || Find(t.queue, s.nextRef) < Find(t.queue, ref)
  {
    var h := LockHandle(s.nextRef, taskId, priority, false, false);
    var q := Inserted(s.queue, h);
    InsertionPlaces(s.queue, InsertionPoint(s.queue, h), h, ref);
    if HasRef(s.queue, ref) {
      InsertionKeeps(s.queue, q, InsertionPoint(s.queue, h), h, s.tokens, ref, Find(s.queue, ref), Find(q, ref));
    }
    UnmarkingKeeps(q, s.tokens, ref);
    UnmarkingKeeps(q, s.tokens, s.nextRef);
  }

  lemma {:induction false} LockTellsAndKeeps(s: GroupState, ref: nat, other: nat)
    requires Shape(s) && HasRef(s.queue, ref)
    ensures Silent(TryLock(s, ref), other) ==> Silent(s, other)
    ensures MayLock(s, other) && other != ref ==> MayLock(TryLock(s, ref), other)
  {
    FindIsKept(s.queue, TryLock(s, ref).queue, other);
    if HasRef(s.queue, other) && other != ref {
      LockKeepsEligibility(s, ref, Find(s.queue, other));
    }
  }

  lemma {:induction false} WithoutKeeps(q: seq<LockHandle>, k: nat, tokens: int, other: nat)
    requires k < |q| && DistinctRefs(q) && other != q[k].ref
    ensures DistinctRefs(Without(q, k))
    ensures Waits(q, tokens, other) ==> Waits(Without(q, k), if q[k].locked then tokens + 1 else tokens, other)
  {
    FindInWithout(q, k, other);
    if Waits(q, tokens, other) {
      EligibleAfterRemoval(q, k, tokens, Find(Without(q, k), other));
    }
  }

  lemma {:induction false} RemovalKeeps(s: GroupState, ref: nat, other: nat)
    requires DistinctRefs(s.queue) && HasRef(s.queue, ref) && other != ref
    ensures var t := Unqueue(s, ref).(queue := Removed(s.queue, ref));
            DistinctRefs(t.queue) && (MayLock(s, other) ==> MayLock(t, other))
  {
    WithoutKeeps(s.queue, Find(s.queue, ref), s.tokens, other);
  }

  lemma {:induction false} DestroyTellsAndKeeps(s: GroupState, ref: nat, other: nat)
    requires DistinctRefs(s.queue) && Balanced(s) && HasRef(s.queue, ref) && other != ref
    ensures !Silent(DropHandle(s, ref), other)
    ensures MayLock(s, other) ==> MayLock(DropHandle(s, ref), other)
  {
    var t := Unqueue(s, ref);
    var before := t.(queue := Removed(s.queue, ref));
    RemovalKeeps(s, ref, other);
    NotifyLeavesNoneSilent(before, t, other);
    NotifyLeavesNoneSilent(before, DropHandle(s, ref), other);
    if s.tokens <= 0 {
      NobodyMayLockWithoutTokens(s, other);
    } else if t.queue == [] {
      NobodyMayLockWithoutTokens(t, other);
    }
  }

  lemma {:induction false} DestroyedIsGone(s: GroupState, ref: nat)
    requires DistinctRefs(s.queue) && HasRef(s.queue, ref)
    ensures !HasRef(DropHandle(s, ref).queue, ref)
  {
    var k := Find(s.queue, ref);
    FindInWithout(s.queue, k, ref);
    FindIsKept(Without(s.queue, k), DropHandle(s, ref).queue, ref);
  }

  /**
   * One operation takes the place of a handle that may lock only by inserting a handle ahead of it, and leaves no
   * handle that may lock unnotified unless it was so before or is the one just inserted.
   */
  lemma {:induction false} EligibilityIsKept(s: GroupState, op: Op, ref: nat)
    requires Inv(s) && CanApply(s, op)
    ensures var t := Apply(s, op);
            MayLock(s, ref) && !(op.Lock? && op.ref == ref) && !(op.Destroy? && op.ref == ref) ==>
              MayLock(t, ref) || (op.Create? && Find(t.queue, s.nextRef) < Find(t.queue, ref))
    ensures Silent(Apply(s, op), ref) && ref != s.nextRef ==> Silent(s, ref)
  {
    if ref == s.nextRef {
      assert !HasRef(s.queue, ref);
    }
    match op {
      case Submit(task, priority) => SubmitTellsAndKeeps(s, task, priority, ref);
      case Acquire => if s.queue == [] { NobodyMayLockWithoutTokens(s, ref); }
      case Release => ReleaseTellsAndKeeps(s.(running := s.running - 1), ref);
      case Create(taskId, priority) => if ref != s.nextRef { CreateTellsAndKeeps(s, taskId, priority, ref); }
      case Lock(r) => LockTellsAndKeeps(s, r, ref);
      case Destroy(r) => if r == ref { DestroyedIsGone(s, r); } else { DestroyTellsAndKeeps(s, r, ref); }
    }
  }

  // ----- What one operation does to a handle -----

  function At(q: seq<LockHandle>, ref: nat): LockHandle
    requires HasRef(q, ref)
  {
    q[Find(q, ref)]
  }

  /** It is not locked by another's operation, keeps its lock, and is only told while it waits. */
  predicate Undisturbed(q: seq<LockHandle>, r: seq<LockHandle>, ref: nat)
    requires HasRef(q, ref)
  {
    && HasRef(r, ref) && At(r, ref).locked == At(q, ref).locked
    && (At(r, ref).notified && !At(q, ref).notified ==> !At(r, ref).locked)
  }

  lemma {:induction false} TellingUndisturbs(q: seq<LockHandle>, tokens: int, ref: nat)
    requires DistinctRefs(q) && HasRef(q, ref)
    ensures Undisturbed(q, Notified(q, tokens), ref) && Undisturbed(q, Unnotified(q, tokens), ref)
  {
    FindIsKept(q, Notified(q, tokens), ref);
    FindIsKept(q, Unnotified(q, tokens), ref);
  }

  lemma {:induction false} ReleaseUndisturbs(s: GroupState, ref: nat)
    requires DistinctRefs(s.queue) && HasRef(s.queue, ref)
    ensures Undisturbed(s.queue, ReleaseToken(s).queue, ref)
  {
    TellingUndisturbs(s.queue, s.tokens + 1, ref);
  }

  lemma {:induction false} SubmitUndisturbs(s: GroupState, task: nat, priority: int, ref: nat)
    requires Inv(s) && HasRef(s.queue, ref)
    ensures Undisturbed(s.queue, TrySubmit(s, task, priority).queue, ref)
  {
    var parked := ParkPublish(s, task, priority);
    ReleaseUndisturbs(parked.(tokens := s.tokens - 1), ref);
  }

  lemma {:induction false} CreateUndisturbs(s: GroupState, taskId: int, priority: int, ref: nat)
    requires Inv(s) && HasRef(s.queue, ref)
    ensures Undisturbed(s.queue, NewHandle(s, taskId, priority).queue, ref)
  {
    var h := LockHandle(s.nextRef, taskId, priority, false, false);
    assert !HasRef(s.queue, s.nextRef);
    InsertionPlaces(s.queue, InsertionPoint(s.queue, h), h, ref);
    TellingUndisturbs(Inserted(s.queue, h), s.tokens, ref);
  }

  lemma {:induction false} DestroyUndisturbs(s: GroupState, ref: nat, other: nat)
    requires Inv(s) && HasRef(s.queue, ref) && HasRef(s.queue, other) && ref != other
    ensures Undisturbed(s.queue, DropHandle(s, ref).queue, other)
  {
    FindInWithout(s.queue, Find(s.queue, ref), other);
    TellingUndisturbs(Removed(s.queue, ref), Unqueue(s, ref).tokens, other);
  }

  /**
   * A handle is locked exactly by its own successful `lock` and until it is destroyed, and no operation tells a handle
   * that is locked.
   */
  lemma {:induction false} HandleAfter(s: GroupState, op: Op, ref: nat)
    requires Inv(s) && CanApply(s, op) && HasRef(s.queue, ref) && op != Destroy(ref)
    ensures var q, r := s.queue, Apply(s, op).queue;
            && HasRef(r, ref)
            && (At(r, ref).locked <==> At(q, ref).locked || (op == Lock(ref) && CanLock(s, ref)))
            && (At(r, ref).notified && !At(q, ref).notified ==> !At(r, ref).locked)
  {
    match op {
      case Submit(task, priority) => SubmitUndisturbs(s, task, priority, ref);
      case Acquire =>
      case Release => ReleaseUndisturbs(s.(running := s.running - 1), ref);
      case Create(taskId, priority) => CreateUndisturbs(s, taskId, priority, ref);
      case Lock(r) => FindIsKept(s.queue, TryLock(s, r).queue, ref);
      case Destroy(r) => DestroyUndisturbs(s, r, ref);
    }
  }

  // ----- Runs -----

  /** `ss` are the states of a run of `ops`, one after another, from a new group. */
  ghost predicate Path(concurrency: int, ss: seq<GroupState>, ops: seq<Op>) {
    && |ss| == |ops| + 1
    && ss[0] == Init(concurrency)
    && (forall k :: 0 <= k < |ops| ==>
          |ss[k].buckets| == Priority.BUCKETS && CanApply(ss[k], ops[k]) && ss[k + 1] == Apply(ss[k], ops[k]))
  }

  /** In every run the queue is sorted by descending priority, and by ascending task id within one. */
  lemma {:induction false} QueueIsInOrder(
    concurrency: int, ss: seq<GroupState>, ops: seq<Op>, k: nat, i: nat, j: nat)
    requires concurrency >= 0 && Path(concurrency, ss, ops) && k < |ss| && i < j < |ss[k].queue|
    ensures var a, b := ss[k].queue[i], ss[k].queue[j];
            a.priority > b.priority || (a.priority == b.priority && a.taskId <= b.taskId)
  {
    PathKeepsInv(concurrency, ss, ops, k);
    assert !Before(ss[k].queue[j], ss[k].queue[i]);
  }

  /** A task of a lower priority, or a later one of the same, takes nothing from a handle that may lock. */
  lemma {:induction false} LatecomersTakeNothing(
    concurrency: int, ss: seq<GroupState>, ops: seq<Op>, k: nat, i: nat, taskId: int, priority: int)
    requires concurrency >= 0 && Path(concurrency, ss, ops) && k < |ops| && ops[k] == Create(taskId, priority)
    requires i < |ss[k].queue| && MayLock(ss[k], ss[k].queue[i].ref)
    requires var h := ss[k].queue[i];
             h.priority > priority || (h.priority == priority && h.taskId < taskId)
    ensures MayLock(ss[k + 1], ss[k].queue[i].ref)
  {
    PathKeepsInv(concurrency, ss, ops, k);
    EligibilityIsKept(ss[k], ops[k], ss[k].queue[i].ref);
    LatecomerIsBehind(ss[k], taskId, priority, i);
  }

  lemma {:induction false} LatecomerIsBehind(s: GroupState, taskId: int, priority: int, i: nat)
    requires Inv(s) && i < |s.queue|
    requires s.queue[i].priority > priority || (s.queue[i].priority == priority && s.queue[i].taskId < taskId)
    ensures var t := NewHandle(s, taskId, priority);
            s.queue[i].ref != s.nextRef && Find(t.queue, s.queue[i].ref) < Find(t.queue, s.nextRef)
  {
    var h := LockHandle(s.nextRef, taskId, priority, false, false);
    var p := InsertionPoint(s.queue, h);
    var place := InsertedPlace(s.queue, h);
    var ref := s.queue[i].ref;
    assert !HasRef(s.queue, s.nextRef);
    InsertionPlaces(s.queue, p, h, ref);
    FindIsUnique(s.queue, i);
    UnmarkingKeeps(Inserted(s.queue, h), s.tokens, ref);
    UnmarkingKeeps(Inserted(s.queue, h), s.tokens, s.nextRef);
    assert i < p;
  }

  lemma {:induction false} PathKeepsInv(concurrency: int, ss: seq<GroupState>, ops: seq<Op>, k: nat)
    requires concurrency >= 0 && Path(concurrency, ss, ops) && k < |ss|
    ensures Inv(ss[k]) && ss[k].concurrency == concurrency
  {
    if k > 0 {
      PathKeepsInv(concurrency, ss, ops, k - 1);
      ApplyKeepsInv(ss[k - 1], ops[k - 1]);
      ApplyKeepsBalance(ss[k - 1], ops[k - 1]);
    } else {
      ZeroSum(ss[0].buckets, BucketWeight);
    }
  }

  /** In every run, once `lock` has succeeded it succeeds again and again until the handle is destroyed. */
  lemma {:induction false} LocksAreKept(
    concurrency: int, ss: seq<GroupState>, ops: seq<Op>, j: nat, k: nat, ref: nat)
    requires concurrency >= 0 && Path(concurrency, ss, ops) && j < k < |ss| && ops[j] == Lock(ref)
    requires HasRef(ss[j].queue, ref) && CanLock(ss[j], ref)
    requires forall i :: j < i < k ==> ops[i] != Destroy(ref)
    ensures HasRef(ss[k].queue, ref) && At(ss[k].queue, ref).locked && CanLock(ss[k], ref)
    ensures TryLock(ss[k], ref) == ss[k]
    decreases k
  {
    PathKeepsInv(concurrency, ss, ops, k - 1);
    if j + 1 < k {
      LocksAreKept(concurrency, ss, ops, j, k - 1, ref);
    }
    HandleAfter(ss[k - 1], ops[k - 1], ref);
  }

  /**
   * Negative tokens are exactly the committed waiters, the live locks never exceed the concurrency, and the group is
   * full whenever a committed waiter exists.
   */
  lemma {:induction false} TokensMeanCapacity(concurrency: int, ss: seq<GroupState>, ops: seq<Op>, k: nat)
    requires concurrency >= 1 && Path(concurrency, ss, ops) && k < |ss|
    ensures Counted(ss[k]) == Max(0, -ss[k].tokens)
    ensures ss[k].running + Locked(ss[k]) == concurrency - Max(ss[k].tokens, 0)
    ensures 0 <= ss[k].running + Locked(ss[k]) <= concurrency
    ensures Counted(ss[k]) > 0 ==> ss[k].running + Locked(ss[k]) == concurrency
  {
    PathKeepsInv(concurrency, ss, ops, k);
    LockedIsNatural(ss[k]);
  }

  lemma {:induction false} MarkedMayLock(s: GroupState, ref: nat)
    requires NotifiedAreEligible(s) && HasRef(s.queue, ref)
    ensures var h := s.queue[Find(s.queue, ref)]; h.notified && !h.locked ==> MayLock(s, ref)
  {
  }

  lemma {:induction false} RefsAreOld(s: GroupState, ref: nat)
    requires Shape(s) && HasRef(s.queue, ref)
    ensures ref < s.nextRef
  {
  }

  /**
   * In every reachable state a notified handle that waits may lock, and a handle that may lock without having been
   * notified could do so in every state since it was inserted.
   */
  lemma {:induction false} EligibleHandlesAreTold(
    concurrency: int, ss: seq<GroupState>, ops: seq<Op>, k: nat, m: nat, ref: nat)
    requires concurrency >= 0 && Path(concurrency, ss, ops) && m <= k < |ss|
    ensures HasRef(ss[k].queue, ref) && (var h := ss[k].queue[Find(ss[k].queue, ref)]; h.notified && !h.locked) ==>
              MayLock(ss[k], ref)
    ensures Silent(ss[k], ref) && HasRef(ss[m].queue, ref) ==> Silent(ss[m], ref)
  {
    PathKeepsInv(concurrency, ss, ops, k);
    if HasRef(ss[k].queue, ref) {
      MarkedMayLock(ss[k], ref);
    }
    if m < k && HasRef(ss[m].queue, ref) {
      PathKeepsInv(concurrency, ss, ops, k - 1);
      EligibilityIsKept(ss[k - 1], ops[k - 1], ref);
      RefsGrow(concurrency, ss, ops, m, k - 1);
      PathKeepsInv(concurrency, ss, ops, m);
      RefsAreOld(ss[m], ref);
      EligibleHandlesAreTold(concurrency, ss, ops, k - 1, m, ref);
    }
  }

  lemma {:induction false} RefsGrow(concurrency: int, ss: seq<GroupState>, ops: seq<Op>, m: nat, k: nat)
    requires concurrency >= 0 && Path(concurrency, ss, ops) && m <= k < |ss|
    ensures ss[m].nextRef <= ss[k].nextRef
  {
    if m < k {
      RefsGrow(concurrency, ss, ops, m, k - 1);
      PathKeepsInv(concurrency, ss, ops, k - 1);
      ApplyKeepsShape(ss[k - 1], ops[k - 1]);
    }
  }

  // ----- No waiter is stranded -----

  /** A parked waiter has a live lock or a queued handle whose end will hand it out. */
  predicate Watched(s: GroupState) {
    Parked(s) ==> s.running > 0 || s.queue != []
  }

  /** The only way to strand a waiter: the last thing outstanding is a handle that was never locked. */
  predicate Strands(s: GroupState, op: Op)
    requires CanApply(s, op)
  {
    op.Destroy? && |s.queue| == 1 && !s.queue[Find(s.queue, op.ref)].locked && s.running == 0 && Parked(s)
  }

  lemma {:induction false} DestroyWatches(s: GroupState, ref: nat)
    requires Inv(s) && HasRef(s.queue, ref)
    ensures Watched(DropHandle(s, ref)) <==> !Strands(s, Destroy(ref))
  {
    var t := Unqueue(s, ref);
    HandOutMovesOne(t);
    assert t.buckets == s.buckets;
    if s.queue[Find(s.queue, ref)].locked && s.tokens < 0 {
      CountedMeansParked(s);
    }
  }

  /** An operation on a watched group leaves it watched exactly when it is not that one. */
  lemma {:induction false} ApplyWatches(s: GroupState, op: Op)
    requires Inv(s) && Watched(s) && s.concurrency >= 1 && CanApply(s, op)
    ensures Watched(Apply(s, op)) <==> !Strands(s, op)
  {
    match op {
      case Submit(task, priority) =>
        ZeroSum(s.queue[..0], LockWeight);
        ApplyKeepsInv(s, op);
        HandOutMovesOne(s);
        if s.queue == [] {
          assert s.running + Locked(s) == s.concurrency - Max(s.tokens, 0);
        }
      case Release =>
        HandOutMovesOne(s.(running := s.running - 1, tokens := s.tokens + 1));
        if s.tokens < 0 {
          CountedMeansParked(s);
        }
      case Destroy(ref) => DestroyWatches(s, ref);
      case _ =>
    }
  }

  lemma {:induction false} NoWaiterIsStranded(concurrency: int, ss: seq<GroupState>, ops: seq<Op>, k: nat)
    requires concurrency >= 1 && Path(concurrency, ss, ops) && k < |ss|
    requires forall m :: 0 <= m < k && ops[m].Destroy? ==> ss[m].queue[Find(ss[m].queue, ops[m].ref)].locked
    ensures Parked(ss[k]) ==> ss[k].running > 0 || Locked(ss[k]) > 0 || ss[k].queue != []
    ensures Watched(ss[k])
  {
    if k > 0 {
      NoWaiterIsStranded(concurrency, ss, ops, k - 1);
      PathKeepsInv(concurrency, ss, ops, k - 1);
      ApplyWatches(ss[k - 1], ops[k - 1]);
    }
  }

  /** A handle destroyed before it was locked strands the waiter that made way for it. */
  lemma {:induction false} UnlockedHandleStrands() returns (ss: seq<GroupState>, ops: seq<Op>)
    ensures Path(1, ss, ops) && |ss| == 4
    ensures Parked(ss[3]) && ss[3].running == 0 && ss[3].queue == [] && ss[3].tokens == 1
  {
    var s0 := Init(1);
    var s1 := CreateFirst(s0, 7, 500);
    var s2 := SubmitBehindHandle(s1, 8, 500);
    var s3 := DestroyLast(s2, 0);
    assert s3.buckets[2] != [];
    ops := [Create(7, 500), Submit(8, 500), Destroy(0)];
    ss := [s0, s1, s2, s3];
    forall k | 0 <= k < 3
      ensures CanApply(ss[k], ops[k]) && ss[k + 1] == Apply(ss[k], ops[k])
    {
      assert k == 0 || k == 1 || k == 2;
    }
  }

  lemma {:induction false} CreateFirst(s: GroupState, taskId: int, priority: int) returns (t: GroupState)
    requires s.queue == []
    ensures t == NewHandle(s, taskId, priority)
    ensures |t.queue| == 1 && t.queue[0].ref == s.nextRef && !t.queue[0].locked
    ensures t == s.(queue := t.queue, slowPending := s.slowPending + 1, nextRef := s.nextRef + 1)
  {
    t := NewHandle(s, taskId, priority);
  }

  lemma {:induction false} DestroyLast(s: GroupState, ref: nat) returns (t: GroupState)
    requires |s.queue| == 1 && s.queue[0].ref == ref && !s.queue[0].locked
    ensures HasRef(s.queue, ref) && t == DropHandle(s, ref)
    ensures t == s.(queue := [], slowPending := s.slowPending - 1)
  {
    assert HasRef(s.queue, ref);
    t := DropHandle(s, ref);
    assert t.queue == [];
  }

  /** A task submitted while a slow handle is pending and a token is free parks uncounted. */
  lemma {:induction false} SubmitBehindHandle(s: GroupState, task: nat, priority: int) returns (t: GroupState)
    requires |s.buckets| == Priority.BUCKETS && s.tokens > 0 && s.slowPending > 0
    ensures t == TrySubmit(s, task, priority)
    ensures t == s.(queue := Notified(s.queue, s.tokens), buckets := t.buckets) && |t.buckets| == Priority.BUCKETS
    ensures t.buckets[Priority.Index(priority)] ==
            s.buckets[Priority.Index(priority)] + [WaitEntry(task, priority, false)]
  {
    t := TrySubmit(s, task, priority);
  }

  // ----- Order of dispatch -----

  /**
   * Every release hands out at most one waiter: the oldest one of its bucket, and no parked waiter is in a bucket of
   * higher priority.
   */
  lemma {:induction false} ReleaseHandsOutTheBest(s: GroupState, op: Op)
    requires Inv(s) && CanApply(s, op) && (op.Release? || op.Destroy?)
    ensures var t := Apply(s, op);
            || (t.buckets == s.buckets && t.handed == s.handed)
            || (exists b :: 0 <= b < |s.buckets| && s.buckets[b] != []
                  && t.buckets == s.buckets[b := s.buckets[b][1..]]
                  && t.handed == s.handed + [s.buckets[b][0].task]
                  && forall c, i :: 0 <= c < |s.buckets| && 0 <= i < |s.buckets[c]| ==>
                       Priority.Index(s.buckets[c][i].priority) >= Priority.Index(s.buckets[b][0].priority))
  {
    var b := Priority.FirstBucket(s.buckets, 0);
    if op.Destroy? {
      assert Unqueue(s, op.ref).buckets == s.buckets;
    }
  }
}
