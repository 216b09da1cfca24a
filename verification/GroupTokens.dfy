/**
 * The group at the grain of whole operations: each call of `try_submit`, `try_acquire_running_lock`, `lock`,
 * `GroupLock::lock` and the two lock destructors is one step. The functions here are the specifications of the
 * methods of `Groups.Group`; the lemmas are the invariant that every operation keeps.
 */
module GroupTokens {
  import opened Sums
  import opened LockQueue
  import Priority

  /** `slot` is true once the waiter has subtracted its own token. */
  datatype WaitEntry = WaitEntry(task: nat, priority: int, slot: bool)

  datatype GroupState = GroupState(
    concurrency: int,
    tokens: int,
    slowPending: int,
    buckets: seq<seq<WaitEntry>>,
    queue: seq<LockHandle>,
    running: int,                  // live RunningLocks
    nextRef: nat,                  // identities at and above this one are unused
    handed: seq<nat>               // the tasks handed to a pool, in order
  )

  function Init(concurrency: int): GroupState {
    GroupState(concurrency, concurrency, 0, seq(Priority.BUCKETS, _ => []), [], 0, 0, [])
  }

  // ----- The operations -----

  /** Hands the first waiter of the first occupied bucket to its pool and settles its decrement. */
  function HandOut(s: GroupState): GroupState {
    var b := Priority.FirstBucket(s.buckets, 0);
    if b == |s.buckets| then s
    else
      var e := s.buckets[b][0];
      s.(buckets := s.buckets[b := s.buckets[b][1..]],
         running := s.running + 1,
         tokens := if e.slot then s.tokens else s.tokens - 1,
         handed := s.handed + [e.task])
  }

  function ReleaseToken(s: GroupState): GroupState {
    var freed := s.(tokens := s.tokens + 1);
    if s.tokens < 0 then HandOut(freed)
    else if s.slowPending > 0 then freed.(queue := Notified(s.queue, freed.tokens))
    else HandOut(freed)
  }

  function DropRunning(s: GroupState): GroupState {
    ReleaseToken(s.(running := s.running - 1))
  }

  function TryAcquire(s: GroupState): GroupState {
    if s.slowPending > 0 || s.tokens <= 0 then s
    else s.(tokens := s.tokens - 1, running := s.running + 1)
  }

  function ParkPublish(s: GroupState, task: nat, priority: int): GroupState
    requires |s.buckets| == Priority.BUCKETS
  {
    var b := Priority.Index(priority);
    s.(buckets := s.buckets[b := s.buckets[b] + [WaitEntry(task, priority, false)]])
  }

  /** Marks the newest waiter of bucket `b` as counted. */
  function ClaimNewest(s: GroupState, b: nat): GroupState
    requires b < |s.buckets| && s.buckets[b] != []
  {
    var n := |s.buckets[b]| - 1;
    s.(buckets := s.buckets[b := s.buckets[b][n := s.buckets[b][n].(slot := true)]])
  }

  /** Reconciles the waiter just published at the end of bucket `b`. */
  function ParkReconcile(s: GroupState, b: nat): GroupState
    requires b < |s.buckets| && s.buckets[b] != []
  {
    var reserved := s.(tokens := s.tokens - 1);
    if s.tokens > 0 && s.slowPending > 0 then ReleaseToken(reserved)
    else
      var claimed := ClaimNewest(reserved, b);
      if s.tokens > 0 then HandOut(claimed) else claimed
  }

  function TrySubmit(s: GroupState, task: nat, priority: int): GroupState
    requires |s.buckets| == Priority.BUCKETS
  {
    if s.slowPending == 0 && s.tokens > 0 then
      s.(tokens := s.tokens - 1, running := s.running + 1, handed := s.handed + [task])
    else ParkReconcile(ParkPublish(s, task, priority), Priority.Index(priority))
  }

  function NewHandle(s: GroupState, taskId: int, priority: int): GroupState {
    var h := LockHandle(s.nextRef, taskId, priority, false, false);
    s.(queue := Unnotified(Inserted(s.queue, h), s.tokens),
       slowPending := s.slowPending + 1,
       nextRef := s.nextRef + 1)
  }

  /** Whether `GroupLock::lock` returns true. */
  predicate CanLock(s: GroupState, ref: nat)
    requires HasRef(s.queue, ref)
  {
    var i := Find(s.queue, ref);
    s.queue[i].locked || Eligible(s.queue, s.tokens, i)
  }

  function TryLock(s: GroupState, ref: nat): GroupState
    requires HasRef(s.queue, ref)
  {
    var i := Find(s.queue, ref);
    if s.queue[i].locked || !Eligible(s.queue, s.tokens, i) then s
    else s.(tokens := s.tokens - 1, queue := s.queue[i := s.queue[i].(locked := true)])
  }

  /** The mutex section of the destructor, and the lowering of `slow_pending` after it. */
  function Unqueue(s: GroupState, ref: nat): GroupState
    requires HasRef(s.queue, ref)
  {
    var tokens := if s.queue[Find(s.queue, ref)].locked then s.tokens + 1 else s.tokens;
    s.(tokens := tokens, queue := Notified(Removed(s.queue, ref), tokens), slowPending := s.slowPending - 1)
  }

  function DropHandle(s: GroupState, ref: nat): GroupState
    requires HasRef(s.queue, ref)
  {
    var wasLocked := s.queue[Find(s.queue, ref)].locked;
    var t := Unqueue(s, ref);
    if wasLocked && (s.tokens < 0 || t.slowPending == 0) then HandOut(t) else t
  }

  datatype Op =
    | Submit(task: nat, priority: int)
    | Acquire
    | Release
    | Create(taskId: int, priority: int)
    | Lock(ref: nat)
    | Destroy(ref: nat)

  predicate CanApply(s: GroupState, op: Op) {
    match op
    case Release => s.running > 0
    case Lock(ref) => HasRef(s.queue, ref)
    case Destroy(ref) => HasRef(s.queue, ref)
    case _ => true
  }

  function Apply(s: GroupState, op: Op): GroupState
    requires |s.buckets| == Priority.BUCKETS && CanApply(s, op)
  {
    match op
    case Submit(task, priority) => TrySubmit(s, task, priority)
    case Acquire => TryAcquire(s)
    case Release => DropRunning(s)
    case Create(taskId, priority) => NewHandle(s, taskId, priority)
    case Lock(ref) => TryLock(s, ref)
    case Destroy(ref) => DropHandle(s, ref)
  }

  // ----- The invariant -----

  function EntryWeight(e: WaitEntry): int { if e.slot then 1 else 0 }

  function BucketWeight(b: seq<WaitEntry>): int { Sum(b, EntryWeight) }

  /** Parked waiters that have subtracted their token. */
  function Counted(s: GroupState): int { Sum(s.buckets, BucketWeight) }

  function Locked(s: GroupState): int { Sum(s.queue, LockWeight) }

  predicate Parked(s: GroupState) {
    exists b :: 0 <= b < |s.buckets| && s.buckets[b] != []
  }

  function Max(a: int, b: int): int { if a > b then a else b }

  predicate QueueOk(s: GroupState) {
    && Sorted(s.queue)
    && DistinctRefs(s.queue)
    && (forall i :: 0 <= i < |s.queue| ==> s.queue[i].ref < s.nextRef)
  }

  predicate Shape(s: GroupState) {
    && |s.buckets| == Priority.BUCKETS
    && (forall b, i :: 0 <= b < |s.buckets| && 0 <= i < |s.buckets[b]| ==>
          Priority.Index(s.buckets[b][i].priority) == b)
    && QueueOk(s)
  }

  /** Negative tokens count the committed waiters, positive tokens are the free capacity. */
  predicate Balanced(s: GroupState) {
    && Counted(s) == Max(0, -s.tokens)
    && s.running + Locked(s) == s.concurrency - Max(s.tokens, 0)
    && s.slowPending == |s.queue|
    && s.running >= 0
  }

  /** Only handles that have enough tokens are marked as notified. */
  predicate NotifiedAreEligible(s: GroupState) {
    forall i :: 0 <= i < |s.queue| && s.queue[i].notified && !s.queue[i].locked ==> Eligible(s.queue, s.tokens, i)
  }

  predicate Inv(s: GroupState) {
    Shape(s) && Balanced(s) && NotifiedAreEligible(s)
  }

  // ----- Sums over the buckets -----

  lemma {:induction false} BucketChange(s: GroupState, b: nat, bucket: seq<WaitEntry>)
    requires b < |s.buckets|
    ensures Counted(s.(buckets := s.buckets[b := bucket])) ==
            Counted(s) - BucketWeight(s.buckets[b]) + BucketWeight(bucket)
  {
    SumUpdate(s.buckets, b, bucket, BucketWeight);
  }

  lemma {:induction false} CountedIsNatural(s: GroupState)
    ensures Counted(s) >= 0
    ensures forall b, i :: 0 <= b < |s.buckets| && 0 <= i < |s.buckets[b]| && Counted(s) == 0 ==> !s.buckets[b][i].slot
  {
    forall b | 0 <= b < |s.buckets|
      ensures BucketWeight(s.buckets[b]) >= 0
      ensures forall i :: 0 <= i < |s.buckets[b]| && s.buckets[b][i].slot ==> BucketWeight(s.buckets[b]) >= 1
    {
      NonNegativeSum(s.buckets[b], EntryWeight);
      forall i | 0 <= i < |s.buckets[b]| && s.buckets[b][i].slot ensures BucketWeight(s.buckets[b]) >= 1 {
        TermBelowSum(s.buckets[b], EntryWeight, i);
      }
    }
    NonNegativeSum(s.buckets, BucketWeight);
    forall b, i | 0 <= b < |s.buckets| && 0 <= i < |s.buckets[b]| && Counted(s) == 0
      ensures !s.buckets[b][i].slot
    {
      TermBelowSum(s.buckets, BucketWeight, b);
    }
  }

  lemma {:induction false} CountedMeansParked(s: GroupState)
    requires Counted(s) > 0
    ensures Parked(s)
  {
    var b := PositiveTerm(s.buckets, BucketWeight);
    assert s.buckets[b] != [];
  }

  lemma {:induction false} LockedIsNatural(s: GroupState)
    ensures Locked(s) >= 0
  {
    NonNegativeSum(s.queue, LockWeight);
  }

  /** Handing out moves one waiter to running: either a counted one, or an uncounted one that now takes a token. */
  lemma {:induction false} HandOutMovesOne(s: GroupState)
    ensures !Parked(s) ==> HandOut(s) == s
    ensures Parked(s) ==>
              var t := HandOut(s);
              && t == s.(buckets := t.buckets, running := s.running + 1, tokens := t.tokens, handed := t.handed)
              && 0 <= Counted(s) - Counted(t) <= 1
              && t.tokens == s.tokens - 1 + Counted(s) - Counted(t)
  {
    var b := Priority.FirstBucket(s.buckets, 0);
    if b < |s.buckets| {
      var bucket := s.buckets[b];
      assert bucket == [bucket[0]] + bucket[1..];
      SumConcat([bucket[0]], bucket[1..], EntryWeight);
      BucketChange(s, b, bucket[1..]);
      assert HandOut(s).buckets == s.(buckets := s.buckets[b := bucket[1..]]).buckets;
    }
  }

  // ----- Every operation keeps the balance -----

  lemma {:induction false} ReleaseKeepsBalance(s: GroupState)
    requires Balanced(s) && s.running > 0
    ensures Balanced(DropRunning(s))
  {
    ReleaseRebalances(s.(running := s.running - 1));
  }

  /** A token given back by a lock that is no longer counted anywhere restores the balance. */
  lemma {:induction false} ReleaseRebalances(s: GroupState)
    requires Balanced(s.(running := s.running + 1)) && s.running >= 0
    ensures Balanced(ReleaseToken(s))
  {
    var freed := s.(tokens := s.tokens + 1);
    CountedIsNatural(freed);
    CountedIsNatural(HandOut(freed));
    LockedIsNatural(s);
    HandOutMovesOne(freed);
    if s.tokens < 0 {
      CountedMeansParked(freed);
    } else {
      SumSame(s.queue, Notified(s.queue, freed.tokens), LockWeight);
    }
  }

  lemma {:induction false} SubmitKeepsBalance(s: GroupState, task: nat, priority: int)
    requires Balanced(s) && |s.buckets| == Priority.BUCKETS
    ensures Balanced(TrySubmit(s, task, priority))
  {
    if !(s.slowPending == 0 && s.tokens > 0) {
      var b := Priority.Index(priority);
      var p := ParkPublish(s, task, priority);
      SumAppend(s.buckets[b], WaitEntry(task, priority, false), EntryWeight);
      BucketChange(s, b, p.buckets[b]);
      assert Counted(p) == Counted(s);
      var reserved := p.(tokens := p.tokens - 1);
      if s.tokens > 0 {
        ReleaseRebalances(reserved);
      } else {
        var n := |p.buckets[b]| - 1;
        var claimed := ClaimNewest(reserved, b);
        SumUpdate(p.buckets[b], n, p.buckets[b][n].(slot := true), EntryWeight);
        BucketChange(reserved, b, claimed.buckets[b]);
      }
    }
  }

  lemma {:induction false} LockKeepsBalance(s: GroupState, ref: nat)
    requires Balanced(s) && HasRef(s.queue, ref)
    ensures Balanced(TryLock(s, ref))
  {
    var i := Find(s.queue, ref);
    if !s.queue[i].locked && Eligible(s.queue, s.tokens, i) {
      UnlockedGrows(s.queue, i, i + 1);
      SumUpdate(s.queue, i, s.queue[i].(locked := true), LockWeight);
    }
  }

  lemma {:induction false} CreateKeepsBalance(s: GroupState, taskId: int, priority: int)
    requires Balanced(s)
    ensures Balanced(NewHandle(s, taskId, priority))
  {
    var h := LockHandle(s.nextRef, taskId, priority, false, false);
    SumInsert(s.queue, InsertionPoint(s.queue, h), h, LockWeight);
    SumSame(Inserted(s.queue, h), Unnotified(Inserted(s.queue, h), s.tokens), LockWeight);
  }

  lemma {:induction false} DestroyKeepsBalance(s: GroupState, ref: nat)
    requires Balanced(s) && HasRef(s.queue, ref)
    ensures Balanced(DropHandle(s, ref))
  {
    var t := Unqueue(s, ref);
    SumRemove(s.queue, Find(s.queue, ref), LockWeight);
    SumSame(Removed(s.queue, ref), t.queue, LockWeight);
    HandOutMovesOne(t);
    CountedIsNatural(t);
    CountedIsNatural(HandOut(t));
    LockedIsNatural(t);
    if s.tokens < 0 {
      CountedMeansParked(t);
    }
  }

  lemma {:induction false} ApplyKeepsBalance(s: GroupState, op: Op)
    requires Balanced(s) && |s.buckets| == Priority.BUCKETS && CanApply(s, op)
    ensures Balanced(Apply(s, op)) && Apply(s, op).concurrency == s.concurrency
  {
    match op {
      case Submit(task, priority) => SubmitKeepsBalance(s, task, priority);
      case Acquire =>
      case Release => ReleaseKeepsBalance(s);
      case Create(taskId, priority) => CreateKeepsBalance(s, taskId, priority);
      case Lock(ref) => LockKeepsBalance(s, ref);
      case Destroy(ref) => DestroyKeepsBalance(s, ref);
    }
  }

  // ----- The slow queue -----

  lemma {:induction false} EligibleNeedsTokens(q: seq<LockHandle>, tokens: int, i: nat)
    requires i < |q| && !q[i].locked && Eligible(q, tokens, i)
    ensures tokens >= 1
  {
    UnlockedGrows(q, i, i + 1);
  }

  /** Removing a handle and returning its token never takes the tokens of another handle. */
  lemma {:induction false} EligibleAfterRemoval(q: seq<LockHandle>, p: nat, tokens: int, i: nat)
    requires p < |q| && i < |q| - 1
    requires Eligible(q, tokens, if i < p then i else i + 1)
    ensures Eligible(Without(q, p), if q[p].locked then tokens + 1 else tokens, i)
  {
    UnlockedOfWithout(q, p, i + 1);
  }

  lemma {:induction false} NotifyKeepsEligibility(q: seq<LockHandle>, tokens: int, i: nat)
    requires i < |q|
    ensures Eligible(Notified(q, tokens), tokens, i) == Eligible(q, tokens, i)
    ensures Eligible(Unnotified(q, tokens), tokens, i) == Eligible(q, tokens, i)
  {
    NotifyKeepsCounts(q, tokens, i + 1);
  }

  lemma {:induction false} HandOutKeepsShape(s: GroupState)
    requires Shape(s)
    ensures Shape(HandOut(s))
  {
  }

  lemma {:induction false} ReleaseKeepsShape(s: GroupState)
    requires Shape(s)
    ensures Shape(ReleaseToken(s)) && ReleaseToken(s).nextRef == s.nextRef
  {
    HandOutKeepsShape(s.(tokens := s.tokens + 1));
  }

  lemma {:induction false} SubmitKeepsShape(s: GroupState, task: nat, priority: int)
    requires Shape(s)
    ensures Shape(TrySubmit(s, task, priority)) && TrySubmit(s, task, priority).nextRef == s.nextRef
  {
    if !(s.slowPending == 0 && s.tokens > 0) {
      var b := Priority.Index(priority);
      var p := ParkPublish(s, task, priority);
      assert Shape(p);
      var reserved := p.(tokens := p.tokens - 1);
      ReleaseKeepsShape(reserved);
      HandOutKeepsShape(ClaimNewest(reserved, b));
    }
  }

  lemma {:induction false} DestroyKeepsShape(s: GroupState, ref: nat)
    requires Shape(s) && HasRef(s.queue, ref)
    ensures Shape(DropHandle(s, ref)) && DropHandle(s, ref).nextRef == s.nextRef
  {
    HandOutKeepsShape(Unqueue(s, ref));
  }

  lemma {:induction false} NewQueueIsOk(q: seq<LockHandle>, tokens: int, next: nat)
    requires Sorted(q) && DistinctRefs(q) && forall i :: 0 <= i < |q| ==> q[i].ref < next
    ensures var r := Unnotified(q, tokens);
            Sorted(r) && DistinctRefs(r) && forall i :: 0 <= i < |r| ==> r[i].ref < next
  {
  }

  lemma {:induction false} CreateKeepsShape(s: GroupState, taskId: int, priority: int)
    requires Shape(s)
    ensures Shape(NewHandle(s, taskId, priority))
  {
    var h := LockHandle(s.nextRef, taskId, priority, false, false);
    var q := Inserted(s.queue, h);
    InsertedIsSorted(s.queue, h);
    DistinctWith(s.queue, InsertionPoint(s.queue, h), h);
    NewQueueIsOk(q, s.tokens, s.nextRef + 1);
  }

  lemma {:induction false} ApplyKeepsShape(s: GroupState, op: Op)
    requires Shape(s) && CanApply(s, op)
    ensures Shape(Apply(s, op)) && s.nextRef <= Apply(s, op).nextRef
  {
    match op {
      case Submit(task, priority) => SubmitKeepsShape(s, task, priority);
      case Acquire =>
      case Release => ReleaseKeepsShape(s.(running := s.running - 1));
      case Create(taskId, priority) => CreateKeepsShape(s, taskId, priority);
      case Lock(ref) =>
      case Destroy(ref) => DestroyKeepsShape(s, ref);
    }
  }

  /** Without a free token no waiting handle is marked, so taking tokens can not break a promise. */
  lemma {:induction false} NoMarksWithoutTokens(s: GroupState, t: GroupState)
    requires NotifiedAreEligible(s) && s.tokens <= 0 && t.queue == s.queue
    ensures NotifiedAreEligible(t)
  {
    forall i | 0 <= i < |s.queue| && s.queue[i].notified && !s.queue[i].locked ensures false {
      EligibleNeedsTokens(s.queue, s.tokens, i);
    }
  }

  lemma {:induction false} MoreTokensKeepMarks(q: seq<LockHandle>, tokens: int, tokens': int)
    requires forall i :: 0 <= i < |q| && q[i].notified && !q[i].locked ==> Eligible(q, tokens, i)
    requires tokens <= tokens'
    ensures forall i :: 0 <= i < |q| && Notified(q, tokens')[i].notified && !q[i].locked ==>
              Eligible(Notified(q, tokens'), tokens', i)
  {
    forall i | 0 <= i < |q| ensures Eligible(Notified(q, tokens'), tokens', i) == Eligible(q, tokens', i) {
      NotifyKeepsEligibility(q, tokens', i);
    }
  }

  lemma {:induction false} ReleaseKeepsMarks(s: GroupState)
    requires NotifiedAreEligible(s) && s.slowPending == |s.queue|
    ensures NotifiedAreEligible(ReleaseToken(s))
  {
    if s.tokens < 0 {
      NoMarksWithoutTokens(s, ReleaseToken(s));
    } else {
      MoreTokensKeepMarks(s.queue, s.tokens, s.tokens + 1);
    }
  }

  lemma {:induction false} SubmitKeepsMarks(s: GroupState, task: nat, priority: int)
    requires Shape(s) && Balanced(s) && NotifiedAreEligible(s)
    ensures NotifiedAreEligible(TrySubmit(s, task, priority))
  {
    var t := TrySubmit(s, task, priority);
    if s.tokens > 0 && s.slowPending > 0 {
      MoreTokensKeepMarks(s.queue, s.tokens, s.tokens);
    } else if s.tokens <= 0 {
      NoMarksWithoutTokens(s, t);
    }
  }

  /** A successful `lock()` leaves every unlocked handle ahead, and behind, as eligible as it was. */
  lemma {:induction false} LockKeepsEligibility(s: GroupState, ref: nat, j: nat)
    requires HasRef(s.queue, ref) && j < |s.queue| && j != Find(s.queue, ref)
    ensures !s.queue[j].locked ==>
              (Eligible(TryLock(s, ref).queue, TryLock(s, ref).tokens, j)
               <==> Eligible(s.queue, s.tokens, j))
  {
    var i := Find(s.queue, ref);
    if !s.queue[i].locked && Eligible(s.queue, s.tokens, i) {
      UnlockedOfLocked(s.queue, i, j + 1);
      if j < i {
        UnlockedGrows(s.queue, j + 1, i);
        UnlockedGrows(s.queue, i, i + 1);
      }
    }
  }

  lemma {:induction false} LockKeepsMarks(s: GroupState, ref: nat)
    requires NotifiedAreEligible(s) && HasRef(s.queue, ref)
    ensures NotifiedAreEligible(TryLock(s, ref))
  {
    var t := TryLock(s, ref);
    forall j | 0 <= j < |t.queue| && t.queue[j].notified && !t.queue[j].locked
      ensures Eligible(t.queue, t.tokens, j)
    {
      if j != Find(s.queue, ref) {
        LockKeepsEligibility(s, ref, j);
      }
    }
  }

  lemma {:induction false} CreateKeepsMarks(s: GroupState, taskId: int, priority: int)
    ensures NotifiedAreEligible(NewHandle(s, taskId, priority))
  {
    var h := LockHandle(s.nextRef, taskId, priority, false, false);
    var q := Inserted(s.queue, h);
    forall i | 0 <= i < |q| ensures Eligible(Unnotified(q, s.tokens), s.tokens, i) == Eligible(q, s.tokens, i) {
      NotifyKeepsEligibility(q, s.tokens, i);
    }
  }

  lemma {:induction false} DestroyKeepsMarks(s: GroupState, ref: nat)
    requires Balanced(s) && NotifiedAreEligible(s) && HasRef(s.queue, ref)
    ensures NotifiedAreEligible(DropHandle(s, ref))
  {
    var t := Unqueue(s, ref);
    var q := Removed(s.queue, ref);
    forall i | 0 <= i < |q| && q[i].notified && !q[i].locked ensures Eligible(q, t.tokens, i) {
      EligibleAfterRemoval(s.queue, Find(s.queue, ref), s.tokens, i);
    }
    MoreTokensKeepMarks(q, t.tokens, t.tokens);
    if s.tokens < 0 {
      NoMarksWithoutTokens(t, HandOut(t));
    }
  }

  lemma {:induction false} ApplyKeepsMarks(s: GroupState, op: Op)
    requires Inv(s) && CanApply(s, op)
    ensures NotifiedAreEligible(Apply(s, op))
  {
    match op {
      case Submit(task, priority) => SubmitKeepsMarks(s, task, priority);
      case Acquire =>
      case Release => ReleaseKeepsMarks(s.(running := s.running - 1));
      case Create(taskId, priority) => CreateKeepsMarks(s, taskId, priority);
      case Lock(ref) => LockKeepsMarks(s, ref);
      case Destroy(ref) => DestroyKeepsMarks(s, ref);
    }
  }

  lemma {:induction false} ApplyKeepsInv(s: GroupState, op: Op)
    requires Inv(s) && CanApply(s, op)
    ensures Inv(Apply(s, op))
  {
    ApplyKeepsShape(s, op);
    ApplyKeepsBalance(s, op);
    ApplyKeepsMarks(s, op);
  }
}
