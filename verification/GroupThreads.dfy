/**
 * The group token protocol at the grain of its atomic steps.
 *
 * Any number of threads run `try_acquire_running_lock`, `try_submit`, `lock`, `GroupLock::lock` and the two lock
 * destructors. One step of one thread is one atomic read-modify-write or load, one enqueue or dequeue of a waiter
 * bucket, or one mutex section. Atomics are sequentially consistent.
 */
module GroupThreads {
  import Priority
  import opened LockQueue

  /** Where the queued entry of a parked waiter is. */
  datatype Place = Parked | InHand(holder: nat) | Dispatched

  /**
   * A waiter that was published in a bucket. `owner` is the thread that published it and reconciles it; `wins`
   * counts how often an exchange on its arbiter slot returned false.
   */
  datatype Waiter = Waiter(task: nat, priority: int, bucket: nat, owner: nat, slot: bool, wins: nat, place: Place)

  /** What a thread does once the call it is in returns. */
  datatype After = Return | Park(task: nat, priority: int)

  /** The program point of a thread inside a group operation, with its local variables. */
  datatype Thread =
    | Idle
    | LoadSlow(next: After)
    | LoadTokens(next: After)
    | Cas(next: After, expected: int)
    | Recheck(next: After)                              // took a token, about to look at slow_pending again
    | Release(next: After)                              // about to add a token back
    | Released(next: After)                             // added a token that no counted waiter was owed
    | NotifySlow(next: After)
    | Scan(bucket: nat, next: After)                    // draining: about to look at this bucket
    | Exchange(waiter: nat, next: After)                // dequeued a waiter, about to claim its slot
    | Dispatch(waiter: nat, uncounted: bool, next: After)
    | Owe(next: After)                                  // dispatched an uncounted waiter, owes its decrement
    | Publish(task: nat, priority: int)
    | Reserve(waiter: nat)                              // published a waiter, about to subtract its token
    | Reserved(waiter: nat, prev: int)
    | Claim(waiter: nat, prev: int)                     // about to exchange the slot of its own waiter
    | Insert(handle: LockHandle)                        // slow_pending is raised, the handle is not yet queued
    | Unpend(wasLocked: bool, prev: int)                // dequeued a handle, about to lower slow_pending
    | Handback                                          // released a locked handle, about to look at slow_pending

  datatype State = State(
    concurrency: int,
    tokens: int,
    slowPending: int,
    running: int,                // live RunningLocks
    queue: seq<LockHandle>,
    waiters: seq<Waiter>,        // every waiter ever published
    buckets: seq<seq<nat>>,      // waiters by index, oldest first
    threads: seq<Thread>,
    nextRef: nat,                // identities of handles at and above this one are unused
    handed: seq<nat>             // the tasks handed to a pool, in order
  )

  // ----- Structural invariant -----

  predicate HoldsEntry(th: Thread, w: nat) {
    (th.Exchange? && th.waiter == w) || (th.Dispatch? && th.waiter == w)
  }

  predicate Reconciles(th: Thread, w: nat) {
    (th.Reserve? && th.waiter == w) || (th.Reserved? && th.waiter == w) || (th.Claim? && th.waiter == w)
  }

  predicate ThreadOk(s: State, t: nat)
    requires t < |s.threads|
  {
    var th := s.threads[t];
    && (th.Exchange? || th.Dispatch? ==>
          && th.waiter < |s.waiters|
          && s.waiters[th.waiter].place == InHand(t)
          && (th.Dispatch? ==> s.waiters[th.waiter].slot))
    && (th.Reserve? || th.Reserved? || th.Claim? ==>
          && th.waiter < |s.waiters|
          && s.waiters[th.waiter].owner == t
          && (s.waiters[th.waiter].place.Parked? ==> !s.waiters[th.waiter].slot))
  }

  predicate WaiterOk(s: State, w: nat)
    requires w < |s.waiters| && |s.buckets| == Priority.BUCKETS
  {
    var x := s.waiters[w];
    && x.bucket == Priority.Index(x.priority)
    && x.owner < |s.threads|
    && x.wins == (if x.slot then 1 else 0)
    && (x.place.Parked? ==> w in s.buckets[x.bucket])
    && (x.place.InHand? ==> x.place.holder < |s.threads| && HoldsEntry(s.threads[x.place.holder], w))
    && (x.place.Dispatched? ==> x.slot)
  }

  predicate BucketOk(s: State, b: nat)
    requires b < |s.buckets|
  {
    && (forall i :: 0 <= i < |s.buckets[b]| ==>
          && s.buckets[b][i] < |s.waiters|
          && s.waiters[s.buckets[b][i]].place == Parked
          && s.waiters[s.buckets[b][i]].bucket == b)
    && (forall i, j :: 0 <= i < j < |s.buckets[b]| ==> s.buckets[b][i] != s.buckets[b][j])
  }

  predicate Valid(s: State) {
    && |s.buckets| == Priority.BUCKETS
    && (forall b :: 0 <= b < |s.buckets| ==> BucketOk(s, b))
    && (forall w :: 0 <= w < |s.waiters| ==> WaiterOk(s, w))
    && (forall t :: 0 <= t < |s.threads| ==> ThreadOk(s, t))
  }

  function Init(concurrency: int, threads: nat): (s: State)
    ensures Valid(s)
  {
    State(concurrency, concurrency, 0, 0, [], [], seq(Priority.BUCKETS, _ => []), seq(threads, _ => Idle), 0, [])
  }

  // ----- Steps -----

  function Put(s: State, t: nat, th: Thread): State
    requires t < |s.threads|
  {
    s.(threads := s.threads[t := th])
  }

  /** The point reached when a call returns: a failed `try_submit` goes on to publish its task. */
  function Resume(next: After): Thread {
    match next
    case Return => Idle
    case Park(task, priority) => Publish(task, priority)
  }

  /**
   * The next step of a thread that is inside an operation. A compare-exchange may fail spuriously when `spurious`
   * is set.
   */
  function Advance(s: State, t: nat, spurious: bool): State
    requires Valid(s) && t < |s.threads|
  {
    assert ThreadOk(s, t);
    match s.threads[t]
    case Idle => s
    case LoadSlow(next) => Put(s, t, if s.slowPending > 0 then Resume(next) else LoadTokens(next))
    case LoadTokens(next) => Put(s, t, Cas(next, s.tokens))
    case Cas(next, expected) =>
      if expected <= 0 then Put(s, t, Resume(next))
      else if s.tokens == expected && !spurious then Put(s.(tokens := s.tokens - 1), t, Recheck(next))
      else Put(s, t, Cas(next, s.tokens))
    case Recheck(next) =>
      if s.slowPending > 0 then Put(s, t, Release(next)) else Put(Granted(s, next), t, Idle)
    case Release(next) =>
      Put(s.(tokens := s.tokens + 1), t, if s.tokens < 0 then Scan(0, next) else Released(next))
    case Released(next) => Put(s, t, if s.slowPending > 0 then NotifySlow(next) else Scan(0, next))
    case NotifySlow(next) => Put(s.(queue := Notified(s.queue, s.tokens)), t, Resume(next))
    case Scan(b, next) =>
      if b >= Priority.BUCKETS then Put(s, t, Resume(next))
      else if s.buckets[b] == [] then Put(s, t, Scan(b + 1, next))
      else Dequeue(s, t, b, next)
    case Exchange(w, next) =>
      Put(ClaimSlot(s, w), t, Dispatch(w, !s.waiters[w].slot, next))
    case Dispatch(w, uncounted, next) =>
      Put(s.(running := s.running + 1, handed := s.handed + [s.waiters[w].task],
             waiters := s.waiters[w := s.waiters[w].(place := Dispatched)]), t,
          if uncounted then Owe(next) else Resume(next))
    case Owe(next) => Put(s.(tokens := s.tokens - 1), t, Resume(next))
    case Publish(task, priority) =>
      var b := Priority.Index(priority);
      var w := |s.waiters|;
      Put(s.(waiters := s.waiters + [Waiter(task, priority, b, t, false, 0, Parked)],
             buckets := s.buckets[b := s.buckets[b] + [w]]), t, Reserve(w))
    case Reserve(w) => Put(s.(tokens := s.tokens - 1), t, Reserved(w, s.tokens))
    case Reserved(w, prev) =>
      Put(s, t, if prev > 0 && s.slowPending > 0 then Release(Return) else Claim(w, prev))
    case Claim(w, prev) =>
      if s.waiters[w].slot then Put(s, t, Release(Return))
      else Put(ClaimSlot(s, w), t, if prev > 0 then Scan(0, Return) else Idle)
    case Insert(handle) =>
      Put(s.(queue := Unnotified(Inserted(s.queue, handle), s.tokens)), t, Idle)
    case Unpend(wasLocked, prev) =>
      Put(s.(slowPending := s.slowPending - 1), t,
          if !wasLocked then Idle else if prev < 0 then Scan(0, Return) else Handback)
    case Handback => Put(s, t, if s.slowPending == 0 then Scan(0, Return) else Idle)
  }

  /** The token taken becomes a RunningLock; a submitted task goes to its pool with it. */
  function Granted(s: State, next: After): State {
    s.(running := s.running + 1, handed := if next.Park? then s.handed + [next.task] else s.handed)
  }

  /** A slot exchange: the caller wins when the slot was still false. */
  function ClaimSlot(s: State, w: nat): State
    requires w < |s.waiters|
  {
    var x := s.waiters[w];
    s.(waiters := s.waiters[w := x.(slot := true, wins := if x.slot then x.wins else x.wins + 1)])
  }

  function Dequeue(s: State, t: nat, b: nat, next: After): State
    requires Valid(s) && t < |s.threads| && b < Priority.BUCKETS && s.buckets[b] != []
  {
    assert BucketOk(s, b);
    var w := s.buckets[b][0];
    Put(s.(buckets := s.buckets[b := s.buckets[b][1..]],
           waiters := s.waiters[w := s.waiters[w].(place := InHand(t))]), t, Exchange(w, next))
  }

  /** The operations a thread outside the group can start. */
  datatype Op =
    | TryAcquire
    | TrySubmit(task: nat, priority: int)
    | DropRunning                            // destroy some live RunningLock
    | NewHandle(taskId: int, priority: int)  // Group::lock
    | TryLock(ref: nat)                      // GroupLock::lock on a queued handle
    | DropHandle(ref: nat)                   // destroy a GroupLock

  predicate CanBegin(s: State, op: Op) {
    match op
    case DropRunning => s.running > 0
    case TryLock(ref) => HasRef(s.queue, ref)
    case DropHandle(ref) => HasRef(s.queue, ref)
    case _ => true
  }

  function Begin(s: State, t: nat, op: Op): State
    requires t < |s.threads| && CanBegin(s, op)
  {
    match op
    case TryAcquire => Put(s, t, LoadSlow(Return))
    case TrySubmit(task, priority) => Put(s, t, LoadSlow(Park(task, priority)))
    case DropRunning => Put(s.(running := s.running - 1), t, Release(Return))
    case NewHandle(taskId, priority) =>
      Put(s.(slowPending := s.slowPending + 1, nextRef := s.nextRef + 1), t,
          Insert(LockHandle(s.nextRef, taskId, priority, false, false)))
    case TryLock(ref) => AttemptLock(s, ref)
    case DropHandle(ref) =>
      var i := Find(s.queue, ref);
      var q := Removed(s.queue, ref);
      if s.queue[i].locked then
        Put(s.(tokens := s.tokens + 1, queue := Notified(q, s.tokens + 1)), t, Unpend(true, s.tokens))
      else
        Put(s.(queue := Notified(q, s.tokens)), t, Unpend(false, 0))
  }

  function AttemptLock(s: State, ref: nat): State
    requires HasRef(s.queue, ref)
  {
    var i := Find(s.queue, ref);
    if s.queue[i].locked || !Eligible(s.queue, s.tokens, i) then s
    else s.(tokens := s.tokens - 1, queue := s.queue[i := s.queue[i].(locked := true)])
  }

  datatype Step = Begins(thread: nat, op: Op) | Advances(thread: nat, spurious: bool)

  predicate Enabled(s: State, step: Step) {
    && step.thread < |s.threads|
    && (step.Begins? ==> s.threads[step.thread] == Idle && CanBegin(s, step.op))
    && (step.Advances? ==> s.threads[step.thread] != Idle)
  }

  function Next(s: State, step: Step): State
    requires Valid(s) && Enabled(s, step)
  {
    match step
    case Begins(t, op) => Begin(s, t, op)
    case Advances(t, spurious) => Advance(s, t, spurious)
  }

  /** A slow lock is only destroyed after it has been locked. */
  predicate Polite(s: State, step: Step) {
    step.Begins? && step.op.DropHandle? && HasRef(s.queue, step.op.ref) ==>
      s.queue[Find(s.queue, step.op.ref)].locked
  }

  // ----- Preservation of the structural invariant -----

  /** Only a thread's own entry and the threads of held or unreconciled waiters matter to the other invariants. */
  lemma {:induction false} PlainMoveIsValid(s: State, s': State, t: nat)
    requires Valid(s) && t < |s.threads| == |s'.threads|
    requires s'.waiters == s.waiters && s'.buckets == s.buckets
    requires forall u :: 0 <= u < |s.threads| && u != t ==> s'.threads[u] == s.threads[u]
    requires !s.threads[t].Exchange? && !s.threads[t].Dispatch?
    requires ThreadOk(s', t)
    ensures Valid(s')
  {
    forall b | 0 <= b < |s'.buckets| ensures BucketOk(s', b) {
      assert BucketOk(s, b);
    }
    forall w | 0 <= w < |s'.waiters| ensures WaiterOk(s', w) {
      assert WaiterOk(s, w);
    }
    forall u | 0 <= u < |s'.threads| ensures ThreadOk(s', u) {
      assert ThreadOk(s, u);
    }
  }

  lemma {:induction false} DequeueIsValid(s: State, t: nat, b: nat, next: After)
    requires Valid(s) && t < |s.threads| && b < Priority.BUCKETS && s.buckets[b] != []
    requires s.threads[t].Scan?
    ensures Valid(Dequeue(s, t, b, next))
  {
    var s' := Dequeue(s, t, b, next);
    assert BucketOk(s, b);
    var w := s.buckets[b][0];
    assert WaiterOk(s, w);
    forall c | 0 <= c < |s'.buckets| ensures BucketOk(s', c) {
      assert BucketOk(s, c);
    }
    forall v | 0 <= v < |s'.waiters| ensures WaiterOk(s', v) {
      assert WaiterOk(s, v);
      if v != w && s.waiters[v].place.Parked? {
        var c := s.waiters[v].bucket;
        var i :| 0 <= i < |s.buckets[c]| && s.buckets[c][i] == v;
        if c == b {
          assert s'.buckets[b][i - 1] == v;
        }
      }
    }
    forall u | 0 <= u < |s'.threads| ensures ThreadOk(s', u) {
      assert ThreadOk(s, u);
    }
  }

  lemma {:induction false} PublishIsValid(s: State, t: nat)
    requires Valid(s) && t < |s.threads| && s.threads[t].Publish?
    ensures Valid(Advance(s, t, false))
  {
    var s' := Advance(s, t, false);
    var b := Priority.Index(s.threads[t].priority);
    var w := |s.waiters|;
    forall c | 0 <= c < |s'.buckets| ensures BucketOk(s', c) {
      assert BucketOk(s, c);
    }
    forall v | 0 <= v < |s'.waiters| ensures WaiterOk(s', v) {
      if v == w {
        assert s'.buckets[b][|s.buckets[b]|] == w;
      } else {
        assert WaiterOk(s, v);
        if s.waiters[v].place.Parked? {
          var i :| 0 <= i < |s.buckets[s.waiters[v].bucket]| && s.buckets[s.waiters[v].bucket][i] == v;
          assert s'.buckets[s.waiters[v].bucket][i] == v;
        }
      }
    }
    forall u | 0 <= u < |s'.threads| ensures ThreadOk(s', u) {
      assert ThreadOk(s, u);
    }
  }

  /** The steps that change one waiter in place: the two exchanges and the dispatch. */
  lemma {:induction false} WaiterMoveIsValid(s: State, s': State, t: nat, w: nat)
    requires Valid(s) && t < |s.threads| == |s'.threads|
    requires w < |s.waiters| == |s'.waiters| && s'.buckets == s.buckets
    requires forall u :: 0 <= u < |s.threads| && u != t ==> s'.threads[u] == s.threads[u]
    requires forall v :: 0 <= v < |s.waiters| && v != w ==> s'.waiters[v] == s.waiters[v]
    requires HoldsEntry(s.threads[t], w) || Reconciles(s.threads[t], w)
    requires s'.waiters[w].bucket == s.waiters[w].bucket && s'.waiters[w].priority == s.waiters[w].priority
    requires s'.waiters[w].owner == s.waiters[w].owner
    requires s'.waiters[w].slot
    requires s.waiters[w].place.Parked? <==> s'.waiters[w].place.Parked?
    requires WaiterOk(s', w) && ThreadOk(s', t)
    requires s'.waiters[w].place == s.waiters[w].place || HoldsEntry(s.threads[t], w)
    ensures Valid(s')
  {
    assert ThreadOk(s, t) && WaiterOk(s, w);
    forall c | 0 <= c < |s'.buckets| ensures BucketOk(s', c) {
      assert BucketOk(s, c);
    }
    forall v | 0 <= v < |s'.waiters| ensures WaiterOk(s', v) {
      assert WaiterOk(s, v);
    }
    forall u | 0 <= u < |s'.threads| ensures ThreadOk(s', u) {
      assert ThreadOk(s, u);
    }
  }

  lemma {:induction false} ExchangeIsValid(s: State, t: nat, spurious: bool)
    requires Valid(s) && t < |s.threads|
    requires s.threads[t].Exchange? || s.threads[t].Dispatch? || s.threads[t].Claim?
    ensures Valid(Advance(s, t, spurious))
  {
    var s' := Advance(s, t, spurious);
    var w := s.threads[t].waiter;
    assert ThreadOk(s, t);
    assert WaiterOk(s, w);
    if s.threads[t].Claim? && s.waiters[w].slot {
      PlainMoveIsValid(s, s', t);
    } else {
      WaiterMoveIsValid(s, s', t, w);
    }
  }

  lemma {:induction false} ScanIsValid(s: State, t: nat, spurious: bool)
    requires Valid(s) && t < |s.threads| && s.threads[t].Scan?
    ensures Valid(Advance(s, t, spurious))
  {
    var Scan(b, next) := s.threads[t];
    if b < Priority.BUCKETS && s.buckets[b] != [] {
      DequeueIsValid(s, t, b, next);
    } else {
      PlainMoveIsValid(s, Advance(s, t, spurious), t);
    }
  }

  lemma {:induction false} CounterStepIsValid(s: State, t: nat, spurious: bool)
    requires Valid(s) && t < |s.threads|
    requires var th := s.threads[t];
             !(th.Scan? || th.Exchange? || th.Dispatch? || th.Claim? || th.Publish?)
    ensures Valid(Advance(s, t, spurious))
  {
    assert ThreadOk(s, t);
    PlainMoveIsValid(s, Advance(s, t, spurious), t);
  }

  lemma {:induction false} AdvanceIsValid(s: State, t: nat, spurious: bool)
    requires Valid(s) && t < |s.threads|
    ensures Valid(Advance(s, t, spurious))
  {
    var th := s.threads[t];
    if th.Scan? {
      ScanIsValid(s, t, spurious);
    } else if th.Exchange? || th.Dispatch? || th.Claim? {
      ExchangeIsValid(s, t, spurious);
    } else if th.Publish? {
      PublishIsValid(s, t);
    } else {
      CounterStepIsValid(s, t, spurious);
    }
  }

  lemma {:induction false} BeginIsValid(s: State, t: nat, op: Op)
    requires Valid(s) && t < |s.threads| && s.threads[t] == Idle && CanBegin(s, op)
    ensures Valid(Begin(s, t, op))
  {
    PlainMoveIsValid(s, Begin(s, t, op), t);
  }
}
