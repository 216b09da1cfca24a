/**
 * Undisturbed operations: a thread that runs one operation of a group while all others are idle does, step by step,
 * what the operation does as a whole in `GroupTokens`.
 */
module GroupRefinement {
  import opened LockQueue
  import opened GroupThreads
  import G = GroupTokens
  import Priority

  // ----- What one state is at the grain of whole operations -----

  function Entry(x: Waiter): G.WaitEntry {
    G.WaitEntry(x.task, x.priority, x.slot)
  }

  function Entries(bucket: seq<nat>, waiters: seq<Waiter>): (r: seq<G.WaitEntry>)
    requires forall i :: 0 <= i < |bucket| ==> bucket[i] < |waiters|
    ensures |r| == |bucket| && forall i :: 0 <= i < |r| ==> r[i] == Entry(waiters[bucket[i]])
  {
    seq(|bucket|, i requires 0 <= i < |bucket| => Entry(waiters[bucket[i]]))
  }

  predicate Known(s: State) {
    && |s.buckets| == Priority.BUCKETS
    && forall b, i :: 0 <= b < |s.buckets| && 0 <= i < |s.buckets[b]| ==> s.buckets[b][i] < |s.waiters|
  }

  lemma ValidIsKnown(s: State)
    requires Valid(s)
    ensures Known(s)
  {
    forall b, i | 0 <= b < |s.buckets| && 0 <= i < |s.buckets[b]| ensures s.buckets[b][i] < |s.waiters| {
      assert BucketOk(s, b);
    }
  }

  function SeenBuckets(s: State): (r: seq<seq<G.WaitEntry>>)
    requires Known(s)
    ensures |r| == |s.buckets| && forall b :: 0 <= b < |r| ==> r[b] == Entries(s.buckets[b], s.waiters)
  {
    seq(|s.buckets|, b requires 0 <= b < |s.buckets| => Entries(s.buckets[b], s.waiters))
  }

  function Seen(s: State): G.GroupState
    requires Known(s)
  {
    G.GroupState(s.concurrency, s.tokens, s.slowPending, SeenBuckets(s), s.queue, s.running, s.nextRef, s.handed)
  }

  // ----- What is left of an operation -----

  /** A failed `try_submit` goes on to park its task. */
  function Resumed(g: G.GroupState, next: After): G.GroupState
    requires |g.buckets| == Priority.BUCKETS
  {
    match next
    case Return => g
    case Park(task, priority) => G.ParkReconcile(G.ParkPublish(g, task, priority), Priority.Index(priority))
  }

  function Taken(g: G.GroupState, next: After): G.GroupState {
    g.(running := g.running + 1, handed := if next.Park? then g.handed + [next.task] else g.handed)
  }

  function Attempted(g: G.GroupState, next: After): G.GroupState
    requires |g.buckets| == Priority.BUCKETS
  {
    if g.tokens > 0 then Taken(g.(tokens := g.tokens - 1), next) else Resumed(g, next)
  }

  function Started(g: G.GroupState, task: nat, owed: bool): G.GroupState {
    g.(running := g.running + 1, tokens := if owed then g.tokens - 1 else g.tokens, handed := g.handed + [task])
  }

  function Claimed(g: G.GroupState, b: nat, prev: int): G.GroupState
    requires b < |g.buckets| && g.buckets[b] != []
  {
    var claimed := G.ClaimNewest(g, b);
    if prev > 0 then G.HandOut(claimed) else claimed
  }

  /** The waiter is the newest of its bucket and has not been claimed. */
  predicate IsNewest(s: State, w: nat) {
    && w < |s.waiters| && s.waiters[w].bucket < |s.buckets| && !s.waiters[w].slot
    && s.buckets[s.waiters[w].bucket] != []
    && s.buckets[s.waiters[w].bucket][|s.buckets[s.waiters[w].bucket]| - 1] == w
  }

  /** What an undisturbed thread has seen is still so. */
  predicate Alone(s: State, t: nat)
    requires t < |s.threads|
  {
    match s.threads[t]
    case LoadTokens(_) => s.slowPending <= 0
    case Cas(_, expected) => s.slowPending <= 0 && expected == s.tokens
    case Recheck(_) => s.slowPending <= 0
    case Scan(b, _) => forall c :: 0 <= c < b && c < |s.buckets| ==> s.buckets[c] == []
    case Exchange(w, _) => w < |s.waiters|
    case Dispatch(w, _, _) => w < |s.waiters|
    case Reserve(w) => IsNewest(s, w)
    case Reserved(w, prev) => IsNewest(s, w)
    case Claim(w, prev) => IsNewest(s, w)
    case _ => true
  }

  /** The group once the thread has finished its operation. */
  function Finish(s: State, t: nat): G.GroupState
    requires Known(s) && t < |s.threads| && Alone(s, t)
  {
    var g := Seen(s);
    match s.threads[t]
    case Idle => g
    case LoadSlow(next) => if g.slowPending > 0 then Resumed(g, next) else Attempted(g, next)
    case LoadTokens(next) => Attempted(g, next)
    case Cas(next, _) => Attempted(g, next)
    case Recheck(next) => Taken(g, next)
    case Release(next) => Resumed(G.ReleaseToken(g), next)
    case Released(next) =>
      Resumed(if g.slowPending > 0 then g.(queue := Notified(g.queue, g.tokens)) else G.HandOut(g), next)
    case NotifySlow(next) => Resumed(g.(queue := Notified(g.queue, g.tokens)), next)
    case Scan(_, next) => Resumed(G.HandOut(g), next)
    case Exchange(w, next) => Resumed(Started(g, s.waiters[w].task, !s.waiters[w].slot), next)
    case Dispatch(w, uncounted, next) => Resumed(Started(g, s.waiters[w].task, uncounted), next)
    case Owe(next) => Resumed(g.(tokens := g.tokens - 1), next)
    case Publish(task, priority) => Resumed(g, Park(task, priority))
    case Reserve(w) => G.ParkReconcile(g, s.waiters[w].bucket)
    case Reserved(w, prev) =>
      if prev > 0 && g.slowPending > 0 then G.ReleaseToken(g) else Claimed(g, s.waiters[w].bucket, prev)
    case Claim(w, prev) => Claimed(g, s.waiters[w].bucket, prev)
    case Insert(handle) => g.(queue := Unnotified(Inserted(g.queue, handle), g.tokens))
    case Unpend(wasLocked, prev) =>
      var h := g.(slowPending := g.slowPending - 1);
      if wasLocked && (prev < 0 || h.slowPending == 0) then G.HandOut(h) else h
    case Handback => if g.slowPending == 0 then G.HandOut(g) else g
  }

  // ----- Every step leaves what the operation will have done as it is -----

  lemma {:induction false} FirstIs<T>(buckets: seq<seq<T>>, b: nat)
    requires b <= |buckets| && (b < |buckets| ==> buckets[b] != [])
    requires forall c :: 0 <= c < b ==> buckets[c] == []
    ensures Priority.FirstBucket(buckets, 0) == b
  {
  }

  predicate Same(s: State, s': State) {
    s'.waiters == s.waiters && s'.buckets == s.buckets
  }

  lemma {:induction false} SameIsSeen(s: State, s': State)
    requires Known(s) && Same(s, s')
    ensures Known(s') && SeenBuckets(s') == SeenBuckets(s)
  {
  }

  /** The operation after this step will have done what it would have done before it. */
  predicate Follows(s: State, s': State, t: nat) {
    && Known(s) && Known(s') && t < |s.threads| == |s'.threads|
    && Alone(s, t) && Alone(s', t) && Finish(s', t) == Finish(s, t)
  }

  lemma {:induction false} ResumeFinishes(s: State, t: nat, next: After)
    requires Known(s) && t < |s.threads| && s.threads[t] == Resume(next)
    ensures Alone(s, t) && Finish(s, t) == Resumed(Seen(s), next)
  {
  }

  lemma {:induction false} AttemptStep(s: State, t: nat, spurious: bool)
    requires Valid(s) && t < |s.threads| && Alone(s, t)
    requires s.threads[t].LoadSlow? || s.threads[t].LoadTokens? || s.threads[t].Cas? || s.threads[t].Recheck?
    ensures Follows(s, Advance(s, t, spurious), t)
  {
    ValidIsKnown(s);
    var s' := Advance(s, t, spurious);
    SameIsSeen(s, s');
    if s'.threads[t] == Resume(s.threads[t].next) {
      ResumeFinishes(s', t, s.threads[t].next);
    }
  }

  lemma {:induction false} ReleaseStep(s: State, t: nat, spurious: bool)
    requires Valid(s) && t < |s.threads| && Alone(s, t)
    requires s.threads[t].Release? || s.threads[t].Released? || s.threads[t].NotifySlow? || s.threads[t].Owe?
    ensures Follows(s, Advance(s, t, spurious), t)
  {
    ValidIsKnown(s);
    var s' := Advance(s, t, spurious);
    SameIsSeen(s, s');
    if s'.threads[t] == Resume(s.threads[t].next) {
      ResumeFinishes(s', t, s.threads[t].next);
    }
  }

  lemma {:induction false} ReserveStep(s: State, t: nat, spurious: bool)
    requires Valid(s) && t < |s.threads| && Alone(s, t)
    requires s.threads[t].Reserve? || s.threads[t].Reserved?
    ensures Follows(s, Advance(s, t, spurious), t)
  {
    ValidIsKnown(s);
    SameIsSeen(s, Advance(s, t, spurious));
  }

  lemma {:induction false} HandleStep(s: State, t: nat, spurious: bool)
    requires Valid(s) && t < |s.threads| && Alone(s, t)
    requires s.threads[t].Insert? || s.threads[t].Unpend? || s.threads[t].Handback?
    ensures Follows(s, Advance(s, t, spurious), t)
  {
    ValidIsKnown(s);
    SameIsSeen(s, Advance(s, t, spurious));
  }

  lemma {:induction false} ScanStep(s: State, t: nat, spurious: bool)
    requires Valid(s) && t < |s.threads| && Alone(s, t) && s.threads[t].Scan?
    ensures Follows(s, Advance(s, t, spurious), t)
  {
    ValidIsKnown(s);
    var s' := Advance(s, t, spurious);
    var Scan(b, next) := s.threads[t];
    if b >= Priority.BUCKETS {
      SameIsSeen(s, s');
      FirstIs(SeenBuckets(s), Priority.BUCKETS);
      ResumeFinishes(s', t, next);
    } else if s.buckets[b] == [] {
      SameIsSeen(s, s');
    } else {
      FoundStep(s, t, b, next);
    }
  }

  lemma {:induction false} FoundStep(s: State, t: nat, b: nat, next: After)
    requires Valid(s) && t < |s.threads| && Alone(s, t) && s.threads[t] == Scan(b, next)
    requires b < Priority.BUCKETS && s.buckets[b] != []
    ensures Follows(s, Dequeue(s, t, b, next), t)
  {
    ValidIsKnown(s);
    FirstIs(SeenBuckets(s), b);
    DequeueIsSeen(s, t, b, next);
  }

  lemma {:induction false} DequeueIsSeen(s: State, t: nat, b: nat, next: After)
    requires Valid(s) && t < |s.threads| && b < Priority.BUCKETS && s.buckets[b] != []
    ensures var s' := Dequeue(s, t, b, next);
            var w := s.buckets[b][0];
            && Known(s) && Known(s') && Entry(s'.waiters[w]) == SeenBuckets(s)[b][0]
            && SeenBuckets(s') == SeenBuckets(s)[b := SeenBuckets(s)[b][1..]]
  {
    ValidIsKnown(s);
    var s' := Dequeue(s, t, b, next);
    forall c | 0 <= c < |s.buckets|
      ensures SeenBuckets(s')[c] == if c == b then SeenBuckets(s)[b][1..] else SeenBuckets(s)[c]
    {
      assert s'.buckets[c] == if c == b then s.buckets[b][1..] else s.buckets[c];
    }
  }

  /** A waiter that is in no bucket may change without being seen. */
  lemma {:induction false} HeldIsUnseen(s: State, s': State, w: nat)
    requires Valid(s) && w < |s.waiters| && !s.waiters[w].place.Parked?
    requires s'.buckets == s.buckets && |s'.waiters| == |s.waiters|
    requires forall v :: 0 <= v < |s.waiters| && v != w ==> s'.waiters[v] == s.waiters[v]
    ensures Known(s) && Known(s') && SeenBuckets(s') == SeenBuckets(s)
  {
    ValidIsKnown(s);
    forall b | 0 <= b < |s.buckets| ensures SeenBuckets(s')[b] == SeenBuckets(s)[b] {
      assert BucketOk(s, b);
    }
  }

  lemma {:induction false} DispatchStep(s: State, t: nat, spurious: bool)
    requires Valid(s) && t < |s.threads| && Alone(s, t)
    requires s.threads[t].Exchange? || s.threads[t].Dispatch?
    ensures Follows(s, Advance(s, t, spurious), t)
  {
    ValidIsKnown(s);
    var s' := Advance(s, t, spurious);
    assert ThreadOk(s, t);
    HeldIsUnseen(s, s', s.threads[t].waiter);
    if s.threads[t].Dispatch? && !s.threads[t].uncounted {
      ResumeFinishes(s', t, s.threads[t].next);
    }
  }

  lemma {:induction false} PublishIsSeen(s: State, t: nat)
    requires Valid(s) && t < |s.threads| && s.threads[t].Publish?
    ensures var s' := Advance(s, t, false);
            var b := Priority.Index(s.threads[t].priority);
            && Known(s) && Known(s') && IsNewest(s', |s.waiters|)
            && SeenBuckets(s') == SeenBuckets(s)[
                 b := SeenBuckets(s)[b] + [G.WaitEntry(s.threads[t].task, s.threads[t].priority, false)]]
  {
    ValidIsKnown(s);
    var s' := Advance(s, t, false);
    var b := Priority.Index(s.threads[t].priority);
    var parked := G.WaitEntry(s.threads[t].task, s.threads[t].priority, false);
    forall c | 0 <= c < |s.buckets|
      ensures SeenBuckets(s')[c] == if c == b
                                    then SeenBuckets(s)[b] + [parked]
                                    else SeenBuckets(s)[c]
    {
    }
  }

  lemma {:induction false} PublishStep(s: State, t: nat, spurious: bool)
    requires Valid(s) && t < |s.threads| && Alone(s, t) && s.threads[t].Publish?
    ensures Follows(s, Advance(s, t, spurious), t)
  {
    ValidIsKnown(s);
    PublishIsSeen(s, t);
  }

  lemma {:induction false} ClaimIsSeen(s: State, w: nat)
    requires Valid(s) && IsNewest(s, w)
    ensures var s' := ClaimSlot(s, w);
            var b := s.waiters[w].bucket;
            Known(s) && Known(s') && SeenBuckets(s')[b] != [] && SeenBuckets(s') == G.ClaimNewest(Seen(s), b).buckets
  {
    ValidIsKnown(s);
    var s' := ClaimSlot(s, w);
    var b := s.waiters[w].bucket;
    var n := |s.buckets[b]| - 1;
    forall c | 0 <= c < |s.buckets|
      ensures SeenBuckets(s')[c] == if c == b then SeenBuckets(s)[b][n := SeenBuckets(s)[b][n].(slot := true)]
                                    else SeenBuckets(s)[c]
    {
      assert BucketOk(s, c) && BucketOk(s, b);
    }
  }

  lemma {:induction false} ClaimStep(s: State, t: nat, spurious: bool)
    requires Valid(s) && t < |s.threads| && Alone(s, t) && s.threads[t].Claim?
    ensures Follows(s, Advance(s, t, spurious), t)
  {
    ValidIsKnown(s);
    ClaimIsSeen(s, s.threads[t].waiter);
    var s' := Advance(s, t, spurious);
    assert SeenBuckets(s') == SeenBuckets(ClaimSlot(s, s.threads[t].waiter));
  }

  lemma {:induction false} AdvanceFollows(s: State, t: nat, spurious: bool)
    requires Valid(s) && t < |s.threads| && s.threads[t] != Idle && Alone(s, t)
    ensures Follows(s, Advance(s, t, spurious), t)
  {
    var th := s.threads[t];
    if th.LoadSlow? || th.LoadTokens? || th.Cas? || th.Recheck? {
      AttemptStep(s, t, spurious);
    } else if th.Release? || th.Released? || th.NotifySlow? || th.Owe? {
      ReleaseStep(s, t, spurious);
    } else if th.Reserve? || th.Reserved? {
      ReserveStep(s, t, spurious);
    } else if th.Scan? {
      ScanStep(s, t, spurious);
    } else if th.Exchange? || th.Dispatch? {
      DispatchStep(s, t, spurious);
    } else if th.Publish? {
      PublishStep(s, t, spurious);
    } else if th.Claim? {
      ClaimStep(s, t, spurious);
    } else {
      HandleStep(s, t, spurious);
    }
  }

  // ----- The first step -----

  function Whole(op: Op): G.Op {
    match op
    case TryAcquire => G.Acquire
    case TrySubmit(task, priority) => G.Submit(task, priority)
    case DropRunning => G.Release
    case NewHandle(taskId, priority) => G.Create(taskId, priority)
    case TryLock(ref) => G.Lock(ref)
    case DropHandle(ref) => G.Destroy(ref)
  }

  /** Beginning an operation commits to what the whole operation does. */
  lemma {:induction false} BeginFollows(s: State, t: nat, op: Op)
    requires Valid(s) && t < |s.threads| && s.threads[t] == Idle && CanBegin(s, op) && s.slowPending >= 0
    ensures var s' := Begin(s, t, op);
            && Known(s) && G.CanApply(Seen(s), Whole(op)) && Known(s') && Alone(s', t)
            && Finish(s', t) == G.Apply(Seen(s), Whole(op))
  {
    ValidIsKnown(s);
    var s' := Begin(s, t, op);
    SameIsSeen(s, s');
    if op.DropHandle? {
      DropFollows(s, t, op.ref);
    }
  }

  lemma {:induction false} DropFollows(s: State, t: nat, ref: nat)
    requires Valid(s) && t < |s.threads| && s.threads[t] == Idle && HasRef(s.queue, ref)
    ensures var s' := Begin(s, t, DropHandle(ref));
            Known(s) && Known(s') && Alone(s', t) && Finish(s', t) == G.DropHandle(Seen(s), ref)
  {
    ValidIsKnown(s);
    SameIsSeen(s, Begin(s, t, DropHandle(ref)));
  }
}
