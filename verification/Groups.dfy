/** The group object: a signed token counter, priority buckets of parked waiters, and a sorted queue of handles. */
module Groups {
  import opened LockQueue
  import opened GroupTokens
  import opened GroupPromises
  import Priority

  class Group {
    const concurrency: int
    var tokens: int
    var slowPending: int
    var waitBuckets: seq<seq<WaitEntry>>
    var queue: seq<LockHandle>
    var nextRef: nat
    ghost var running: int        // RunningLocks that exist
    ghost var handed: seq<nat>    // tasks handed to a pool

    ghost function State(): GroupState
      reads this
    {
      GroupState(concurrency, tokens, slowPending, waitBuckets, queue, running, nextRef, handed)
    }

    constructor (concurrency: int)
      ensures State() == Init(concurrency)
    {
      this.concurrency := concurrency;
      tokens := concurrency;
      slowPending := 0;
      waitBuckets := seq(Priority.BUCKETS, _ => []);
      queue := [];
      nextRef := 0;
      running := 0;
      handed := [];
    }

    /**
     * Hands the best parked waiter to its pool. The caller owes the waiter's decrement when it was uncounted.
     */
    method DrainOneToPool() returns (drained: bool, uncounted: bool)
      requires |waitBuckets| == Priority.BUCKETS
      modifies this
      ensures |waitBuckets| == Priority.BUCKETS
      ensures drained == Parked(old(State()))
      ensures State().(tokens := if drained && uncounted then tokens - 1 else tokens) == HandOut(old(State()))
      ensures tokens == old(tokens)
    {
      var bucket := 0;
      while bucket < Priority.BUCKETS
        invariant bucket <= Priority.BUCKETS && State() == old(State())
        invariant Priority.FirstBucket(waitBuckets, 0) == Priority.FirstBucket(waitBuckets, bucket)
      {
        if waitBuckets[bucket] != [] {
          var entry := waitBuckets[bucket][0];
          waitBuckets := waitBuckets[bucket := waitBuckets[bucket][1..]];
          uncounted := !entry.slot;
          running := running + 1;
          handed := handed + [entry.task];
          return true, uncounted;
        }
        bucket := bucket + 1;
      }
      return false, false;
    }

    /** Drains one waiter and performs the decrement that may be owed for it. */
    method HandOutOne()
      requires |waitBuckets| == Priority.BUCKETS
      modifies this
      ensures State() == HandOut(old(State()))
    {
      var drained, uncounted := DrainOneToPool();
      if drained && uncounted {
        tokens := tokens - 1;
      }
    }

    /** Marks and returns the waiting handles for which there are now enough tokens. */
    method NotifySlowPath() returns (toNotify: seq<nat>)
      modifies this`queue
      ensures queue == Notified(old(queue), tokens)
      ensures forall i :: 0 <= i < |queue| && queue[i].notified && !old(queue)[i].notified ==> queue[i].ref in toNotify
      ensures forall ref :: ref in toNotify ==> ToldAt(old(queue), queue, |queue|, ref)
    {
      ghost var was := queue;
      var free := tokens;
      toNotify := [];
      var i := 0;
      while i < |queue|
        invariant i <= |queue| == |was| && free == tokens - Unlocked(was, i)
        invariant forall j :: 0 <= j < i ==> queue[j] == Notified(was, tokens)[j]
        invariant forall j :: i <= j < |was| ==> queue[j] == was[j]
        invariant forall j :: 0 <= j < i && queue[j].notified && !was[j].notified ==> queue[j].ref in toNotify
        invariant forall ref :: ref in toNotify ==> ToldAt(was, queue, i, ref)
      {
        ghost var before, told := queue, toNotify;
        var h := queue[i];
        free := free - (if h.locked then 0 else 1);
        if free >= 0 && !h.locked && !h.notified {
          queue := queue[i := h.(notified := true)];
          toNotify := toNotify + [h.ref];
        }
        forall ref | ref in toNotify ensures ToldAt(was, queue, i + 1, ref) {
          if ref in told {
            var j :| 0 <= j < i && before[j].ref == ref && before[j].notified && !before[j].locked && !was[j].notified;
            assert queue[j] == before[j];
          } else {
            assert queue[i].ref == ref;
          }
        }
        i := i + 1;
      }
    }

    method ReleaseToken()
      requires |waitBuckets| == Priority.BUCKETS
      modifies this
      ensures State() == GroupTokens.ReleaseToken(old(State()))
    {
      var prev := tokens;
      tokens := tokens + 1;
      if prev < 0 {
        HandOutOne();
      } else if slowPending > 0 {
        var _ := NotifySlowPath();
      } else {
        HandOutOne();
      }
    }

    method DestroyRunningLock()
      requires |waitBuckets| == Priority.BUCKETS && running > 0
      modifies this
      ensures State() == DropRunning(old(State()))
    {
      running := running - 1;
      ReleaseToken();
    }

    /** Takes a token for inline execution. The re-check of `slow_pending` after the exchange can not fail here. */
    method TryAcquireRunningLock() returns (acquired: bool)
      modifies this
      ensures State() == TryAcquire(old(State()))
      ensures acquired <==> running == old(running) + 1
    {
      if slowPending > 0 {
        return false;
      }
      var expected := tokens;
      if expected > 0 {
        tokens := expected - 1;
        running := running + 1;
        return true;
      }
      return false;
    }

    /** Queues the task as a waiter that has not subtracted its token, and returns its bucket. */
    method PublishWaiter(task: nat, priority: int) returns (bucket: nat)
      requires |waitBuckets| == Priority.BUCKETS
      modifies this
      ensures bucket == Priority.Index(priority)
      ensures State() == ParkPublish(old(State()), task, priority)
    {
      bucket := Priority.Index(priority);
      waitBuckets := waitBuckets[bucket := waitBuckets[bucket] + [WaitEntry(task, priority, false)]];
    }

    /** Reconciles the newest waiter of `bucket`, whose slot this call is the first to exchange. */
    method ReconcileWaiter(bucket: nat)
      requires |waitBuckets| == Priority.BUCKETS && bucket < Priority.BUCKETS && waitBuckets[bucket] != []
      modifies this
      ensures State() == ParkReconcile(old(State()), bucket)
    {
      var prev := tokens;
      tokens := tokens - 1;
      if prev > 0 && slowPending > 0 {
        ReleaseToken();
        return;
      }
      var n := |waitBuckets[bucket]| - 1;
      waitBuckets := waitBuckets[bucket := waitBuckets[bucket][n := waitBuckets[bucket][n].(slot := true)]];
      if prev > 0 {
        HandOutOne();
      }
    }

    method TrySubmit(task: nat, priority: int) returns (submitted: bool)
      requires |waitBuckets| == Priority.BUCKETS
      modifies this
      ensures State() == GroupTokens.TrySubmit(old(State()), task, priority)
      ensures submitted <==> old(slowPending) == 0 && old(tokens) > 0
    {
      if slowPending == 0 {
        var expected := tokens;
        if expected > 0 {
          tokens := expected - 1;
          running := running + 1;
          handed := handed + [task];
          return true;
        }
      }
      var bucket := PublishWaiter(task, priority);
      ReconcileWaiter(bucket);
      return false;
    }

    /** Creates a lock for a task of several groups and returns the identity of its handle. */
    method Lock(taskId: int, priority: int) returns (ref: nat)
      modifies this
      ensures State() == NewHandle(old(State()), taskId, priority)
      ensures ref == old(nextRef)
    {
      ref := nextRef;
      nextRef := nextRef + 1;
      var h := LockHandle(ref, taskId, priority, false, false);
      slowPending := slowPending + 1;
      queue := With(queue, InsertionPoint(queue, h), h);
      ghost var was := queue;
      var free := tokens;
      var i := 0;
      while i < |queue|
        invariant i <= |queue| == |was| && free == tokens - Unlocked(was, i)
        invariant forall j :: 0 <= j < i ==> queue[j] == Unnotified(was, tokens)[j]
        invariant forall j :: i <= j < |was| ==> queue[j] == was[j]
        invariant tokens == old(tokens) && nextRef == old(nextRef) + 1 && slowPending == old(slowPending) + 1
        invariant waitBuckets == old(waitBuckets) && running == old(running) && handed == old(handed)
      {
        free := free - (if queue[i].locked then 0 else 1);
        if free < 0 {
          queue := queue[i := queue[i].(notified := false)];
        }
        i := i + 1;
      }
    }

    /** `GroupLock::lock` for the handle with this identity. */
    method LockGroup(ref: nat) returns (locked: bool)
      requires HasRef(queue, ref)
      modifies this
      ensures State() == TryLock(old(State()), ref)
      ensures locked == CanLock(old(State()), ref)
    {
      ghost var at := Find(queue, ref);
      if queue[Find(queue, ref)].locked {
        return true;
      }
      var free := tokens;
      var i := 0;
      while i < |queue|
        invariant i <= at && free == tokens - Unlocked(queue, i)
        invariant State() == old(State())
      {
        free := free - (if queue[i].locked then 0 else 1);
        if free < 0 {
          EligibleFromTheFrontFails(queue, tokens, i, at);
          return false;
        }
        if queue[i].ref == ref {
          queue := queue[i := queue[i].(locked := true)];
          tokens := tokens - 1;
          return true;
        }
        i := i + 1;
      }
      return false;
    }

    /** The destructor of the lock on this handle. */
    method DestroyGroupLock(ref: nat)
      requires |waitBuckets| == Priority.BUCKETS && HasRef(queue, ref)
      modifies this
      ensures State() == DropHandle(old(State()), ref)
    {
      var at := Find(queue, ref);
      var wasLocked := queue[at].locked;
      var prevTokens := 0;
      if wasLocked {
        prevTokens := tokens;
        tokens := tokens + 1;
      }
      queue := Without(queue, at);
      var _ := NotifySlowPath();
      slowPending := slowPending - 1;
      if wasLocked && prevTokens < 0 {
        HandOutOne();
        return;
      }
      if wasLocked && slowPending == 0 {
        HandOutOne();
      }
    }
  }

  /** One of the first `n` handles is `ref`, waits, and has only now been marked. */
  ghost predicate ToldAt(was: seq<LockHandle>, q: seq<LockHandle>, n: nat, ref: nat) {
    exists j :: 0 <= j < n && j < |was| && j < |q|
                && q[j].ref == ref && q[j].notified && !q[j].locked && !was[j].notified
  }

  /** A handle behind one that lacks tokens lacks them too. */
  lemma EligibleFromTheFrontFails(q: seq<LockHandle>, tokens: int, i: nat, j: nat)
    requires i <= j < |q| && !Eligible(q, tokens, i)
    ensures !Eligible(q, tokens, j)
  {
    if Eligible(q, tokens, j) {
      EligibleFromTheFront(q, tokens, i, j);
    }
  }
}
