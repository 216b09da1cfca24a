/**
 * Tokens that partial holders rely on: a task that waits and has locked a group past other waiting handles has left
 * enough tokens for them. Which tasks wait is a parameter.
 */
module Reservation {
  import opened LockQueue
  import opened GroupTokens

  /** No waiting task has locked past unlocked handles without leaving enough tokens for them. */
  predicate Reserves(q: seq<LockHandle>, tokens: int, waiting: set<int>) {
    forall i :: 0 <= i < |q| && q[i].locked && q[i].taskId in waiting && Unlocked(q, i) > 0 ==>
      Unlocked(q, i) <= tokens
  }

  predicate Reserved(s: GroupState, waiting: set<int>) {
    Reserves(s.queue, s.tokens, waiting)
  }

  lemma FewerWait(q: seq<LockHandle>, tokens: int, waiting: set<int>, fewer: set<int>)
    requires Reserves(q, tokens, waiting)
    requires forall i :: 0 <= i < |q| && q[i].locked && q[i].taskId in fewer ==> q[i].taskId in waiting
    ensures Reserves(q, tokens, fewer)
  {
  }

  lemma {:induction false} MarksDoNotReserve(q: seq<LockHandle>, r: seq<LockHandle>, tokens: int, waiting: set<int>)
    requires |q| == |r| && forall i :: 0 <= i < |q| ==> q[i].locked == r[i].locked && q[i].taskId == r[i].taskId
    ensures Reserves(q, tokens, waiting) <==> Reserves(r, tokens, waiting)
  {
    forall i | 0 <= i < |q| ensures Unlocked(q, i) == Unlocked(r, i) {
      UnlockedDependsOnLocks(q, r, i);
    }
  }

  /** When no token is free nothing is locked past a waiting handle, and tokens may be taken. */
  lemma TakingTokensKeepsReserved(q: seq<LockHandle>, tokens: int, tokens': int, waiting: set<int>)
    requires Reserves(q, tokens, waiting) && (tokens <= 0 || q == [] || tokens <= tokens')
    ensures Reserves(q, tokens', waiting)
  {
  }

  lemma {:induction false} FastKeepsReserved(s: GroupState, op: Op, waiting: set<int>)
    requires Inv(s) && Reserved(s, waiting) && CanApply(s, op) && (op.Submit? || op.Acquire? || op.Release?)
    ensures Reserved(Apply(s, op), waiting)
  {
    var t := Apply(s, op);
    MarksDoNotReserve(s.queue, t.queue, s.tokens, waiting);
    TakingTokensKeepsReserved(t.queue, s.tokens, t.tokens, waiting);
  }

  lemma {:induction false} LockKeepsReserved(s: GroupState, ref: nat, waiting: set<int>)
    requires Reserved(s, waiting) && HasRef(s.queue, ref)
    ensures Reserved(TryLock(s, ref), waiting)
  {
    var t := TryLock(s, ref);
    var k := Find(s.queue, ref);
    if t != s {
      forall i | 0 <= i < |t.queue| && t.queue[i].locked && t.queue[i].taskId in waiting && Unlocked(t.queue, i) > 0
        ensures Unlocked(t.queue, i) <= t.tokens
      {
        UnlockedOfLocked(s.queue, k, i);
        if i <= k {
          UnlockedGrows(s.queue, i, k);
        }
      }
    }
  }

  lemma {:induction false} RemovalKeepsReserved(q: seq<LockHandle>, p: nat, tokens: int, waiting: set<int>)
    requires p < |q| && Reserves(q, tokens, waiting)
    ensures Reserves(Without(q, p), tokens, waiting)
  {
    var r := Without(q, p);
    forall i | 0 <= i < |r| && r[i].locked && r[i].taskId in waiting && Unlocked(r, i) > 0
      ensures Unlocked(r, i) <= tokens
    {
      UnlockedOfWithout(q, p, i);
    }
  }

  lemma {:induction false} DestroyKeepsReserved(s: GroupState, ref: nat, waiting: set<int>)
    requires Inv(s) && Reserved(s, waiting) && HasRef(s.queue, ref)
    ensures Reserved(DropHandle(s, ref), waiting)
  {
    var k := Find(s.queue, ref);
    var q := Without(s.queue, k);
    var t := DropHandle(s, ref);
    RemovalKeepsReserved(s.queue, k, s.tokens, waiting);
    MarksDoNotReserve(q, t.queue, s.tokens, waiting);
    TakingTokensKeepsReserved(t.queue, s.tokens, t.tokens, waiting);
  }

  lemma {:induction false} InsertionReserves(
    q: seq<LockHandle>, r: seq<LockHandle>, p: nat, h: LockHandle, tokens: int, waiting: set<int>)
    requires p <= |q| && !h.locked && Reserves(q, tokens, waiting) && r == With(q, p, h)
    requires forall i :: p <= i < |q| && q[i].locked && q[i].taskId in waiting ==> Unlocked(q, i) < tokens
    ensures Reserves(r, tokens, waiting)
  {
    forall i | 0 <= i < |r| && r[i].locked && r[i].taskId in waiting && Unlocked(r, i) > 0
      ensures Unlocked(r, i) <= tokens
    {
      UnlockedOfWith(q, p, h, i);
      if i < p {
        assert q[i].locked;
      } else {
        assert q[i - 1].locked;
      }
    }
  }

  lemma {:induction false} ReservedInsertion(
    q: seq<LockHandle>, r: seq<LockHandle>, p: nat, h: LockHandle, tokens: int, waiting: set<int>, i: nat)
    requires p <= i < |q| && q[i].locked && q[i].taskId in waiting && !h.locked
    requires r == With(q, p, h) && Reserves(r, tokens, waiting)
    ensures Unlocked(q, i) < tokens
  {
    UnlockedOfWith(q, p, h, i + 1);
    assert r[i + 1].locked;
  }

  lemma {:induction false} InsertionReservesIff(
    q: seq<LockHandle>, r: seq<LockHandle>, p: nat, h: LockHandle, tokens: int, waiting: set<int>)
    requires p <= |q| && !h.locked && Reserves(q, tokens, waiting) && r == With(q, p, h)
    ensures Reserves(r, tokens, waiting) <==>
            forall i :: p <= i < |q| && q[i].locked && q[i].taskId in waiting ==> Unlocked(q, i) < tokens
  {
    if forall i :: p <= i < |q| && q[i].locked && q[i].taskId in waiting ==> Unlocked(q, i) < tokens {
      InsertionReserves(q, r, p, h, tokens, waiting);
    } else if Reserves(r, tokens, waiting) {
      var i :| p <= i < |q| && q[i].locked && q[i].taskId in waiting && Unlocked(q, i) >= tokens;
      ReservedInsertion(q, r, p, h, tokens, waiting, i);
    }
  }

  /** Every lock of a waiting task behind the place of a new handle has left one token more than was needed. */
  predicate Yields(s: GroupState, taskId: int, priority: int, waiting: set<int>) {
    var p := InsertionPoint(s.queue, LockHandle(s.nextRef, taskId, priority, false, false));
    forall i :: p <= i < |s.queue| && s.queue[i].locked && s.queue[i].taskId in waiting ==>
      Unlocked(s.queue, i) < s.tokens
  }

  /** Inserting a handle keeps the reservation exactly when it yields. */
  lemma {:induction false} CreateKeepsReserved(s: GroupState, taskId: int, priority: int, waiting: set<int>)
    requires Reserved(s, waiting)
    ensures Reserved(NewHandle(s, taskId, priority), waiting) <==> Yields(s, taskId, priority, waiting)
  {
    var h := LockHandle(s.nextRef, taskId, priority, false, false);
    var t := NewHandle(s, taskId, priority);
    var r := Inserted(s.queue, h);
    MarksDoNotReserve(r, t.queue, s.tokens, waiting);
    InsertionReservesIff(s.queue, r, InsertionPoint(s.queue, h), h, s.tokens, waiting);
  }
}
