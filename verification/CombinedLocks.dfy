/** A lock over several groups that is acquired component by component and keeps what it has acquired. */
module CombinedLocks {
  import opened LockQueue
  import opened GroupTokens
  import opened Groups

  /** The lock of one group: the group and the identity of the handle in it. */
  datatype GroupLock = GroupLock(group: Group, ref: nat)

  class CombinedLock {
    var locks: seq<GroupLock>

    ghost predicate Valid()
      reads this, set l | l in locks :: l.group
    {
      && (forall i :: 0 <= i < |locks| ==> HasRef(locks[i].group.queue, locks[i].ref))
      && (forall i, j :: 0 <= i < j < |locks| ==> locks[i].group != locks[j].group)
    }

    constructor ()
      ensures locks == []
    {
      locks := [];
    }

    method Add(lock: GroupLock)
      requires Valid() && HasRef(lock.group.queue, lock.ref)
      requires forall i :: 0 <= i < |locks| ==> locks[i].group != lock.group
      modifies this
      ensures Valid() && locks == old(locks) + [lock]
    {
      locks := locks + [lock];
    }

    /**
     * Locks the groups in order up to the first that can not be locked. `n` groups are held afterwards; those behind
     * them have not been touched.
     */
    method Lock() returns (ok: bool, ghost n: nat)
      requires Valid()
      modifies set l | l in locks :: l.group
      ensures n <= |locks| && (ok <==> n == |locks|)
      ensures forall i :: 0 <= i < n ==>
                && CanLock(old(locks[i].group.State()), locks[i].ref)
                && locks[i].group.State() == TryLock(old(locks[i].group.State()), locks[i].ref)
      ensures forall i :: n <= i < |locks| ==> locks[i].group.State() == old(locks[i].group.State())
      ensures n < |locks| ==> !CanLock(old(locks[n].group.State()), locks[n].ref)
    {
      var i := 0;
      while i < |locks|
        invariant i <= |locks|
        invariant forall k :: 0 <= k < i ==>
                    && CanLock(old(locks[k].group.State()), locks[k].ref)
                    && locks[k].group.State() == TryLock(old(locks[k].group.State()), locks[k].ref)
        invariant forall k :: i <= k < |locks| ==> unchanged(locks[k].group)
      {
        var locked := locks[i].group.LockGroup(locks[i].ref);
        if !locked {
          return false, i;
        }
        i := i + 1;
      }
      return true, i;
    }
  }
}
