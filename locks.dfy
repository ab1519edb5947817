/** `get_lock` and `_locks`: the process-wide registry of one lock per
    (session identifier, frame identifier). The mutual exclusion a lock gives is
    not modelled; a lock is represented by the number it was created under. */
module Locks {

  type Key = (string, string)
  type LockId = nat

  class LockRegistry {
    /** `_locks`. */
    var locks: map<Key, LockId>
    /** The number the next lock created will get. */
    var nextId: LockId

    /** Every stored lock was created before `nextId`, and no lock is shared by two
        keys, so different keys never contend. */
    ghost predicate Valid()
      reads this
    {
      && (forall k | k in locks :: locks[k] < nextId)
      && (forall k1, k2 | k1 in locks && k2 in locks && k1 != k2 :: locks[k1] != locks[k2])
    }

    /** The empty registry of a freshly started process. */
    constructor ()
      ensures Valid() && locks == map[]
    {
      locks := map[];
      nextId := 0;
    }

    /** `get_lock(sid, file_id)`: the key's lock, created and stored on first use. */
    method GetLock(sid: string, fileId: string) returns (lock: LockId)
      requires Valid()
      modifies this
      ensures Valid()
      ensures (sid, fileId) in old(locks) ==> lock == old(locks)[(sid, fileId)] && locks == old(locks)
      ensures (sid, fileId) !in old(locks) ==>
                locks == old(locks)[(sid, fileId) := lock] && lock !in old(locks).Values
      ensures old(locks).Keys <= locks.Keys
      ensures forall k | k in old(locks) :: locks[k] == old(locks)[k]
    {
      var key := (sid, fileId);
      if key in locks {
        return locks[key];
      }
      lock := nextId;
      locks := locks[key := lock];
      nextId := nextId + 1;
    }
  }

  /** Two requests for the same key receive the same lock; a request for another key
      in between does not disturb it, and the other key's lock is a different one. */
  method SameKeySameLock(r: LockRegistry, sid: string, id: string, otherId: string)
    returns (first: LockId, other: LockId, again: LockId)
    requires r.Valid() && id != otherId
    modifies r
    ensures r.Valid()
    ensures first == again && first != other
  {
    first := r.GetLock(sid, id);
    other := r.GetLock(sid, otherId);
    again := r.GetLock(sid, id);
  }
}
