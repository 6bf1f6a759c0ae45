/** The in-process locker: a map of shared, reference counted mutexes. Its methods change them in
    place and are proved to take the steps of the keyed lock machine. */
module KeyedLocker {
  import opened KeyedLock

  class RefCountedMutex {
    var locked: bool
    var refs: int

    constructor ()
      ensures !locked && refs == 0
    {
      locked, refs := false, 0;
    }

    function Value(): RefMutex
      reads this
    {
      RefMutex(locked, refs)
    }

    method TryLock() returns (ok: bool)
      modifies this`locked
      ensures ok == !old(locked) && locked
    {
      ok := !locked;
      locked := true;
    }

    method Unlock()
      requires locked
      modifies this`locked
      ensures !locked
    {
      locked := false;
    }
  }

  lemma {:induction false} TrySteps(s: LockSys, c: int, key: string)
    requires c !in s.callers
    ensures var s1 := Apply(Apply(s, Step.Get(c, key, true)), Step.TryLock(c));
            var (t, m) := GetRef(s.table, key);
            && s1.table == (if t.heap[m].locked then t else SetLocked(t, m, true))
            && Holds(s1, c, key) == !t.heap[m].locked
            && (t.heap[m].locked ==> Apply(s1, Step.Put(c)).table == PutRef(t, key, m))
  {
  }

  class InProcessLocker {
    var locks: map<string, RefCountedMutex>
    ghost var all: seq<RefCountedMutex>
    ghost var ids: map<string, nat>

    constructor ()
      ensures Valid() && Contents() == KeyedLock.Start().table
    {
      locks, all, ids := map[], [], map[];
    }

    ghost predicate Valid()
      reads this
    {
      && locks.Keys == ids.Keys
      && (forall k | k in ids :: ids[k] < |all| && all[ids[k]] == locks[k])
      && (forall i, j | 0 <= i < j < |all| :: all[i] != all[j])
    }

    ghost function Contents(): Table
      reads this, all
    {
      Table(ids, seq(|all|, i requires 0 <= i < |all| reads this, all => all[i].Value()))
    }

    method Get(key: string) returns (m: RefCountedMutex, ghost id: nat)
      requires Valid()
      modifies this, all
      ensures Valid() && old(all) <= all
      ensures forall i | |old(all)| <= i < |all| :: fresh(all[i])
      ensures (Contents(), id) == GetRef(old(Contents()), key)
      ensures id < |all| && all[id] == m
    {
      if key in locks {
        m, id := locks[key], ids[key];
      } else {
        m := new RefCountedMutex();
        id := |all|;
        locks, ids, all := locks[key := m], ids[key := |all|], all + [m];
      }
      m.refs := m.refs + 1;
      assert Contents().heap == GetRef(old(Contents()), key).0.heap;
    }

    method Put(key: string, m: RefCountedMutex, ghost id: nat)
      requires Valid() && id < |all| && all[id] == m
      modifies this, m
      ensures Valid() && all == old(all)
      ensures Contents() == PutRef(old(Contents()), key, id)
    {
      m.refs := m.refs - 1;
      if m.refs == 0 {
        locks, ids := locks - {key}, ids - {key};
      }
      assert Contents().heap == PutRef(old(Contents()), key, id).heap;
    }

    method TryLockAt(m: RefCountedMutex, ghost id: nat) returns (ok: bool)
      requires Valid() && id < |all| && all[id] == m
      modifies m`locked
      ensures ok == !old(Contents()).heap[id].locked
      ensures Valid() && Contents() == if ok then SetLocked(old(Contents()), id, true) else old(Contents())
    {
      ok := m.TryLock();
      assert Contents().heap == if ok then SetLocked(old(Contents()), id, true).heap else old(Contents()).heap;
    }

    method UnlockAt(m: RefCountedMutex, ghost id: nat)
      requires Valid() && id < |all| && all[id] == m && m.locked
      modifies m`locked
      ensures Valid() && Contents() == SetLocked(old(Contents()), id, false)
    {
      m.Unlock();
      assert Contents().heap == SetLocked(old(Contents()), id, false).heap;
    }

    /** With nobody else moving in between, a try is a get, one attempt at the mutex, and, when that
        fails, a put. */
    method TryAcquire(key: string, ghost s: LockSys, ghost c: int) returns (m: RefCountedMutex, ghost id: nat, ok: bool)
      requires Valid() && Contents() == s.table && c !in s.callers
      modifies this, all
      ensures Valid() && id < |all| && all[id] == m
      ensures var s1 := Apply(Apply(s, Step.Get(c, key, true)), Step.TryLock(c));
              && Contents() == (if ok then s1 else Apply(s1, Step.Put(c))).table
              && ok == Holds(s1, c, key)
    {
      TrySteps(s, c, key);
      m, id := Get(key);
      ok := TryLockAt(m, id);
      if !ok {
        Put(key, m, id);
      }
    }

    /** The release function: the mutex, then the reference. */
    method Release(key: string, m: RefCountedMutex, ghost id: nat, ghost s: LockSys, ghost c: int)
      requires Valid() && Contents() == s.table && id < |all| && all[id] == m && m.locked
      requires Holds(s, c, key) && s.callers[c].m == id
      modifies this, m
      ensures Valid() && all == old(all)
      ensures Contents() == Apply(Apply(s, Step.Unlock(c)), Step.Put(c)).table
    {
      UnlockAt(m, id);
      Put(key, m, id);
    }
  }
}
