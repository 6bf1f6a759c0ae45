/** The keyed lock as a step machine: one mutex per key, reference counted, with waiters that may be
    cancelled while a helper goroutine is still queued on the mutex for them. */
module KeyedLock {

  /** `locked` is the mutex, `refs` its reference count. */
  datatype RefMutex = RefMutex(locked: bool, refs: int)

  /** The lock table; a mutex is named by its index in `heap`, which keeps collected ones too. */
  datatype Table = Table(locks: map<string, nat>, heap: seq<RefMutex>)

  datatype Pc =
    | Trying           // has a reference, about to try the mutex once
    | Waiting          // its goroutine is queued on the mutex
    | Granted          // its goroutine has the mutex, the caller has not noticed
    | Holding          // Acquire or TryAcquire has returned the release function
    | CancelledWaiting // Acquire has returned an error, the goroutine is still queued
    | CancelledGranted // ... and has the mutex now
    | Putting          // the mutex is given back, the reference is not

  datatype Caller = Caller(key: string, m: nat, pc: Pc)

  datatype LockSys = LockSys(table: Table, callers: map<int, Caller>)

  function Start(): LockSys { LockSys(Table(map[], []), map[]) }

  datatype Step =
    | Get(c: int, key: string, try: bool)
    | Lock(c: int)
    | TryLock(c: int)
    | Notice(c: int)
    | Cancel(c: int)
    | Unlock(c: int)
    | Put(c: int)

  // ----- the table -----

  function AddRef(t: Table, m: nat, n: int): Table
    requires m < |t.heap|
  {
    t.(heap := t.heap[m := t.heap[m].(refs := t.heap[m].refs + n)])
  }

  function SetLocked(t: Table, m: nat, locked: bool): Table
    requires m < |t.heap|
  {
    t.(heap := t.heap[m := t.heap[m].(locked := locked)])
  }

  /** The key's mutex, made on demand, with one more reference. */
  function GetRef(t: Table, key: string): (r: (Table, nat))
    ensures r.1 < |r.0.heap|
  {
    if key in t.locks && t.locks[key] < |t.heap| then (AddRef(t, t.locks[key], 1), t.locks[key])
    else (Table(t.locks[key := |t.heap|], t.heap + [RefMutex(false, 1)]), |t.heap|)
  }

  /** One reference less; the key is forgotten with the last one. */
  function PutRef(t: Table, key: string, m: nat): Table
    requires m < |t.heap|
  {
    var t1 := AddRef(t, m, -1);
    if t1.heap[m].refs == 0 then t1.(locks := t1.locks - {key}) else t1
  }

  // ----- steps -----

  predicate At(s: LockSys, c: int, pcs: set<Pc>) {
    c in s.callers && s.callers[c].pc in pcs && s.callers[c].m < |s.table.heap|
  }

  predicate Free(s: LockSys, c: int)
    requires c in s.callers && s.callers[c].m < |s.table.heap|
  {
    !s.table.heap[s.callers[c].m].locked
  }

  function Move(s: LockSys, c: int, pc: Pc): LockSys
    requires c in s.callers
  {
    s.(callers := s.callers[c := s.callers[c].(pc := pc)])
  }

  predicate Enabled(s: LockSys, a: Step) {
    match a
    case Get(c, _, _) => c !in s.callers
    case Lock(c) => At(s, c, {Waiting, CancelledWaiting}) && Free(s, c)
    case TryLock(c) => At(s, c, {Trying})
    case Notice(c) => At(s, c, {Granted})
    case Cancel(c) => At(s, c, {Waiting, Granted})
    case Unlock(c) => At(s, c, {Holding, CancelledGranted})
    case Put(c) => At(s, c, {Putting})
  }

  /** A step that is not enabled changes nothing. */
  function Apply(s: LockSys, a: Step): LockSys {
    if !Enabled(s, a) then s
    else
      match a
      case Get(c, key, try) =>
        var (t, m) := GetRef(s.table, key);
        LockSys(t, s.callers[c := Caller(key, m, if try then Trying else Waiting)])
      case Lock(c) =>
        var s1 := Move(s, c, if s.callers[c].pc == Waiting then Granted else CancelledGranted);
        s1.(table := SetLocked(s.table, s.callers[c].m, true))
      case TryLock(c) =>
        if Free(s, c) then Move(s, c, Holding).(table := SetLocked(s.table, s.callers[c].m, true))
        else Move(s, c, Putting)
      case Notice(c) => Move(s, c, Holding)
      case Cancel(c) => Move(s, c, if s.callers[c].pc == Waiting then CancelledWaiting else CancelledGranted)
      case Unlock(c) => Move(s, c, Putting).(table := SetLocked(s.table, s.callers[c].m, false))
      case Put(c) =>
        LockSys(PutRef(s.table, s.callers[c].key, s.callers[c].m), s.callers - {c})
  }

  function Exec(s: LockSys, steps: seq<Step>): LockSys {
    if |steps| == 0 then s else Apply(Exec(s, steps[..|steps| - 1]), steps[|steps| - 1])
  }

  // ----- what every step keeps -----

  predicate Owns(pc: Pc) { pc == Granted || pc == Holding || pc == CancelledGranted }

  /** The callers, in whatever phase, that have a reference to mutex `m`. */
  function Users(callers: map<int, Caller>, m: nat): set<int> {
    set c | c in callers && callers[c].m == m
  }

  predicate OwnerOf(s: LockSys, c: int, m: nat) {
    c in s.callers && s.callers[c].m == m && Owns(s.callers[c].pc)
  }

  /** Every reference goes to the mutex the table has for its key. */
  ghost predicate Shared(s: LockSys) {
    forall c | c in s.callers ::
      s.callers[c].key in s.table.locks && s.table.locks[s.callers[c].key] == s.callers[c].m
  }

  ghost predicate TableOk(s: LockSys) {
    && (forall k | k in s.table.locks :: s.table.locks[k] < |s.table.heap| && s.table.heap[s.table.locks[k]].refs > 0)
    && (forall k, l | k in s.table.locks && l in s.table.locks && s.table.locks[k] == s.table.locks[l] :: k == l)
  }

  ghost predicate Counted(s: LockSys) {
    forall m | 0 <= m < |s.table.heap| :: s.table.heap[m].refs == |Users(s.callers, m)|
  }

  ghost predicate OneOwner(s: LockSys) {
    && (forall c, d, m: nat | OwnerOf(s, c, m) && OwnerOf(s, d, m) :: c == d)
    && (forall c, m: nat | OwnerOf(s, c, m) && m < |s.table.heap| :: s.table.heap[m].locked)
  }

  ghost predicate LockedByOwner(s: LockSys) {
    forall m | 0 <= m < |s.table.heap| && s.table.heap[m].locked :: exists c :: OwnerOf(s, c, m)
  }

  ghost predicate LockOk(s: LockSys) {
    Shared(s) && TableOk(s) && Counted(s) && OneOwner(s) && LockedByOwner(s)
  }

  // ----- counting references -----

  lemma {:induction false} UsersMove(callers: map<int, Caller>, c: int, pc: Pc, m: nat)
    requires c in callers
    ensures Users(callers[c := callers[c].(pc := pc)], m) == Users(callers, m)
  {
  }

  lemma {:induction false} UsersAdd(callers: map<int, Caller>, c: int, x: Caller, m: nat)
    requires c !in callers
    ensures |Users(callers[c := x], m)| == |Users(callers, m)| + if x.m == m then 1 else 0
  {
    assert Users(callers[c := x], m) == Users(callers, m) + if x.m == m then {c} else {};
  }

  lemma {:induction false} UsersRemove(callers: map<int, Caller>, c: int, m: nat)
    requires c in callers
    ensures |Users(callers, m)| == |Users(callers - {c}, m)| + if callers[c].m == m then 1 else 0
  {
    assert Users(callers, m) == Users(callers - {c}, m) + if callers[c].m == m then {c} else {};
  }

  lemma {:induction false} NoUsersBeyond(s: LockSys, m: nat)
    requires Shared(s) && TableOk(s) && m >= |s.table.heap|
    ensures |Users(s.callers, m)| == 0
  {
    forall c | c in s.callers ensures s.callers[c].m != m {
      assert s.callers[c].key in s.table.locks;
    }
    assert Users(s.callers, m) == {};
  }

  // ----- moving between phases, with or without the mutex -----

  function MoveLock(s: LockSys, c: int, pc: Pc, locked: bool): LockSys
    requires c in s.callers && s.callers[c].m < |s.table.heap|
  {
    Move(s, c, pc).(table := SetLocked(s.table, s.callers[c].m, locked))
  }

  /** The mutex flag follows ownership, and is only taken when free. */
  ghost predicate LegalMove(s: LockSys, c: int, pc: Pc, locked: bool)
    requires c in s.callers && s.callers[c].m < |s.table.heap|
  {
    if Owns(pc) == Owns(s.callers[c].pc) then locked == !Free(s, c)
    else locked == Owns(pc) && (locked ==> Free(s, c))
  }

  lemma {:induction false} MoveKeepsTable(s: LockSys, c: int, pc: Pc, locked: bool)
    requires LockOk(s) && c in s.callers && s.callers[c].m < |s.table.heap| && LegalMove(s, c, pc, locked)
    ensures var s' := MoveLock(s, c, pc, locked); Shared(s') && TableOk(s') && Counted(s')
  {
    var s' := MoveLock(s, c, pc, locked);
    forall m | 0 <= m < |s'.table.heap| ensures s'.table.heap[m].refs == |Users(s'.callers, m)| {
      UsersMove(s.callers, c, pc, m);
      assert s'.table.heap[m].refs == s.table.heap[m].refs;
    }
  }

  /** An owner after the move owned before it, or is the one that moved. */
  lemma {:induction false} OneOwnerAfter(s: LockSys, c: int, pc: Pc, locked: bool, d: int, m: nat)
    requires LockOk(s) && c in s.callers && s.callers[c].m < |s.table.heap| && LegalMove(s, c, pc, locked)
    requires m < |s.table.heap| && OwnerOf(MoveLock(s, c, pc, locked), d, m)
    ensures if d == c then m == s.callers[c].m && Owns(pc) else OwnerOf(s, d, m) && s.table.heap[m].locked
    ensures d != c && m == s.callers[c].m ==> !Owns(pc) && !Owns(s.callers[c].pc)
    ensures MoveLock(s, c, pc, locked).table.heap[m].locked
  {
    var mine := s.callers[c].m;
    if d == c {
      assert Owns(s.callers[c].pc) ==> OwnerOf(s, c, mine);
    } else {
      assert OwnerOf(s, d, m);
      if m == mine {
        assert !OwnerOf(s, c, mine);
      }
    }
  }

  lemma {:induction false} MoveKeepsOwners(s: LockSys, c: int, pc: Pc, locked: bool)
    requires LockOk(s) && c in s.callers && s.callers[c].m < |s.table.heap| && LegalMove(s, c, pc, locked)
    ensures var s' := MoveLock(s, c, pc, locked); OneOwner(s') && LockedByOwner(s')
  {
    var s' := MoveLock(s, c, pc, locked);
    var mine := s.callers[c].m;
    forall d, m: nat | d != c ensures OwnerOf(s', d, m) == OwnerOf(s, d, m) {
    }
    forall m: nat ensures OwnerOf(s', c, m) <==> m == mine && Owns(pc) {
    }
    forall d, e, m: nat | OwnerOf(s', d, m) && OwnerOf(s', e, m) ensures d == e {
      OneOwnerAfter(s, c, pc, locked, d, m);
      OneOwnerAfter(s, c, pc, locked, e, m);
    }
    forall d, m: nat | OwnerOf(s', d, m) && m < |s.table.heap| ensures s'.table.heap[m].locked {
      OneOwnerAfter(s, c, pc, locked, d, m);
    }
    forall m: nat | m < |s'.table.heap| && s'.table.heap[m].locked ensures exists d :: OwnerOf(s', d, m) {
      if m == mine && Owns(pc) {
        assert OwnerOf(s', c, m);
      } else {
        assert s.table.heap[m].locked;
        var d :| OwnerOf(s, d, m);
        assert OwnerOf(s', d, m);
      }
    }
  }

  // ----- taking and giving back references -----

  lemma {:induction false} GetKeepsTable(s: LockSys, c: int, key: string, try: bool)
    requires LockOk(s) && c !in s.callers
    ensures var s' := Apply(s, Get(c, key, try)); Shared(s') && TableOk(s') && Counted(s')
  {
    var s' := Apply(s, Get(c, key, try));
    var x := s'.callers[c];
    NoUsersBeyond(s, |s.table.heap|);
    forall m | 0 <= m < |s'.table.heap| ensures s'.table.heap[m].refs == |Users(s'.callers, m)| {
      UsersAdd(s.callers, c, x, m);
    }
  }

  lemma {:induction false} GetKeepsOwners(s: LockSys, c: int, key: string, try: bool)
    requires LockOk(s) && c !in s.callers
    ensures var s' := Apply(s, Get(c, key, try)); OneOwner(s') && LockedByOwner(s')
  {
    var s' := Apply(s, Get(c, key, try));
    forall d, m: nat ensures OwnerOf(s', d, m) == OwnerOf(s, d, m) {
    }
    forall m: nat | m < |s'.table.heap| && s'.table.heap[m].locked ensures exists d :: OwnerOf(s', d, m) {
      assert m < |s.table.heap| && s.table.heap[m].locked;
      var d :| OwnerOf(s, d, m);
      assert OwnerOf(s', d, m);
    }
  }

  lemma {:induction false} PutKeepsTable(s: LockSys, c: int)
    requires LockOk(s) && At(s, c, {Putting})
    ensures var s' := Apply(s, Put(c)); Shared(s') && TableOk(s') && Counted(s')
  {
    var s' := Apply(s, Put(c));
    var x := s.callers[c];
    forall m | 0 <= m < |s'.table.heap| ensures s'.table.heap[m].refs == |Users(s'.callers, m)| {
      UsersRemove(s.callers, c, m);
    }
    forall d | d in s'.callers ensures s'.callers[d].key in s'.table.locks {
      if s'.callers[d].key == x.key {
        assert d in Users(s'.callers, x.m);
        assert s'.table.heap[x.m].refs == |Users(s'.callers, x.m)|;
      }
    }
    forall k | k in s'.table.locks ensures s'.table.heap[s'.table.locks[k]].refs > 0 {
      if s.table.locks[k] == x.m {
        assert k == x.key;
        assert s'.table.heap[x.m].refs == |Users(s'.callers, x.m)| >= 0;
      }
    }
  }

  lemma {:induction false} PutKeepsOwners(s: LockSys, c: int)
    requires LockOk(s) && At(s, c, {Putting})
    ensures var s' := Apply(s, Put(c)); OneOwner(s') && LockedByOwner(s')
  {
    var s' := Apply(s, Put(c));
    forall d, m: nat ensures OwnerOf(s', d, m) == OwnerOf(s, d, m) {
    }
    forall m: nat | m < |s'.table.heap| && s'.table.heap[m].locked ensures exists d :: OwnerOf(s', d, m) {
      assert s.table.heap[m].locked;
      var d :| OwnerOf(s, d, m);
      assert OwnerOf(s', d, m);
    }
  }

  /** Every other step is a legal move. */
  lemma {:induction false} OtherIsMove(s: LockSys, a: Step) returns (pc: Pc, locked: bool)
    requires LockOk(s) && Enabled(s, a) && !a.Get? && !a.Put?
    ensures s.callers[a.c].m < |s.table.heap| && LegalMove(s, a.c, pc, locked)
    ensures Apply(s, a) == MoveLock(s, a.c, pc, locked)
  {
    pc := Apply(s, a).callers[a.c].pc;
    var m := s.callers[a.c].m;
    locked := Apply(s, a).table.heap[m].locked;
    if Owns(s.callers[a.c].pc) {
      assert OwnerOf(s, a.c, m);
    }
    assert s.table.heap[m := s.table.heap[m]] == s.table.heap;
  }

  lemma {:induction false} StepKeeps(s: LockSys, a: Step)
    requires LockOk(s)
    ensures LockOk(Apply(s, a))
  {
    if !Enabled(s, a) {
    } else if a.Get? {
      GetKeepsTable(s, a.c, a.key, a.try);
      GetKeepsOwners(s, a.c, a.key, a.try);
    } else if a.Put? {
      PutKeepsTable(s, a.c);
      PutKeepsOwners(s, a.c);
    } else {
      var pc, locked := OtherIsMove(s, a);
      MoveKeepsTable(s, a.c, pc, locked);
      MoveKeepsOwners(s, a.c, pc, locked);
    }
  }

  lemma {:induction false} RunKeeps(steps: seq<Step>)
    ensures LockOk(Exec(Start(), steps))
  {
    if |steps| > 0 {
      RunKeeps(steps[..|steps| - 1]);
      StepKeeps(Exec(Start(), steps[..|steps| - 1]), steps[|steps| - 1]);
    }
  }

  // ----- main results -----

  predicate Holds(s: LockSys, c: int, key: string) {
    c in s.callers && s.callers[c].key == key && s.callers[c].pc == Holding
  }

  /** In every interleaving all references to a key share one mutex and at most one caller holds it. */
  lemma {:induction false} MutualExclusion(steps: seq<Step>, c: int, d: int, key: string)
    ensures var s := Exec(Start(), steps);
            && (Holds(s, c, key) && Holds(s, d, key) ==> c == d)
            && (c in s.callers && d in s.callers ==>
                 (s.callers[c].key == s.callers[d].key <==> s.callers[c].m == s.callers[d].m))
  {
    RunKeeps(steps);
    var s := Exec(Start(), steps);
    if c in s.callers && d in s.callers {
      SameKey(s, c, d);
    }
    if Holds(s, c, key) && Holds(s, d, key) {
      assert OwnerOf(s, c, s.callers[c].m) && OwnerOf(s, d, s.callers[d].m);
    }
  }

  /** The reference count of a key's mutex is the number of callers that have not put theirs back,
      whatever they are doing; a key is in the table exactly while there are any; so with nobody
      around the table is empty. */
  lemma {:induction false} CountsReferences(steps: seq<Step>, key: string)
    ensures var s := Exec(Start(), steps);
            && (key in s.table.locks ==>
                 && s.table.locks[key] < |s.table.heap|
                 && s.table.heap[s.table.locks[key]].refs == |set c | c in s.callers && s.callers[c].key == key|)
            && (key in s.table.locks <==> exists c :: c in s.callers && s.callers[c].key == key)
            && (s.callers == map[] ==> s.table.locks == map[])
  {
    RunKeeps(steps);
    var s := Exec(Start(), steps);
    if key in s.table.locks {
      SameUsers(s, key);
    }
    if s.callers == map[] {
      NobodyAround(s);
    }
  }

  lemma {:induction false} Member<T>(users: set<T>) returns (c: T)
    requires users != {}
    ensures c in users
  {
    c :| c in users;
  }

  lemma {:induction false} SameUsers(s: LockSys, key: string)
    requires LockOk(s) && key in s.table.locks
    ensures var m := s.table.locks[key];
            && s.table.heap[m].refs == |set c | c in s.callers && s.callers[c].key == key|
            && exists c :: c in s.callers && s.callers[c].key == key
  {
    var m := s.table.locks[key];
    forall c | c in s.callers ensures s.callers[c].key == key <==> s.callers[c].m == m {
      assert s.callers[c].key in s.table.locks;
    }
    assert Users(s.callers, m) == set c | c in s.callers && s.callers[c].key == key;
    assert |Users(s.callers, m)| > 0;
    var users := Users(s.callers, m);
    var c := Member(users);
    assert c in s.callers && s.callers[c].key == key;
  }

  lemma {:induction false} NobodyAround(s: LockSys)
    requires LockOk(s) && s.callers == map[]
    ensures s.table.locks == map[]
  {
    forall k | k in s.table.locks ensures false {
      SameUsers(s, k);
    }
  }

  predicate Owner(s: LockSys, c: int, key: string) {
    c in s.callers && s.callers[c].key == key && Owns(s.callers[c].pc)
  }

  /** What a caller, or the goroutine queued for it, does next. */
  function Next(s: LockSys, c: int): Step
    requires c in s.callers
  {
    match s.callers[c].pc
    case Trying => TryLock(c)
    case Waiting => Lock(c)
    case Granted => Notice(c)
    case Holding => Unlock(c)
    case CancelledWaiting => Lock(c)
    case CancelledGranted => Unlock(c)
    case Putting => Put(c)
  }

  lemma {:induction false} OwnerCanMove(s: LockSys, d: int, m: nat)
    requires LockOk(s) && OwnerOf(s, d, m)
    ensures Enabled(s, Next(s, d))
  {
    assert s.callers[d].key in s.table.locks;
  }

  lemma {:induction false} SameKey(s: LockSys, c: int, d: int)
    requires Shared(s) && TableOk(s) && c in s.callers && d in s.callers
    ensures s.callers[c].key == s.callers[d].key <==> s.callers[c].m == s.callers[d].m
  {
    assert s.callers[c].key in s.table.locks && s.callers[d].key in s.table.locks;
  }

  predicate Queued(s: LockSys, c: int) {
    c in s.callers && (s.callers[c].pc == Waiting || s.callers[c].pc == CancelledWaiting)
  }

  lemma {:induction false} BlockedByOwner(s: LockSys, c: int) returns (d: int)
    requires LockOk(s) && Queued(s, c) && !Enabled(s, Next(s, c))
    ensures d != c && Owner(s, d, s.callers[c].key) && Enabled(s, Next(s, d))
  {
    var m := s.callers[c].m;
    assert s.callers[c].key in s.table.locks && m < |s.table.heap| && s.table.heap[m].locked;
    d :| OwnerOf(s, d, m);
    OwnerCanMove(s, d, m);
    SameKey(s, c, d);
  }

  lemma {:induction false} OthersCanMove(s: LockSys, c: int)
    requires LockOk(s) && c in s.callers && !Queued(s, c)
    ensures Enabled(s, Next(s, c))
  {
    assert s.callers[c].key in s.table.locks;
  }

  /** Nobody is stuck: a caller's next step is possible, or it waits for a mutex that somebody else
      has and can give back or go on to hold. */
  lemma {:induction false} NobodyStuck(steps: seq<Step>, c: int)
    requires c in Exec(Start(), steps).callers
    ensures var s := Exec(Start(), steps);
            || Enabled(s, Next(s, c))
            || (Queued(s, c) && exists d :: d != c && Owner(s, d, s.callers[c].key) && Enabled(s, Next(s, d)))
  {
    RunKeeps(steps);
    var s := Exec(Start(), steps);
    if !Queued(s, c) {
      OthersCanMove(s, c);
    } else if !Enabled(s, Next(s, c)) {
      var d := BlockedByOwner(s, c);
    }
  }

  lemma {:induction false} LockedIffOwned(s: LockSys, c: int)
    requires LockOk(s) && c in s.callers && s.callers[c].m < |s.table.heap|
    ensures s.table.heap[s.callers[c].m].locked <==> exists d :: Owner(s, d, s.callers[c].key)
  {
    var m := s.callers[c].m;
    if s.table.heap[m].locked {
      var d :| OwnerOf(s, d, m);
      SameKey(s, c, d);
      assert Owner(s, d, s.callers[c].key);
    } else {
      forall d ensures !Owner(s, d, s.callers[c].key) {
        if d in s.callers {
          SameKey(s, c, d);
        }
        assert Owner(s, d, s.callers[c].key) ==> OwnerOf(s, d, m);
      }
    }
  }

  /** A single try fails exactly when somebody owns the key at that moment. */
  lemma {:induction false} TryFailsIffOwned(steps: seq<Step>, c: int)
    requires At(Exec(Start(), steps), c, {Trying})
    ensures var s := Exec(Start(), steps);
            var s' := Apply(s, TryLock(c));
            && (s'.callers[c].pc == Putting <==> exists d :: Owner(s, d, s.callers[c].key))
            && (s'.callers[c].pc != Putting ==> Holds(s', c, s.callers[c].key))
  {
    RunKeeps(steps);
    LockedIffOwned(Exec(Start(), steps), c);
  }

  /** Who queues for a key gets it exactly when nobody owns it, and holds it once it has noticed. */
  lemma {:induction false} QueueEndsIffFree(steps: seq<Step>, c: int)
    requires At(Exec(Start(), steps), c, {Waiting, CancelledWaiting})
    ensures var s := Exec(Start(), steps);
            var s', key := Apply(s, Lock(c)), s.callers[c].key;
            && (Owner(s', c, key) <==> !exists d :: Owner(s, d, key))
            && (Owner(s', c, key) && s.callers[c].pc == Waiting ==> Holds(Apply(s', Notice(c)), c, key))
  {
    RunKeeps(steps);
    LockedIffOwned(Exec(Start(), steps), c);
  }

  lemma {:induction false} GetKeepsOwner(s: LockSys, c: int, key: string, try: bool, d: int)
    requires c !in s.callers
    ensures Owner(Apply(s, Get(c, key, try)), d, key) <==> Owner(s, d, key)
  {
  }

  /** An acquire that nobody gets in front of: it queues, and gets and holds the key exactly when nobody
      owns it. */
  lemma {:induction false} AcquireGetsIffFree(steps: seq<Step>, c: int, key: string)
    requires c !in Exec(Start(), steps).callers
    ensures var s := Exec(Start(), steps);
            var queued := Apply(s, Get(c, key, false));
            && At(queued, c, {Waiting}) && queued.callers[c].key == key
            && (Holds(Apply(Apply(queued, Lock(c)), Notice(c)), c, key) <==> !exists d :: Owner(s, d, key))
  {
    RunKeeps(steps);
    var s := Exec(Start(), steps);
    var queued := Apply(s, Get(c, key, false));
    StepKeeps(s, Get(c, key, false));
    LockedIffOwned(queued, c);
    forall d ensures Owner(queued, d, key) <==> Owner(s, d, key) {
      GetKeepsOwner(s, c, key, false, d);
    }
  }

  lemma {:induction false} TriedIs(s: LockSys, c: int)
    requires At(s, c, {Trying})
    ensures var tried, key := Apply(s, TryLock(c)), s.callers[c].key;
            && (Holds(tried, c, key) <==> Free(s, c))
            && (!Free(s, c) ==> At(tried, c, {Putting}) && tried.callers - {c} == s.callers - {c})
  {
  }

  lemma {:induction false} PutIs(s: LockSys, c: int)
    requires At(s, c, {Putting})
    ensures Apply(s, Put(c)).callers == s.callers - {c}
  {
  }

  lemma {:induction false} TryingIs(s: LockSys, c: int, key: string)
    requires c !in s.callers
    ensures var trying := Apply(s, Get(c, key, true));
            At(trying, c, {Trying}) && trying.callers[c].key == key && trying.callers - {c} == s.callers
  {
  }

  /** A try holds the key exactly when nobody owns it; otherwise it leaves no trace but its reference, which
      it puts back. */
  lemma {:induction false} TryGetsIffFree(steps: seq<Step>, c: int, key: string)
    requires c !in Exec(Start(), steps).callers
    ensures var s := Exec(Start(), steps);
            var tried := Apply(Apply(s, Get(c, key, true)), TryLock(c));
            && (Holds(tried, c, key) <==> !exists d :: Owner(s, d, key))
            && (!Holds(tried, c, key) ==> At(tried, c, {Putting}) && Apply(tried, Put(c)).callers == s.callers)
  {
    RunKeeps(steps);
    var s := Exec(Start(), steps);
    var trying := Apply(s, Get(c, key, true));
    StepKeeps(s, Get(c, key, true));
    TryingIs(s, c, key);
    LockedIffOwned(trying, c);
    TriedIs(trying, c);
    forall d ensures Owner(trying, d, key) <==> Owner(s, d, key) {
      GetKeepsOwner(s, c, key, true, d);
    }
    if !Free(trying, c) {
      PutIs(Apply(trying, TryLock(c)), c);
    }
  }

  ghost predicate Leaving(s: LockSys, c: int) {
    c in s.callers ==> s.callers[c].pc in {CancelledWaiting, CancelledGranted, Putting}
  }

  lemma {:induction false} LeavingStays(s: LockSys, c: int, more: seq<Step>)
    requires Leaving(s, c) && forall i | 0 <= i < |more| :: more[i].Get? ==> more[i].c != c
    ensures Leaving(Exec(s, more), c)
  {
    if |more| > 0 {
      LeavingStays(s, c, more[..|more| - 1]);
    }
  }

  /** A cancelled acquire never holds the key, whatever happens until it is called again. */
  lemma {:induction false} CancelledNeverHolds(s: LockSys, c: int, more: seq<Step>, key: string)
    requires Enabled(s, Cancel(c)) && forall i | 0 <= i < |more| :: more[i].Get? ==> more[i].c != c
    ensures !Holds(Exec(Apply(s, Cancel(c)), more), c, key)
  {
    LeavingStays(Apply(s, Cancel(c)), c, more);
  }

  /** A release, a cancelled caller's too, frees the key and then takes the caller off the table. */
  lemma {:induction false} ReleaseFrees(steps: seq<Step>, c: int)
    requires At(Exec(Start(), steps), c, {Holding, CancelledGranted})
    ensures var s := Exec(Start(), steps);
            var s' := Apply(s, Unlock(c));
            && (forall d :: !Owner(s', d, s.callers[c].key))
            && c !in Apply(s', Put(c)).callers
  {
    RunKeeps(steps);
    var s := Exec(Start(), steps);
    var s' := Apply(s, Unlock(c));
    StepKeeps(s, Unlock(c));
    LockedIffOwned(s', c);
  }
}
