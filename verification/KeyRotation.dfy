/** Key slots and their tokens. A slot is the stable key, its tokens are append-only, and a member
    points at the current token of its primary slot; attribution of a log goes by token id. */
module KeyRotation {
  import opened Prelude

  datatype Who = Who(org: int, member: int)

  /** A slot's id is its place in the table; so is the order in which slots were made. */
  datatype Slot = Slot(who: Who, primary: bool)

  datatype TokenRow = TokenRow(key: nat, who: Who, token: int, current: bool)

  datatype Member = Member(pointer: Option<int>, done: bool, deleted: bool)

  datatype KeyDb = KeyDb(slots: seq<Slot>, tokens: seq<TokenRow>, members: map<Who, Member>)

  function Start(): KeyDb { KeyDb([], [], map[]) }

  datatype Step =
    | Provision(who: Who)
    | Finalize(who: Who, made: Option<int>)
    | UpdateKey(who: Who, token: int)
    | AddKey(who: Who, token: int)
    | Clear(who: Who)
    | Offboard(who: Who)
    | Restore(who: Who)

  predicate Known(rows: seq<TokenRow>, token: int) { exists i :: 0 <= i < |rows| && rows[i].token == token }

  /** The token id is unique: None when it is known, and the whole transaction rolls back. */
  function InsertToken(db: KeyDb, key: nat, who: Who, token: int): Option<KeyDb> {
    if Known(db.tokens, token) then None
    else Some(db.(tokens := db.tokens + [TokenRow(key, who, token, true)]))
  }

  function NewSlot(db: KeyDb, who: Who, primary: bool, token: int): Option<KeyDb> {
    InsertToken(db.(slots := db.slots + [Slot(who, primary)]), |db.slots|, who, token)
  }

  predicate IsPrimary(db: KeyDb, k: int, who: Who) {
    0 <= k < |db.slots| && db.slots[k].who == who && db.slots[k].primary
  }

  /** The member's primary slot with the lowest id, from `k` on. */
  function FindPrimary(db: KeyDb, who: Who, k: nat): (r: Option<nat>)
    requires k <= |db.slots|
    ensures r.None? ==> forall j :: k <= j ==> !IsPrimary(db, j, who)
    ensures r.Some? ==> k <= r.value && IsPrimary(db, r.value, who) && forall j :: k <= j < r.value ==> !IsPrimary(db, j, who)
    decreases |db.slots| - k
  {
    if k == |db.slots| then None
    else if IsPrimary(db, k, who) then Some(k)
    else FindPrimary(db, who, k + 1)
  }

  function PrimarySlot(db: KeyDb, who: Who): Option<nat> { FindPrimary(db, who, 0) }

  function Retired(r: TokenRow, key: nat): TokenRow { if r.key == key then r.(current := false) else r }

  function Supersede(rows: seq<TokenRow>, key: nat): seq<TokenRow> {
    seq(|rows|, i requires 0 <= i < |rows| => Retired(rows[i], key))
  }

  function RotatePrimary(db: KeyDb, who: Who, token: int): Option<KeyDb> {
    match PrimarySlot(db, who)
    case None => NewSlot(db, who, true, token)
    case Some(k) => InsertToken(db.(tokens := Supersede(db.tokens, k)), k, who, token)
  }

  /** What a rotation leaves: without a primary slot, one with the new token; otherwise the new token as the
      only current one of the lowest primary slot, every earlier row still there. */
  ghost predicate Rotated(db: KeyDb, db': KeyDb, who: Who, token: int) {
    match PrimarySlot(db, who)
    case None =>
      && db'.slots == db.slots + [Slot(who, true)]
      && db'.tokens == db.tokens + [TokenRow(|db.slots|, who, token, true)]
    case Some(k) =>
      && db'.slots == db.slots && |db'.tokens| == |db.tokens| + 1
      && db'.tokens[|db.tokens|] == TokenRow(k, who, token, true)
      && forall i | 0 <= i < |db.tokens| ::
           db'.tokens[i] == db.tokens[i].(current := db.tokens[i].current && db.tokens[i].key != k)
  }

  lemma {:induction false} RotationIs(db: KeyDb, who: Who, token: int)
    ensures RotatePrimary(db, who, token).Some? <==> !Known(db.tokens, token)
    ensures RotatePrimary(db, who, token).Some? ==> Rotated(db, RotatePrimary(db, who, token).value, who, token)
  {
    match PrimarySlot(db, who) {
      case None =>
      case Some(k) => KnownSuperseded(db.tokens, k, token);
    }
  }

  function SetMember(db: KeyDb, who: Who, m: Member): KeyDb { db.(members := db.members[who := m]) }

  function SetPointer(db: KeyDb, who: Who, pointer: Option<int>): KeyDb {
    if who in db.members then SetMember(db, who, db.members[who].(pointer := pointer)) else db
  }

  function Finished(db: KeyDb, who: Who, made: Option<int>): KeyDb {
    if who in db.members then SetMember(db, who, db.members[who].(pointer := made, done := true)) else db
  }

  function OrElse(r: Option<KeyDb>, db: KeyDb): KeyDb { if r.Some? then r.value else db }

  function Apply(db: KeyDb, a: Step): KeyDb {
    match a
    case Provision(who) => if who in db.members then db else SetMember(db, who, Member(None, false, false))
    case Finalize(who, made) =>
      var db1 := Finished(db, who, made);
      if made.None? then db1 else OrElse(NewSlot(db1, who, true, made.value), db)
    case UpdateKey(who, token) => OrElse(RotatePrimary(SetPointer(db, who, Some(token)), who, token), db)
    case AddKey(who, token) => OrElse(NewSlot(db, who, false, token), db)
    case Clear(who) => SetPointer(db, who, None)
    case Offboard(who) =>
      if who in db.members && !db.members[who].deleted
      then SetMember(db, who, db.members[who].(pointer := None, deleted := true)) else db
    case Restore(who) =>
      if who in db.members && db.members[who].deleted
      then SetMember(db, who, db.members[who].(deleted := false)) else db
  }

  function Exec(db: KeyDb, steps: seq<Step>): KeyDb {
    if |steps| == 0 then db else Apply(Exec(db, steps[..|steps| - 1]), steps[|steps| - 1])
  }

  /** Attribution: the slot and the member a token id maps to. */
  function Attributed(rows: seq<TokenRow>, token: int): Option<(nat, Who)> {
    if |rows| == 0 then None
    else if rows[0].token == token then Some((rows[0].key, rows[0].who))
    else Attributed(rows[1..], token)
  }

  // ----- what every step keeps -----

  ghost predicate TokensOk(db: KeyDb) {
    && (forall i, j | 0 <= i < |db.tokens| && 0 <= j < |db.tokens| && db.tokens[i].token == db.tokens[j].token :: i == j)
    && (forall i | 0 <= i < |db.tokens| ::
          db.tokens[i].key < |db.slots| && db.slots[db.tokens[i].key].who == db.tokens[i].who)
  }

  predicate CurrentAt(db: KeyDb, i: int, k: int) {
    0 <= i < |db.tokens| && db.tokens[i].key == k && db.tokens[i].current
  }

  ghost predicate HasCurrent(db: KeyDb, k: int) { exists i :: CurrentAt(db, i, k) }

  /** Every slot has exactly one current token. */
  ghost predicate OneCurrent(db: KeyDb) {
    && (forall k | 0 <= k < |db.slots| :: HasCurrent(db, k))
    && (forall k, i, j | CurrentAt(db, i, k) && CurrentAt(db, j, k) :: i == j)
  }

  ghost predicate KeysOk(db: KeyDb) { TokensOk(db) && OneCurrent(db) }

  lemma {:induction false} InsertKeeps(db: KeyDb, key: nat, who: Who, token: int)
    requires TokensOk(db) && InsertToken(db, key, who, token).Some?
    requires key < |db.slots| && db.slots[key].who == who
    requires (forall k | 0 <= k < |db.slots| && k != key :: HasCurrent(db, k))
    requires (forall k, i, j | CurrentAt(db, i, k) && CurrentAt(db, j, k) :: i == j)
    requires forall i :: !CurrentAt(db, i, key)
    ensures KeysOk(InsertToken(db, key, who, token).value)
  {
    var db' := InsertToken(db, key, who, token).value;
    forall i, k ensures CurrentAt(db', i, k) <==> CurrentAt(db, i, k) || (i == |db.tokens| && k == key) {
    }
    forall k | 0 <= k < |db'.slots| ensures HasCurrent(db', k) {
      if k == key {
        assert CurrentAt(db', |db.tokens|, k);
      } else {
        assert HasCurrent(db, k);
        var i :| CurrentAt(db, i, k);
        assert CurrentAt(db', i, k);
      }
    }
  }

  lemma {:induction false} NewSlotKeeps(db: KeyDb, who: Who, primary: bool, token: int)
    requires KeysOk(db) && NewSlot(db, who, primary, token).Some?
    ensures KeysOk(NewSlot(db, who, primary, token).value)
  {
    var db1 := db.(slots := db.slots + [Slot(who, primary)]);
    forall i, k ensures CurrentAt(db1, i, k) <==> CurrentAt(db, i, k) {
    }
    forall k | 0 <= k < |db1.slots| && k != |db.slots| ensures HasCurrent(db1, k) {
      assert HasCurrent(db, k);
      var i :| CurrentAt(db, i, k);
      assert CurrentAt(db1, i, k);
    }
    InsertKeeps(db1, |db.slots|, who, token);
  }

  lemma {:induction false} SupersededIs(db: KeyDb, key: nat, i: int, k: int)
    ensures CurrentAt(db.(tokens := Supersede(db.tokens, key)), i, k) <==> CurrentAt(db, i, k) && k != key
  {
  }

  lemma {:induction false} KnownSuperseded(rows: seq<TokenRow>, key: nat, token: int)
    ensures Known(Supersede(rows, key), token) <==> Known(rows, token)
  {
    var after := Supersede(rows, key);
    forall i | 0 <= i < |rows| ensures after[i].token == rows[i].token {
    }
  }

  lemma {:induction false} RotateKeeps(db: KeyDb, who: Who, token: int)
    requires KeysOk(db) && RotatePrimary(db, who, token).Some?
    ensures KeysOk(RotatePrimary(db, who, token).value)
  {
    match PrimarySlot(db, who) {
      case None => NewSlotKeeps(db, who, true, token);
      case Some(key) =>
        var db1 := db.(tokens := Supersede(db.tokens, key));
        forall i, k ensures CurrentAt(db1, i, k) <==> CurrentAt(db, i, k) && k != key {
          SupersededIs(db, key, i, k);
        }
        forall k | 0 <= k < |db1.slots| && k != key ensures HasCurrent(db1, k) {
          assert HasCurrent(db, k);
          var i :| CurrentAt(db, i, k);
          assert CurrentAt(db1, i, k);
        }
        InsertKeeps(db1, key, who, token);
    }
  }

  lemma {:induction false} SameRowsKeep(db: KeyDb, db': KeyDb)
    requires KeysOk(db) && db'.slots == db.slots && db'.tokens == db.tokens
    ensures KeysOk(db')
  {
    forall i, k ensures CurrentAt(db', i, k) <==> CurrentAt(db, i, k) {
    }
    forall k | 0 <= k < |db'.slots| ensures HasCurrent(db', k) {
      assert HasCurrent(db, k);
      var i :| CurrentAt(db, i, k);
      assert CurrentAt(db', i, k);
    }
  }

  lemma {:induction false} StepKeeps(db: KeyDb, a: Step)
    requires KeysOk(db)
    ensures KeysOk(Apply(db, a))
  {
    match a {
      case Finalize(who, made) =>
        var db1 := Finished(db, who, made);
        SameRowsKeep(db, db1);
        if made.Some? && NewSlot(db1, who, true, made.value).Some? {
          NewSlotKeeps(db1, who, true, made.value);
        }
      case UpdateKey(who, token) =>
        var db1 := SetPointer(db, who, Some(token));
        SameRowsKeep(db, db1);
        if RotatePrimary(db1, who, token).Some? {
          RotateKeeps(db1, who, token);
        }
      case AddKey(who, token) =>
        if NewSlot(db, who, false, token).Some? {
          NewSlotKeeps(db, who, false, token);
        }
      case _ => SameRowsKeep(db, Apply(db, a));
    }
  }

  lemma {:induction false} RunKeeps(steps: seq<Step>)
    ensures KeysOk(Exec(Start(), steps))
  {
    if |steps| > 0 {
      RunKeeps(steps[..|steps| - 1]);
      StepKeeps(Exec(Start(), steps[..|steps| - 1]), steps[|steps| - 1]);
    }
  }

  /** In every reachable state each slot has exactly one current token, its own member's. */
  lemma {:induction false} ExactlyOneCurrent(steps: seq<Step>, k: nat)
    requires k < |Exec(Start(), steps).slots|
    ensures var db := Exec(Start(), steps);
            exists i :: CurrentAt(db, i, k) && db.tokens[i].who == db.slots[k].who && forall j :: CurrentAt(db, j, k) ==> j == i
  {
    RunKeeps(steps);
    var db := Exec(Start(), steps);
    assert HasCurrent(db, k);
    var i :| CurrentAt(db, i, k);
  }

  // ----- attribution -----

  lemma {:induction false} AttributedAppend(rows: seq<TokenRow>, r: TokenRow, token: int)
    ensures Attributed(rows + [r], token)
         == if Attributed(rows, token).Some? then Attributed(rows, token)
            else if r.token == token then Some((r.key, r.who)) else None
  {
    if |rows| > 0 {
      assert (rows + [r])[1..] == rows[1..] + [r];
      AttributedAppend(rows[1..], r, token);
    } else {
      assert (rows + [r])[1..] == [];
    }
  }

  lemma {:induction false} AttributedSuperseded(rows: seq<TokenRow>, key: nat, token: int)
    ensures Attributed(Supersede(rows, key), token) == Attributed(rows, token)
  {
    if |rows| > 0 {
      assert Supersede(rows, key)[1..] == Supersede(rows[1..], key);
      AttributedSuperseded(rows[1..], key, token);
    }
  }

  lemma {:induction false} InsertKeepsAttribution(db: KeyDb, key: nat, who: Who, token: int, t: int)
    requires InsertToken(db, key, who, token).Some? && Attributed(db.tokens, t).Some?
    ensures Attributed(InsertToken(db, key, who, token).value.tokens, t) == Attributed(db.tokens, t)
  {
    AttributedAppend(db.tokens, TokenRow(key, who, token, true), t);
  }

  lemma {:induction false} StepKeepsAttribution(db: KeyDb, a: Step, t: int)
    requires Attributed(db.tokens, t).Some?
    ensures Attributed(Apply(db, a).tokens, t) == Attributed(db.tokens, t)
  {
    match a {
      case Finalize(who, made) =>
        if made.Some? && !Known(db.tokens, made.value) {
          InsertKeepsAttribution(db, |db.slots|, who, made.value, t);
        }
      case AddKey(who, token) =>
        if !Known(db.tokens, token) {
          InsertKeepsAttribution(db, |db.slots|, who, token, t);
        }
      case UpdateKey(who, token) =>
        RotationKeepsAttribution(SetPointer(db, who, Some(token)), who, token, t);
      case _ =>
    }
  }

  lemma {:induction false} RotationKeepsAttribution(db: KeyDb, who: Who, token: int, t: int)
    requires Attributed(db.tokens, t).Some?
    ensures RotatePrimary(db, who, token).Some? ==>
              Attributed(RotatePrimary(db, who, token).value.tokens, t) == Attributed(db.tokens, t)
  {
    if RotatePrimary(db, who, token).Some? {
      match PrimarySlot(db, who) {
        case None => InsertKeepsAttribution(db.(slots := db.slots + [Slot(who, true)]), |db.slots|, who, token, t);
        case Some(key) =>
          AttributedSuperseded(db.tokens, key, t);
          InsertKeepsAttribution(db.(tokens := Supersede(db.tokens, key)), key, who, token, t);
      }
    }
  }

  /** Over every run a token id once mapped to a slot and a member keeps that mapping for ever. */
  lemma {:induction false} AttributionIsStable(db: KeyDb, more: seq<Step>, t: int)
    requires Attributed(db.tokens, t).Some?
    ensures Attributed(Exec(db, more).tokens, t) == Attributed(db.tokens, t)
  {
    if |more| > 0 {
      AttributionIsStable(db, more[..|more| - 1], t);
      StepKeepsAttribution(Exec(db, more[..|more| - 1]), more[|more| - 1], t);
    }
  }

  /** The mapping is the row's: in every reachable state it has the slot's own member. */
  lemma {:induction false} AttributedIsRow(db: KeyDb, i: nat)
    requires TokensOk(db) && i < |db.tokens|
    ensures Attributed(db.tokens, db.tokens[i].token) == Some((db.tokens[i].key, db.slots[db.tokens[i].key].who))
  {
    FirstMatch(db.tokens, i);
  }

  lemma {:induction false} FirstMatch(rows: seq<TokenRow>, i: nat)
    requires i < |rows| && forall j | 0 <= j < i :: rows[j].token != rows[i].token
    ensures Attributed(rows, rows[i].token) == Some((rows[i].key, rows[i].who))
  {
    if i > 0 {
      FirstMatch(rows[1..], i - 1);
    }
  }

  /** Rotation keeps the key: the new token and every earlier one of the slot map to the same slot. */
  lemma {:induction false} RotationKeepsKey(db: KeyDb, who: Who, token: int, earlier: int)
    requires KeysOk(db) && !Known(db.tokens, token) && PrimarySlot(db, who).Some?
    ensures var db', k := Apply(db, UpdateKey(who, token)), PrimarySlot(db, who).value;
            && Attributed(db'.tokens, token) == Some((k, who))
            && (Attributed(db.tokens, earlier) == Some((k, who)) ==> Attributed(db'.tokens, earlier) == Some((k, who)))
  {
    var db1, k := SetPointer(db, who, Some(token)), PrimarySlot(db, who).value;
    PrimaryBySlots(db, db1, who, 0);
    var rows := Supersede(db.tokens, k);
    KnownSuperseded(db.tokens, k, token);
    var db' := Apply(db, UpdateKey(who, token));
    assert db'.tokens == rows + [TokenRow(k, who, token, true)];
    FirstMatch(db'.tokens, |rows|);
    if Attributed(db.tokens, earlier).Some? {
      StepKeepsAttribution(db, UpdateKey(who, token), earlier);
    }
  }

  // ----- the member's pointer -----

  /** A member should name the current token of the slot that rotation would work on. */
  ghost predicate PointsAtCurrent(db: KeyDb, who: Who, token: int) {
    PrimarySlot(db, who).Some? && IsCurrent(db, PrimarySlot(db, who).value, token)
  }

  ghost predicate IsCurrent(db: KeyDb, k: int, token: int) {
    exists i :: CurrentAt(db, i, k) && db.tokens[i].token == token
  }

  ghost predicate PointerOk(db: KeyDb, who: Who)
    requires who in db.members
  {
    db.members[who].pointer.Some? ==> PointsAtCurrent(db, who, db.members[who].pointer.value)
  }

  ghost predicate PointersOk(db: KeyDb) { forall who | who in db.members :: PointerOk(db, who) }

  /** New keys are only made, at finalize, for a member with no primary slot yet. */
  predicate Orderly(db: KeyDb, a: Step) { a.Finalize? && a.made.Some? ==> PrimarySlot(db, a.who).None? }

  lemma {:induction false} PrimaryOfMore(db: KeyDb, s: Slot, who: Who, k: nat)
    requires k <= |db.slots|
    ensures FindPrimary(db.(slots := db.slots + [s]), who, k)
         == if FindPrimary(db, who, k).Some? then FindPrimary(db, who, k)
            else if s.who == who && s.primary then Some(|db.slots|) else None
    decreases |db.slots| - k
  {
    var db' := db.(slots := db.slots + [s]);
    if k < |db.slots| {
      assert IsPrimary(db', k, who) == IsPrimary(db, k, who);
      PrimaryOfMore(db, s, who, k + 1);
    } else if FindPrimary(db', who, k).Some? {
      assert IsPrimary(db', |db.slots|, who);
    } else {
      assert !IsPrimary(db', |db.slots|, who);
    }
  }

  lemma {:induction false} PrimaryBySlots(db: KeyDb, db': KeyDb, who: Who, k: nat)
    requires db'.slots == db.slots && k <= |db.slots|
    ensures FindPrimary(db', who, k) == FindPrimary(db, who, k)
    decreases |db.slots| - k
  {
    if k < |db.slots| {
      assert IsPrimary(db', k, who) == IsPrimary(db, k, who);
      PrimaryBySlots(db, db', who, k + 1);
    }
  }

  /** A new slot with its token leaves every pointer that was right right, and is the one to point at
      exactly when it is the member's first primary slot. */
  lemma {:induction false} NewSlotPoints(db: KeyDb, who: Who, primary: bool, token: int, w: Who, t: int)
    requires KeysOk(db) && NewSlot(db, who, primary, token).Some?
    ensures var db' := NewSlot(db, who, primary, token).value;
            PointsAtCurrent(db', w, t)
            <==> PointsAtCurrent(db, w, t) || (w == who && primary && t == token && PrimarySlot(db, who).None?)
  {
    var db' := NewSlot(db, who, primary, token).value;
    var db1 := db.(slots := db.slots + [Slot(who, primary)]);
    PrimaryOfMore(db, Slot(who, primary), w, 0);
    PrimaryBySlots(db1, db', w, 0);
    forall k, u: int ensures IsCurrent(db', k, u) <==> IsCurrent(db, k, u) || (k == |db.slots| && u == token) {
      CurrentAfterInsert(db1, |db.slots|, who, token, k, u);
      CurrentByRows(db, db1, k, u);
    }
    if PrimarySlot(db, w).None? {
      NoneBeyond(db, |db.slots|, t);
    }
  }

  lemma {:induction false} CurrentAfterInsert(db: KeyDb, key: nat, who: Who, token: int, k: int, u: int)
    requires InsertToken(db, key, who, token).Some?
    ensures IsCurrent(InsertToken(db, key, who, token).value, k, u) <==> IsCurrent(db, k, u) || (k == key && u == token)
  {
    var db' := InsertToken(db, key, who, token).value;
    if IsCurrent(db, k, u) {
      var i :| CurrentAt(db, i, k) && db.tokens[i].token == u;
      assert CurrentAt(db', i, k) && db'.tokens[i].token == u;
    }
    if k == key && u == token {
      assert CurrentAt(db', |db.tokens|, k) && db'.tokens[|db.tokens|].token == u;
    }
    if IsCurrent(db', k, u) {
      var i :| CurrentAt(db', i, k) && db'.tokens[i].token == u;
      assert i < |db.tokens| ==> CurrentAt(db, i, k) && db.tokens[i].token == u;
    }
  }

  lemma {:induction false} CurrentByRows(db: KeyDb, db': KeyDb, k: int, u: int)
    requires db'.tokens == db.tokens
    ensures IsCurrent(db', k, u) <==> IsCurrent(db, k, u)
  {
    forall i ensures CurrentAt(db', i, k) <==> CurrentAt(db, i, k) {
    }
  }

  lemma {:induction false} NoneBeyond(db: KeyDb, k: nat, u: int)
    requires TokensOk(db) && k >= |db.slots|
    ensures !IsCurrent(db, k, u)
  {
  }

  lemma {:induction false} CurrentAfterSupersede(db: KeyDb, key: nat, k: int, u: int)
    requires k != key && IsCurrent(db, k, u)
    ensures IsCurrent(db.(tokens := Supersede(db.tokens, key)), k, u)
  {
    var i :| CurrentAt(db, i, k) && db.tokens[i].token == u;
    SupersededIs(db, key, i, k);
  }

  lemma {:induction false} RotatePoints(db: KeyDb, who: Who, token: int, w: Who, t: int)
    requires KeysOk(db) && RotatePrimary(db, who, token).Some? && (w != who || t == token)
    ensures var db' := RotatePrimary(db, who, token).value;
            (w == who ==> PointsAtCurrent(db', w, t)) && (PointsAtCurrent(db, w, t) ==> PointsAtCurrent(db', w, t))
  {
    var db' := RotatePrimary(db, who, token).value;
    match PrimarySlot(db, who) {
      case None => NewSlotPoints(db, who, true, token, w, t);
      case Some(key) =>
        var db1 := db.(tokens := Supersede(db.tokens, key));
        PrimaryBySlots(db, db', w, 0);
        if w == who || PointsAtCurrent(db, w, t) {
          var k := PrimarySlot(db, w).value;
          CurrentAfterInsert(db1, key, who, token, k, t);
          if w != who {
            assert k != key;
            CurrentAfterSupersede(db, key, k, t);
          }
        }
    }
  }

  lemma {:induction false} PointsByRows(db: KeyDb, db': KeyDb, w: Who, t: int)
    requires db'.slots == db.slots && db'.tokens == db.tokens
    ensures PointsAtCurrent(db', w, t) <==> PointsAtCurrent(db, w, t)
  {
    PrimaryBySlots(db, db', w, 0);
    if PrimarySlot(db, w).Some? {
      CurrentByRows(db, db', PrimarySlot(db, w).value, t);
    }
  }

  lemma {:induction false} FinalizePoints(db: KeyDb, who: Who, made: Option<int>)
    requires KeysOk(db) && PointersOk(db) && Orderly(db, Finalize(who, made))
    ensures PointersOk(Apply(db, Finalize(who, made)))
  {
    var db' := Apply(db, Finalize(who, made));
    if made.Some? ==> !Known(db.tokens, made.value) {
      var db1 := Finished(db, who, made);
      SameRowsKeep(db, db1);
      PrimaryBySlots(db, db1, who, 0);
      forall w | w in db'.members ensures PointerOk(db', w) {
        if db'.members[w].pointer.Some? {
          var t := db'.members[w].pointer.value;
          PointsByRows(db, db1, w, t);
          if made.Some? {
            NewSlotPoints(db1, who, true, made.value, w, t);
          }
          assert w != who ==> PointerOk(db, w);
        }
      }
    }
  }

  lemma {:induction false} UpdatePoints(db: KeyDb, who: Who, token: int)
    requires KeysOk(db) && PointersOk(db)
    ensures PointersOk(Apply(db, UpdateKey(who, token)))
  {
    var db1 := SetPointer(db, who, Some(token));
    var db' := Apply(db, UpdateKey(who, token));
    SameRowsKeep(db, db1);
    if RotatePrimary(db1, who, token).Some? {
      forall w | w in db'.members ensures PointerOk(db', w) {
        if db'.members[w].pointer.Some? {
          var t := db'.members[w].pointer.value;
          PointsByRows(db, db1, w, t);
          RotatePoints(db1, who, token, w, t);
          assert w != who ==> PointerOk(db, w);
        }
      }
    }
  }

  lemma {:induction false} AddPoints(db: KeyDb, who: Who, token: int)
    requires KeysOk(db) && PointersOk(db)
    ensures PointersOk(Apply(db, AddKey(who, token)))
  {
    var db' := Apply(db, AddKey(who, token));
    if NewSlot(db, who, false, token).Some? {
      forall w | w in db'.members ensures PointerOk(db', w) {
        assert PointerOk(db, w);
        if db'.members[w].pointer.Some? {
          NewSlotPoints(db, who, false, token, w, db'.members[w].pointer.value);
        }
      }
    }
  }

  lemma {:induction false} OtherPoints(db: KeyDb, a: Step)
    requires PointersOk(db) && !a.Finalize? && !a.UpdateKey? && !a.AddKey?
    ensures PointersOk(Apply(db, a))
  {
    var db' := Apply(db, a);
    forall w | w in db'.members ensures PointerOk(db', w) {
      if db'.members[w].pointer.Some? {
        assert PointerOk(db, w);
        PointsByRows(db, db', w, db'.members[w].pointer.value);
      }
    }
  }

  lemma {:induction false} StepKeepsPointers(db: KeyDb, a: Step)
    requires KeysOk(db) && PointersOk(db) && Orderly(db, a)
    ensures PointersOk(Apply(db, a))
  {
    match a {
      case Finalize(who, made) => FinalizePoints(db, who, made);
      case UpdateKey(who, token) => UpdatePoints(db, who, token);
      case AddKey(who, token) => AddPoints(db, who, token);
      case _ => OtherPoints(db, a);
    }
  }

  ghost predicate OrderlyRun(steps: seq<Step>) {
    forall i | 0 <= i < |steps| :: Orderly(Exec(Start(), steps[..i]), steps[i])
  }

  /** Over every run that finalizes only members without a primary slot, however it rotates, adds
      keys, clears, offboards and restores, a member's pointer is empty or names the current token
      of its primary slot. */
  lemma {:induction false} PointersAreCurrent(steps: seq<Step>)
    requires OrderlyRun(steps)
    ensures KeysOk(Exec(Start(), steps)) && PointersOk(Exec(Start(), steps))
  {
    RunKeeps(steps);
    if |steps| > 0 {
      var front := steps[..|steps| - 1];
      assert forall i | 0 <= i < |front| :: front[..i] == steps[..i];
      PointersAreCurrent(front);
      StepKeepsPointers(Exec(Start(), front), steps[|steps| - 1]);
    }
  }

  /** The condition is exact: a finalize with a fresh token leaves the pointers right if and only if
      the member had no primary slot. */
  lemma {:induction false} FinalizeIff(db: KeyDb, who: Who, token: int)
    requires KeysOk(db) && PointersOk(db) && who in db.members && !Known(db.tokens, token)
    ensures PointersOk(Apply(db, Finalize(who, Some(token)))) <==> PrimarySlot(db, who).None?
  {
    if PrimarySlot(db, who).None? {
      FinalizePoints(db, who, Some(token));
    } else {
      var db1 := Finished(db, who, Some(token));
      var db' := Apply(db, Finalize(who, Some(token)));
      SameRowsKeep(db, db1);
      PrimaryBySlots(db, db1, who, 0);
      PointsByRows(db, db1, who, token);
      NewSlotPoints(db1, who, true, token, who, token);
      assert !PointerOk(db', who);
    }
  }

  /** How a run gets there: a member whose key is made by self-service before its opening finalizes
      ends up pointing beside its primary slot. */
  lemma {:induction false} LateFinalizePointsBeside(db: KeyDb, who: Who, first: int, second: int)
    requires KeysOk(db) && PointersOk(db) && who in db.members && first != second
    requires !Known(db.tokens, first) && !Known(db.tokens, second)
    ensures !PointersOk(Apply(Apply(db, UpdateKey(who, first)), Finalize(who, Some(second))))
  {
    var db1 := Apply(db, UpdateKey(who, first));
    StepKeeps(db, UpdateKey(who, first));
    UpdatePoints(db, who, first);
    MadeByUpdate(db, who, first, second);
    FinalizeIff(db1, who, second);
  }

  lemma {:induction false} MadeByUpdate(db: KeyDb, who: Who, first: int, second: int)
    requires KeysOk(db) && PointersOk(db) && who in db.members && first != second
    requires !Known(db.tokens, first) && !Known(db.tokens, second)
    ensures var db1 := Apply(db, UpdateKey(who, first));
            who in db1.members && PrimarySlot(db1, who).Some? && !Known(db1.tokens, second)
  {
    var db0 := SetPointer(db, who, Some(first));
    UpdatePoints(db, who, first);
    var db1 := Apply(db, UpdateKey(who, first));
    var k := PrimarySlot(db0, who);
    if k.Some? {
      KnownSuperseded(db.tokens, k.value, first);
      KnownSuperseded(db.tokens, k.value, second);
    }
    assert db1.members[who].pointer == Some(first);
    assert PointerOk(db1, who);
  }
}
