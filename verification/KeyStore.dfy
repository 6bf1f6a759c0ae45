/** The key tables as the repository changes them: each call is one transaction, rolled back when the
    token id is already known. */
module KeyStore {
  import opened Prelude
  import opened KeyRotation

  class Store {
    var slots: seq<Slot>
    var tokens: seq<TokenRow>
    var members: map<Who, Member>

    constructor ()
      ensures Contents() == Start()
    {
      slots, tokens, members := [], [], map[];
    }

    function Contents(): KeyDb
      reads this
    {
      KeyDb(slots, tokens, members)
    }

    method Rollback(saved: KeyDb)
      modifies this
      ensures Contents() == saved
    {
      slots, tokens, members := saved.slots, saved.tokens, saved.members;
    }

    method InsertKeyTokenTx(keyID: nat, who: Who, token: int) returns (ok: bool)
      modifies this`tokens
      ensures ok == InsertToken(old(Contents()), keyID, who, token).Some?
      ensures Contents() == OrElse(InsertToken(old(Contents()), keyID, who, token), old(Contents()))
    {
      var i := 0;
      while i < |tokens|
        invariant 0 <= i <= |tokens|
        invariant forall j | 0 <= j < i :: tokens[j].token != token
      {
        if tokens[i].token == token {
          return false;
        }
        i := i + 1;
      }
      tokens := tokens + [TokenRow(keyID, who, token, true)];
      return true;
    }

    method InsertSlotTx(who: Who, primary: bool, token: int) returns (ok: bool, keyID: nat)
      modifies this`slots, this`tokens
      ensures ok == NewSlot(old(Contents()), who, primary, token).Some?
      ensures ok ==> Contents() == NewSlot(old(Contents()), who, primary, token).value && keyID == |old(slots)|
      ensures members == old(members)
    {
      keyID := |slots|;
      slots := slots + [Slot(who, primary)];
      ok := InsertKeyTokenTx(keyID, who, token);
    }

    method FindPrimarySlot(who: Who) returns (keyID: Option<nat>)
      ensures keyID == PrimarySlot(Contents(), who)
    {
      var k := 0;
      while k < |slots|
        invariant 0 <= k <= |slots|
        invariant FindPrimary(Contents(), who, k) == PrimarySlot(Contents(), who)
      {
        if slots[k].who == who && slots[k].primary {
          return Some(k);
        }
        k := k + 1;
      }
      return None;
    }

    method SupersedeTx(keyID: nat)
      modifies this`tokens
      ensures tokens == Supersede(old(tokens), keyID)
    {
      var i := 0;
      while i < |tokens|
        invariant 0 <= i <= |tokens| == |old(tokens)|
        invariant forall j | 0 <= j < |tokens| ::
                    tokens[j] == if j < i then Retired(old(tokens)[j], keyID) else old(tokens)[j]
      {
        if tokens[i].key == keyID && tokens[i].current {
          tokens := tokens[i := tokens[i].(current := false)];
        }
        i := i + 1;
      }
    }

    method RotatePrimaryKeyTx(who: Who, token: int) returns (ok: bool)
      modifies this`slots, this`tokens
      ensures ok == RotatePrimary(old(Contents()), who, token).Some? == !Known(old(tokens), token)
      ensures ok ==> Contents() == RotatePrimary(old(Contents()), who, token).value
      ensures ok ==> Rotated(old(Contents()), Contents(), who, token)
      ensures members == old(members)
    {
      RotationIs(Contents(), who, token);
      var keyID := FindPrimarySlot(who);
      if keyID.None? {
        var k: nat;
        ok, k := InsertSlotTx(who, true, token);
        return;
      }
      KnownSuperseded(tokens, keyID.value, token);
      SupersedeTx(keyID.value);
      ok := InsertKeyTokenTx(keyID.value, who, token);
    }

    method FinalizeBootstrap(who: Who, made: Option<int>) returns (ok: bool)
      modifies this
      ensures Contents() == Apply(old(Contents()), Finalize(who, made))
      ensures ok == (made.None? || !Known(old(tokens), made.value))
      ensures !ok ==> Contents() == old(Contents())
      ensures ok ==> members == if who in old(members)
                                then old(members)[who := old(members)[who].(pointer := made, done := true)] else old(members)
      ensures ok ==> slots == old(slots) + if made.Some? then [Slot(who, true)] else []
      ensures ok ==> tokens == old(tokens) + if made.Some? then [TokenRow(|old(slots)|, who, made.value, true)] else []
    {
      var saved := Contents();
      if who in members {
        members := members[who := members[who].(pointer := made, done := true)];
      }
      if made.None? {
        return true;
      }
      var k: nat;
      ok, k := InsertSlotTx(who, true, made.value);
      if !ok {
        Rollback(saved);
      }
    }

    method UpdateMemberKey(who: Who, token: int) returns (ok: bool)
      modifies this
      ensures Contents() == Apply(old(Contents()), UpdateKey(who, token))
      ensures ok == !Known(old(tokens), token)
      ensures !ok ==> Contents() == old(Contents())
      ensures ok ==> Rotated(old(Contents()), Contents(), who, token)
      ensures ok ==> members == if who in old(members)
                                then old(members)[who := old(members)[who].(pointer := Some(token))] else old(members)
    {
      var saved := Contents();
      if who in members {
        members := members[who := members[who].(pointer := Some(token))];
      }
      PrimaryBySlots(saved, Contents(), who, 0);
      ok := RotatePrimaryKeyTx(who, token);
      if !ok {
        Rollback(saved);
      }
    }

    method CreateAdditionalKey(who: Who, token: int) returns (ok: bool, keyID: nat)
      modifies this
      ensures Contents() == Apply(old(Contents()), AddKey(who, token))
      ensures ok == !Known(old(tokens), token)
      ensures ok ==> keyID == |old(slots)| && members == old(members)
      ensures ok ==> slots == old(slots) + [Slot(who, false)] && tokens == old(tokens) + [TokenRow(keyID, who, token, true)]
      ensures !ok ==> Contents() == old(Contents())
    {
      var saved := Contents();
      ok, keyID := InsertSlotTx(who, false, token);
      if !ok {
        Rollback(saved);
      }
    }

    method ClearMemberToken(who: Who)
      modifies this`members
      ensures Contents() == Apply(old(Contents()), Clear(who))
      ensures members == if who in old(members) then old(members)[who := old(members)[who].(pointer := None)] else old(members)
    {
      if who in members {
        members := members[who := members[who].(pointer := None)];
      }
    }

    method OffboardMember(who: Who)
      modifies this`members
      ensures Contents() == Apply(old(Contents()), Offboard(who))
      ensures members == if who in old(members) && !old(members)[who].deleted
                         then old(members)[who := old(members)[who].(pointer := None, deleted := true)] else old(members)
    {
      if who in members && !members[who].deleted {
        members := members[who := members[who].(pointer := None, deleted := true)];
      }
    }

    method RestoreOffboardedMember(who: Who)
      modifies this`members
      ensures Contents() == Apply(old(Contents()), Restore(who))
      ensures members == if who in old(members) && old(members)[who].deleted
                         then old(members)[who := old(members)[who].(deleted := false)] else old(members)
    {
      if who in members && members[who].deleted {
        members := members[who := members[who].(deleted := false)];
      }
    }

    /** Attribution of a log: the slot and the member, offboarded or not, or nothing. */
    method GetMemberByNewapiTokenID(token: int) returns (r: Option<(nat, Who)>)
      ensures r == match Attributed(tokens, token)
                   case None => None
                   case Some(a) => if a.1 in members then Some(a) else None
    {
      var i := 0;
      while i < |tokens|
        invariant 0 <= i <= |tokens|
        invariant Attributed(tokens[i..], token) == Attributed(tokens, token)
      {
        if tokens[i].token == token {
          return if tokens[i].who in members then Some((tokens[i].key, tokens[i].who)) else None;
        }
        i := i + 1;
      }
      return None;
    }
  }
}
