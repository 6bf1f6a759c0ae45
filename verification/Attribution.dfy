/** Who a log is charged to, read from the key tables: what ingestion writes into the ledger does not
    depend on when it reads them. */
module Attribution {
  import opened Prelude
  import opened UsageLogs
  import opened UsageTables
  import Keys = KeyRotation

  function TokenIDs(rows: seq<Keys.TokenRow>): set<int> { set r | r in rows :: r.token }

  /** The owner a token id leads to: its slot and its member, when the member's row is there. Slot ids
      count from 1. */
  function OwnerOf(db: Keys.KeyDb, token: int): Option<Owner> {
    match Keys.Attributed(db.tokens, token)
    case None => None
    case Some((key, who)) => if who in db.members then Some(Owner(who.org, who.member, key + 1)) else None
  }

  function TokenMap(db: Keys.KeyDb): map<int, Owner> {
    map t | t in TokenIDs(db.tokens) && OwnerOf(db, t).Some? :: OwnerOf(db, t).value
  }

  /** The directory's tokens are what the key tables said when it was read. */
  ghost predicate ReadAt(dir: Directory, db: Keys.KeyDb) { dir.tokens == TokenMap(db) }

  lemma {:induction false} AttributedHasRow(rows: seq<Keys.TokenRow>, token: int)
    requires Keys.Attributed(rows, token).Some?
    ensures token in TokenIDs(rows)
  {
    if rows[0].token == token {
      assert rows[0] in rows;
    } else {
      AttributedHasRow(rows[1..], token);
      var r :| r in rows[1..] && r.token == token;
      assert r in rows;
    }
  }

  lemma {:induction false} InTokenMap(db: Keys.KeyDb, token: int)
    ensures token in TokenMap(db) <==> OwnerOf(db, token).Some?
    ensures token in TokenMap(db) ==> TokenMap(db)[token] == OwnerOf(db, token).value && TokenMap(db)[token].keyID >= 1
  {
    if OwnerOf(db, token).Some? {
      AttributedHasRow(db.tokens, token);
    }
  }

  /** No step removes a member's row. */
  lemma {:induction false} MemberStays(db: Keys.KeyDb, a: Keys.Step, who: Keys.Who)
    requires who in db.members
    ensures who in Keys.Apply(db, a).members
  {
  }

  lemma {:induction false} MembersStay(db: Keys.KeyDb, more: seq<Keys.Step>, who: Keys.Who)
    requires who in db.members
    ensures who in Keys.Exec(db, more).members
  {
    if |more| > 0 {
      MembersStay(db, more[..|more| - 1], who);
      MemberStays(Keys.Exec(db, more[..|more| - 1]), more[|more| - 1], who);
    }
  }

  lemma {:induction false} OwnerStays(db: Keys.KeyDb, more: seq<Keys.Step>, token: int)
    requires OwnerOf(db, token).Some?
    ensures OwnerOf(Keys.Exec(db, more), token) == OwnerOf(db, token)
  {
    Keys.AttributionIsStable(db, more, token);
    MembersStay(db, more, Keys.Attributed(db.tokens, token).value.1);
  }

  /** Two directories read at two points of one run of the key tables, organisations by user unchanged:
      a log is attributed the same at both if and only if its token was known at the first or is still
      unknown at the second. */
  lemma {:induction false} AttributedTheSameIff(db: Keys.KeyDb, more: seq<Keys.Step>, dir1: Directory, dir2: Directory, e: LogEntry)
    requires ReadAt(dir1, db) && ReadAt(dir2, Keys.Exec(db, more)) && dir2.orgs == dir1.orgs
    ensures Attribute(dir1, e) == Attribute(dir2, e) <==> e.tokenID in dir1.tokens || e.tokenID !in dir2.tokens
  {
    InTokenMap(db, e.tokenID);
    InTokenMap(Keys.Exec(db, more), e.tokenID);
    if e.tokenID in dir1.tokens {
      OwnerStays(db, more, e.tokenID);
    }
  }

  /** So a log of a known token goes into the same bucket whenever it is settled, through any rotation,
      clearing, offboarding and restoring in between. */
  lemma {:induction false} BucketIsStable(db: Keys.KeyDb, more: seq<Keys.Step>, dir1: Directory, dir2: Directory, e: LogEntry)
    requires ReadAt(dir1, db) && ReadAt(dir2, Keys.Exec(db, more)) && e.tokenID in dir1.tokens
    ensures Attribute(dir1, e).Some? && Attribute(dir2, e) == Attribute(dir1, e)
    ensures RowOf(Attribute(dir2, e).value, e).Key() == RowOf(Attribute(dir1, e).value, e).Key()
  {
    InTokenMap(db, e.tokenID);
    InTokenMap(Keys.Exec(db, more), e.tokenID);
    OwnerStays(db, more, e.tokenID);
  }

  /** The same for everything a pass or a backfill window would write. */
  lemma {:induction false} RowsAreStable(db: Keys.KeyDb, more: seq<Keys.Step>, dir1: Directory, dir2: Directory, es: seq<LogEntry>)
    requires ReadAt(dir1, db) && ReadAt(dir2, Keys.Exec(db, more)) && forall e | e in es :: e.tokenID in dir1.tokens
    ensures Rows(dir1, es) == Rows(dir2, es) && |Rows(dir1, es)| == |es|
  {
    if |es| > 0 {
      assert es == es[..|es| - 1] + [es[|es| - 1]];
      RowsAreStable(db, more, dir1, dir2, es[..|es| - 1]);
      BucketIsStable(db, more, dir1, dir2, es[|es| - 1]);
    }
  }
}
