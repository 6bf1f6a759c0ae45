/** The settlement code itself: the store's statements, the sink that groups a pass, and the
    pass with its bisection, page, ingest and commit loops. */
module Settlement {
  import opened Prelude
  import opened UsageLogs
  import opened BucketKeys
  import opened UsageTables
  import opened SettlementPlan
  import opened BackfillPlan

  const BATCH := 500

  /** The tables. A statement of the source is a method here. */
  class Store {
    var cursor: Cursor
    var ledger: Ledger
    var detail: seq<DetailRow>
    var balances: map<int, Balance>
    var jobs: map<int, Job>

    constructor ()
      ensures Contents() == Db(Cursor(0, 0, 0), map[], [], map[], map[])
    {
      cursor, ledger, detail, balances, jobs := Cursor(0, 0, 0), map[], [], map[], map[];
    }

    function Contents(): Db
      reads this
    {
      Db(cursor, ledger, detail, balances, jobs)
    }

    /** Rolling back a transaction puts every table back as it was. */
    method Rollback(saved: Db)
      modifies this
      ensures Contents() == saved
    {
      cursor, ledger, detail, balances, jobs :=
        saved.cursor, saved.ledger, saved.detail, saved.balances, saved.jobs;
    }

    method AdvanceCursorTx(newTS: int, newLogID: int, version: int) returns (ok: bool)
      modifies this`cursor
      ensures ok == (old(cursor.version) == version)
      ensures cursor == if ok then Advance(old(cursor), newTS, newLogID) else old(cursor)
      ensures cursor.ts == (if ok then Max(old(cursor).ts, newTS) else old(cursor).ts)
      ensures cursor.logID == (if ok then Max(old(cursor).logID, newLogID) else old(cursor).logID)
    {
      ok := cursor.version == version;
      if ok {
        cursor := Cursor(Max(cursor.ts, newTS), Max(cursor.logID, newLogID), cursor.version + 1);
      }
    }

    method AddToLedgerBucketTx(k: BucketKey, consumed: int)
      modifies this`ledger
      ensures ledger == old(ledger)[k := Consumed(old(ledger), k) + consumed]
    {
      if k in ledger {
        ledger := ledger[k := ledger[k] + consumed];
      } else {
        ledger := ledger[k := consumed];
      }
    }

    /** INSERT IGNORE in statements of at most 500 rows. */
    method InsertUsageDetailTx(rows: seq<DetailRow>)
      modifies this`detail
      ensures detail == InsertIgnore(old(detail), rows)
    {
      var start := 0;
      while start < |rows|
        invariant 0 <= start <= |rows|
        invariant detail == InsertIgnore(old(detail), rows[..start])
      {
        var end := if start + BATCH > |rows| then |rows| else start + BATCH;
        assert rows[..end] == rows[..start] + rows[start..end];
        InsertIgnoreAppend(old(detail), rows[..start], rows[start..end]);
        detail := InsertIgnore(detail, rows[start..end]);
        start := end;
      }
      assert rows[..start] == rows;
    }

    /** Which of these logs already have a detail row; again in batches of 500. */
    method FilterExistingDetailLogIDs(ids: seq<int>) returns (existing: set<int>)
      ensures existing == (set id | id in ids && id in LogIDs(detail))
    {
      existing := {};
      var start := 0;
      while start < |ids|
        invariant 0 <= start <= |ids|
        invariant existing == set id | id in ids[..start] && id in LogIDs(detail)
      {
        var end := if start + BATCH > |ids| then |ids| else start + BATCH;
        assert ids[..end] == ids[..start] + ids[start..end];
        existing := existing + set r | r in detail && r.logID in ids[start..end] :: r.logID;
        start := end;
      }
      assert ids[..start] == ids;
    }

    /** Any unfinished job; which one comes first does not matter here. */
    method NextBackfillJob() returns (org: Option<int>)
      ensures org.Some? ==> org.value in jobs && jobs[org.value].status != Done
      ensures org.None? ==> forall o | o in jobs :: jobs[o].status == Done
    {
      var unfinished := set o | o in jobs && jobs[o].status != Done;
      assert forall o | o in jobs && jobs[o].status != Done :: o in unfinished;
      if unfinished == {} {
        return None;
      }
      var o := Pick(unfinished);
      return Some(o);
    }

    method SetBackfillStatus(org: int, status: Status)
      requires org in jobs
      modifies this`jobs
      ensures Contents() == SetStatus(old(Contents()), org, status)
      ensures jobs == old(jobs)[org := old(jobs)[org].(status := status)]
    {
      jobs := jobs[org := jobs[org].(status := status)];
    }

    method UpdateBackfillProgress(org: int, cursorTS: int)
      requires org in jobs
      modifies this`jobs
      ensures Contents() == SetProgress(old(Contents()), org, cursorTS)
      ensures jobs == old(jobs)[org := old(jobs)[org].(cursorTS := cursorTS)]
    {
      jobs := jobs[org := jobs[org].(cursorTS := cursorTS)];
    }

    method RequeueBackfillJob(org: int)
      modifies this`jobs
      ensures Contents() == Requeue(old(Contents()), org)
      ensures org in old(jobs) && old(jobs)[org].status != Running ==>
                jobs == old(jobs)[org := old(jobs)[org].(status := Pending, cursorTS := old(jobs)[org].boundaryTS)]
      ensures org !in old(jobs) || old(jobs)[org].status == Running ==> jobs == old(jobs)
    {
      if org in jobs && jobs[org].status != Running {
        jobs := jobs[org := jobs[org].(status := Pending, cursorTS := jobs[org].boundaryTS)];
      }
    }

    method InsertBackfillJob(org: int, userID: int, username: string, boundary: Cursor)
      modifies this`jobs
      ensures Contents() == InsertJob(old(Contents()), org, userID, username, boundary)
      ensures org in old(jobs) ==> jobs == old(jobs)
      ensures org !in old(jobs) ==>
                jobs == old(jobs)[org := Job(userID, username, boundary.ts, boundary.logID, boundary.ts, Pending)]
    {
      if org !in jobs {
        jobs := jobs[org := Job(userID, username, boundary.ts, boundary.logID, boundary.ts, Pending)];
      }
    }

    /** None when the organisation has no balance row. */
    method DeductBalanceTx(org: int, amount: int) returns (found: bool)
      modifies this`balances
      ensures found == (org in old(balances))
      ensures balances == if found then old(balances)[org := Deduct(old(balances)[org], amount)] else old(balances)
    {
      found := org in balances;
      if found {
        var b := balances[org];
        b := b.(balance := b.recharged - b.consumed - b.refunded - amount);
        b := b.(consumed := b.consumed + amount);
        balances := balances[org := b];
      }
    }
  }

  /** Maps are ranged over in no particular order. */
  method Pick<T(==)>(s: set<T>) returns (x: T)
    requires s != {}
    ensures x in s
  {
    x :| x in s;
  }

  datatype BucketAgg = BucketAgg(key: BucketKey, consumed: int)

  /** Groups that agree with the rows they were grouped from; `names` gives each bucket's text. */
  ghost predicate Grouped(names: map<BucketKey, string>, aggs: map<string, BucketAgg>, rows: seq<DetailRow>) {
    && names.Keys == KeysOf(rows)
    && (forall k | k in names :: names[k] in aggs && aggs[names[k]] == BucketAgg(k, SumRows(rows, k)))
    && (forall t | t in aggs :: aggs[t].key in names && names[aggs[t].key] == t)
  }

  ghost predicate TextOf(k: BucketKey, t: string) { t == KeyText(k) }

  ghost predicate TextNames(names: map<BucketKey, string>) {
    forall k {:trigger TextOf(k, names[k])} | k in names :: TextOf(k, names[k])
  }

  /** The group under a bucket's text is that bucket's own: no two buckets share a text. */
  lemma {:induction false} GroupOfKey(names: map<BucketKey, string>, aggs: map<string, BucketAgg>, rows: seq<DetailRow>, k: BucketKey)
    requires Grouped(names, aggs, rows) && TextNames(names)
    ensures if KeyText(k) in aggs then k in names && aggs[KeyText(k)] == BucketAgg(k, SumRows(rows, k))
            else SumRows(rows, k) == 0 && k !in names
  {
    if KeyText(k) in aggs {
      var l := aggs[KeyText(k)].key;
      assert TextOf(l, names[l]);
      KeyTextInjective(l, k);
    } else {
      assert k in names ==> TextOf(k, names[k]);
      SumRowsOutside(rows, k);
    }
  }

  lemma {:induction false} KeysOfOne(rows: seq<DetailRow>, row: DetailRow)
    ensures KeysOf(rows + [row]) == KeysOf(rows) + {row.Key()}
  {
    KeysOfAppend(rows, [row]);
    assert [row][..0] == [] && KeysOf([row][..0]) == {};
  }

  lemma {:induction false} GroupingStep(names: map<BucketKey, string>, aggs: map<string, BucketAgg>, rows: seq<DetailRow>,
                     row: DetailRow, t: string)
    requires Grouped(names, aggs, rows)
    requires if row.Key() in names then t == names[row.Key()] else t !in aggs
    ensures Grouped(names[row.Key() := t], aggs[t := BucketAgg(row.Key(), SumRows(rows, row.Key()) + row.quota)],
                    rows + [row])
  {
    KeysOfOne(rows, row);
    forall k | k in names || k == row.Key()
      ensures SumRows(rows + [row], k) == SumRows(rows, k) + if k == row.Key() then row.quota else 0
    {
      SumRowsOne(rows, row, k);
    }
  }

  lemma {:induction false} IngestStep(dir: Directory, es: seq<LogEntry>, i: nat)
    requires i < |es|
    ensures Rows(dir, es[..i + 1]) == Rows(dir, es[..i]) + Rows(dir, [es[i]])
    ensures FlagsKnown(dir, es[..i + 1]) <==> FlagsKnown(dir, es[..i]) && FlagsKnown(dir, [es[i]])
    ensures !FlagsKnown(dir, [es[i]]) ==> !FlagsKnown(dir, es)
  {
    assert es[..i + 1] == es[..i] + [es[i]];
    RowsAppend(dir, es[..i], [es[i]]);
    assert es[i] in es && es[i] in es[..i + 1];
    assert forall e | e in es[..i] :: e in es[..i + 1];
  }

  /** The aggregate slot of one pass, with the caches that save repeated lookups. */
  class SettleSink {
    var aggs: map<string, BucketAgg>
    var details: seq<DetailRow>
    ghost var names: map<BucketKey, string>
    var flagCache: map<int, bool>
    var attrCache: map<int, Option<Owner>>
    var orgByUser: map<int, int>
    const backfillMode: bool

    constructor (backfillMode: bool)
      ensures (forall dir :: Valid(dir)) && details == []
      ensures this.backfillMode == backfillMode && flagCache == map[]
    {
      aggs, details, names, flagCache, attrCache, orgByUser := map[], [], map[], map[], map[], map[];
      this.backfillMode := backfillMode;
    }

    /** The groups agree with the rows and every cache with the directory. */
    ghost predicate Valid(dir: Directory)
      reads this
    {
      GroupsOk() && CachesOk(dir) && (!backfillMode ==> RowsFlagged())
    }

    ghost predicate GroupsOk()
      reads this`names, this`aggs, this`details
    {
      Grouped(names, aggs, details) && TextNames(names)
    }

    ghost predicate CachesOk(dir: Directory)
      reads this`attrCache, this`orgByUser, this`flagCache
    {
      && (forall t | t in attrCache ::
            attrCache[t] == if t in dir.tokens then Some(dir.tokens[t]) else None)
      && (forall u | u in orgByUser :: orgByUser[u] == if u in dir.orgs then dir.orgs[u] else 0)
      && (forall o | o in flagCache :: o in dir.billing && flagCache[o] == dir.billing[o])
    }

    ghost predicate RowsFlagged()
      reads this`details, this`flagCache
    {
      forall r | r in details :: r.orgID in flagCache
    }

    method Lookup(dir: Directory, e: LogEntry) returns (owner: Option<Owner>)
      requires Valid(dir)
      modifies this`attrCache, this`orgByUser
      ensures Valid(dir) && owner == Attribute(dir, e)
      ensures owner.Some? <==> Linked(dir, e)
      ensures owner.Some? ==> owner.value == if e.tokenID in dir.tokens then dir.tokens[e.tokenID]
                                             else Owner(dir.orgs[e.userID], 0, 0)
    {
      if e.tokenID !in attrCache {
        attrCache := attrCache[e.tokenID := if e.tokenID in dir.tokens then Some(dir.tokens[e.tokenID]) else None];
      }
      if attrCache[e.tokenID].Some? {
        return attrCache[e.tokenID];
      }
      if e.userID !in orgByUser {
        orgByUser := orgByUser[e.userID := if e.userID in dir.orgs then dir.orgs[e.userID] else 0];
      }
      var orgID := orgByUser[e.userID];
      if orgID == 0 {
        return None;
      }
      return Some(Owner(orgID, 0, 0));
    }

    lemma {:induction false} NamesStep(names: map<BucketKey, string>, k: BucketKey)
      requires TextNames(names)
      ensures TextNames(names[k := KeyText(k)])
    {
      var names' := names[k := KeyText(k)];
      forall l | l in names' ensures TextOf(l, names'[l]) {
        assert l != k ==> TextOf(l, names[l]);
      }
    }

    method GroupRow(row: DetailRow)
      requires GroupsOk()
      modifies this`aggs, this`details, this`names
      ensures GroupsOk() && details == old(details) + [row]
    {
      var key := KeyText(row.Key());
      GroupOfKey(names, aggs, details, row.Key());
      GroupingStep(names, aggs, details, row, key);
      NamesStep(names, row.Key());
      var a := if key in aggs then aggs[key] else BucketAgg(row.Key(), 0);
      aggs := aggs[key := a.(consumed := a.consumed + row.quota)];
      details := details + [row];
      names := names[row.Key() := key];
    }

    method AddRow(ghost dir: Directory, row: DetailRow)
      requires Valid(dir) && (backfillMode || row.orgID in flagCache)
      modifies this`aggs, this`details, this`names
      ensures Valid(dir) && details == old(details) + [row]
    {
      GroupRow(row);
      assert !backfillMode ==> RowsFlagged();
    }

    /** The billing flag of an organisation, read once; false when it cannot be read. */
    method ReadFlag(dir: Directory, orgID: int) returns (ok: bool)
      requires Valid(dir)
      modifies this`flagCache
      ensures ok == (backfillMode || orgID in dir.billing)
      ensures Valid(dir) && (ok && !backfillMode ==> orgID in flagCache)
    {
      if !backfillMode && orgID !in flagCache {
        if orgID !in dir.billing {
          return false;
        }
        flagCache := flagCache[orgID := dir.billing[orgID]];
      }
      return true;
    }

    /** Attribute and group one log. Fails only when a billing flag cannot be read. */
    method IngestEntry(dir: Directory, e: LogEntry) returns (ok: bool)
      requires Valid(dir)
      modifies this
      ensures ok == (backfillMode || FlagsKnown(dir, [e]))
      ensures ok ==> Valid(dir) && details == old(details) + Rows(dir, [e])
      ensures ok ==> old(details) <= details && |details| == |old(details)| + if Linked(dir, e) then 1 else 0
      ensures ok && Linked(dir, e) ==> RowTells(details[|old(details)|], e, dir)
    {
      AttributedRight(dir, e);
      var owner := Lookup(dir, e);
      RowsOne(dir, e);
      assert e in [e];
      if owner.None? {
        return true;
      }
      ok := ReadFlag(dir, owner.value.orgID);
      if ok {
        AddRow(dir, RowOf(owner.value, e));
      }
    }

    /** The first i logs of a list have been ingested after the rows `before`. */
    ghost predicate Ingested(dir: Directory, before: seq<DetailRow>, es: seq<LogEntry>, i: int)
      reads this
    {
      && 0 <= i <= |es| && Valid(dir)
      && details == before + Rows(dir, es[..i]) && (backfillMode || FlagsKnown(dir, es[..i]))
    }

    method IngestNext(dir: Directory, es: seq<LogEntry>, i: nat, ghost before: seq<DetailRow>) returns (ok: bool)
      requires i < |es| && Ingested(dir, before, es, i)
      modifies this
      ensures ok ==> Ingested(dir, before, es, i + 1)
      ensures !ok ==> !backfillMode && !FlagsKnown(dir, es)
    {
      IngestStep(dir, es, i);
      ok := IngestEntry(dir, es[i]);
    }

    /** Ingest a list in order; the rows are those of the list, or a flag is missing. */
    method IngestAll(dir: Directory, es: seq<LogEntry>) returns (ok: bool)
      requires Valid(dir)
      modifies this
      ensures ok == (backfillMode || FlagsKnown(dir, es))
      ensures ok ==> Valid(dir) && details == old(details) + Rows(dir, es)
    {
      var i := 0;
      ghost var before := details;
      while i < |es|
        invariant Ingested(dir, before, es, i)
      {
        ok := IngestNext(dir, es, i, before);
        if !ok {
          return;
        }
        i := i + 1;
      }
      assert es[..i] == es;
      return true;
    }
  }

  /** The ledger once the buckets `done` of a batch have been added. */
  ghost function PostedGroups(before: Ledger, rows: seq<DetailRow>, done: set<BucketKey>): Ledger {
    map k | k in before.Keys + done :: Consumed(before, k) + if k in done then SumRows(rows, k) else 0
  }

  lemma {:induction false} GroupPosted(before: Ledger, rows: seq<DetailRow>, done: set<BucketKey>, k: BucketKey)
    requires k !in done
    ensures var ledger := PostedGroups(before, rows, done);
            ledger[k := Consumed(ledger, k) + SumRows(rows, k)] == PostedGroups(before, rows, done + {k})
  {
    var ledger, after := PostedGroups(before, rows, done), PostedGroups(before, rows, done + {k});
    var added := ledger[k := Consumed(ledger, k) + SumRows(rows, k)];
    assert added.Keys == after.Keys;
    assert Consumed(ledger, k) == Consumed(before, k);
    forall l | l in after ensures added[l] == after[l] {
    }
  }

  lemma {:induction false} AllPosted(before: Ledger, rows: seq<DetailRow>)
    ensures PostedGroups(before, rows, KeysOf(rows)) == Posted(before, rows)
    ensures PostedGroups(before, rows, {}) == before
  {
    forall k | k !in KeysOf(rows) ensures SumRows(rows, k) == 0 {
      SumRowsOutside(rows, k);
    }
  }

  function Get(m: map<int, int>, o: int): int { if o in m then m[o] else 0 }

  /** Per-organisation totals of a batch; only organisations that have rows appear. */
  ghost predicate PerOrg(perOrg: map<int, int>, rows: seq<DetailRow>) {
    && (forall o {:trigger Get(perOrg, o)} :: Get(perOrg, o) == OrgSum(rows, o))
    && (forall o | o in perOrg :: exists r :: r in rows && r.orgID == o)
  }

  ghost predicate PerOrgSoFar(perOrg: map<int, int>, done: set<BucketKey>, rows: seq<DetailRow>) {
    && (forall o {:trigger Get(perOrg, o)} :: Get(perOrg, o) == GroupSum(done, rows, o))
    && (forall o | o in perOrg :: exists r :: r in rows && r.orgID == o)
  }

  lemma {:induction false} PerOrgStep(perOrg: map<int, int>, done: set<BucketKey>, rows: seq<DetailRow>, k: BucketKey)
    requires PerOrgSoFar(perOrg, done, rows) && k in KeysOf(rows) && k !in done
    ensures PerOrgSoFar(perOrg[k.orgID := Get(perOrg, k.orgID) + SumRows(rows, k)], done + {k}, rows)
  {
    var perOrg' := perOrg[k.orgID := Get(perOrg, k.orgID) + SumRows(rows, k)];
    assert done + {k} - {k} == done;
    forall o ensures Get(perOrg', o) == GroupSum(done + {k}, rows, o) {
      GroupSumPick(done + {k}, rows, o, k);
      assert Get(perOrg, o) == GroupSum(done, rows, o);
    }
    KeysOfRows(rows, k);
    var r :| r in rows && r.Key() == k;
    assert r.orgID == k.orgID;
  }

  lemma {:induction false} PerOrgDone(perOrg: map<int, int>, rows: seq<DetailRow>)
    requires PerOrgSoFar(perOrg, KeysOf(rows), rows)
    ensures PerOrg(perOrg, rows)
  {
    forall o ensures Get(perOrg, o) == OrgSum(rows, o) {
      GroupSumTotal(KeysOf(rows), rows, o);
    }
  }

  class Service {
    const store: Store

    constructor (store: Store)
      ensures this.store == store
    {
      this.store := store;
    }

    method PostGroups(aggs: map<string, BucketAgg>, ghost names: map<BucketKey, string>, ghost rows: seq<DetailRow>)
      requires Grouped(names, aggs, rows)
      modifies store`ledger
      ensures store.ledger == Posted(old(store.ledger), rows)
    {
      AllPosted(store.ledger, rows);
      ghost var before, done := store.ledger, {};
      var todo := aggs.Keys;
      while todo != {}
        invariant todo <= aggs.Keys && done <= names.Keys
        invariant forall k | k in names :: k in done <==> names[k] !in todo
        invariant store.ledger == PostedGroups(before, rows, done)
        decreases todo
      {
        var t := Pick(todo);
        GroupPosted(before, rows, done, aggs[t].key);
        store.AddToLedgerBucketTx(aggs[t].key, aggs[t].consumed);
        todo, done := todo - {t}, done + {aggs[t].key};
      }
      assert done == KeysOf(rows);
    }

    /** Ledger buckets, then detail rows; no balance and no cursor is in reach of this code. */
    method CommitUsageOnly(aggs: map<string, BucketAgg>, details: seq<DetailRow>, ghost names: map<BucketKey, string>)
      requires Grouped(names, aggs, details)
      modifies store`ledger, store`detail
      ensures store.Contents() == CommitUsage(old(store.Contents()), details)
    {
      PostGroups(aggs, names, details);
      store.InsertUsageDetailTx(details);
    }

    /** New consumption per organisation, summed over the groups. */
    method SumPerOrg(aggs: map<string, BucketAgg>, ghost names: map<BucketKey, string>, ghost rows: seq<DetailRow>)
      returns (perOrg: map<int, int>)
      requires Grouped(names, aggs, rows)
      ensures PerOrg(perOrg, rows)
    {
      perOrg := map[];
      ghost var done := {};
      var todo := aggs.Keys;
      while todo != {}
        invariant todo <= aggs.Keys && done <= names.Keys
        invariant forall k | k in names :: k in done <==> names[k] !in todo
        invariant PerOrgSoFar(perOrg, done, rows)
        decreases todo
      {
        var t := Pick(todo);
        var org := aggs[t].key.orgID;
        PerOrgStep(perOrg, done, rows, aggs[t].key);
        perOrg := perOrg[org := Get(perOrg, org) + aggs[t].consumed];
        todo, done := todo - {t}, done + {aggs[t].key};
      }
      assert done == KeysOf(rows);
      PerOrgDone(perOrg, rows);
    }

    /** Deduct organisation by organisation; a missing balance row only skips that organisation. */
    method DeductAll(perOrg: map<int, int>, flagCache: map<int, bool>, dir: Directory, ghost rows: seq<DetailRow>)
      requires PerOrg(perOrg, rows)
      requires forall o | o in perOrg :: o in flagCache && o in dir.billing && flagCache[o] == dir.billing[o]
      modifies store`balances
      ensures store.balances == Charge(old(store.balances), rows, dir, false)
    {
      ghost var before := store.balances;
      var todo := perOrg.Keys;
      forall o | o in before && o !in perOrg ensures Charge(before, rows, dir, false)[o] == before[o] {
        assert Get(perOrg, o) == OrgSum(rows, o);
      }
      while todo != {}
        invariant todo <= perOrg.Keys && store.balances.Keys == before.Keys
        invariant forall o | o in before ::
                    store.balances[o] == if o in todo then before[o] else Charge(before, rows, dir, false)[o]
        decreases todo
      {
        var org := Pick(todo);
        assert Get(perOrg, org) == OrgSum(rows, org);
        if perOrg[org] > 0 && flagCache[org] {
          var found := store.DeductBalanceTx(org, perOrg[org]);
        }
        todo := todo - {org};
      }
    }

    /** The transaction of a pass, all or nothing. */
    method CommitTx(p: Plan, aggs: map<string, BucketAgg>, flagCache: map<int, bool>, ghost names: map<BucketKey, string>)
      returns (ok: bool)
      requires p.Window? ==> Grouped(names, aggs, p.rows)
      requires p.Window? ==> forall r | r in p.rows ::
                 r.orgID in flagCache && r.orgID in p.env.dir.billing && flagCache[r.orgID] == p.env.dir.billing[r.orgID]
      modifies store
      ensures store.Contents() == CommitPass(old(store.Contents()), p)
      ensures ok == (p.version == old(store.cursor.version))
      ensures !ok ==> store.Contents() == old(store.Contents())
    {
      var saved := store.Contents();
      match p {
        case Baseline(version, base) =>
          ok := store.AdvanceCursorTx(base, 0, version);
        case Window(version, _, until, maxLogID, rows, env) =>
          CommitUsageOnly(aggs, rows, names);
          if !env.observe {
            var perOrg := SumPerOrg(aggs, names, rows);
            DeductAll(perOrg, flagCache, env.dir, rows);
          } else {
            assert Charge(saved.balances, rows, env.dir, true) == saved.balances;
          }
          ok := store.AdvanceCursorTx(until, maxLogID, version);
      }
      if !ok {
        store.Rollback(saved);
      }
    }

    method BisectWindow(v: View, since: int, until: int) returns (untilSub: int)
      requires since < until
      ensures untilSub == SubWindowEnd(v, since, until)
    {
      untilSub := until;
      while true
        invariant since < untilSub <= until
        invariant SubWindowEnd(v, since, untilSub) == SubWindowEnd(v, since, until)
        decreases untilSub - since
      {
        var (_, total) := ReadPage(v, All(since, untilSub), 1);
        if total <= WINDOW_ROWS {
          return;
        }
        if untilSub <= since + 1 {
          return;
        }
        untilSub := since + (untilSub - since) / 2;
      }
    }

    method RescanLate(env: PassEnv, since: int) returns (late: seq<LogEntry>)
      ensures late == FreshLate(LateRead(env, since), LogIDs(store.detail))
    {
      var rescanSince := since - RESCAN_OVERLAP;
      if rescanSince < 0 {
        rescanSince := 0;
      }
      var read := ReadPages(env.late, All(rescanSince, since - 1), RESCAN_PAGES);
      var ids := seq(|read|, i requires 0 <= i < |read| => read[i].id);
      var existing := store.FilterExistingDetailLogIDs(ids);
      late := [];
      var i := 0;
      while i < |read|
        invariant 0 <= i <= |read|
        invariant late == FreshLate(read[..i], LogIDs(store.detail))
      {
        assert read[..i + 1][..i] == read[..i];
        assert ids[i] == read[i].id && ids[i] in ids;
        if read[i].quota > 0 && read[i].id !in existing {
          late := late + [read[i]];
        }
        i := i + 1;
      }
      assert read[..i] == read;
    }

    method ScanMain(env: PassEnv, since: int, until: int, floor: int) returns (main: seq<LogEntry>, maxLogID: int)
      ensures main == FreshMain(MainRead(env, since, until), floor)
      ensures maxLogID == MaxID(MainRead(env, since, until), floor)
    {
      var read := ReadPages(env.current, All(since, until), MAX_PAGES);
      main, maxLogID := PickMain(read, floor);
    }

    method PickMain(read: seq<LogEntry>, floor: int) returns (main: seq<LogEntry>, maxLogID: int)
      ensures main == FreshMain(read, floor) && maxLogID == MaxID(read, floor)
    {
      main, maxLogID := [], floor;
      var i := 0;
      while i < |read|
        invariant 0 <= i <= |read|
        invariant main == FreshMain(read[..i], floor) && maxLogID == MaxID(read[..i], floor)
      {
        var e := read[i];
        assert read[..i + 1] == read[..i] + [e];
        MaxIDStep(read[..i], e, floor);
        MaxIDBounds(read[..i], floor);
        FreshMainStep(read[..i], e, floor);
        i := i + 1;
        if e.id <= floor {
          continue;
        }
        if e.id > maxLogID {
          maxLogID := e.id;
        }
        if e.quota > 0 {
          main := main + [e];
        }
      }
      assert read[..i] == read;
    }

    /** Both scans of a pass, the late rows first. */
    method ScanWindow(env: PassEnv, until: int) returns (picked: seq<LogEntry>, maxLogID: int)
      ensures picked == Fresh(store.Contents(), env, until)
      ensures maxLogID == MaxID(MainRead(env, store.cursor.ts, until), store.cursor.logID)
    {
      var late := RescanLate(env, store.cursor.ts);
      var main;
      main, maxLogID := ScanMain(env, store.cursor.ts, until, store.cursor.logID);
      picked := late + main;
    }

    /** Reads a window and groups what is due in it. */
    method ScanTo(env: PassEnv, until: int, sk: SettleSink) returns (p: Option<Plan>)
      requires sk.Valid(env.dir) && sk.details == [] && !sk.backfillMode
      modifies sk
      ensures p == PlanWindow(store.Contents(), env, until)
      ensures p.Some? ==> sk.Valid(env.dir) && p.value.rows == sk.details
    {
      var cur := store.cursor;
      var picked, maxLogID := ScanWindow(env, until);
      var ok := sk.IngestAll(env.dir, picked);
      if !ok {
        return None;
      }
      assert sk.details == Rows(env.dir, picked);
      return Some(Window(cur.version, cur.ts, until, maxLogID, sk.details, env));
    }

    /** The scan half: nothing is written, the plan says what would be. */
    method ScanPass(env: PassEnv, sk: SettleSink) returns (ok: bool, p: Option<Plan>)
      requires env.leader && store.cursor.ts != 0
      requires sk.Valid(env.dir) && sk.details == [] && !sk.backfillMode
      modifies sk
      ensures p == PlanPass(store.Contents(), env)
      ensures p.Some? ==> sk.Valid(env.dir) && p.value.rows == sk.details
      ensures ok == (p.Some? || env.now - 5 <= store.cursor.ts)
    {
      var since, until := store.cursor.ts, env.now - LAG;
      if until <= since {
        return true, None;
      }
      if !env.upstreamOk {
        return false, None;
      }
      var untilSub := BisectWindow(env.sizing, since, until);
      p := ScanTo(env, untilSub, sk);
      ok := p.Some?;
    }

    /** One forward pass, false when it could not be done; the settlement mutex keeps the store still between scan and transaction. */
    method RunSettlement(env: PassEnv) returns (ok: bool)
      modifies store
      ensures store.Contents() == RunPass(old(store.Contents()), env)
      ensures ok == (!env.leader || old(store.cursor.ts) == 0 || env.now - 5 <= old(store.cursor.ts)
                     || store.Contents() != old(store.Contents()))
    {
      if !env.leader {
        return true;
      }
      if store.cursor.ts == 0 {
        ok := CommitTx(Baseline(store.cursor.version, env.now - LAG), map[], map[], map[]);
        return;
      }
      var sk := new SettleSink(false);
      var p: Option<Plan>;
      ok, p := ScanPass(env, sk);
      if p.None? {
        return;
      }
      assert forall r | r in sk.details :: r.orgID in sk.flagCache;
      ok := CommitTx(p.value, sk.aggs, sk.flagCache, sk.names);
    }
  }
}
