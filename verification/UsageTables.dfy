/** The usage tables: who a log is charged to, the hourly ledger that is only ever
    added to, and the per-log detail rows with their unique log id. */
module UsageTables {
  import opened Prelude
  import opened UsageLogs
  import opened BucketKeys

  datatype Owner = Owner(orgID: int, memberID: int, keyID: int)

  /** The platform's own tables as one pass reads them: tokens of members, organisations
      by upstream user, and the billing switch of each live organisation. */
  datatype Directory = Directory(tokens: map<int, Owner>, orgs: map<int, int>, billing: map<int, bool>)

  /** A member's token is charged to the member; any other token of an organisation's user
      goes to the unknown member 0; logs of foreign users are not ours. */
  function Attribute(dir: Directory, e: LogEntry): Option<Owner> {
    if e.tokenID in dir.tokens then Some(dir.tokens[e.tokenID])
    else if e.userID in dir.orgs && dir.orgs[e.userID] != 0 then Some(Owner(dir.orgs[e.userID], 0, 0))
    else None
  }

  datatype DetailRow = DetailRow(orgID: int, memberID: int, userID: int, keyID: int,
                                 modelName: string, logID: int, quota: int, logTS: int)
  {
    function Key(): BucketKey {
      BucketKey(orgID, userID, keyID, modelName, HourBucket(logTS))
    }
  }

  function RowOf(o: Owner, e: LogEntry): DetailRow {
    DetailRow(o.orgID, o.memberID, e.userID, o.keyID, e.modelName, e.id, e.quota, e.createdAt)
  }

  /** A log somebody is charged for: a member's token made it, or an organisation's user. */
  predicate Linked(dir: Directory, e: LogEntry) {
    e.tokenID in dir.tokens || (e.userID in dir.orgs && dir.orgs[e.userID] != 0)
  }

  /** The row says of its log what the log and the directory say: the token's owner, or else the
      organisation of the user with member and key 0. */
  ghost predicate RowTells(r: DetailRow, e: LogEntry, dir: Directory) {
    && r.logID == e.id && r.userID == e.userID && r.modelName == e.modelName
    && r.quota == e.quota && r.logTS == e.createdAt
    && if e.tokenID in dir.tokens then Owner(r.orgID, r.memberID, r.keyID) == dir.tokens[e.tokenID]
       else e.userID in dir.orgs && r.orgID == dir.orgs[e.userID] != 0 && r.memberID == 0 && r.keyID == 0
  }

  /** Exactly the linked logs are attributed, and to the right owner. */
  lemma {:induction false} AttributedRight(dir: Directory, e: LogEntry)
    ensures Attribute(dir, e).Some? <==> Linked(dir, e)
    ensures Attribute(dir, e).Some? ==> RowTells(RowOf(Attribute(dir, e).value, e), e, dir)
  {
  }

  /** The detail rows of a list of logs, in order; unattributed logs give none. */
  function Rows(dir: Directory, es: seq<LogEntry>): (rows: seq<DetailRow>) {
    if |es| == 0 then []
    else
      var front := Rows(dir, es[..|es| - 1]);
      match Attribute(dir, es[|es| - 1])
      case Some(o) => front + [RowOf(o, es[|es| - 1])]
      case None => front
  }

  lemma {:induction false} RowsAppend(dir: Directory, a: seq<LogEntry>, b: seq<LogEntry>)
    ensures Rows(dir, a + b) == Rows(dir, a) + Rows(dir, b)
  {
    if |b| == 0 {
      assert a + b == a;
    } else {
      assert (a + b)[..|a + b| - 1] == a + b[..|b| - 1];
      RowsAppend(dir, a, b[..|b| - 1]);
    }
  }

  lemma {:induction false} RowsMembership(dir: Directory, es: seq<LogEntry>)
    ensures forall e | e in es && Attribute(dir, e).Some? :: RowOf(Attribute(dir, e).value, e) in Rows(dir, es)
    ensures forall r | r in Rows(dir, es) ::
              exists e :: e in es && Attribute(dir, e).Some? && r == RowOf(Attribute(dir, e).value, e)
  {
    if |es| > 0 {
      var front, last := es[..|es| - 1], es[|es| - 1];
      RowsMembership(dir, front);
      assert es == front + [last];
    }
  }

  function LogIDs(rows: seq<DetailRow>): set<int> { set r | r in rows :: r.logID }

  function LogIDSeq(rows: seq<DetailRow>): (ids: seq<int>)
    ensures |ids| == |rows|
  {
    seq(|rows|, i requires 0 <= i < |rows| => rows[i].logID)
  }

  ghost predicate NoDuplicates<T>(s: seq<T>) {
    forall i, j | 0 <= i < j < |s| :: s[i] != s[j]
  }

  ghost predicate DistinctLogs(rows: seq<DetailRow>) {
    forall i, j | 0 <= i < j < |rows| :: rows[i].logID != rows[j].logID
  }

  ghost predicate DistinctEntries(es: seq<LogEntry>) {
    forall i, j | 0 <= i < j < |es| :: es[i].id != es[j].id
  }

  lemma {:induction false} RowsDistinct(dir: Directory, es: seq<LogEntry>)
    requires DistinctEntries(es)
    ensures DistinctLogs(Rows(dir, es))
  {
    if |es| > 0 {
      var front := es[..|es| - 1];
      RowsDistinct(dir, front);
      RowsMembership(dir, front);
      forall r | r in Rows(dir, front) ensures r.logID != es[|es| - 1].id {
        var e :| e in front && Attribute(dir, e).Some? && r == RowOf(Attribute(dir, e).value, e);
        var i :| 0 <= i < |front| && front[i] == e;
        assert es[i] == e;
      }
    }
  }

  // ----- the ledger -----

  type Ledger = map<BucketKey, int>

  function Consumed(ledger: Ledger, k: BucketKey): int {
    if k in ledger then ledger[k] else 0
  }

  function SumRows(rows: seq<DetailRow>, k: BucketKey): int {
    if |rows| == 0 then 0
    else
      var last := rows[|rows| - 1];
      SumRows(rows[..|rows| - 1], k) + if last.Key() == k then last.quota else 0
  }

  lemma {:induction false} SumRowsAppend(a: seq<DetailRow>, b: seq<DetailRow>, k: BucketKey)
    ensures SumRows(a + b, k) == SumRows(a, k) + SumRows(b, k)
  {
    if |b| == 0 {
      assert a + b == a;
    } else {
      assert (a + b)[..|a + b| - 1] == a + b[..|b| - 1];
      SumRowsAppend(a, b[..|b| - 1], k);
    }
  }

  lemma {:induction false} SumRowsOne(rows: seq<DetailRow>, row: DetailRow, k: BucketKey)
    ensures SumRows(rows + [row], k) == SumRows(rows, k) + if row.Key() == k then row.quota else 0
  {
    assert (rows + [row])[..|rows|] == rows;
  }

  lemma {:induction false} SumRowsOutside(rows: seq<DetailRow>, k: BucketKey)
    requires k !in KeysOf(rows)
    ensures SumRows(rows, k) == 0
  {
    if |rows| > 0 {
      SumRowsOutside(rows[..|rows| - 1], k);
    }
  }

  function KeysOf(rows: seq<DetailRow>): set<BucketKey> {
    if |rows| == 0 then {} else KeysOf(rows[..|rows| - 1]) + {rows[|rows| - 1].Key()}
  }

  lemma {:induction false} KeysOfRows(rows: seq<DetailRow>, k: BucketKey)
    ensures k in KeysOf(rows) <==> exists r :: r in rows && r.Key() == k
  {
    if |rows| > 0 {
      var front, last := rows[..|rows| - 1], rows[|rows| - 1];
      KeysOfRows(front, k);
      assert rows == front + [last];
    }
  }

  lemma {:induction false} KeysOfAppend(a: seq<DetailRow>, b: seq<DetailRow>)
    ensures KeysOf(a + b) == KeysOf(a) + KeysOf(b)
  {
    if |b| == 0 {
      assert a + b == a;
    } else {
      assert (a + b)[..|a + b| - 1] == a + b[..|b| - 1];
      KeysOfAppend(a, b[..|b| - 1]);
    }
  }

  /** What the ledger holds after a batch was added bucket by bucket. */
  function Posted(ledger: Ledger, rows: seq<DetailRow>): Ledger {
    map k | k in ledger.Keys + KeysOf(rows) :: Consumed(ledger, k) + SumRows(rows, k)
  }

  // ----- the detail table -----

  /** INSERT IGNORE under the unique log id. */
  function InsertIgnore(detail: seq<DetailRow>, rows: seq<DetailRow>): (d: seq<DetailRow>) {
    if |rows| == 0 then detail
    else
      var d, last := InsertIgnore(detail, rows[..|rows| - 1]), rows[|rows| - 1];
      if last.logID in LogIDs(d) then d else d + [last]
  }

  lemma {:induction false} InsertIgnoreAppend(detail: seq<DetailRow>, a: seq<DetailRow>, b: seq<DetailRow>)
    ensures InsertIgnore(detail, a + b) == InsertIgnore(InsertIgnore(detail, a), b)
  {
    if |b| == 0 {
      assert a + b == a;
    } else {
      assert (a + b)[..|a + b| - 1] == a + b[..|b| - 1];
      InsertIgnoreAppend(detail, a, b[..|b| - 1]);
    }
  }

  lemma {:induction false} RowsOne(dir: Directory, e: LogEntry)
    ensures Rows(dir, [e]) == match Attribute(dir, e) case Some(o) => [RowOf(o, e)] case None => []
  {
    assert Rows(dir, [e][..0]) == [];
  }

  /** No row is dropped when the batch repeats no log and none is already present. */
  lemma {:induction false} NothingIgnored(detail: seq<DetailRow>, rows: seq<DetailRow>)
    requires DistinctLogs(rows) && LogIDs(rows) !! LogIDs(detail)
    ensures InsertIgnore(detail, rows) == detail + rows
  {
    if |rows| > 0 {
      var front, last := rows[..|rows| - 1], rows[|rows| - 1];
      assert rows == front + [last];
      assert LogIDs(front) <= LogIDs(rows);
      NothingIgnored(detail, front);
      assert last.logID !in LogIDs(detail) by { assert last.logID in LogIDs(rows); }
      forall r | r in front ensures r.logID != last.logID {
        var i :| 0 <= i < |front| && front[i] == r;
        assert rows[i] == r;
      }
      assert detail + rows == (detail + front) + [last];
    }
  }

  /** What was added to `detail` comes from the batch and only for logs that had no row. */
  ghost predicate OnlyNew(detail: seq<DetailRow>, rows: seq<DetailRow>, d: seq<DetailRow>) {
    forall i | |detail| <= i < |d| :: d[i] in rows && d[i].logID !in LogIDs(d[..i])
  }

  lemma {:induction false} OnlyNewGoesOn(detail: seq<DetailRow>, rows: seq<DetailRow>, d: seq<DetailRow>, last: DetailRow)
    requires OnlyNew(detail, rows, d)
    ensures OnlyNew(detail, rows + [last], d)
    ensures last.logID !in LogIDs(d) ==> OnlyNew(detail, rows + [last], d + [last])
  {
    var more := d + [last];
    assert more[..|d|] == d && more[|d|] in rows + [last];
    forall i | |detail| <= i < |d| ensures more[..i] == d[..i] && more[i] in rows + [last] {
    }
  }

  /** The tables after a batch: `detail` is kept, every log of the batch has a row, and nothing else came. */
  ghost predicate Inserted(detail: seq<DetailRow>, rows: seq<DetailRow>, d: seq<DetailRow>) {
    detail <= d && LogIDs(d) == LogIDs(detail) + LogIDs(rows) && OnlyNew(detail, rows, d)
  }

  lemma {:induction false} InsertedGoesOn(detail: seq<DetailRow>, rows: seq<DetailRow>, d: seq<DetailRow>, last: DetailRow)
    requires Inserted(detail, rows, d)
    ensures Inserted(detail, rows + [last], if last.logID in LogIDs(d) then d else d + [last])
  {
    LogIDsOne(rows, last);
    LogIDsOne(d, last);
    OnlyNewGoesOn(detail, rows, d, last);
  }

  lemma {:induction false} NothingInserted(detail: seq<DetailRow>)
    ensures Inserted(detail, [], detail)
  {
    assert LogIDs([]) == {};
  }

  lemma {:induction false} LastApart(rows: seq<DetailRow>)
    requires |rows| > 0
    ensures rows[..|rows| - 1] + [rows[|rows| - 1]] == rows
  {
  }

  /** The unique log id: rows already there stay, every log of the batch has a row afterwards, and a row
      is added only for a log that had none. */
  lemma {:induction false} InsertIgnoreHas(detail: seq<DetailRow>, rows: seq<DetailRow>)
    ensures Inserted(detail, rows, InsertIgnore(detail, rows))
  {
    if |rows| == 0 {
      NothingInserted(detail);
      assert rows == [];
    } else {
      var front, last := rows[..|rows| - 1], rows[|rows| - 1];
      InsertIgnoreHas(detail, front);
      InsertedGoesOn(detail, front, InsertIgnore(detail, front), last);
      LastApart(rows);
    }
  }

  lemma {:induction false} LogIDsOne(rows: seq<DetailRow>, row: DetailRow)
    ensures LogIDs(rows + [row]) == LogIDs(rows) + {row.logID}
  {
    assert row in rows + [row];
  }

  /** Every ledger bucket is the sum of the detail rows with its key, and no bucket is empty of rows. */
  ghost predicate LedgerAgrees(ledger: Ledger, detail: seq<DetailRow>) {
    && (forall k: BucketKey {:trigger Consumed(ledger, k)} :: Consumed(ledger, k) == SumRows(detail, k))
    && ledger.Keys == KeysOf(detail)
  }

  lemma {:induction false} PostingAgrees(ledger: Ledger, detail: seq<DetailRow>, rows: seq<DetailRow>)
    requires LedgerAgrees(ledger, detail)
    ensures LedgerAgrees(Posted(ledger, rows), detail + rows)
  {
    forall k: BucketKey ensures Consumed(Posted(ledger, rows), k) == SumRows(detail + rows, k) {
      SumRowsAppend(detail, rows, k);
      assert Consumed(ledger, k) == SumRows(detail, k);
      if k !in KeysOf(rows) {
        SumRowsOutside(rows, k);
      }
    }
    KeysOfAppend(detail, rows);
  }

  // ----- balances -----

  datatype Balance = Balance(recharged: int, consumed: int, refunded: int, balance: int)
  {
    predicate Conserved() { balance == recharged - consumed - refunded }
  }

  /** One UPDATE: assignments run left to right, so the balance is set from the old totals. */
  function Deduct(b: Balance, amount: int): (r: Balance)
    ensures r.Conserved()
    ensures r.consumed == b.consumed + amount && r.recharged == b.recharged && r.refunded == b.refunded
  {
    var b1 := b.(balance := b.recharged - b.consumed - b.refunded - amount);
    b1.(consumed := b1.consumed + amount)
  }

  function OrgSum(rows: seq<DetailRow>, org: int): int {
    if |rows| == 0 then 0
    else
      var last := rows[|rows| - 1];
      OrgSum(rows[..|rows| - 1], org) + if last.orgID == org then last.quota else 0
  }

  lemma {:induction false} OrgSumAppend(a: seq<DetailRow>, b: seq<DetailRow>, org: int)
    ensures OrgSum(a + b, org) == OrgSum(a, org) + OrgSum(b, org)
  {
    if |b| == 0 {
      assert a + b == a;
    } else {
      assert (a + b)[..|a + b| - 1] == a + b[..|b| - 1];
      OrgSumAppend(a, b[..|b| - 1], org);
    }
  }

  /** Sum over the buckets of one organisation. */
  ghost function GroupSum(ks: set<BucketKey>, rows: seq<DetailRow>, org: int): int {
    if ks == {} then 0
    else var k :| k in ks; GroupSum(ks - {k}, rows, org) + GroupTerm(k, rows, org)
  }

  ghost function GroupTerm(k: BucketKey, rows: seq<DetailRow>, org: int): int {
    if k.orgID == org then SumRows(rows, k) else 0
  }

  lemma {:induction false} GroupSumPick(ks: set<BucketKey>, rows: seq<DetailRow>, org: int, k: BucketKey)
    requires k in ks
    ensures GroupSum(ks, rows, org) == GroupSum(ks - {k}, rows, org) + GroupTerm(k, rows, org)
  {
    var l :| l in ks && GroupSum(ks, rows, org) == GroupSum(ks - {l}, rows, org) + GroupTerm(l, rows, org);
    if l != k {
      GroupSumPick(ks - {l}, rows, org, k);
      GroupSumPick(ks - {k}, rows, org, l);
      assert ks - {l} - {k} == ks - {k} - {l};
    }
  }

  lemma {:induction false} GroupSumRow(ks: set<BucketKey>, rows: seq<DetailRow>, row: DetailRow, org: int)
    ensures GroupSum(ks, rows + [row], org)
         == GroupSum(ks, rows, org) + if row.Key() in ks && row.orgID == org then row.quota else 0
  {
    if ks != {} {
      var k :| k in ks;
      GroupSumPick(ks, rows, org, k);
      GroupSumPick(ks, rows + [row], org, k);
      GroupSumRow(ks - {k}, rows, row, org);
      SumRowsOne(rows, row, k);
    }
  }

  /** An organisation's buckets add up to its rows, once every row's bucket is counted. */
  lemma {:induction false} GroupSumTotal(ks: set<BucketKey>, rows: seq<DetailRow>, org: int)
    requires KeysOf(rows) <= ks
    ensures GroupSum(ks, rows, org) == OrgSum(rows, org)
    decreases |rows|, |ks|
  {
    if |rows| == 0 {
      if ks != {} {
        var k :| k in ks;
        GroupSumPick(ks, rows, org, k);
        GroupSumTotal(ks - {k}, rows, org);
      }
    } else {
      var front, last := rows[..|rows| - 1], rows[|rows| - 1];
      assert rows == front + [last];
      assert last.Key() in KeysOf(rows);
      GroupSumTotal(ks, front, org);
      GroupSumRow(ks, front, last, org);
    }
  }

  predicate Chargeable(org: int, balances: map<int, Balance>, dir: Directory, observe: bool) {
    !observe && org in dir.billing && dir.billing[org] && org in balances
  }

  /** Deduction inside the settlement transaction: only organisations with billing on and a balance row. */
  function Charge(balances: map<int, Balance>, rows: seq<DetailRow>, dir: Directory, observe: bool): map<int, Balance> {
    map org | org in balances ::
      if Chargeable(org, balances, dir, observe) && OrgSum(rows, org) > 0
      then Deduct(balances[org], OrgSum(rows, org))
      else balances[org]
  }

  // ----- cursor, jobs, and the database as a whole -----

  datatype Cursor = Cursor(ts: int, logID: int, version: int)

  /** GREATEST on both components; the version counts the writes. */
  function Advance(c: Cursor, newTS: int, newLogID: int): Cursor {
    Cursor(Max(c.ts, newTS), Max(c.logID, newLogID), c.version + 1)
  }

  datatype Status = Pending | Running | Done

  datatype Job = Job(userID: int, username: string, boundaryTS: int, boundaryLogID: int,
                     cursorTS: int, status: Status)

  datatype Db = Db(cursor: Cursor, ledger: Ledger, detail: seq<DetailRow>,
                   balances: map<int, Balance>, jobs: map<int, Job>)
}
