/** What the hourly billing check compares with: all of an organisation's ledger buckets of the hour,
    those of no member included, while the log side counts member tokens only. */
module BillingLedger {
  import opened UsageLogs
  import opened BucketKeys
  import opened UsageTables
  import opened SettlementPlan
  import opened BillingReconcile

  // ----- the settled amounts of an hour -----

  function BucketTerm(ledger: Ledger, k: BucketKey, org: int, hour: int): int {
    if k.orgID == org && k.hour == hour then Consumed(ledger, k) else 0
  }

  ghost function BucketSum(ledger: Ledger, ks: set<BucketKey>, org: int, hour: int): int {
    if ks == {} then 0
    else var k :| k in ks; BucketSum(ledger, ks - {k}, org, hour) + BucketTerm(ledger, k, org, hour)
  }

  /** What the ledger says an organisation consumed in an hour. */
  ghost function HourSum(ledger: Ledger, org: int, hour: int): int { BucketSum(ledger, ledger.Keys, org, hour) }

  lemma {:induction false} BucketSumPick(ledger: Ledger, ks: set<BucketKey>, org: int, hour: int, k: BucketKey)
    requires k in ks
    ensures BucketSum(ledger, ks, org, hour) == BucketSum(ledger, ks - {k}, org, hour) + BucketTerm(ledger, k, org, hour)
  {
    var l :| l in ks && BucketSum(ledger, ks, org, hour)
                        == BucketSum(ledger, ks - {l}, org, hour) + BucketTerm(ledger, l, org, hour);
    if l != k {
      BucketSumPick(ledger, ks - {l}, org, hour, k);
      BucketSumPick(ledger, ks - {k}, org, hour, l);
      assert ks - {l} - {k} == ks - {k} - {l};
    }
  }

  ghost predicate HourTotals(m: map<int, int>, ledger: Ledger, done: set<BucketKey>, hour: int) {
    forall org {:trigger Get(m, org)} :: Get(m, org) == BucketSum(ledger, done, org, hour)
  }

  lemma {:induction false} TotalsStep(m: map<int, int>, ledger: Ledger, done: set<BucketKey>, hour: int, k: BucketKey)
    requires HourTotals(m, ledger, done, hour) && k in ledger && k !in done
    ensures HourTotals(if k.hour == hour then m[k.orgID := Get(m, k.orgID) + ledger[k]] else m, ledger, done + {k}, hour)
  {
    var m' := if k.hour == hour then m[k.orgID := Get(m, k.orgID) + ledger[k]] else m;
    forall org ensures Get(m', org) == BucketSum(ledger, done + {k}, org, hour) {
      BucketSumPick(ledger, done + {k}, org, hour, k);
      assert done + {k} - {k} == done;
      assert Get(m, org) == BucketSum(ledger, done, org, hour);
    }
  }

  method SumLedgerByOrgForBucket(ledger: Ledger, hour: int) returns (m: map<int, int>)
    ensures forall org {:trigger Get(m, org)} :: Get(m, org) == HourSum(ledger, org, hour)
  {
    m := map[];
    var todo := ledger.Keys;
    ghost var done := {};
    while todo != {}
      invariant done + todo == ledger.Keys && done !! todo
      invariant HourTotals(m, ledger, done, hour)
      decreases todo
    {
      var k :| k in todo;
      TotalsStep(m, ledger, done, hour, k);
      if k.hour == hour {
        m := m[k.orgID := Get(m, k.orgID) + ledger[k]];
      }
      todo, done := todo - {k}, done + {k};
    }
    assert done == ledger.Keys;
  }

  /** The whole check: logs of the hour against the ledger's buckets of the hour. */
  method CheckHour(v: View, hour: int, dir: Directory, ledger: Ledger) returns (ok: bool, alerts: set<int>)
    ensures ok == forall e | e in TiledRead(v, hour, hour + 3599) ::
                    e.quota > 0 && e.tokenID in dir.tokens && dir.tokens[e.tokenID].memberID != 0
                    ==> dir.tokens[e.tokenID].orgID in dir.billing
    ensures ok && NoBusySecond(v, hour, hour + 3599) ==> forall org :: org in alerts <==> Reported(v, hour, dir, ledger, org)
  {
    var settled := SumLedgerByOrgForBucket(ledger, hour);
    ok, alerts := ReconcileBilling(v, hour, hour + 3599, dir, settled);
    forall org ensures Differs(v, hour, hour + 3599, dir, settled, org) <==> Reported(v, hour, dir, ledger, org) {
      assert Get(settled, org) == HourSum(ledger, org, hour);
    }
  }

  function HourLogs(v: View, hour: int): View { Select(v, All(hour, hour + 3599)) }

  /** An organisation with counted logs in the hour whose logged and settled amounts differ. */
  ghost predicate Reported(v: View, hour: int, dir: Directory, ledger: Ledger, org: int) {
    HasLogs(dir, HourLogs(v, hour), org) && LogSum(dir, HourLogs(v, hour), org) != HourSum(ledger, org, hour)
  }

  // ----- the ledger's hour is the detail table's hour -----

  function HourRows(detail: seq<DetailRow>, hour: int): seq<DetailRow> {
    if |detail| == 0 then []
    else
      var front, last := HourRows(detail[..|detail| - 1], hour), detail[|detail| - 1];
      if HourBucket(last.logTS) == hour then front + [last] else front
  }

  lemma {:induction false} HourRowsSum(detail: seq<DetailRow>, hour: int, k: BucketKey)
    ensures SumRows(HourRows(detail, hour), k) == if k.hour == hour then SumRows(detail, k) else 0
  {
    if |detail| > 0 {
      var last := detail[|detail| - 1];
      HourRowsSum(detail[..|detail| - 1], hour, k);
      SumRowsOne(HourRows(detail[..|detail| - 1], hour), last, k);
    }
  }

  lemma {:induction false} HourRowsKeys(detail: seq<DetailRow>, hour: int)
    ensures KeysOf(HourRows(detail, hour)) <= KeysOf(detail)
  {
    if |detail| > 0 {
      var front, last := HourRows(detail[..|detail| - 1], hour), detail[|detail| - 1];
      HourRowsKeys(detail[..|detail| - 1], hour);
      assert (front + [last])[..|front|] == front;
    }
  }

  lemma {:induction false} BucketSumIsGroupSum(ledger: Ledger, detail: seq<DetailRow>, ks: set<BucketKey>, org: int, hour: int)
    requires LedgerAgrees(ledger, detail)
    ensures BucketSum(ledger, ks, org, hour) == GroupSum(ks, HourRows(detail, hour), org)
  {
    if ks != {} {
      var k :| k in ks;
      BucketSumPick(ledger, ks, org, hour, k);
      GroupSumPick(ks, HourRows(detail, hour), org, k);
      BucketSumIsGroupSum(ledger, detail, ks - {k}, org, hour);
      HourRowsSum(detail, hour, k);
      assert Consumed(ledger, k) == SumRows(detail, k);
    }
  }

  /** The settled amount of an hour is the sum of the organisation's detail rows of that hour. */
  lemma {:induction false} HourSumIsRows(ledger: Ledger, detail: seq<DetailRow>, org: int, hour: int)
    requires LedgerAgrees(ledger, detail)
    ensures HourSum(ledger, org, hour) == OrgSum(HourRows(detail, hour), org)
  {
    BucketSumIsGroupSum(ledger, detail, ledger.Keys, org, hour);
    HourRowsKeys(detail, hour);
    GroupSumTotal(ledger.Keys, HourRows(detail, hour), org);
  }

  // ----- a settled hour -----

  function Costing(es: seq<LogEntry>): seq<LogEntry> {
    if |es| == 0 then []
    else
      var front, last := Costing(es[..|es| - 1]), es[|es| - 1];
      if last.quota > 0 then front + [last] else front
  }

  /** The detail rows of the hour are those of its costing logs, in any order. */
  ghost predicate SettledHour(detail: seq<DetailRow>, dir: Directory, v: View, hour: int) {
    multiset(HourRows(detail, hour)) == multiset(Rows(dir, Costing(HourLogs(v, hour))))
  }

  /** What an organisation consumed through tokens of no member. */
  function MemberlessSum(rows: seq<DetailRow>, org: int): int {
    if |rows| == 0 then 0
    else MemberlessSum(rows[..|rows| - 1], org) + Memberless(rows[|rows| - 1], org)
  }

  function Memberless(r: DetailRow, org: int): int { if r.orgID == org && r.memberID == 0 then r.quota else 0 }

  lemma {:induction false} MemberlessAppend(a: seq<DetailRow>, b: seq<DetailRow>, org: int)
    ensures MemberlessSum(a + b, org) == MemberlessSum(a, org) + MemberlessSum(b, org)
  {
    if |b| == 0 {
      assert a + b == a;
    } else {
      assert (a + b)[..|a + b| - 1] == a + b[..|b| - 1];
      MemberlessAppend(a, b[..|b| - 1], org);
    }
  }

  lemma {:induction false} SumsWithout(rows: seq<DetailRow>, i: nat, org: int)
    requires i < |rows|
    ensures OrgSum(rows, org)
         == OrgSum(rows[..i] + rows[i + 1..], org) + if rows[i].orgID == org then rows[i].quota else 0
    ensures MemberlessSum(rows, org) == MemberlessSum(rows[..i] + rows[i + 1..], org) + Memberless(rows[i], org)
  {
    var r := rows[i];
    assert rows == rows[..i] + [r] + rows[i + 1..] && [r][..0] == [];
    OrgSumAppend(rows[..i] + [r], rows[i + 1..], org);
    OrgSumAppend(rows[..i], [r], org);
    OrgSumAppend(rows[..i], rows[i + 1..], org);
    MemberlessAppend(rows[..i] + [r], rows[i + 1..], org);
    MemberlessAppend(rows[..i], [r], org);
    MemberlessAppend(rows[..i], rows[i + 1..], org);
  }

  lemma {:induction false} SumsOrder(a: seq<DetailRow>, b: seq<DetailRow>, org: int)
    requires multiset(a) == multiset(b)
    ensures OrgSum(a, org) == OrgSum(b, org) && MemberlessSum(a, org) == MemberlessSum(b, org)
  {
    assert |a| == |multiset(a)| == |multiset(b)| == |b|;
    if |a| > 0 {
      var n := |a| - 1;
      assert a[n] in multiset(b);
      var i :| 0 <= i < |b| && b[i] == a[n];
      DropSame(a, b, i);
      SumsOrder(a[..n], b[..i] + b[i + 1..], org);
      SumsWithout(b, i, org);
    }
  }

  /** A billed organisation's rows are its counted logs and those of no member. */
  lemma {:induction false} RowsSplit(dir: Directory, es: seq<LogEntry>, org: int)
    requires org in dir.billing && dir.billing[org]
    ensures var rows := Rows(dir, Costing(es));
            OrgSum(rows, org) == LogSum(dir, es, org) + MemberlessSum(rows, org)
  {
    if |es| > 0 {
      var front, e := es[..|es| - 1], es[|es| - 1];
      RowsSplit(dir, front, org);
      if e.quota > 0 {
        RowsAppend(dir, Costing(front), [e]);
        RowsOne(dir, e);
        OrgSumAppend(Rows(dir, Costing(front)), Rows(dir, [e]), org);
        MemberlessAppend(Rows(dir, Costing(front)), Rows(dir, [e]), org);
        OneRowSplits(dir, e, org);
      }
    }
  }

  lemma {:induction false} OneRowSplits(dir: Directory, e: LogEntry, org: int)
    requires org in dir.billing && dir.billing[org] && e.quota > 0
    ensures var rows := Rows(dir, [e]);
            OrgSum(rows, org) == Weight(dir, e, org) + MemberlessSum(rows, org)
  {
    RowsOne(dir, e);
    var rows := Rows(dir, [e]);
    assert |rows| == 1 ==> rows[..0] == [] && OrgSum(rows[..0], org) == 0 && MemberlessSum(rows[..0], org) == 0;
  }

  /** A log of the hour that cost something, made by a member's token of an organisation with billing on. */
  ghost predicate BilledLog(v: View, hour: int, dir: Directory, org: int, e: LogEntry) {
    && e in v && hour <= e.createdAt < hour + 3600 && e.quota > 0
    && e.tokenID in dir.tokens && dir.tokens[e.tokenID].memberID != 0 && dir.tokens[e.tokenID].orgID == org
    && org in dir.billing && dir.billing[org]
  }

  /** In a settled hour an organisation is reported if and only if it has counted logs and consumed
      something through tokens of no member: for those the check sounds although nothing is missing. */
  lemma {:induction false} SettledHourReports(v: View, hour: int, dir: Directory, ledger: Ledger, detail: seq<DetailRow>, org: int)
    requires LedgerAgrees(ledger, detail) && SettledHour(detail, dir, v, hour)
    ensures Reported(v, hour, dir, ledger, org) <==>
              (exists e :: BilledLog(v, hour, dir, org, e)) && MemberlessSum(HourRows(detail, hour), org) != 0
  {
    forall e ensures BilledLog(v, hour, dir, org, e) <==> e in HourLogs(v, hour) && Counts(dir, e, org) {
    }
    if HasLogs(dir, HourLogs(v, hour), org) {
      HourSumIsRows(ledger, detail, org, hour);
      SumsOrder(HourRows(detail, hour), Rows(dir, Costing(HourLogs(v, hour))), org);
      RowsSplit(dir, HourLogs(v, hour), org);
    }
  }
}
