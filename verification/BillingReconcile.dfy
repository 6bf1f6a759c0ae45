/** The hourly check of settled consumption against the upstream logs: an hour of any size is read
    in sub-windows found by bisection, each in at most 20 pages. */
module BillingReconcile {
  import opened Prelude
  import opened UsageLogs
  import opened UsageTables
  import opened SettlementPlan

  /** Bisection towards `sub`, down to a single second if need be. */
  function SubEnd(v: View, sub: int, end: int): (r: int)
    requires sub <= end
    ensures sub <= r <= end
    ensures |Select(v, All(sub, r))| <= WINDOW_ROWS || r == sub
    decreases end - sub
  {
    if |Select(v, All(sub, end))| <= WINDOW_ROWS || end <= sub then end
    else SubEnd(v, sub, sub + (end - sub) / 2)
  }

  /** A sub-window is all that is left of the hour whenever that can be read whole; otherwise it is the near
      half of one that could not, unless it is a single second. */
  lemma {:induction false} SubEndIsWidest(v: View, sub: int, end: int)
    requires sub <= end
    ensures var r := SubEnd(v, sub, end);
            && (r == end <==> !Overflows(v, sub, end) || end == sub)
            && (r != end ==> exists w :: r < w <= end && r == sub + (w - sub) / 2 && Overflows(v, sub, w))
    decreases end - sub
  {
    if Overflows(v, sub, end) && end > sub {
      SubEndIsWidest(v, sub, sub + (end - sub) / 2);
    }
  }

  /** Everything the check reads, sub-window after sub-window. */
  function TiledRead(v: View, sub: int, until: int): seq<LogEntry>
    decreases until - sub
  {
    if sub > until then []
    else
      var end := SubEnd(v, sub, until);
      Newest(Select(v, All(sub, end)), WINDOW_ROWS) + TiledRead(v, end + 1, until)
  }

  // ----- the tiles are the hour -----

  lemma {:induction false} SelectSplits(v: View, a: int, m: int, b: int)
    requires a - 1 <= m <= b
    ensures multiset(Select(v, All(a, b))) == multiset(Select(v, All(a, m))) + multiset(Select(v, All(m + 1, b)))
  {
    if |v| > 0 {
      SelectSplits(v[1..], a, m, b);
    }
  }

  lemma {:induction false} SelectNothing(v: View, a: int, b: int)
    requires a > b
    ensures Select(v, All(a, b)) == []
  {
    if |v| > 0 {
      SelectNothing(v[1..], a, b);
    }
  }

  lemma {:induction false} SizeSplits(v: View, a: int, m: int, b: int)
    requires a - 1 <= m <= b
    ensures |Select(v, All(a, b))| == |Select(v, All(a, m))| + |Select(v, All(m + 1, b))|
  {
    SelectSplits(v, a, m, b);
    assert |multiset(Select(v, All(a, b)))| == |Select(v, All(a, b))|;
  }

  /** No single second holds more rows than a window reads. */
  ghost predicate NoBusySecond(v: View, since: int, until: int) {
    forall t {:trigger All(t, t)} | since <= t <= until :: |Select(v, All(t, t))| <= WINDOW_ROWS
  }

  lemma {:induction false} TilesLoseNothing(v: View, sub: int, until: int)
    requires NoBusySecond(v, sub, until)
    ensures multiset(TiledRead(v, sub, until)) == multiset(Select(v, All(sub, until)))
    decreases until - sub
  {
    if sub > until {
      SelectNothing(v, sub, until);
    } else {
      var end := SubEnd(v, sub, until);
      assert |Select(v, All(sub, end))| <= WINDOW_ROWS by {
        assert end == sub ==> All(sub, end) == All(sub, sub);
      }
      TilesLoseNothing(v, end + 1, until);
      SelectSplits(v, sub, end, until);
    }
  }

  lemma {:induction false} TiledLength(v: View, sub: int, until: int)
    requires sub <= until
    ensures var end := SubEnd(v, sub, until);
            && |TiledRead(v, sub, until)| == Min(|Select(v, All(sub, end))|, WINDOW_ROWS) + |TiledRead(v, end + 1, until)|
            && |Select(v, All(sub, until))| == |Select(v, All(sub, end))| + |Select(v, All(end + 1, until))|
  {
    SizeSplits(v, sub, SubEnd(v, sub, until), until);
  }

  lemma {:induction false} TilesAtMost(v: View, sub: int, until: int)
    ensures |TiledRead(v, sub, until)| <= |Select(v, All(sub, until))|
    decreases until - sub
  {
    if sub <= until {
      var end := SubEnd(v, sub, until);
      TilesAtMost(v, end + 1, until);
      TiledLength(v, sub, until);
    }
  }

  lemma {:induction false} BusySecondLosesRows(v: View, sub: int, until: int, t: int)
    requires sub <= t <= until && |Select(v, All(t, t))| > WINDOW_ROWS
    ensures |TiledRead(v, sub, until)| < |Select(v, All(sub, until))|
    decreases until - sub
  {
    var end := SubEnd(v, sub, until);
    TiledLength(v, sub, until);
    TilesAtMost(v, end + 1, until);
    if t <= end {
      BusyTile(v, sub, end, t);
    } else {
      BusySecondLosesRows(v, end + 1, until, t);
    }
  }

  lemma {:induction false} BusyTile(v: View, sub: int, end: int, t: int)
    requires sub <= t <= end && |Select(v, All(t, t))| > WINDOW_ROWS
    ensures |Select(v, All(sub, end))| > WINDOW_ROWS
  {
    SelectNarrower(v, All(t, t), All(sub, end));
  }

  /** The tiles hold every log of the hour exactly once if and only if no single second overflows. */
  lemma {:induction false} TilesExactly(v: View, since: int, until: int)
    ensures multiset(TiledRead(v, since, until)) == multiset(Select(v, All(since, until)))
       <==> NoBusySecond(v, since, until)
  {
    if NoBusySecond(v, since, until) {
      TilesLoseNothing(v, since, until);
    } else {
      var t :| since <= t <= until && |Select(v, All(t, t))| > WINDOW_ROWS;
      BusySecondLosesRows(v, since, until, t);
      assert |multiset(TiledRead(v, since, until))| < |multiset(Select(v, All(since, until)))|;
    }
  }

  // ----- the sum -----

  /** Only positive logs of member tokens of organisations with billing on are compared. */
  predicate Counts(dir: Directory, e: LogEntry, org: int) {
    && e.quota > 0 && e.tokenID in dir.tokens && dir.tokens[e.tokenID].memberID != 0
    && dir.tokens[e.tokenID].orgID == org && org in dir.billing && dir.billing[org]
  }

  function Weight(dir: Directory, e: LogEntry, org: int): int {
    if Counts(dir, e, org) then e.quota else 0
  }

  function LogSum(dir: Directory, es: seq<LogEntry>, org: int): int {
    if |es| == 0 then 0 else LogSum(dir, es[..|es| - 1], org) + Weight(dir, es[|es| - 1], org)
  }

  lemma {:induction false} LogSumAppend(dir: Directory, a: seq<LogEntry>, b: seq<LogEntry>, org: int)
    ensures LogSum(dir, a + b, org) == LogSum(dir, a, org) + LogSum(dir, b, org)
  {
    if |b| == 0 {
      assert a + b == a;
    } else {
      assert (a + b)[..|a + b| - 1] == a + b[..|b| - 1];
      LogSumAppend(dir, a, b[..|b| - 1], org);
    }
  }

  lemma {:induction false} LogSumWithout(dir: Directory, es: seq<LogEntry>, i: nat, org: int)
    requires i < |es|
    ensures LogSum(dir, es, org) == LogSum(dir, es[..i] + es[i + 1..], org) + Weight(dir, es[i], org)
  {
    assert es == es[..i] + [es[i]] + es[i + 1..];
    LogSumAppend(dir, es[..i] + [es[i]], es[i + 1..], org);
    LogSumAppend(dir, es[..i], [es[i]], org);
    LogSumAppend(dir, es[..i], es[i + 1..], org);
    assert [es[i]][..0] == [] && LogSum(dir, [es[i]][..0], org) == 0;
  }

  lemma {:induction false} MultisetWithout<T>(es: seq<T>, i: nat)
    requires i < |es|
    ensures multiset(es) == multiset(es[..i] + es[i + 1..]) + multiset{es[i]}
  {
    assert es == es[..i] + [es[i]] + es[i + 1..];
  }

  lemma {:induction false} DropSame<T>(a: seq<T>, b: seq<T>, i: nat)
    requires |a| > 0 && i < |b| && b[i] == a[|a| - 1] && multiset(a) == multiset(b)
    ensures multiset(a[..|a| - 1]) == multiset(b[..i] + b[i + 1..])
  {
    var n := |a| - 1;
    MultisetWithout(a, n);
    MultisetWithout(b, i);
    assert a[..n] + a[n + 1..] == a[..n];
    var x := multiset(a[..n]);
    assert x == x + multiset{a[n]} - multiset{a[n]};
    var y := multiset(b[..i] + b[i + 1..]);
    assert y == y + multiset{b[i]} - multiset{b[i]};
  }

  /** The sum does not depend on the order in which the logs were read. */
  lemma {:induction false} LogSumOrder(dir: Directory, a: seq<LogEntry>, b: seq<LogEntry>, org: int)
    requires multiset(a) == multiset(b)
    ensures LogSum(dir, a, org) == LogSum(dir, b, org)
  {
    assert |a| == |multiset(a)| == |multiset(b)| == |b|;
    if |a| > 0 {
      var n := |a| - 1;
      assert a[n] in multiset(b);
      var i :| 0 <= i < |b| && b[i] == a[n];
      DropSame(a, b, i);
      LogSumOrder(dir, a[..n], b[..i] + b[i + 1..], org);
      LogSumWithout(dir, b, i, org);
    }
  }

  /** The bisected, paged scan gives the plain sum over the hour. */
  lemma {:induction false} ScanIsPlainSum(dir: Directory, v: View, since: int, until: int, org: int)
    requires NoBusySecond(v, since, until)
    ensures LogSum(dir, TiledRead(v, since, until), org) == LogSum(dir, Select(v, All(since, until)), org)
  {
    TilesExactly(v, since, until);
    LogSumOrder(dir, TiledRead(v, since, until), Select(v, All(since, until)), org);
  }

  // ----- the code -----

  function Get(m: map<int, int>, org: int): int { if org in m then m[org] else 0 }

  predicate HasLogs(dir: Directory, es: seq<LogEntry>, org: int) { exists e :: e in es && Counts(dir, e, org) }

  ghost predicate Sums(m: map<int, int>, dir: Directory, es: seq<LogEntry>) {
    && (forall org {:trigger Get(m, org)} :: Get(m, org) == LogSum(dir, es, org))
    && (forall org :: org in m <==> HasLogs(dir, es, org))
  }

  /** A flag that cannot be read fails the check: it is asked for every member log that costs. */
  predicate Readable(dir: Directory, e: LogEntry) {
    e.quota > 0 && e.tokenID in dir.tokens && dir.tokens[e.tokenID].memberID != 0
    ==> dir.tokens[e.tokenID].orgID in dir.billing
  }

  lemma {:induction false} SumsStep(m: map<int, int>, dir: Directory, es: seq<LogEntry>, e: LogEntry, m': map<int, int>)
    requires Sums(m, dir, es)
    requires forall o {:trigger Get(m', o)} :: Get(m', o) == Get(m, o) + Weight(dir, e, o)
    requires forall o :: o in m' <==> o in m || Counts(dir, e, o)
    ensures Sums(m', dir, es + [e])
  {
    var after := es + [e];
    assert after[..|es|] == es;
    forall o ensures Get(m', o) == LogSum(dir, after, o) {
      assert Get(m, o) == LogSum(dir, es, o);
    }
    forall o ensures o in m' <==> HasLogs(dir, after, o) {
      if o in m {
        assert HasLogs(dir, es, o);
        var x :| x in es && Counts(dir, x, o);
        assert x in after;
      }
      if Counts(dir, e, o) {
        assert e in after;
      }
    }
  }

  method Ingest(m: map<int, int>, dir: Directory, e: LogEntry, ghost es: seq<LogEntry>) returns (ok: bool, m': map<int, int>)
    requires Sums(m, dir, es)
    ensures ok == Readable(dir, e)
    ensures ok ==> Sums(m', dir, es + [e])
  {
    m' := m;
    var org := if e.tokenID in dir.tokens then dir.tokens[e.tokenID].orgID else 0;
    if e.quota <= 0 || e.tokenID !in dir.tokens || dir.tokens[e.tokenID].memberID == 0 {
      forall o ensures Weight(dir, e, o) == 0 {
      }
      SumsStep(m, dir, es, e, m');
      return true, m';
    }
    if org !in dir.billing {
      return false, m';
    }
    if dir.billing[org] {
      m' := m[org := Get(m, org) + e.quota];
    }
    forall o ensures Get(m', o) == Get(m, o) + Weight(dir, e, o) {
      assert Counts(dir, e, o) <==> o == org && dir.billing[org];
    }
    SumsStep(m, dir, es, e, m');
    return true, m';
  }

  method IngestAll(m: map<int, int>, dir: Directory, read: seq<LogEntry>, ghost es: seq<LogEntry>)
    returns (ok: bool, m': map<int, int>)
    requires Sums(m, dir, es)
    ensures ok == forall e | e in read :: Readable(dir, e)
    ensures ok ==> Sums(m', dir, es + read)
  {
    m', ok := m, true;
    var i := 0;
    assert es + read[..0] == es;
    while i < |read|
      invariant 0 <= i <= |read|
      invariant Sums(m', dir, es + read[..i])
      invariant forall e | e in read[..i] :: Readable(dir, e)
    {
      assert read[..i + 1] == read[..i] + [read[i]];
      assert es + read[..i + 1] == (es + read[..i]) + [read[i]];
      ok, m' := Ingest(m', dir, read[i], es + read[..i]);
      if !ok {
        assert read[i] in read;
        return;
      }
      i := i + 1;
    }
    assert read[..i] == read;
    ok := true;
  }

  method BisectTo(v: View, sub: int, until: int) returns (subEnd: int)
    requires sub <= until
    ensures subEnd == SubEnd(v, sub, until)
  {
    subEnd := until;
    while true
      invariant sub <= subEnd <= until && SubEnd(v, sub, subEnd) == SubEnd(v, sub, until)
      decreases subEnd - sub
    {
      var (_, total) := ReadPage(v, All(sub, subEnd), 1);
      if total <= WINDOW_ROWS {
        return;
      }
      if subEnd <= sub {
        return;
      }
      subEnd := sub + (subEnd - sub) / 2;
    }
  }

  /** An organisation with logs in the hour whose logged and settled amounts differ. */
  ghost predicate Differs(v: View, since: int, until: int, dir: Directory, settled: map<int, int>, org: int) {
    && HasLogs(dir, Select(v, All(since, until)), org)
    && LogSum(dir, Select(v, All(since, until)), org) != Get(settled, org)
  }

  lemma {:induction false} AlertIsRight(v: View, since: int, until: int, dir: Directory, settled: map<int, int>, m: map<int, int>, org: int)
    requires NoBusySecond(v, since, until) && Sums(m, dir, TiledRead(v, since, until))
    ensures (org in m && m[org] != Get(settled, org)) <==> Differs(v, since, until, dir, settled, org)
  {
    var read, plain := TiledRead(v, since, until), Select(v, All(since, until));
    ScanIsPlainSum(dir, v, since, until, org);
    TilesExactly(v, since, until);
    assert Get(m, org) == LogSum(dir, read, org);
    forall e ensures e in read <==> e in plain {
      assert e in multiset(read) <==> e in multiset(plain);
    }
  }

  lemma {:induction false} TiledStep(v: View, done: seq<LogEntry>, read: seq<LogEntry>, rest: seq<LogEntry>, all: seq<LogEntry>)
    requires all == done + (read + rest)
    ensures all == (done + read) + rest
    ensures forall e | e in read :: e in all
  {
    forall e | e in read ensures e in all {
      assert e in read + rest;
    }
  }

  /** Walk the sub-windows and sum the logs of each per organisation. */
  method SumLogs(v: View, since: int, until: int, dir: Directory) returns (ok: bool, logByOrg: map<int, int>)
    ensures ok == forall e | e in TiledRead(v, since, until) :: Readable(dir, e)
    ensures ok ==> Sums(logByOrg, dir, TiledRead(v, since, until))
  {
    logByOrg := map[];
    ghost var all, done := TiledRead(v, since, until), [];
    var sub := since;
    while sub <= until
      invariant Sums(logByOrg, dir, done)
      invariant all == done + TiledRead(v, sub, until)
      invariant forall e | e in done :: Readable(dir, e)
      decreases until - sub
    {
      var subEnd := BisectTo(v, sub, until);
      var read := ReadPages(v, All(sub, subEnd), MAX_PAGES);
      TiledStep(v, done, read, TiledRead(v, subEnd + 1, until), all);
      ok, logByOrg := IngestAll(logByOrg, dir, read, done);
      if !ok {
        return;
      }
      done := done + read;
      sub := subEnd + 1;
    }
    assert done == all;
    ok := true;
  }

  /** Sum the hour's logs per organisation and report those that differ from the settled amounts. */
  method ReconcileBilling(v: View, since: int, until: int, dir: Directory, settled: map<int, int>)
    returns (ok: bool, alerts: set<int>)
    ensures ok == forall e | e in TiledRead(v, since, until) ::
                    e.quota > 0 && e.tokenID in dir.tokens && dir.tokens[e.tokenID].memberID != 0
                    ==> dir.tokens[e.tokenID].orgID in dir.billing
    ensures ok && NoBusySecond(v, since, until) ==>
              forall org :: org in alerts <==> Differs(v, since, until, dir, settled, org)
  {
    var logByOrg: map<int, int>;
    ok, logByOrg := SumLogs(v, since, until, dir);
    if !ok {
      return false, {};
    }
    alerts := set org | org in logByOrg && logByOrg[org] - Get(settled, org) != 0;
    if NoBusySecond(v, since, until) {
      forall org ensures org in alerts <==> Differs(v, since, until, dir, settled, org) {
        AlertIsRight(v, since, until, dir, settled, logByOrg, org);
      }
    }
  }
}
