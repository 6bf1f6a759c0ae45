/** What runs of the ingestion machine guarantee beyond the core invariant: nothing visible is
    missed, and each log is charged at most once. */
module IngestionGuarantees {
  import opened Prelude
  import opened UsageLogs
  import opened UsageTables
  import opened SettlementPlan
  import opened BackfillPlan
  import opened Ingestion

  // ----- the detail table only grows -----

  lemma {:induction false} DetailGrows(s: Sys, a: Action)
    ensures LogIDs(s.db.detail) <= LogIDs(Apply(s, a).db.detail)
  {
    match a {
      case Commit(pid) =>
        if pid in s.passes && s.passes[pid].Window? {
          InsertIgnoreHas(s.db.detail, s.passes[pid].rows);
        }
      case Write(dir) =>
        if s.worker.HasRead? {
          var w := s.worker;
          var keep := Keep(WindowRead(w.view, w.job.username, w.lo, w.hi), w.job);
          InsertIgnoreHas(s.db.detail, BackfillRows(s.db, keep, dir));
        }
      case _ => QuietOrScanKeepsDetail(s, a);
    }
  }

  lemma {:induction false} QuietOrScanKeepsDetail(s: Sys, a: Action)
    requires !a.Commit? && !a.Write?
    ensures Apply(s, a).db.detail == s.db.detail
  {
    if !a.Scan? {
      QuietKeepsTables(s, a);
    }
  }

  // ----- nothing visible is missed -----

  /** The 600 seconds before a start. */
  function Overlap(since: int): Query { Query(Max(0, since - 600), since - 1, None) }

  /** A pass settles every positive log of a linked organisation that its rescan range shows,
      as long as that range holds no more rows than the rescan reads. */
  ghost predicate LateSettled(since: int, env: PassEnv, ids: set<int>) {
    |Select(env.late, Overlap(since))| <= 500 ==>
      forall e | e in Select(env.late, Overlap(since)) && e.quota > 0 && Linked(env.dir, e) :: e.id in ids
  }

  ghost predicate PlansCover(s: Sys) {
    forall pid | pid in s.passes && s.passes[pid].Window? ::
      LateSettled(s.passes[pid].since, s.passes[pid].env, LogIDs(s.db.detail) + LogIDs(s.passes[pid].rows))
  }

  /** Committed passes follow one another without a gap, up to the cursor. */
  ghost predicate HistoryOk(s: Sys) {
    && (forall i | 0 <= i < |s.committed| - 1 :: s.committed[i].until == s.committed[i + 1].since)
    && (forall i | 0 <= i < |s.committed| ::
          && 0 < s.committed[i].since < s.committed[i].until
          && LateSettled(s.committed[i].since, s.committed[i].env, LogIDs(s.db.detail)))
    && (|s.committed| > 0 ==> s.committed[|s.committed| - 1].until == s.db.cursor.ts)
  }

  lemma {:induction false} ScanCovers(db: Db, env: PassEnv)
    requires PlanPass(db, env).Some? && PlanPass(db, env).value.Window?
    ensures var p := PlanPass(db, env).value; LateSettled(p.since, env, LogIDs(db.detail) + LogIDs(p.rows))
  {
    var p := PlanPass(db, env).value;
    var w := Select(env.late, Overlap(p.since));
    if |w| <= 500 {
      FreshLatePicks(w, LogIDs(db.detail));
      var picked := Fresh(db, env, p.until);
      RowsMembership(env.dir, picked);
      forall e | e in w && e.quota > 0 && Linked(env.dir, e)
        ensures e.id in LogIDs(db.detail) + LogIDs(p.rows)
      {
        if e.id !in LogIDs(db.detail) {
          assert e in picked;
          assert RowOf(Attribute(env.dir, e).value, e) in p.rows;
        }
      }
    }
  }

  lemma {:induction false} LateSettledMore(since: int, env: PassEnv, ids: set<int>, more: set<int>)
    requires LateSettled(since, env, ids) && ids <= more
    ensures LateSettled(since, env, more)
  {
  }

  lemma {:induction false} PlansComeFromScans(s: Sys, a: Action, pid: int)
    requires pid in Apply(s, a).passes
    ensures var p := Apply(s, a).passes[pid];
            (pid in s.passes && s.passes[pid] == p) || (a.Scan? && PlanPass(s.db, a.env) == Some(p))
  {
  }

  lemma {:induction false} StepKeepsPlansCover(s: Sys, a: Action)
    requires PlansCover(s)
    ensures PlansCover(Apply(s, a))
  {
    var s' := Apply(s, a);
    DetailGrows(s, a);
    forall pid | pid in s'.passes && s'.passes[pid].Window?
      ensures LateSettled(s'.passes[pid].since, s'.passes[pid].env, LogIDs(s'.db.detail) + LogIDs(s'.passes[pid].rows))
    {
      var p := s'.passes[pid];
      PlansComeFromScans(s, a, pid);
      if pid in s.passes && s.passes[pid] == p {
        LateSettledMore(p.since, p.env, LogIDs(s.db.detail) + LogIDs(p.rows), LogIDs(s'.db.detail) + LogIDs(p.rows));
      } else {
        ScanCovers(s.db, a.env);
      }
    }
  }

  lemma {:induction false} OnlyCommitsMoveTheCursor(s: Sys, a: Action)
    requires !a.Commit?
    ensures Apply(s, a).db.cursor == s.db.cursor && Apply(s, a).committed == s.committed
  {
    if Quiet(a) {
      QuietKeepsTables(s, a);
    }
  }

  /** The committed passes of a state stay settled while the detail table grows. */
  lemma {:induction false} HistoryKept(s: Sys, ids: set<int>)
    requires HistoryOk(s) && LogIDs(s.db.detail) <= ids
    ensures forall i | 0 <= i < |s.committed| :: LateSettled(s.committed[i].since, s.committed[i].env, ids)
  {
    forall i | 0 <= i < |s.committed| ensures LateSettled(s.committed[i].since, s.committed[i].env, ids) {
      LateSettledMore(s.committed[i].since, s.committed[i].env, LogIDs(s.db.detail), ids);
    }
  }

  lemma {:induction false} BatchPosted(s: Sys, p: Plan, world: map<int, LogEntry>)
    requires PlanOk(p, s, world) && p.Window? && p.version == s.db.cursor.version
    ensures LogIDs(DoCommit(s, p).db.detail) == LogIDs(s.db.detail) + LogIDs(p.rows)
  {
    NothingIgnored(s.db.detail, p.rows);
    assert LogIDs(s.db.detail + p.rows) == LogIDs(s.db.detail) + LogIDs(p.rows);
  }

  lemma {:induction false} CommitKeepsHistory(s: Sys, p: Plan, world: map<int, LogEntry>)
    requires HistoryOk(s) && PlanOk(p, s, world) && s.db.cursor.ts >= 0
    requires p.Window? ==> LateSettled(p.since, p.env, LogIDs(s.db.detail) + LogIDs(p.rows))
    ensures HistoryOk(DoCommit(s, p))
  {
    assert |s.committed| > 0 ==> 0 < s.committed[|s.committed| - 1].until;
    if p.version == s.db.cursor.version && p.Window? {
      BatchPosted(s, p, world);
      HistoryKept(s, LogIDs(DoCommit(s, p).db.detail));
    }
  }

  lemma {:induction false} OthersKeepHistory(s: Sys, s': Sys)
    requires HistoryOk(s) && LogIDs(s.db.detail) <= LogIDs(s'.db.detail)
    requires s'.db.cursor == s.db.cursor && s'.committed == s.committed
    ensures HistoryOk(s')
  {
    HistoryKept(s, LogIDs(s'.db.detail));
  }

  lemma {:induction false} StepKeepsHistory(s: Sys, a: Action, world: map<int, LogEntry>)
    requires Core(s, world) && PlansCover(s) && HistoryOk(s)
    ensures HistoryOk(Apply(s, a))
  {
    if a.Commit? {
      if a.pid in s.passes {
        var p := s.passes[a.pid];
        assert PlanOk(p, s, world);
        CommitKeepsHistory(s.(passes := s.passes - {a.pid}), p, world);
      }
    } else {
      DetailGrows(s, a);
      OnlyCommitsMoveTheCursor(s, a);
      OthersKeepHistory(s, Apply(s, a));
    }
  }

  lemma {:induction false} RunKeepsHistory(actions: seq<Action>, world: map<int, LogEntry>)
    requires RunFrom(actions, world)
    ensures PlansCover(Exec(Init(), actions)) && HistoryOk(Exec(Init(), actions))
  {
    if |actions| > 0 {
      var front, a := actions[..|actions| - 1], actions[|actions| - 1];
      RunKeepsCore(front, world);
      RunKeepsHistory(front, world);
      StepKeepsPlansCover(Exec(Init(), front), a);
      StepKeepsHistory(Exec(Init(), front), a, world);
    }
  }

  /** The first committed pass that starts after a log. */
  ghost predicate FirstPassAfter(s: Sys, k: int, ts: int) {
    && 0 < k < |s.committed|
    && s.committed[k - 1].since <= ts < s.committed[k].since
  }

  /** Some committed pass starts after every log between the baseline and the last start. */
  lemma {:induction false} FirstPassExists(committed: seq<Committed>, ts: int) returns (k: int)
    requires |committed| > 0 && committed[0].since <= ts < committed[|committed| - 1].since
    ensures 0 < k < |committed| && committed[k - 1].since <= ts < committed[k].since
  {
    k := |committed| - 1;
    while committed[k - 1].since > ts
      invariant 0 < k < |committed| && ts < committed[k].since
      decreases k
    {
      k := k - 1;
    }
  }

  /** A positive log of a linked organisation, not older than the baseline and visible to the first
      pass that starts after it, has its detail row, provided the pass before moved the cursor by at
      most the overlap and the rescan range fitted the rescan. */
  lemma {:induction false} AtLeastOnce(actions: seq<Action>, world: map<int, LogEntry>, k: int, e: LogEntry)
    requires RunFrom(actions, world)
    requires var s := Exec(Init(), actions);
             && FirstPassAfter(s, k, e.createdAt)
             && s.committed[k - 1].until - s.committed[k - 1].since <= 600
             && |Select(s.committed[k].env.late, Overlap(s.committed[k].since))| <= 500
             && e in s.committed[k].env.late && e.quota > 0 && Linked(s.committed[k].env.dir, e)
    ensures e.id in LogIDs(Exec(Init(), actions).db.detail)
  {
    RunKeepsHistory(actions, world);
    var s := Exec(Init(), actions);
    assert s.committed[k - 1].until == s.committed[k].since;
    assert e in Select(s.committed[k].env.late, Overlap(s.committed[k].since));
  }

  // ----- each log is charged at most once, and only by forward passes -----

  /** What one committed pass took from an organisation's balance. */
  function TakenBy(c: Committed, org: int): int {
    if !c.env.observe && org in c.env.dir.billing && c.env.dir.billing[org] && org in c.payers
    then OrgSum(c.rows, org) else 0
  }

  function TotalTaken(cs: seq<Committed>, org: int): int {
    if |cs| == 0 then 0 else TotalTaken(cs[..|cs| - 1], org) + TakenBy(cs[|cs| - 1], org)
  }

  ghost predicate MoneyOk(s: Sys) {
    && (forall o | o in s.db.balances ::
          s.db.balances[o].Conserved() && s.db.balances[o].consumed == TotalTaken(s.committed, o))
    && (forall o | o !in s.db.balances :: TotalTaken(s.committed, o) == 0)
  }

  lemma {:induction false} OrgSumNonNegative(rows: seq<DetailRow>, org: int)
    requires forall r | r in rows :: r.quota > 0
    ensures OrgSum(rows, org) >= 0
  {
    if |rows| > 0 {
      assert rows == rows[..|rows| - 1] + [rows[|rows| - 1]];
      OrgSumNonNegative(rows[..|rows| - 1], org);
    }
  }

  lemma {:induction false} CommitKeepsMoney(s: Sys, p: Plan, world: map<int, LogEntry>)
    requires MoneyOk(s) && PlanOk(p, s, world)
    ensures MoneyOk(DoCommit(s, p))
  {
    if p.Window? && p.version == s.db.cursor.version {
      var s' := DoCommit(s, p);
      assert s'.committed[..|s.committed|] == s.committed;
      forall o ensures TotalTaken(s'.committed, o) == TotalTaken(s.committed, o) + TakenBy(s'.committed[|s.committed|], o) {
      }
      forall o | o in s.db.balances
        ensures s'.db.balances[o].Conserved() && s'.db.balances[o].consumed == TotalTaken(s'.committed, o)
      {
        OrgSumNonNegative(p.rows, o);
      }
    }
  }

  lemma {:induction false} PaymentKeepsMoney(s: Sys, a: Action)
    requires MoneyOk(s) && (a.Recharge? || a.Refund?)
    ensures MoneyOk(Apply(s, a))
  {
    assert Apply(s, a).committed == s.committed;
  }

  lemma {:induction false} WorkerMovesNoMoney(s: Sys, a: Action)
    requires WorkerStep(a)
    ensures Apply(s, a).db.balances == s.db.balances
  {
  }

  lemma {:induction false} OthersMoveNoMoney(s: Sys, a: Action)
    requires !a.Commit? && !PaymentStep(a)
    ensures Apply(s, a).db.balances == s.db.balances && Apply(s, a).committed == s.committed
  {
    OnlyCommitsMoveTheCursor(s, a);
    if WorkerStep(a) {
      WorkerMovesNoMoney(s, a);
    }
  }

  lemma {:induction false} StepKeepsMoney(s: Sys, a: Action, world: map<int, LogEntry>)
    requires Core(s, world) && MoneyOk(s)
    ensures MoneyOk(Apply(s, a))
  {
    if a.Commit? {
      if a.pid in s.passes {
        var s1 := s.(passes := s.passes - {a.pid});
        CommitKeepsMoney(s1, s.passes[a.pid], world);
      }
    } else if a.Recharge? || a.Refund? {
      PaymentKeepsMoney(s, a);
    } else {
      OthersMoveNoMoney(s, a);
    }
  }

  lemma {:induction false} RunKeepsMoney(actions: seq<Action>, world: map<int, LogEntry>)
    requires RunFrom(actions, world)
    ensures MoneyOk(Exec(Init(), actions))
  {
    if |actions| > 0 {
      var front := actions[..|actions| - 1];
      RunKeepsCore(front, world);
      RunKeepsMoney(front, world);
      StepKeepsMoney(Exec(Init(), front), actions[|actions| - 1], world);
    }
  }

  /** No two committed passes hold the same log, and their rows are in the detail table. */
  ghost predicate BatchesDisjoint(s: Sys) {
    && (forall i | 0 <= i < |s.committed| ::
          DistinctLogs(s.committed[i].rows) && LogIDs(s.committed[i].rows) <= LogIDs(s.db.detail))
    && (forall i, j | 0 <= i < j < |s.committed| :: LogIDs(s.committed[i].rows) !! LogIDs(s.committed[j].rows))
  }

  lemma {:induction false} CommitKeepsBatches(s: Sys, p: Plan, world: map<int, LogEntry>)
    requires BatchesDisjoint(s) && PlanOk(p, s, world)
    ensures BatchesDisjoint(DoCommit(s, p))
  {
    if p.version == s.db.cursor.version && p.Window? {
      BatchPosted(s, p, world);
      var s' := DoCommit(s, p);
      forall i, j | 0 <= i < j < |s'.committed|
        ensures LogIDs(s'.committed[i].rows) !! LogIDs(s'.committed[j].rows)
      {
        assert i < |s.committed| && LogIDs(s.committed[i].rows) <= LogIDs(s.db.detail);
      }
    }
  }

  lemma {:induction false} StepKeepsBatches(s: Sys, a: Action, world: map<int, LogEntry>)
    requires Core(s, world) && BatchesDisjoint(s)
    ensures BatchesDisjoint(Apply(s, a))
  {
    if a.Commit? {
      if a.pid in s.passes {
        var p := s.passes[a.pid];
        assert PlanOk(p, s, world);
        CommitKeepsBatches(s.(passes := s.passes - {a.pid}), p, world);
      }
    } else {
      DetailGrows(s, a);
      OnlyCommitsMoveTheCursor(s, a);
    }
  }

  lemma {:induction false} RunKeepsBatches(actions: seq<Action>, world: map<int, LogEntry>)
    requires RunFrom(actions, world)
    ensures BatchesDisjoint(Exec(Init(), actions))
  {
    if |actions| > 0 {
      var front := actions[..|actions| - 1];
      RunKeepsCore(front, world);
      RunKeepsBatches(front, world);
      StepKeepsBatches(Exec(Init(), front), actions[|actions| - 1], world);
    }
  }

  /** total_consumed is exactly the quota ingested by committed forward passes with observation off,
      billing on and a balance row present; no log is in two of them; the balance identity holds. */
  lemma {:induction false} ChargedOnceAndOnlyForward(actions: seq<Action>, world: map<int, LogEntry>, org: int)
    requires RunFrom(actions, world) && org in Exec(Init(), actions).db.balances
    ensures var s := Exec(Init(), actions);
            && s.db.balances[org].consumed == TotalTaken(s.committed, org)
            && s.db.balances[org].Conserved()
            && BatchesDisjoint(s)
  {
    RunKeepsMoney(actions, world);
    RunKeepsBatches(actions, world);
  }

  // ----- what was paid in and back -----

  /** What a run paid in for an organisation. */
  function PaidIn(actions: seq<Action>, org: int): int {
    if |actions| == 0 then 0
    else
      var front, a := actions[..|actions| - 1], actions[|actions| - 1];
      PaidIn(front, org) + if a.Recharge? && a.org == org then a.amount else 0
  }

  /** What it paid back: refunds the balance covered at their time. */
  function PaidBack(actions: seq<Action>, org: int): int {
    if |actions| == 0 then 0
    else
      var front, a := actions[..|actions| - 1], actions[|actions| - 1];
      var balances := Exec(Init(), front).db.balances;
      PaidBack(front, org)
      + if a.Refund? && a.org == org && org in balances && a.amount <= balances[org].balance then a.amount else 0
  }

  ghost predicate PaymentsKept(s: Sys, s': Sys, org: int, paidIn: int, paidBack: int) {
    && (org in s.db.balances ==> org in s'.db.balances)
    && (org in s'.db.balances ==>
          var b, b' := if org in s.db.balances then s.db.balances[org] else Balance(0, 0, 0, 0), s'.db.balances[org];
          b'.recharged == b.recharged + paidIn && b'.refunded == b.refunded + paidBack)
    && (org !in s'.db.balances ==> paidIn == 0 && paidBack == 0)
  }

  lemma {:induction false} CommitPays(s: Sys, p: Plan, org: int)
    ensures PaymentsKept(s, DoCommit(s, p), org, 0, 0)
  {
  }

  lemma {:induction false} StepPays(s: Sys, a: Action, org: int)
    ensures var refunded := a.Refund? && a.org == org && org in s.db.balances && a.amount <= s.db.balances[org].balance;
            PaymentsKept(s, Apply(s, a), org, if a.Recharge? && a.org == org then a.amount else 0,
                         if refunded then a.amount else 0)
  {
    if a.Commit? {
      if a.pid in s.passes {
        CommitPays(s.(passes := s.passes - {a.pid}), s.passes[a.pid], org);
      }
    } else if !PaymentStep(a) {
      OthersMoveNoMoney(s, a);
    }
  }

  /** Over every run a balance row has what was paid in and what was paid back, and no pass or backfill moves
      either. */
  lemma {:induction false} PaymentsAreBooked(actions: seq<Action>, org: int)
    ensures var balances := Exec(Init(), actions).db.balances;
            if org in balances
            then balances[org].recharged == PaidIn(actions, org) && balances[org].refunded == PaidBack(actions, org)
            else PaidIn(actions, org) == 0 && PaidBack(actions, org) == 0
  {
    if |actions| > 0 {
      var front := actions[..|actions| - 1];
      PaymentsAreBooked(front, org);
      StepPays(Exec(Init(), front), actions[|actions| - 1], org);
    }
  }
}
