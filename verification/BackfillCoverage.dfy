/** A finished backfill has covered its whole history: its windows descend from the boundary
    without a gap, and each left nothing of what it was shown. */
module BackfillCoverage {
  import opened Prelude
  import opened UsageLogs
  import opened UsageTables
  import opened SettlementPlan
  import opened BackfillPlan
  import opened Ingestion
  import opened IngestionGuarantees

  function WindowQuery(w: WindowRecord, user: string): Query { Query(w.lo, w.hi, Some(user)) }

  /** Unless more rows were shown than a window reads, every kept log of a linked organisation
      that was shown has its detail row. */
  ghost predicate WindowSettled(w: WindowRecord, job: Job, ids: set<int>) {
    |Select(w.view, WindowQuery(w, job.username))| <= 2000 ==>
      forall e | e in Select(w.view, WindowQuery(w, job.username)) && InHistory(e, job) && Linked(w.dir, e) ::
        e.id in ids
  }

  /** Windows run down from the boundary, each starting right below the one before. */
  ghost predicate Chain(ws: seq<WindowRecord>, job: Job, next: int) {
    && (forall i | 0 <= i < |ws| ::
          && 0 <= ws[i].lo <= ws[i].hi && 0 < ws[i].hi
          && ws[i].lo == LowerBound(ws[i].view, job.username, ws[i].hi)
          && ws[i].hi == if i == 0 then job.boundaryTS else ws[i - 1].lo - 1)
    && next == if |ws| == 0 then job.boundaryTS else ws[|ws| - 1].lo - 1
  }

  ghost predicate JobOk(job: Job, ws: seq<WindowRecord>, ids: set<int>) {
    && Chain(ws, job, job.cursorTS)
    && (forall i | 0 <= i < |ws| :: WindowSettled(ws[i], job, ids))
    && (job.status == Pending ==> job.cursorTS == job.boundaryTS)
    && (job.status == Done ==> job.cursorTS <= 0)
  }

  ghost predicate WorkerOk(s: Sys) {
    var w := s.worker;
    w.Idle? ||
    (w.org in s.db.jobs &&
     match w
     case Taken(org, job) => s.db.jobs[org] == job && job.status != Done
     case Slicing(org, job, hi) => s.db.jobs[org] == job.(status := Running, cursorTS := hi)
     case HasRead(org, job, hi, lo, view) =>
       s.db.jobs[org] == job.(status := Running, cursorTS := hi) && 0 < hi && lo == LowerBound(view, job.username, hi)
     case Written(org, job, win) =>
       && s.db.jobs[org] == job.(status := Running, cursorTS := win.hi)
       && 0 < win.hi && win.lo == LowerBound(win.view, job.username, win.hi)
       && WindowSettled(win, job, LogIDs(s.db.detail)))
  }

  ghost predicate BackfillOk(s: Sys) {
    && s.windows.Keys == s.db.jobs.Keys
    && (forall o | o in s.db.jobs :: JobOk(s.db.jobs[o], s.windows[o], LogIDs(s.db.detail)))
    && WorkerOk(s)
  }

  lemma {:induction false} JobOkMore(job: Job, ws: seq<WindowRecord>, ids: set<int>, more: set<int>)
    requires JobOk(job, ws, ids) && ids <= more
    ensures JobOk(job, ws, more)
  {
    forall i | 0 <= i < |ws| ensures WindowSettled(ws[i], job, more) {
      assert WindowSettled(ws[i], job, ids);
    }
  }

  /** Status and progress are not part of what a window owes. */
  lemma {:induction false} SameDuty(w: WindowRecord, job: Job, job': Job, ids: set<int>)
    requires WindowSettled(w, job, ids)
    requires job' == job.(status := job'.status, cursorTS := job'.cursorTS)
    ensures WindowSettled(w, job', ids)
  {
    assert forall e :: InHistory(e, job') <==> InHistory(e, job);
  }

  lemma {:induction false} SameDuties(ws: seq<WindowRecord>, job: Job, job': Job, ids: set<int>)
    requires JobOk(job, ws, ids)
    requires job' == job.(status := job'.status, cursorTS := job'.cursorTS)
    ensures Chain(ws, job', job.cursorTS) && forall i | 0 <= i < |ws| :: WindowSettled(ws[i], job', ids)
  {
    forall i | 0 <= i < |ws| ensures WindowSettled(ws[i], job', ids) {
      SameDuty(ws[i], job, job', ids);
    }
  }

  /** After the write, every kept log of a linked organisation that was read is in the table. */
  lemma {:induction false} WriteSettles(db: Db, view: View, job: Job, lo: int, hi: int, dir: Directory)
    ensures var keep := Keep(WindowRead(view, job.username, lo, hi), job);
            var ids := LogIDs(if keep == [] then db.detail else WriteWindow(db, keep, dir).detail);
            WindowSettled(WindowRecord(lo, hi, view, dir), job, ids)
  {
    var w := WindowRecord(lo, hi, view, dir);
    var shown := Select(view, WindowQuery(w, job.username));
    if |shown| <= 2000 {
      var keep := Keep(shown, job);
      KeepPicks(shown, job);
      if keep != [] {
        var es := Unsettled(keep, LogIDs(db.detail));
        UnsettledPicks(keep, LogIDs(db.detail));
        RowsMembership(dir, es);
        InsertIgnoreHas(db.detail, Rows(dir, es));
        forall e | e in shown && InHistory(e, job) && Linked(dir, e)
          ensures e.id in LogIDs(WriteWindow(db, keep, dir).detail)
        {
          if e.id !in LogIDs(db.detail) {
            assert RowOf(Attribute(dir, e).value, e) in Rows(dir, es);
          }
        }
      }
    }
  }

  // ----- steps -----

  /** Nothing changes but the entry of one organisation, and perhaps the worker. */
  ghost predicate OnlyJob(s: Sys, s': Sys, org: int) {
    && s'.db.detail == s.db.detail
    && s'.db.jobs.Keys == s.db.jobs.Keys + {org} && s'.windows.Keys == s.windows.Keys + {org}
    && (forall o | o in s.db.jobs && o != org :: s'.db.jobs[o] == s.db.jobs[o])
    && (forall o | o in s.windows && o != org :: s'.windows[o] == s.windows[o])
  }

  lemma {:induction false} OneJobChanged(s: Sys, s': Sys, org: int)
    requires BackfillOk(s) && OnlyJob(s, s', org) && WorkerOk(s')
    requires JobOk(s'.db.jobs[org], s'.windows[org], LogIDs(s'.db.detail))
    ensures BackfillOk(s')
  {
    forall o | o in s'.db.jobs ensures JobOk(s'.db.jobs[o], s'.windows[o], LogIDs(s'.db.detail)) {
      if o != org {
        assert JobOk(s.db.jobs[o], s.windows[o], LogIDs(s.db.detail));
      }
    }
  }

  lemma {:induction false} MoreDetail(s: Sys, s': Sys)
    requires BackfillOk(s) && s'.db.jobs == s.db.jobs && s'.windows == s.windows && WorkerOk(s')
    requires LogIDs(s.db.detail) <= LogIDs(s'.db.detail)
    ensures BackfillOk(s')
  {
    forall o | o in s'.db.jobs ensures JobOk(s'.db.jobs[o], s'.windows[o], LogIDs(s'.db.detail)) {
      JobOkMore(s.db.jobs[o], s.windows[o], LogIDs(s.db.detail), LogIDs(s'.db.detail));
    }
  }

  lemma {:induction false} SettledMore(w: WindowRecord, job: Job, ids: set<int>, more: set<int>)
    requires WindowSettled(w, job, ids) && ids <= more
    ensures WindowSettled(w, job, more)
  {
  }

  lemma {:induction false} WorkerMore(s: Sys, s': Sys)
    requires WorkerOk(s) && s'.worker == s.worker && s'.db.jobs == s.db.jobs
    requires LogIDs(s.db.detail) <= LogIDs(s'.db.detail)
    ensures WorkerOk(s')
  {
    if s.worker.Written? {
      SettledMore(s.worker.win, s.worker.job, LogIDs(s.db.detail), LogIDs(s'.db.detail));
    }
  }

  lemma {:induction false} TablesStepMovesNoJob(s: Sys, a: Action)
    requires a.Scan? || a.Commit? || a.Abort? || a.ReadCursor? || a.Recharge? || a.Refund?
    ensures var s' := Apply(s, a);
            s'.db.jobs == s.db.jobs && s'.windows == s.windows && s'.worker == s.worker
  {
  }

  lemma {:induction false} TablesStepKeepsBackfill(s: Sys, a: Action)
    requires BackfillOk(s)
    requires a.Scan? || a.Commit? || a.Abort? || a.ReadCursor? || a.Recharge? || a.Refund?
    ensures BackfillOk(Apply(s, a))
  {
    DetailGrows(s, a);
    TablesStepMovesNoJob(s, a);
    WorkerMore(s, Apply(s, a));
    MoreDetail(s, Apply(s, a));
  }

  lemma {:induction false} WriteDoes(s: Sys, dir: Directory)
    requires s.worker.HasRead?
    ensures var w, s' := s.worker, Apply(s, Write(dir));
            var keep := Keep(WindowRead(w.view, w.job.username, w.lo, w.hi), w.job);
            && s'.db.jobs == s.db.jobs && s'.windows == s.windows
            && (s'.worker == s.worker
                || (s'.worker == Written(w.org, w.job, WindowRecord(w.lo, w.hi, w.view, dir))
                    && s'.db.detail == if keep == [] then s.db.detail else WriteWindow(s.db, keep, dir).detail))
  {
  }

  lemma {:induction false} WriteKeepsBackfill(s: Sys, dir: Directory)
    requires BackfillOk(s)
    ensures BackfillOk(Apply(s, Write(dir)))
  {
    if s.worker.HasRead? {
      var s', w := Apply(s, Write(dir)), s.worker;
      DetailGrows(s, Write(dir));
      WriteDoes(s, dir);
      WriteSettles(s.db, w.view, w.job, w.lo, w.hi, dir);
      assert WorkerOk(s');
      MoreDetail(s, s');
    }
  }

  lemma {:induction false} ChainGrows(ws: seq<WindowRecord>, job: Job, win: WindowRecord)
    requires Chain(ws, job, win.hi) && 0 < win.hi && win.lo == LowerBound(win.view, job.username, win.hi)
    ensures Chain(ws + [win], job, win.lo - 1)
  {
    var after := ws + [win];
    forall i | 0 <= i < |after|
      ensures 0 <= after[i].lo <= after[i].hi && 0 < after[i].hi
      ensures after[i].lo == LowerBound(after[i].view, job.username, after[i].hi)
      ensures after[i].hi == if i == 0 then job.boundaryTS else after[i - 1].lo - 1
    {
      assert i < |ws| ==> after[i] == ws[i] && (i > 0 ==> after[i - 1] == ws[i - 1]);
    }
  }

  lemma {:induction false} ProgressIsOk(job: Job, ws: seq<WindowRecord>, win: WindowRecord, job': Job, ids: set<int>)
    requires JobOk(job, ws, ids) && WindowSettled(win, job, ids)
    requires job.status == Running && job.cursorTS == win.hi > 0 && win.lo == LowerBound(win.view, job.username, win.hi)
    requires job' == job.(cursorTS := win.lo - 1)
    ensures JobOk(job', ws + [win], ids)
  {
    SameDuties(ws, job, job', ids);
    SameDuty(win, job, job', ids);
    ChainGrows(ws, job', win);
  }

  lemma {:induction false} ProgressMovesWorker(s: Sys)
    requires WorkerOk(s) && s.windows.Keys == s.db.jobs.Keys && s.worker.Written?
    ensures WorkerOk(Apply(s, RecordProgress)) && s.worker.org in s.db.jobs && s.worker.org in s.windows
  {
  }

  lemma {:induction false} ProgressDoes(s: Sys)
    requires s.worker.Written? && s.worker.org in s.db.jobs && s.worker.org in s.windows
    ensures var org, win, s' := s.worker.org, s.worker.win, Apply(s, RecordProgress);
            && OnlyJob(s, s', org)
            && s'.db.jobs[org] == s.db.jobs[org].(cursorTS := win.lo - 1)
            && s'.windows[org] == s.windows[org] + [win]
  {
  }

  lemma {:induction false} ProgressKeepsBackfill(s: Sys)
    requires BackfillOk(s)
    ensures BackfillOk(Apply(s, RecordProgress))
  {
    if s.worker.Written? {
      var org, job, win := s.worker.org, s.worker.job, s.worker.win;
      var s', ids := Apply(s, RecordProgress), LogIDs(s.db.detail);
      ProgressMovesWorker(s);
      ProgressDoes(s);
      SameDuty(win, job, s.db.jobs[org], ids);
      assert JobOk(s.db.jobs[org], s.windows[org], ids);
      ProgressIsOk(s.db.jobs[org], s.windows[org], win, s'.db.jobs[org], ids);
      OneJobChanged(s, s', org);
    }
  }

  /** Setting a status, with the worker moving on. */
  lemma {:induction false} StatusKeepsBackfill(s: Sys, s': Sys, org: int, status: Status)
    requires BackfillOk(s) && org in s.db.jobs
    requires s'.db == SetStatus(s.db, org, status) && s'.windows == s.windows
    requires status == Running || (status == Done && s.db.jobs[org].cursorTS <= 0)
    requires WorkerOk(s')
    ensures BackfillOk(s')
  {
    assert JobOk(s.db.jobs[org], s.windows[org], LogIDs(s.db.detail));
    SameDuties(s.windows[org], s.db.jobs[org], s'.db.jobs[org], LogIDs(s.db.detail));
    OneJobChanged(s, s', org);
  }

  lemma {:induction false} MarkKeepsBackfill(s: Sys)
    requires BackfillOk(s)
    ensures BackfillOk(Apply(s, MarkRunning))
  {
    if s.worker.Taken? {
      if s.worker.job.status == Pending {
        StatusKeepsBackfill(s, Apply(s, MarkRunning), s.worker.org, Running);
      } else {
        MoreDetail(s, Apply(s, MarkRunning));
      }
    }
  }

  lemma {:induction false} EndKeepsBackfill(s: Sys)
    requires BackfillOk(s)
    ensures BackfillOk(Apply(s, EndSlice))
  {
    if s.worker.Slicing? && s.worker.hi <= 0 {
      StatusKeepsBackfill(s, Apply(s, EndSlice), s.worker.org, Done);
    } else {
      MoreDetail(s, Apply(s, EndSlice));
    }
  }

  /** A job with nothing recorded yet stands at its boundary. */
  lemma {:induction false} FreshJobOk(job: Job, ids: set<int>)
    requires job.status == Pending && job.cursorTS == job.boundaryTS
    ensures JobOk(job, [], ids)
  {
  }

  lemma {:induction false} AddJobDoes(s: Sys, org: int, userID: int, username: string)
    requires BackfillOk(s) && org in s.enqueues && org !in s.db.jobs
    ensures var s' := Apply(s, AddJob(org, userID, username));
            && OnlyJob(s, s', org) && WorkerOk(s') && s'.windows[org] == []
            && s'.db.jobs[org].status == Pending && s'.db.jobs[org].cursorTS == s'.db.jobs[org].boundaryTS
  {
  }

  lemma {:induction false} AddJobKeepsBackfill(s: Sys, org: int, userID: int, username: string)
    requires BackfillOk(s)
    ensures BackfillOk(Apply(s, AddJob(org, userID, username)))
  {
    var s' := Apply(s, AddJob(org, userID, username));
    if org in s.enqueues && org !in s.db.jobs {
      AddJobDoes(s, org, userID, username);
      FreshJobOk(s'.db.jobs[org], LogIDs(s.db.detail));
      OneJobChanged(s, s', org);
    } else {
      MoreDetail(s, s');
    }
  }

  lemma {:induction false} RequeueKeepsBackfill(s: Sys, org: int)
    requires BackfillOk(s)
    ensures BackfillOk(Apply(s, RequeueJob(org)))
  {
    var s' := Apply(s, RequeueJob(org));
    if s' != s {
      FreshJobOk(s'.db.jobs[org], LogIDs(s.db.detail));
      OneJobChanged(s, s', org);
    }
  }

  lemma {:induction false} StepKeepsBackfill(s: Sys, a: Action)
    requires BackfillOk(s)
    ensures BackfillOk(Apply(s, a))
  {
    match a {
      case Write(dir) => WriteKeepsBackfill(s, dir);
      case RecordProgress => ProgressKeepsBackfill(s);
      case MarkRunning => MarkKeepsBackfill(s);
      case EndSlice => EndKeepsBackfill(s);
      case AddJob(org, userID, username) => AddJobKeepsBackfill(s, org, userID, username);
      case RequeueJob(org) => RequeueKeepsBackfill(s, org);
      case TakeJob(_) =>
      case ReadWindow(_) =>
      case Crash =>
      case _ => TablesStepKeepsBackfill(s, a);
    }
  }

  lemma {:induction false} RunKeepsBackfill(actions: seq<Action>)
    ensures BackfillOk(Exec(Init(), actions))
  {
    if |actions| > 0 {
      RunKeepsBackfill(actions[..|actions| - 1]);
      StepKeepsBackfill(Exec(Init(), actions[..|actions| - 1]), actions[|actions| - 1]);
    }
  }

  // ----- what a job's state says about its history -----

  /** A pending job stands at its boundary, a finished one at or below zero, and the recorded
      windows lead from the boundary to where the job stands. */
  lemma {:induction false} JobStatesMean(actions: seq<Action>, org: int)
    requires org in Exec(Init(), actions).db.jobs
    ensures var s := Exec(Init(), actions);
            var job := s.db.jobs[org];
            && (job.status == Pending ==> job.cursorTS == job.boundaryTS)
            && (job.status == Done ==> job.cursorTS <= 0)
            && org in s.windows && Chain(s.windows[org], job, job.cursorTS)
  {
    RunKeepsBackfill(actions);
    var s := Exec(Init(), actions);
    assert JobOk(s.db.jobs[org], s.windows[org], LogIDs(s.db.detail));
  }

  /** Windows descend strictly, so no second is in two of them. */
  lemma {:induction false} WindowsDescend(ws: seq<WindowRecord>, job: Job, next: int, i: nat, j: nat)
    requires Chain(ws, job, next) && i < j < |ws|
    ensures ws[j].hi < ws[i].lo
  {
    if j > i + 1 {
      WindowsDescend(ws, job, next, i, j - 1);
    }
    assert ws[j].hi == ws[j - 1].lo - 1;
  }

  /** Every second from 1 up to the boundary lies in one window of a finished job. */
  lemma {:induction false} WindowOf(ws: seq<WindowRecord>, job: Job, next: int, ts: int) returns (i: nat)
    requires Chain(ws, job, next) && next < ts <= job.boundaryTS
    ensures i < |ws| && ws[i].lo <= ts <= ws[i].hi
  {
    i := |ws| - 1;
    while ts > ws[i].hi
      invariant 0 <= i < |ws| && ws[i].lo <= ts
      decreases i
    {
      assert ws[i].hi == if i == 0 then job.boundaryTS else ws[i - 1].lo - 1;
      i := i - 1;
    }
  }

  function PairTotal(v: View, user: string, second: int): nat { |Select(v, Query(second, second + 1, Some(user)))| }

  /** No two adjacent seconds of a user hold more rows than one window reads. */
  ghost predicate NoBusyPair(v: View, user: string) {
    forall second :: PairTotal(v, user, second) <= 2000
  }

  /** The log was shown in full, and attributable, to whichever window holds its second. */
  ghost predicate ShownToItsWindow(ws: seq<WindowRecord>, e: LogEntry) {
    forall i | 0 <= i < |ws| && ws[i].lo <= e.createdAt <= ws[i].hi ::
      e in ws[i].view && NoBusyPair(ws[i].view, e.username) && Linked(ws[i].dir, e)
  }

  lemma {:induction false} CoveredByWindows(ws: seq<WindowRecord>, job: Job, ids: set<int>, e: LogEntry)
    requires JobOk(job, ws, ids) && job.cursorTS < e.createdAt <= job.boundaryTS
    requires e.username == job.username && InHistory(e, job) && ShownToItsWindow(ws, e)
    ensures e.id in ids
  {
    var i := WindowOf(ws, job, job.cursorTS, e.createdAt);
    var w := ws[i];
    assert WindowSettled(w, job, ids);
    WindowFits(w.view, job.username, w.hi);
    assert NoBusyPair(w.view, e.username);
    assert PairTotal(w.view, job.username, w.hi - 1) <= 2000;
    assert e in Select(w.view, WindowQuery(w, job.username));
  }

  /** A finished backfill: a backfill-side positive log of the user, from second 1 on, that was shown
      when its window was read and belonged to a linked organisation when it was written, has its
      detail row. */
  lemma {:induction false} DoneMeansCovered(actions: seq<Action>, org: int, e: LogEntry)
    requires var s := Exec(Init(), actions);
             && org in s.db.jobs && s.db.jobs[org].status == Done && org in s.windows
             && e.username == s.db.jobs[org].username && InHistory(e, s.db.jobs[org]) && e.createdAt >= 1
             && ShownToItsWindow(s.windows[org], e)
    ensures e.id in LogIDs(Exec(Init(), actions).db.detail)
  {
    RunKeepsBackfill(actions);
    var s := Exec(Init(), actions);
    CoveredByWindows(s.windows[org], s.db.jobs[org], LogIDs(s.db.detail), e);
  }
}
