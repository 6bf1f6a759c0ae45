/** History backfill of one organisation, walking down from a boundary that was the forward
    cursor when the job was created: the window it picks, what it keeps, what it writes. */
module BackfillPlan {
  import opened Prelude
  import opened UsageLogs
  import opened UsageTables
  import opened SettlementPlan

  function ByUser(user: string, since: int, until: int): Query { Query(since, until, Some(user)) }

  /** The backfill side of a boundary, in lexicographic order of time and id. */
  predicate BelongsToBackfill(createdAt: int, id: int, boundaryTS: int, boundaryLogID: int) {
    createdAt < boundaryTS || (createdAt == boundaryTS && id <= boundaryLogID)
  }

  /** Bisection towards `hi` until the window can be read in full, or is two seconds wide. */
  function LowerBoundFrom(v: View, user: string, lo: int, hi: int): (r: int)
    requires lo <= hi
    ensures lo <= r <= hi && (lo < hi ==> r < hi)
    ensures |Select(v, ByUser(user, r, hi))| <= WINDOW_ROWS || r >= hi - 1
    decreases hi - lo
  {
    if |Select(v, ByUser(user, lo, hi))| <= WINDOW_ROWS || lo >= hi - 1 then lo
    else LowerBoundFrom(v, user, hi - (hi - lo) / 2, hi)
  }

  function LowerBound(v: View, user: string, hi: int): int
    requires 0 <= hi
  {
    LowerBoundFrom(v, user, 0, hi)
  }

  /** The chosen window can be read in full exactly when its last two seconds can. */
  lemma {:induction false} WindowFits(v: View, user: string, hi: int)
    requires 0 < hi
    ensures |Select(v, ByUser(user, LowerBound(v, user, hi), hi))| <= WINDOW_ROWS
       <==> |Select(v, ByUser(user, hi - 1, hi))| <= WINDOW_ROWS
  {
    SelectNarrower(v, ByUser(user, hi - 1, hi), ByUser(user, LowerBound(v, user, hi), hi));
  }

  predicate UserOverflows(v: View, user: string, lo: int, hi: int) { |Select(v, Query(lo, hi, Some(user)))| > 2000 }

  /** A window reaches as far down as can be read whole; otherwise it is the near half of one that could
      not, unless nothing is left to halve. */
  lemma {:induction false} LowerBoundIsLowest(v: View, user: string, lo: int, hi: int)
    requires lo <= hi
    ensures var r := LowerBoundFrom(v, user, lo, hi);
            && (r == lo <==> !UserOverflows(v, user, lo, hi) || lo >= hi - 1)
            && (r != lo ==> exists w :: lo <= w < r && r == hi - (hi - w) / 2 && UserOverflows(v, user, w, hi))
    decreases hi - lo
  {
    if UserOverflows(v, user, lo, hi) && lo < hi - 1 {
      LowerBoundIsLowest(v, user, hi - (hi - lo) / 2, hi);
    }
  }

  /** A backfill starts at 0 whenever everything up to `hi` can be read whole. */
  lemma {:induction false} WindowReachesDown(v: View, user: string, hi: int)
    requires 0 < hi
    ensures var lo := LowerBound(v, user, hi);
            && 0 <= lo < hi
            && (lo == 0 <==> !UserOverflows(v, user, 0, hi) || hi == 1)
            && (lo != 0 ==> exists w :: 0 <= w < lo && lo == hi - (hi - w) / 2 && UserOverflows(v, user, w, hi))
  {
    LowerBoundIsLowest(v, user, 0, hi);
  }

  predicate Kept(e: LogEntry, job: Job) {
    && e.quota > 0 && e.userID == job.userID
    && BelongsToBackfill(e.createdAt, e.id, job.boundaryTS, job.boundaryLogID)
  }

  /** The entries of a window that are this job's to write. */
  function Keep(es: seq<LogEntry>, job: Job): seq<LogEntry> {
    if |es| == 0 then []
    else
      var front, last := Keep(es[..|es| - 1], job), es[|es| - 1];
      if Kept(last, job) then front + [last] else front
  }

  /** A log of the job's history: it cost something, is of the job's user, and lies on the backfill side. */
  predicate InHistory(e: LogEntry, job: Job) {
    && e.quota > 0 && e.userID == job.userID
    && (e.createdAt < job.boundaryTS || (e.createdAt == job.boundaryTS && e.id <= job.boundaryLogID))
  }

  lemma {:induction false} KeepPicks(es: seq<LogEntry>, job: Job)
    ensures forall e :: e in Keep(es, job) <==> e in es && InHistory(e, job)
    ensures DistinctEntries(es) ==> DistinctEntries(Keep(es, job))
  {
    if |es| > 0 {
      var front, last := es[..|es| - 1], es[|es| - 1];
      KeepPicks(front, job);
      assert es == front + [last];
      if DistinctEntries(es) {
        forall e | e in Keep(front, job) ensures e.id != last.id {
          var i :| 0 <= i < |front| && front[i] == e;
          assert es[i] == e;
        }
      }
    }
  }

  function WindowRead(v: View, user: string, lo: int, hi: int): seq<LogEntry> {
    Newest(Select(v, ByUser(user, lo, hi)), WINDOW_ROWS)
  }

  /** Entries without a detail row; the check and the write happen under the settlement mutex. */
  function Unsettled(es: seq<LogEntry>, seen: set<int>): seq<LogEntry> {
    if |es| == 0 then []
    else
      var front, last := Unsettled(es[..|es| - 1], seen), es[|es| - 1];
      if last.id !in seen then front + [last] else front
  }

  lemma {:induction false} UnsettledPicks(es: seq<LogEntry>, seen: set<int>)
    ensures forall e :: e in Unsettled(es, seen) <==> e in es && e.id !in seen
    ensures DistinctEntries(es) ==> DistinctEntries(Unsettled(es, seen))
  {
    if |es| > 0 {
      var front, last := es[..|es| - 1], es[|es| - 1];
      UnsettledPicks(front, seen);
      assert es == front + [last];
      if DistinctEntries(es) {
        forall e | e in Unsettled(front, seen) ensures e.id != last.id {
          var i :| 0 <= i < |front| && front[i] == e;
          assert es[i] == e;
        }
      }
    }
  }

  function BackfillRows(db: Db, keep: seq<LogEntry>, dir: Directory): seq<DetailRow> {
    Rows(dir, Unsettled(keep, LogIDs(db.detail)))
  }

  function WriteWindow(db: Db, keep: seq<LogEntry>, dir: Directory): Db {
    CommitUsage(db, BackfillRows(db, keep, dir))
  }

  /** Exactly which logs a written window settles, each with a row that says who is charged; no balance, no
      cursor and no job moves. */
  lemma {:induction false} WindowSettlesExactly(db: Db, view: View, job: Job, lo: int, hi: int, dir: Directory,
                                                e: LogEntry, world: map<int, LogEntry>)
    requires PartOf(view, world) && e.id in world && world[e.id] == e && e.id !in LogIDs(db.detail)
    ensures var db' := WriteWindow(db, Keep(WindowRead(view, job.username, lo, hi), job), dir);
            && (e.id in LogIDs(db'.detail) <==>
                  && e in Newest(Select(view, Query(lo, hi, Some(job.username))), 2000)
                  && InHistory(e, job) && Linked(dir, e))
            && (e.id in LogIDs(db'.detail) ==> exists r :: r in db'.detail && RowTells(r, e, dir))
            && db.detail <= db'.detail
            && db'.balances == db.balances && db'.cursor == db.cursor && db'.jobs == db.jobs
  {
    var read := WindowRead(view, job.username, lo, hi);
    var keep := Keep(read, job);
    var es := Unsettled(keep, LogIDs(db.detail));
    var rows := BackfillRows(db, keep, dir);
    KeepPicks(read, job);
    UnsettledPicks(keep, LogIDs(db.detail));
    RowsMembership(dir, es);
    InsertIgnoreHas(db.detail, rows);
    AttributedRight(dir, e);
    if e in es && Attribute(dir, e).Some? {
      assert RowOf(Attribute(dir, e).value, e) in rows;
    }
    if e.id in LogIDs(rows) {
      var r :| r in rows && r.logID == e.id;
      var e' :| e' in es && Attribute(dir, e').Some? && r == RowOf(Attribute(dir, e').value, e');
      assert world[e'.id] == e';
      RowArrives(db.detail, rows, e.id);
    }
  }

  /** A log without a row gets one of the batch's. */
  lemma {:induction false} RowArrives(detail: seq<DetailRow>, rows: seq<DetailRow>, id: int)
    requires id in LogIDs(rows) && id !in LogIDs(detail)
    ensures exists r :: r in InsertIgnore(detail, rows) && r in rows && r.logID == id
  {
    InsertIgnoreHas(detail, rows);
    var d := InsertIgnore(detail, rows);
    var r :| r in d && r.logID == id;
    var i :| 0 <= i < |d| && d[i] == r;
    assert i < |detail| ==> r in detail;
  }

  // ----- job rows -----

  function SetStatus(db: Db, org: int, status: Status): Db
    requires org in db.jobs
  {
    db.(jobs := db.jobs[org := db.jobs[org].(status := status)])
  }

  function SetProgress(db: Db, org: int, cursorTS: int): Db
    requires org in db.jobs
  {
    db.(jobs := db.jobs[org := db.jobs[org].(cursorTS := cursorTS)])
  }

  /** Back to the boundary, except while a slice is running. */
  function Requeue(db: Db, org: int): Db {
    if org in db.jobs && db.jobs[org].status != Running then
      db.(jobs := db.jobs[org := db.jobs[org].(status := Pending, cursorTS := db.jobs[org].boundaryTS)])
    else db
  }

  /** One job per organisation; a second insert changes nothing. */
  function InsertJob(db: Db, org: int, userID: int, username: string, boundary: Cursor): Db {
    if org in db.jobs then db
    else db.(jobs := db.jobs[org := Job(userID, username, boundary.ts, boundary.logID, boundary.ts, Pending)])
  }

  // ----- a slice -----

  /** What one window meets outside: the view, the directory, and which calls succeed. */
  datatype WindowEnv = WindowEnv(view: View, dir: Directory, readOk: bool, writeOk: bool, progressOk: bool)

  /** At most |envs| windows; an error ends the slice and leaves the job running where it was. */
  function Slice(db: Db, org: int, job: Job, hi: int, envs: seq<WindowEnv>): (r: Db)
    requires org in db.jobs
    ensures org in r.jobs
    decreases |envs|
  {
    if hi <= 0 then SetStatus(db, org, Done)
    else if |envs| == 0 || !envs[0].readOk then db
    else
      var lo := LowerBound(envs[0].view, job.username, hi);
      var keep := Keep(WindowRead(envs[0].view, job.username, lo, hi), job);
      if keep != [] && !envs[0].writeOk then db
      else
        var written := if keep == [] then db else WriteWindow(db, keep, envs[0].dir);
        if !envs[0].progressOk then written
        else Slice(SetProgress(written, org, lo - 1), org, job, lo - 1, envs[1..])
  }

  /** No window of the slice fails to be read, written or recorded. */
  predicate SliceOk(job: Job, hi: int, envs: seq<WindowEnv>)
    decreases |envs|
  {
    if hi <= 0 || |envs| == 0 then true
    else
      var lo := LowerBound(envs[0].view, job.username, hi);
      && envs[0].readOk && envs[0].progressOk
      && (Keep(WindowRead(envs[0].view, job.username, lo, hi), job) == [] || envs[0].writeOk)
      && SliceOk(job, lo - 1, envs[1..])
  }

  function RunSlice(db: Db, org: int, envs: seq<WindowEnv>): (r: Db)
    requires org in db.jobs
    ensures org in r.jobs
  {
    var job := db.jobs[org];
    var db1 := if job.status == Pending then SetStatus(db, org, Running) else db;
    Slice(db1, org, job, job.cursorTS, envs)
  }

  // ----- what a tick leaves -----

  predicate AllWell(env: WindowEnv) { env.readOk && env.writeOk && env.progressOk }

  /** Of all jobs, balances and the cursor only one job's status and progress have changed. */
  ghost predicate OneJobMoves(db: Db, db': Db, org: int) {
    && db'.balances == db.balances && db'.cursor == db.cursor && db'.jobs.Keys == db.jobs.Keys
    && (forall o | o in db.jobs && o != org :: db'.jobs[o] == db.jobs[o])
    && (org in db.jobs ==>
          db'.jobs[org] == db.jobs[org].(status := db'.jobs[org].status, cursorTS := db'.jobs[org].cursorTS))
  }

  lemma {:induction false} MovesCompose(a: Db, b: Db, c: Db, org: int)
    requires OneJobMoves(a, b, org) && OneJobMoves(b, c, org)
    ensures OneJobMoves(a, c, org)
  {
  }

  lemma {:induction false} WindowMoves(db: Db, org: int, keep: seq<LogEntry>, dir: Directory, cursorTS: int)
    requires org in db.jobs
    ensures OneJobMoves(db, WriteWindow(db, keep, dir), org) && OneJobMoves(db, SetProgress(db, org, cursorTS), org)
    ensures OneJobMoves(db, SetStatus(db, org, Done), org)
  {
  }

  /** The windows of a tick move one job's status and progress and nothing else of the jobs, no balance and
      no cursor. */
  lemma {:induction false} SliceMovesOneJob(db: Db, org: int, job: Job, hi: int, envs: seq<WindowEnv>)
    requires org in db.jobs
    ensures OneJobMoves(db, Slice(db, org, job, hi, envs), org)
    decreases |envs|
  {
    if hi <= 0 {
      WindowMoves(db, org, [], Directory(map[], map[], map[]), hi);
    } else if |envs| > 0 && envs[0].readOk {
      var lo := LowerBound(envs[0].view, job.username, hi);
      var keep := Keep(WindowRead(envs[0].view, job.username, lo, hi), job);
      if keep == [] || envs[0].writeOk {
        var written := if keep == [] then db else WriteWindow(db, keep, envs[0].dir);
        WindowMoves(db, org, keep, envs[0].dir, lo - 1);
        if envs[0].progressOk {
          var next := SetProgress(written, org, lo - 1);
          WindowMoves(written, org, keep, envs[0].dir, lo - 1);
          MovesCompose(db, written, next, org);
          SliceMovesOneJob(next, org, job, lo - 1, envs[1..]);
          MovesCompose(db, next, Slice(next, org, job, lo - 1, envs[1..]), org);
        }
      }
    }
  }

  /** A tick without failures ends the job exactly when it has come down to 0, and otherwise has moved it
      down by at least two seconds a window; one with a failure leaves it running above 0, and something
      did fail. */
  lemma {:induction false} SliceComesDown(db: Db, org: int, job: Job, hi: int, envs: seq<WindowEnv>)
    requires org in db.jobs && db.jobs[org].status == Running && db.jobs[org].cursorTS == hi
    ensures var job' := Slice(db, org, job, hi, envs).jobs[org];
            && job'.cursorTS <= hi && job'.status != Pending && (job'.status == Done <==> job'.cursorTS <= 0)
            && (SliceOk(job, hi, envs) ==> job'.status == Done || job'.cursorTS <= hi - 2 * |envs|)
            && (!SliceOk(job, hi, envs) ==> job'.status == Running && exists env :: env in envs && !AllWell(env))
    decreases |envs|
  {
    if hi > 0 && |envs| > 0 {
      var lo := LowerBound(envs[0].view, job.username, hi);
      var keep := Keep(WindowRead(envs[0].view, job.username, lo, hi), job);
      if envs[0].readOk && (keep == [] || envs[0].writeOk) && envs[0].progressOk {
        var written := if keep == [] then db else WriteWindow(db, keep, envs[0].dir);
        SliceComesDown(SetProgress(written, org, lo - 1), org, job, lo - 1, envs[1..]);
      } else {
        assert envs[0] in envs && !AllWell(envs[0]);
      }
    }
  }

  /** Ticks that meet no failure finish: enough windows for the seconds left end the job, and one is enough
      when the user's whole history can be read whole. */
  lemma {:induction false} TickFinishes(db: Db, org: int, envs: seq<WindowEnv>)
    requires org in db.jobs && db.jobs[org].status != Done && forall env | env in envs :: AllWell(env)
    ensures var job, job' := db.jobs[org], RunSlice(db, org, envs).jobs[org];
            && (job'.status == Done <==> job'.cursorTS <= 0)
            && (job.cursorTS <= 2 * |envs| ==> job'.status == Done)
            && ((|envs| > 0 && job.cursorTS > 0 && !UserOverflows(envs[0].view, job.username, 0, job.cursorTS))
                ==> job'.status == Done && job'.cursorTS == -1)
  {
    var job := db.jobs[org];
    var db1 := if job.status == Pending then SetStatus(db, org, Running) else db;
    SliceComesDown(db1, org, job, job.cursorTS, envs);
    if |envs| > 0 && job.cursorTS > 0 {
      WindowReachesDown(envs[0].view, job.username, job.cursorTS);
      assert AllWell(envs[0]);
    }
  }
}
