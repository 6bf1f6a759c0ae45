/** Forward settlement, backfill, association and money movements as one step machine over the
    database. A forward pass is two steps, scan and commit, and any number of passes may be between
    the two; a backfill window is read with no lock held and written only while no pass is in
    flight (the settlement mutex); every in-flight call may be lost at any moment. */
module Ingestion {
  import opened UsageLogs
  import opened BucketKeys
  import opened UsageTables
  import opened SettlementPlan
  import opened BackfillPlan

  /** Where the single backfill worker is inside its slice. */
  datatype Worker =
    | Idle
    | Taken(org: int, job: Job)
    | Slicing(org: int, job: Job, hi: int)
    | HasRead(org: int, job: Job, hi: int, lo: int, view: View)
    | Written(org: int, job: Job, win: WindowRecord)

  /** A finished window: its bounds, what upstream showed then, and the directory at the write. */
  datatype WindowRecord = WindowRecord(lo: int, hi: int, view: View, dir: Directory)

  /** A committed pass over a window, and the organisations that had a balance row then. */
  datatype Committed = Committed(since: int, until: int, rows: seq<DetailRow>, env: PassEnv, payers: set<int>)

  datatype Sys = Sys(
    db: Db,
    passes: map<int, Plan>,
    enqueues: map<int, Cursor>,
    worker: Worker,
    // history, never read by a step
    posted: seq<int>,
    dirs: seq<Directory>, // what each post was attributed with
    committed: seq<Committed>,
    windows: map<int, seq<WindowRecord>>)

  function Init(): Sys {
    Sys(Db(Cursor(0, 0, 0), map[], [], map[], map[]), map[], map[], Idle, [], [], [], map[])
  }

  datatype Action =
    | Scan(pid: int, env: PassEnv)
    | Commit(pid: int)
    | Abort(pid: int)
    | ReadCursor(org: int)
    | AddJob(org: int, userID: int, username: string)
    | RequeueJob(org: int)
    | TakeJob(org: int)
    | MarkRunning
    | ReadWindow(view: View)
    | Write(dir: Directory)
    | RecordProgress
    | EndSlice
    | Recharge(org: int, amount: int)
    | Refund(org: int, amount: int)
    | Crash

  function Repeat(dir: Directory, n: nat): seq<Directory> { seq(n, _ => dir) }

  function DoCommit(s: Sys, p: Plan): Sys {
    if p.version != s.db.cursor.version then s
    else
      var s1 := s.(db := CommitPass(s.db, p));
      match p
      case Baseline(_, _) => s1
      case Window(_, since, until, _, rows, env) =>
        s1.(posted := s.posted + LogIDSeq(rows), dirs := s.dirs + Repeat(env.dir, |rows|),
            committed := s.committed + [Committed(since, until, rows, env, s.db.balances.Keys)])
  }

  /** The balance row is created on the first recharge. */
  function DoRecharge(s: Sys, org: int, amount: int): Sys {
    var b := if org in s.db.balances then s.db.balances[org] else Balance(0, 0, 0, 0);
    var b1 := b.(balance := b.recharged + amount - b.consumed - b.refunded);
    s.(db := s.db.(balances := s.db.balances[org := b1.(recharged := b1.recharged + amount)]))
  }

  function DoRefund(s: Sys, org: int, amount: int): Sys {
    if org !in s.db.balances || amount > s.db.balances[org].balance then s
    else
      var b := s.db.balances[org];
      var b1 := b.(balance := b.recharged - b.consumed - b.refunded - amount);
      s.(db := s.db.(balances := s.db.balances[org := b1.(refunded := b1.refunded + amount)]))
  }

  function DoAddJob(s: Sys, org: int, userID: int, username: string): Sys
    requires org in s.enqueues
  {
    var s1 := s.(db := InsertJob(s.db, org, userID, username, s.enqueues[org]), enqueues := s.enqueues - {org});
    if org in s.db.jobs then s1 else s1.(windows := s.windows[org := []])
  }

  function DoRequeue(s: Sys, org: int): Sys {
    var s1 := s.(db := Requeue(s.db, org));
    if org in s.db.jobs && s.db.jobs[org].status != Running then s1.(windows := s.windows[org := []]) else s1
  }

  /** What the worker kept of the window it has read. */
  function WorkerKeep(w: Worker): seq<LogEntry>
    requires w.HasRead?
  {
    Keep(WindowRead(w.view, w.job.username, w.lo, w.hi), w.job)
  }

  function DoWrite(s: Sys, dir: Directory): Sys
    requires s.worker.HasRead?
  {
    var w := s.worker;
    var keep := WorkerKeep(w);
    var s1 := s.(worker := Written(w.org, w.job, WindowRecord(w.lo, w.hi, w.view, dir)));
    if keep == [] then s1
    else if s.passes != map[] then s
    else
      var rows := BackfillRows(s.db, keep, dir);
      s1.(db := WriteWindow(s.db, keep, dir), posted := s.posted + LogIDSeq(rows),
          dirs := s.dirs + Repeat(dir, |rows|))
  }

  /** One step; a step that is not enabled leaves the state as it is. */
  function Apply(s: Sys, a: Action): Sys {
    match a
    case Scan(pid, env) =>
      if pid in s.passes then s
      else (match PlanPass(s.db, env) case None => s case Some(p) => s.(passes := s.passes[pid := p]))
    case Commit(pid) =>
      if pid !in s.passes then s else DoCommit(s.(passes := s.passes - {pid}), s.passes[pid])
    case Abort(pid) => s.(passes := s.passes - {pid})
    case ReadCursor(org) => if s.db.cursor.ts == 0 then s else s.(enqueues := s.enqueues[org := s.db.cursor])
    case AddJob(org, userID, username) => if org !in s.enqueues then s else DoAddJob(s, org, userID, username)
    case RequeueJob(org) => DoRequeue(s, org)
    case TakeJob(org) =>
      if s.worker.Idle? && org in s.db.jobs && s.db.jobs[org].status != Done
      then s.(worker := Taken(org, s.db.jobs[org])) else s
    case MarkRunning =>
      if s.worker.Taken? && s.worker.org in s.db.jobs then
        var w := s.worker;
        s.(worker := Slicing(w.org, w.job, w.job.cursorTS),
           db := if w.job.status == Pending then SetStatus(s.db, w.org, Running) else s.db)
      else s
    case ReadWindow(view) =>
      if s.worker.Slicing? && s.worker.hi > 0 then
        var w := s.worker;
        s.(worker := HasRead(w.org, w.job, w.hi, LowerBound(view, w.job.username, w.hi), view))
      else s
    case Write(dir) => if s.worker.HasRead? then DoWrite(s, dir) else s
    case RecordProgress =>
      if s.worker.Written? && s.worker.org in s.db.jobs && s.worker.org in s.windows then
        var w := s.worker;
        s.(db := SetProgress(s.db, w.org, w.win.lo - 1), worker := Slicing(w.org, w.job, w.win.lo - 1),
           windows := s.windows[w.org := s.windows[w.org] + [w.win]])
      else s
    case EndSlice =>
      if s.worker.Slicing? && s.worker.hi <= 0 && s.worker.org in s.db.jobs
      then s.(worker := Idle, db := SetStatus(s.db, s.worker.org, Done))
      else s.(worker := Idle)
    case Recharge(org, amount) => DoRecharge(s, org, amount)
    case Refund(org, amount) => DoRefund(s, org, amount)
    case Crash => s.(passes := map[], enqueues := map[], worker := Idle)
  }

  /** A whole run. */
  function Exec(s: Sys, actions: seq<Action>): Sys {
    if |actions| == 0 then s else Apply(Exec(s, actions[..|actions| - 1]), actions[|actions| - 1])
  }

  /** The environment only ever shows logs of one immutable table. */
  ghost predicate ActionFrom(a: Action, world: map<int, LogEntry>) {
    match a
    case Scan(_, env) => EnvFrom(env, world)
    case ReadWindow(view) => PartOf(view, world)
    case _ => true
  }

  ghost predicate RunFrom(actions: seq<Action>, world: map<int, LogEntry>) {
    forall a | a in actions :: ActionFrom(a, world)
  }

  // ----- the core invariant -----

  /** The tables by themselves: everything posted is exactly the detail table, in order, and lies
      below the watermark. */
  ghost predicate TablesOk(s: Sys, world: map<int, LogEntry>) {
    && RowsFrom(s.db.detail, world) && DistinctLogs(s.db.detail)
    && LedgerAgrees(s.db.ledger, s.db.detail)
    && Settled(s.db.cursor, s.db.detail)
    && s.posted == LogIDSeq(s.db.detail)
    && s.db.cursor.ts >= 0 && (s.db.cursor.ts == 0 ==> s.db.detail == [])
  }

  ghost predicate Reached(ts: int, logID: int, c: Cursor) { 0 < ts <= c.ts && logID <= c.logID }

  ghost predicate BoundariesOk(s: Sys) {
    && (forall o | o in s.db.jobs :: Reached(s.db.jobs[o].boundaryTS, s.db.jobs[o].boundaryLogID, s.db.cursor))
    && (forall o | o in s.enqueues :: Reached(s.enqueues[o].ts, s.enqueues[o].logID, s.db.cursor))
    && (!s.worker.Idle? ==> Reached(s.worker.job.boundaryTS, s.worker.job.boundaryLogID, s.db.cursor))
  }

  ghost predicate ViewsOk(s: Sys, world: map<int, LogEntry>) {
    && (s.worker.HasRead? ==> PartOf(s.worker.view, world))
  }

  /** A pass in flight is either stale, or nothing it is about to post has been posted since. */
  ghost predicate PlanOk(p: Plan, s: Sys, world: map<int, LogEntry>) {
    && p.version <= s.db.cursor.version
    && match p
       case Baseline(_, _) => p.version == s.db.cursor.version ==> s.db.cursor.ts == 0
       case Window(_, since, until, maxLogID, rows, env) =>
         && RowsFrom(rows, world) && DistinctLogs(rows) && since < until
         && (p.version == s.db.cursor.version ==>
               && 0 < since == s.db.cursor.ts && s.db.cursor.logID <= maxLogID
               && LogIDs(rows) !! LogIDs(s.db.detail)
               && Settled(Advance(s.db.cursor, until, maxLogID), s.db.detail + rows))
  }

  ghost predicate Core(s: Sys, world: map<int, LogEntry>) {
    && TablesOk(s, world) && BoundariesOk(s) && ViewsOk(s, world)
    && forall pid | pid in s.passes :: PlanOk(s.passes[pid], s, world)
  }

  // ----- posting a batch -----

  lemma {:induction false} LogIDSeqAppend(a: seq<DetailRow>, b: seq<DetailRow>)
    ensures LogIDSeq(a + b) == LogIDSeq(a) + LogIDSeq(b)
  {
  }

  lemma {:induction false} DistinctAppend(a: seq<DetailRow>, b: seq<DetailRow>)
    requires DistinctLogs(a) && DistinctLogs(b) && LogIDs(a) !! LogIDs(b)
    ensures DistinctLogs(a + b)
  {
    var c := a + b;
    forall i, j | 0 <= i < j < |c| ensures c[i].logID != c[j].logID {
      if i < |a| <= j {
        assert c[i].logID in LogIDs(a) && c[j].logID in LogIDs(b);
      }
    }
  }

  /** The step every write goes through: a batch that repeats nothing keeps the tables right. */
  lemma {:induction false} PostingKeepsTables(s: Sys, s': Sys, rows: seq<DetailRow>, world: map<int, LogEntry>)
    requires TablesOk(s, world)
    requires RowsFrom(rows, world) && DistinctLogs(rows) && LogIDs(rows) !! LogIDs(s.db.detail)
    requires s'.db.ledger == Posted(s.db.ledger, rows) && s'.db.detail == InsertIgnore(s.db.detail, rows)
    requires s'.posted == s.posted + LogIDSeq(rows)
    requires Settled(s'.db.cursor, s.db.detail + rows) && s'.db.cursor.ts > 0
    ensures TablesOk(s', world) && s'.db.detail == s.db.detail + rows
  {
    NothingIgnored(s.db.detail, rows);
    PostingAgrees(s.db.ledger, s.db.detail, rows);
    DistinctAppend(s.db.detail, rows);
    LogIDSeqAppend(s.db.detail, rows);
  }

  lemma {:induction false} BackfillRowsSound(s: Sys, keep: seq<LogEntry>, dir: Directory, job: Job, world: map<int, LogEntry>)
    requires TablesOk(s, world) && Reached(job.boundaryTS, job.boundaryLogID, s.db.cursor)
    requires DistinctEntries(keep) && PartOf(keep, world)
    requires forall e | e in keep :: Kept(e, job)
    ensures var rows := BackfillRows(s.db, keep, dir);
            && RowsFrom(rows, world) && DistinctLogs(rows) && LogIDs(rows) !! LogIDs(s.db.detail)
            && Settled(s.db.cursor, s.db.detail + rows)
  {
    var es := Unsettled(keep, LogIDs(s.db.detail));
    UnsettledPicks(keep, LogIDs(s.db.detail));
    RowsDistinct(dir, es);
    RowsMembership(dir, es);
    var rows := BackfillRows(s.db, keep, dir);
    forall r | r in rows
      ensures r.logID in world && world[r.logID].quota == r.quota > 0 && world[r.logID].createdAt == r.logTS
      ensures r.logID !in LogIDs(s.db.detail) && BelowWatermark(s.db.cursor, r.logTS, r.logID)
    {
      var e :| e in es && Attribute(dir, e).Some? && r == RowOf(Attribute(dir, e).value, e);
    }
  }

  // ----- every step keeps the core -----

  lemma {:induction false} ScanKeepsCore(s: Sys, pid: int, env: PassEnv, world: map<int, LogEntry>)
    requires Core(s, world) && EnvFrom(env, world)
    ensures Core(Apply(s, Scan(pid, env)), world)
  {
    var s' := Apply(s, Scan(pid, env));
    if pid !in s.passes && PlanPass(s.db, env).Some? {
      var p := PlanPass(s.db, env).value;
      if p.Window? {
        PlanIsSound(s.db, env, world);
      }
      assert PlanOk(p, s, world);
      forall q | q in s'.passes ensures PlanOk(s'.passes[q], s', world) {
        assert q != pid ==> PlanOk(s.passes[q], s, world);
      }
    }
  }

  lemma {:induction false} CommitKeepsCore(s: Sys, pid: int, world: map<int, LogEntry>)
    requires Core(s, world)
    ensures Core(Apply(s, Commit(pid)), world)
  {
    var s' := Apply(s, Commit(pid));
    if pid in s.passes && s.passes[pid].version == s.db.cursor.version {
      var p := s.passes[pid];
      assert PlanOk(p, s, world);
      if p.Window? {
        PostingKeepsTables(s, s', p.rows, world);
      }
      forall q | q in s'.passes ensures PlanOk(s'.passes[q], s', world) {
        assert PlanOk(s.passes[q], s, world);
      }
    } else {
      forall q | q in s'.passes ensures PlanOk(s'.passes[q], s', world) {
        assert PlanOk(s.passes[q], s, world);
      }
    }
  }

  /** Nothing but the tables moves, and with no pass in flight no plan is affected. */
  lemma {:induction false} WriteKeepsRest(s: Sys, s': Sys, world: map<int, LogEntry>)
    requires Core(s, world) && TablesOk(s', world)
    requires s'.db.jobs == s.db.jobs && s'.db.cursor == s.db.cursor && s'.enqueues == s.enqueues && s'.passes == s.passes
    requires s'.worker.Written? && s.worker.HasRead? && s'.worker.job == s.worker.job
    requires s.passes == map[] || s'.db.detail == s.db.detail
    ensures Core(s', world)
  {
    forall q | q in s'.passes ensures PlanOk(s'.passes[q], s', world) {
      assert PlanOk(s.passes[q], s, world);
    }
  }

  lemma {:induction false} WindowRowsSound(s: Sys, w: Worker, dir: Directory, world: map<int, LogEntry>)
    requires TablesOk(s, world) && w.HasRead? && PartOf(w.view, world)
    requires Reached(w.job.boundaryTS, w.job.boundaryLogID, s.db.cursor)
    ensures var rows := BackfillRows(s.db, WorkerKeep(w), dir);
            && RowsFrom(rows, world) && DistinctLogs(rows) && LogIDs(rows) !! LogIDs(s.db.detail)
            && Settled(s.db.cursor, s.db.detail + rows)
  {
    KeepPicks(WindowRead(w.view, w.job.username, w.lo, w.hi), w.job);
    BackfillRowsSound(s, WorkerKeep(w), dir, w.job, world);
  }

  lemma {:induction false} PostedWriteKeeps(s: Sys, s': Sys, rows: seq<DetailRow>, world: map<int, LogEntry>)
    requires Core(s, world) && s.passes == map[] && s.db.cursor.ts > 0
    requires RowsFrom(rows, world) && DistinctLogs(rows) && LogIDs(rows) !! LogIDs(s.db.detail)
    requires Settled(s.db.cursor, s.db.detail + rows)
    requires s'.db == s.db.(ledger := Posted(s.db.ledger, rows), detail := InsertIgnore(s.db.detail, rows))
    requires s'.posted == s.posted + LogIDSeq(rows) && s'.enqueues == s.enqueues && s'.passes == s.passes
    requires s'.worker.Written? && s.worker.HasRead? && s'.worker.job == s.worker.job
    ensures Core(s', world)
  {
    PostingKeepsTables(s, s', rows, world);
    WriteKeepsRest(s, s', world);
  }

  lemma {:induction false} DoWriteKeepsCore(s: Sys, dir: Directory, world: map<int, LogEntry>)
    requires Core(s, world) && s.worker.HasRead?
    ensures Core(DoWrite(s, dir), world)
  {
    if WorkerKeep(s.worker) == [] {
      WriteKeepsRest(s, DoWrite(s, dir), world);
    } else if s.passes == map[] {
      WindowRowsSound(s, s.worker, dir, world);
      PostedWriteKeeps(s, DoWrite(s, dir), BackfillRows(s.db, WorkerKeep(s.worker), dir), world);
    }
  }

  lemma {:induction false} WriteKeepsCore(s: Sys, dir: Directory, world: map<int, LogEntry>)
    requires Core(s, world)
    ensures Core(Apply(s, Write(dir)), world)
  {
    if s.worker.HasRead? {
      DoWriteKeepsCore(s, dir, world);
    }
  }

  ghost predicate Quiet(a: Action) { !a.Scan? && !a.Commit? && !a.Write? }

  predicate WorkerStep(a: Action) { a.TakeJob? || a.MarkRunning? || a.ReadWindow? || a.RecordProgress? || a.EndSlice? }

  predicate JobStep(a: Action) { a.AddJob? || a.RequeueJob? }

  predicate PaymentStep(a: Action) { a.Recharge? || a.Refund? }

  predicate SmallStep(a: Action) { a.Abort? || a.ReadCursor? || a.Crash? }

  /** The ingestion tables and the history of posts are untouched, and no pass is new. */
  ghost predicate TablesStay(s: Sys, s': Sys) {
    && s'.db.cursor == s.db.cursor && s'.db.ledger == s.db.ledger && s'.db.detail == s.db.detail
    && s'.posted == s.posted && s'.dirs == s.dirs && s'.committed == s.committed
    && forall q | q in s'.passes :: q in s.passes && s'.passes[q] == s.passes[q]
  }

  lemma {:induction false} WorkerKeepsTables(s: Sys, a: Action)
    requires WorkerStep(a)
    ensures TablesStay(s, Apply(s, a))
  {
  }

  lemma {:induction false} WorkerKeepsBoundaries(s: Sys, a: Action)
    requires WorkerStep(a) && BoundariesOk(s) && s.db.cursor.ts >= 0
    ensures BoundariesOk(Apply(s, a))
  {
  }

  lemma {:induction false} JobKeepsTables(s: Sys, a: Action)
    requires JobStep(a)
    ensures TablesStay(s, Apply(s, a))
  {
  }

  lemma {:induction false} JobKeepsBoundaries(s: Sys, a: Action)
    requires JobStep(a) && BoundariesOk(s) && s.db.cursor.ts >= 0
    ensures BoundariesOk(Apply(s, a))
  {
  }

  lemma {:induction false} PaymentKeepsTables(s: Sys, a: Action)
    requires PaymentStep(a)
    ensures TablesStay(s, Apply(s, a))
  {
  }

  lemma {:induction false} PaymentKeepsBoundaries(s: Sys, a: Action)
    requires PaymentStep(a) && BoundariesOk(s) && s.db.cursor.ts >= 0
    ensures BoundariesOk(Apply(s, a))
  {
  }

  lemma {:induction false} SmallKeepsTables(s: Sys, a: Action)
    requires SmallStep(a)
    ensures TablesStay(s, Apply(s, a))
  {
  }

  lemma {:induction false} SmallKeepsBoundaries(s: Sys, a: Action)
    requires SmallStep(a) && BoundariesOk(s) && s.db.cursor.ts >= 0
    ensures BoundariesOk(Apply(s, a))
  {
  }

  lemma {:induction false} QuietKeepsTables(s: Sys, a: Action)
    requires Quiet(a)
    ensures TablesStay(s, Apply(s, a))
  {
    if WorkerStep(a) {
      WorkerKeepsTables(s, a);
    } else if JobStep(a) {
      JobKeepsTables(s, a);
    } else if PaymentStep(a) {
      PaymentKeepsTables(s, a);
    } else {
      SmallKeepsTables(s, a);
    }
  }

  lemma {:induction false} QuietKeepsBoundaries(s: Sys, a: Action)
    requires Quiet(a) && BoundariesOk(s) && s.db.cursor.ts >= 0
    ensures BoundariesOk(Apply(s, a))
  {
    if WorkerStep(a) {
      WorkerKeepsBoundaries(s, a);
    } else if JobStep(a) {
      JobKeepsBoundaries(s, a);
    } else if PaymentStep(a) {
      PaymentKeepsBoundaries(s, a);
    } else {
      SmallKeepsBoundaries(s, a);
    }
  }

  /** Steps that touch neither the tables nor the cursor. */
  lemma {:induction false} QuietKeepsCore(s: Sys, a: Action, world: map<int, LogEntry>)
    requires Core(s, world) && ActionFrom(a, world) && Quiet(a)
    ensures Core(Apply(s, a), world)
  {
    var s' := Apply(s, a);
    QuietKeepsTables(s, a);
    QuietKeepsBoundaries(s, a);
    forall q | q in s'.passes ensures PlanOk(s'.passes[q], s', world) {
      assert PlanOk(s.passes[q], s, world);
    }
  }

  lemma {:induction false} StepKeepsCore(s: Sys, a: Action, world: map<int, LogEntry>)
    requires Core(s, world) && ActionFrom(a, world)
    ensures Core(Apply(s, a), world)
  {
    match a {
      case Scan(pid, env) => ScanKeepsCore(s, pid, env, world);
      case Commit(pid) => CommitKeepsCore(s, pid, world);
      case Write(dir) => WriteKeepsCore(s, dir, world);
      case _ => QuietKeepsCore(s, a, world);
    }
  }

  lemma {:induction false} RunKeepsCore(actions: seq<Action>, world: map<int, LogEntry>)
    requires RunFrom(actions, world)
    ensures Core(Exec(Init(), actions), world)
  {
    if |actions| > 0 {
      RunKeepsCore(actions[..|actions| - 1], world);
      StepKeepsCore(Exec(Init(), actions[..|actions| - 1]), actions[|actions| - 1], world);
    } else {
      assert KeysOf([]) == {};
    }
  }

  /** Every log is added to the ledger at most once, over every run. */
  lemma {:induction false} AtMostOnce(actions: seq<Action>, world: map<int, LogEntry>)
    requires RunFrom(actions, world)
    ensures NoDuplicates(Exec(Init(), actions).posted)
  {
    RunKeepsCore(actions, world);
  }

  /** In every reachable state each ledger bucket is the sum of its detail rows, and every posted
      row reached the detail table. */
  lemma {:induction false} LedgerIsDetail(actions: seq<Action>, world: map<int, LogEntry>, k: BucketKey)
    requires RunFrom(actions, world)
    ensures var s := Exec(Init(), actions);
            && Consumed(s.db.ledger, k) == SumRows(s.db.detail, k)
            && (k in s.db.ledger <==> exists r :: r in s.db.detail && r.Key() == k)
            && s.posted == LogIDSeq(s.db.detail)
  {
    RunKeepsCore(actions, world);
    KeysOfRows(Exec(Init(), actions).db.detail, k);
  }
}
