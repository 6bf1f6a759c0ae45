/** What the ledger says, in terms of the logs themselves: a bucket holds the quota of exactly the logs of
    its organisation, user, key, model and hour that were posted, each once. */
module LedgerLogs {
  import opened UsageLogs
  import opened BucketKeys
  import opened UsageTables
  import opened SettlementPlan
  import opened BackfillPlan
  import opened Ingestion

  /** The log is one of the bucket's, by its own fields and by what the directory says of its token, or
      else of its user. */
  ghost predicate InBucket(e: LogEntry, dir: Directory, k: BucketKey) {
    && k.userID == e.userID && k.modelName == e.modelName
    && k.hour % 3600 == 0 && k.hour <= e.createdAt < k.hour + 3600
    && if e.tokenID in dir.tokens then k.orgID == dir.tokens[e.tokenID].orgID && k.keyID == dir.tokens[e.tokenID].keyID
       else e.userID in dir.orgs && k.orgID == dir.orgs[e.userID] != 0 && k.keyID == 0
  }

  ghost function QuotaIn(world: map<int, LogEntry>, id: int, dir: Directory, k: BucketKey): int {
    if id in world && InBucket(world[id], dir, k) then world[id].quota else 0
  }

  /** The quota of the posted logs that are a bucket's. */
  ghost function QuotaOf(world: map<int, LogEntry>, ids: seq<int>, dirs: seq<Directory>, k: BucketKey): int
    requires |ids| == |dirs|
  {
    if |ids| == 0 then 0
    else
      var n := |ids| - 1;
      QuotaOf(world, ids[..n], dirs[..n], k) + QuotaIn(world, ids[n], dirs[n], k)
  }

  ghost predicate RowTrue(r: DetailRow, world: map<int, LogEntry>, dir: Directory) {
    r.logID in world && RowTells(r, world[r.logID], dir)
  }

  ghost predicate AllTrue(rows: seq<DetailRow>, dirs: seq<Directory>, world: map<int, LogEntry>) {
    |dirs| == |rows| && forall i | 0 <= i < |rows| :: RowTrue(rows[i], world, dirs[i])
  }

  ghost predicate TrueFrom(rows: seq<DetailRow>, dir: Directory, world: map<int, LogEntry>) {
    forall r | r in rows :: RowTrue(r, world, dir)
  }

  ghost predicate PlanTrue(p: Plan, world: map<int, LogEntry>) { p.Window? ==> TrueFrom(p.rows, p.env.dir, world) }

  ghost predicate RowsTrue(s: Sys, world: map<int, LogEntry>) {
    && AllTrue(s.db.detail, s.dirs, world)
    && forall pid | pid in s.passes :: PlanTrue(s.passes[pid], world)
  }

  lemma {:induction false} RowsTell(dir: Directory, es: seq<LogEntry>, world: map<int, LogEntry>)
    requires PartOf(es, world)
    ensures TrueFrom(Rows(dir, es), dir, world)
  {
    RowsMembership(dir, es);
    forall r | r in Rows(dir, es) ensures RowTrue(r, world, dir) {
      var e :| e in es && Attribute(dir, e).Some? && r == RowOf(Attribute(dir, e).value, e);
      AttributedRight(dir, e);
    }
  }

  lemma {:induction false} BatchTrue(detail: seq<DetailRow>, dirs: seq<Directory>, rows: seq<DetailRow>, dir: Directory,
                                     world: map<int, LogEntry>)
    requires AllTrue(detail, dirs, world) && TrueFrom(rows, dir, world)
    ensures AllTrue(detail + rows, dirs + Repeat(dir, |rows|), world)
  {
  }

  lemma {:induction false} PlanTells(db: Db, env: PassEnv, world: map<int, LogEntry>)
    requires EnvFrom(env, world) && RowsFrom(db.detail, world) && Settled(db.cursor, db.detail)
    requires PlanPass(db, env).Some?
    ensures PlanTrue(PlanPass(db, env).value, world)
  {
    var p := PlanPass(db, env).value;
    if p.Window? {
      FreshEntries(db, env, p.until, world);
      RowsTell(env.dir, Fresh(db, env, p.until), world);
    }
  }

  lemma {:induction false} CommitKeepsTrue(s: Sys, p: Plan, world: map<int, LogEntry>)
    requires AllTrue(s.db.detail, s.dirs, world) && PlanOk(p, s, world) && PlanTrue(p, world)
    ensures AllTrue(DoCommit(s, p).db.detail, DoCommit(s, p).dirs, world)
  {
    if p.Window? && p.version == s.db.cursor.version {
      NothingIgnored(s.db.detail, p.rows);
      BatchTrue(s.db.detail, s.dirs, p.rows, p.env.dir, world);
    }
  }

  lemma {:induction false} WriteKeepsTrue(s: Sys, dir: Directory, world: map<int, LogEntry>)
    requires Core(s, world) && AllTrue(s.db.detail, s.dirs, world) && s.worker.HasRead?
    ensures AllTrue(DoWrite(s, dir).db.detail, DoWrite(s, dir).dirs, world)
  {
    var keep := WorkerKeep(s.worker);
    if keep != [] && s.passes == map[] {
      WindowRowsSound(s, s.worker, dir, world);
      NothingIgnored(s.db.detail, BackfillRows(s.db, keep, dir));
      KeepPicks(WindowRead(s.worker.view, s.worker.job.username, s.worker.lo, s.worker.hi), s.worker.job);
      UnsettledPicks(keep, LogIDs(s.db.detail));
      RowsTell(dir, Unsettled(keep, LogIDs(s.db.detail)), world);
      BatchTrue(s.db.detail, s.dirs, BackfillRows(s.db, keep, dir), dir, world);
    }
  }

  lemma {:induction false} StepKeepsTrue(s: Sys, a: Action, world: map<int, LogEntry>)
    requires Core(s, world) && ActionFrom(a, world) && RowsTrue(s, world)
    ensures RowsTrue(Apply(s, a), world)
  {
    match a {
      case Scan(_, env) =>
        if PlanPass(s.db, env).Some? {
          PlanTells(s.db, env, world);
        }
      case Commit(pid) =>
        if pid in s.passes {
          assert PlanOk(s.passes[pid], s, world);
          CommitKeepsTrue(s.(passes := s.passes - {pid}), s.passes[pid], world);
        }
      case Write(dir) =>
        if s.worker.HasRead? {
          WriteKeepsTrue(s, dir, world);
        }
      case _ => QuietKeepsTables(s, a);
    }
  }

  lemma {:induction false} RunKeepsTrue(actions: seq<Action>, world: map<int, LogEntry>)
    requires RunFrom(actions, world)
    ensures RowsTrue(Exec(Init(), actions), world)
  {
    if |actions| > 0 {
      var front := actions[..|actions| - 1];
      RunKeepsCore(front, world);
      RunKeepsTrue(front, world);
      StepKeepsTrue(Exec(Init(), front), actions[|actions| - 1], world);
    }
  }

  lemma {:induction false} HourUnique(ts: int, hour: int)
    ensures HourBucket(ts) == hour <==> hour % 3600 == 0 && hour <= ts < hour + 3600
  {
  }

  lemma {:induction false} RowIsItsLog(r: DetailRow, world: map<int, LogEntry>, dir: Directory, k: BucketKey)
    requires RowTrue(r, world, dir)
    ensures (if r.Key() == k then r.quota else 0) == QuotaIn(world, r.logID, dir, k)
  {
    HourUnique(r.logTS, k.hour);
  }

  lemma {:induction false} SumIsLogs(rows: seq<DetailRow>, dirs: seq<Directory>, world: map<int, LogEntry>, k: BucketKey)
    requires AllTrue(rows, dirs, world)
    ensures SumRows(rows, k) == QuotaOf(world, LogIDSeq(rows), dirs, k)
  {
    if |rows| > 0 {
      var n := |rows| - 1;
      assert LogIDSeq(rows)[..n] == LogIDSeq(rows[..n]);
      SumIsLogs(rows[..n], dirs[..n], world, k);
      RowIsItsLog(rows[n], world, dirs[n], k);
    }
  }

  /** Over every run a bucket is the sum of the quota of the posted logs that are its own, read from log and
      directory, and there is one detail row per posted log, which says whose it is. */
  lemma {:induction false} LedgerIsLogs(actions: seq<Action>, world: map<int, LogEntry>, k: BucketKey)
    requires RunFrom(actions, world)
    ensures var s := Exec(Init(), actions);
            && |s.dirs| == |s.posted| == |s.db.detail|
            && Consumed(s.db.ledger, k) == QuotaOf(world, s.posted, s.dirs, k)
            && forall i | 0 <= i < |s.posted| ::
                 s.posted[i] in world && RowTells(s.db.detail[i], world[s.posted[i]], s.dirs[i])
  {
    RunKeepsCore(actions, world);
    RunKeepsTrue(actions, world);
    var s := Exec(Init(), actions);
    SumIsLogs(s.db.detail, s.dirs, world, k);
    assert Consumed(s.db.ledger, k) == SumRows(s.db.detail, k);
    forall i | 0 <= i < |s.posted| ensures RowTrue(s.db.detail[i], world, s.dirs[i]) && s.posted[i] == s.db.detail[i].logID {
    }
  }
}
