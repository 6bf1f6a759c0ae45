/** What one forward settlement pass reads and what it commits, as functions of the
    database and of what upstream shows; the properties of one pass. */
module SettlementPlan {
  import opened Prelude
  import opened UsageLogs
  import opened UsageTables

  const LAG := 5
  const MAX_PAGES := 20
  const RESCAN_OVERLAP := 600
  const RESCAN_PAGES := 5
  const WINDOW_ROWS := MAX_PAGES * PAGE_SIZE
  const RESCAN_ROWS := RESCAN_PAGES * PAGE_SIZE

  /** Everything a pass takes from outside: clock, leadership, the directory, and what upstream
      shows to the sizing calls, to the rescan and to the main scan. */
  datatype PassEnv = PassEnv(now: int, leader: bool, upstreamOk: bool, observe: bool, dir: Directory,
                             sizing: View, late: View, current: View)

  function All(since: int, until: int): Query { Query(since, until, None) }

  /** Bisection towards `since` until the window can be read in full, or is two seconds wide. */
  function SubWindowEnd(v: View, since: int, until: int): (end: int)
    requires since < until
    ensures since < end <= until
    ensures |Select(v, All(since, end))| <= WINDOW_ROWS || end == since + 1
    decreases until - since
  {
    if |Select(v, All(since, until))| <= WINDOW_ROWS || until <= since + 1 then until
    else SubWindowEnd(v, since, since + (until - since) / 2)
  }

  /** The chosen window can be read in full exactly when its first two seconds can. */
  lemma {:induction false} SubWindowFits(v: View, since: int, until: int)
    requires since < until
    ensures |Select(v, All(since, SubWindowEnd(v, since, until)))| <= WINDOW_ROWS
       <==> |Select(v, All(since, Min(since + 1, until)))| <= WINDOW_ROWS
  {
    var end := SubWindowEnd(v, since, until);
    SelectNarrower(v, All(since, since + 1), All(since, end));
  }

  predicate Overflows(v: View, since: int, until: int) { |Select(v, Query(since, until, None))| > 2000 }

  /** The whole window is taken whenever it can be read whole; otherwise what is taken is the near half of
      a window that could not, unless nothing is left to halve. */
  lemma {:induction false} SubWindowIsWidest(v: View, since: int, until: int)
    requires since < until
    ensures var end := SubWindowEnd(v, since, until);
            && (end == until <==> !Overflows(v, since, until) || until == since + 1)
            && (end != until ==> exists w :: end < w <= until && end == since + (w - since) / 2 && Overflows(v, since, w))
    decreases until - since
  {
    if Overflows(v, since, until) && until > since + 1 {
      SubWindowIsWidest(v, since, since + (until - since) / 2);
    }
  }

  function RescanSince(since: int): int { Max(0, since - RESCAN_OVERLAP) }

  /** Rescan entries that cost something and have no detail row yet. */
  function FreshLate(es: seq<LogEntry>, seen: set<int>): seq<LogEntry> {
    if |es| == 0 then []
    else
      var front, last := FreshLate(es[..|es| - 1], seen), es[|es| - 1];
      if last.quota > 0 && last.id !in seen then front + [last] else front
  }

  lemma {:induction false} FreshLatePicks(es: seq<LogEntry>, seen: set<int>)
    ensures forall e :: e in FreshLate(es, seen) <==> e in es && e.quota > 0 && e.id !in seen
    ensures DistinctEntries(es) ==> DistinctEntries(FreshLate(es, seen))
  {
    if |es| > 0 {
      var front, last := es[..|es| - 1], es[|es| - 1];
      FreshLatePicks(front, seen);
      assert es == front + [last];
      if DistinctEntries(es) {
        forall e | e in FreshLate(front, seen) ensures e.id != last.id {
          var i :| 0 <= i < |front| && front[i] == e;
          assert es[i] == e;
        }
      }
    }
  }

  /** Main-window entries that cost something and lie above the id watermark. */
  function FreshMain(es: seq<LogEntry>, floor: int): seq<LogEntry> {
    if |es| == 0 then []
    else
      var front, last := FreshMain(es[..|es| - 1], floor), es[|es| - 1];
      if last.id > floor && last.quota > 0 then front + [last] else front
  }

  lemma {:induction false} FreshMainPicks(es: seq<LogEntry>, floor: int)
    ensures forall e :: e in FreshMain(es, floor) <==> e in es && e.quota > 0 && e.id > floor
    ensures DistinctEntries(es) ==> DistinctEntries(FreshMain(es, floor))
  {
    if |es| > 0 {
      var front, last := es[..|es| - 1], es[|es| - 1];
      FreshMainPicks(front, floor);
      assert es == front + [last];
      if DistinctEntries(es) {
        forall e | e in FreshMain(front, floor) ensures e.id != last.id {
          var i :| 0 <= i < |front| && front[i] == e;
          assert es[i] == e;
        }
      }
    }
  }

  /** The id watermark rises to the largest id seen, free logs included. */
  function MaxID(es: seq<LogEntry>, floor: int): int {
    if |es| == 0 then floor else Max(MaxID(es[..|es| - 1], floor), es[|es| - 1].id)
  }

  lemma {:induction false} MaxIDBounds(es: seq<LogEntry>, floor: int)
    ensures MaxID(es, floor) >= floor && forall e | e in es :: e.id <= MaxID(es, floor)
    ensures MaxID(es, floor) == floor || exists e :: e in es && e.id == MaxID(es, floor)
  {
    if |es| > 0 {
      MaxIDBounds(es[..|es| - 1], floor);
      assert es == es[..|es| - 1] + [es[|es| - 1]];
    }
  }

  lemma {:induction false} MaxIDStep(es: seq<LogEntry>, e: LogEntry, floor: int)
    ensures MaxID(es + [e], floor) == Max(MaxID(es, floor), e.id)
  {
    assert (es + [e])[..|es|] == es;
  }

  lemma {:induction false} FreshMainStep(es: seq<LogEntry>, e: LogEntry, floor: int)
    ensures FreshMain(es + [e], floor) == FreshMain(es, floor) + if e.id > floor && e.quota > 0 then [e] else []
  {
    assert (es + [e])[..|es|] == es;
  }

  /** Billing flags are read per organisation met; a deleted organisation fails the pass. */
  predicate FlagsKnown(dir: Directory, es: seq<LogEntry>) {
    forall e | e in es :: Attribute(dir, e).Some? ==> Attribute(dir, e).value.orgID in dir.billing
  }

  function LateRead(env: PassEnv, since: int): seq<LogEntry> {
    Newest(Select(env.late, All(RescanSince(since), since - 1)), RESCAN_ROWS)
  }

  function MainRead(env: PassEnv, since: int, until: int): seq<LogEntry> {
    Newest(Select(env.current, All(since, until)), WINDOW_ROWS)
  }

  function Fresh(db: Db, env: PassEnv, until: int): seq<LogEntry> {
    FreshLate(LateRead(env, db.cursor.ts), LogIDs(db.detail))
    + FreshMain(MainRead(env, db.cursor.ts, until), db.cursor.logID)
  }

  /** A pass between its scan and its transaction. */
  datatype Plan =
    | Baseline(version: int, base: int)
    | Window(version: int, since: int, until: int, maxLogID: int, rows: seq<DetailRow>, env: PassEnv)

  /** What a scan of the window up to `end` found to commit; nothing when a billing flag cannot be read. */
  function PlanWindow(db: Db, env: PassEnv, end: int): Option<Plan> {
    var picked := Fresh(db, env, end);
    if !FlagsKnown(env.dir, picked) then None
    else Some(Window(db.cursor.version, db.cursor.ts, end, MaxID(MainRead(env, db.cursor.ts, end), db.cursor.logID),
                     Rows(env.dir, picked), env))
  }

  function PlanPass(db: Db, env: PassEnv): Option<Plan> {
    var since, until := db.cursor.ts, env.now - LAG;
    if !env.leader then None
    else if since == 0 then Some(Baseline(db.cursor.version, until))
    else if until <= since || !env.upstreamOk then None
    else PlanWindow(db, env, SubWindowEnd(env.sizing, since, until))
  }

  /** The reporting half of the transaction, shared with backfill: never a balance, never the cursor. */
  function CommitUsage(db: Db, rows: seq<DetailRow>): Db {
    db.(ledger := Posted(db.ledger, rows), detail := InsertIgnore(db.detail, rows))
  }

  /** The transaction. A version that moved since the scan rolls everything back. */
  function CommitPass(db: Db, p: Plan): Db {
    if p.version != db.cursor.version then db
    else
      match p
      case Baseline(_, base) => db.(cursor := Advance(db.cursor, base, 0))
      case Window(_, _, until, maxLogID, rows, env) =>
        CommitUsage(db, rows).(balances := Charge(db.balances, rows, env.dir, env.observe),
                               cursor := Advance(db.cursor, until, maxLogID))
  }

  /** A whole run: nothing is written unless the transaction commits. */
  function RunPass(db: Db, env: PassEnv): Db {
    match PlanPass(db, env)
    case None => db
    case Some(p) => CommitPass(db, p)
  }

  // ----- what one pass guarantees -----

  /** A log already settled is out of reach of the main window: older than the cursor or at or
      below the id watermark. This is what lets the main window skip the detail table. */
  ghost predicate BelowWatermark(c: Cursor, ts: int, id: int) {
    ts < c.ts || id <= c.logID
  }

  ghost predicate RowsFrom(rows: seq<DetailRow>, world: map<int, LogEntry>) {
    forall r | r in rows ::
      && r.logID in world && world[r.logID].quota == r.quota > 0
      && world[r.logID].createdAt == r.logTS
  }

  ghost predicate Settled(c: Cursor, rows: seq<DetailRow>) {
    forall r | r in rows :: BelowWatermark(c, r.logTS, r.logID)
  }

  ghost predicate EnvFrom(env: PassEnv, world: map<int, LogEntry>) {
    PartOf(env.late, world) && PartOf(env.current, world)
  }

  lemma {:induction false} DistinctConcat(a: seq<LogEntry>, b: seq<LogEntry>)
    requires DistinctEntries(a) && DistinctEntries(b)
    requires forall e, f | e in a && f in b :: e.id != f.id
    ensures DistinctEntries(a + b)
  {
    var c := a + b;
    forall i, j | 0 <= i < j < |c| ensures c[i].id != c[j].id {
      if i < |a| <= j {
        assert c[i] in a && c[j] in b;
      }
    }
  }

  lemma {:induction false} LateEntries(db: Db, env: PassEnv, world: map<int, LogEntry>)
    requires EnvFrom(env, world)
    ensures DistinctEntries(LateRead(env, db.cursor.ts))
    ensures forall e | e in LateRead(env, db.cursor.ts) ::
              e.id in world && world[e.id] == e && e.createdAt < db.cursor.ts
  {
  }

  lemma {:induction false} MainEntries(db: Db, env: PassEnv, until: int, world: map<int, LogEntry>)
    requires EnvFrom(env, world) && RowsFrom(db.detail, world) && Settled(db.cursor, db.detail)
    ensures DistinctEntries(MainRead(env, db.cursor.ts, until))
    ensures forall e | e in MainRead(env, db.cursor.ts, until) ::
              && e.id in world && world[e.id] == e && db.cursor.ts <= e.createdAt <= until
              && (e.id > db.cursor.logID ==> e.id !in LogIDs(db.detail))
  {
    forall e | e in MainRead(env, db.cursor.ts, until) && e.id > db.cursor.logID
      ensures e.id !in LogIDs(db.detail)
    {
      forall r | r in db.detail ensures r.logID != e.id {
        assert BelowWatermark(db.cursor, r.logTS, r.logID);
      }
    }
  }

  lemma {:induction false} FreshEntries(db: Db, env: PassEnv, until: int, world: map<int, LogEntry>)
    requires EnvFrom(env, world) && RowsFrom(db.detail, world) && Settled(db.cursor, db.detail)
    ensures DistinctEntries(Fresh(db, env, until))
    ensures forall e | e in Fresh(db, env, until) ::
              && e.quota > 0 && e.id in world && world[e.id] == e && e.id !in LogIDs(db.detail)
              && (e.createdAt < db.cursor.ts || e in MainRead(env, db.cursor.ts, until))
  {
    var late := FreshLate(LateRead(env, db.cursor.ts), LogIDs(db.detail));
    var main := FreshMain(MainRead(env, db.cursor.ts, until), db.cursor.logID);
    LateEntries(db, env, world);
    MainEntries(db, env, until, world);
    FreshLatePicks(LateRead(env, db.cursor.ts), LogIDs(db.detail));
    FreshMainPicks(MainRead(env, db.cursor.ts, until), db.cursor.logID);
    forall e, f | e in late && f in main ensures e.id != f.id {
      assert world[e.id] == e && world[f.id] == f;
    }
    DistinctConcat(late, main);
  }

  /** One scan: its rows repeat no log, none is in the detail table, and after the commit all of
      them lie below the new watermark. */
  lemma {:induction false} PlanIsSound(db: Db, env: PassEnv, world: map<int, LogEntry>)
    requires EnvFrom(env, world) && RowsFrom(db.detail, world) && Settled(db.cursor, db.detail)
    requires PlanPass(db, env).Some? && PlanPass(db, env).value.Window?
    ensures var p := PlanPass(db, env).value;
            && DistinctLogs(p.rows) && LogIDs(p.rows) !! LogIDs(db.detail)
            && RowsFrom(p.rows, world)
            && p.since == db.cursor.ts < p.until && p.maxLogID >= db.cursor.logID
            && Settled(Advance(db.cursor, p.until, p.maxLogID), db.detail + p.rows)
  {
    var p := PlanPass(db, env).value;
    var picked := Fresh(db, env, p.until);
    FreshEntries(db, env, p.until, world);
    MaxIDBounds(MainRead(env, db.cursor.ts, p.until), db.cursor.logID);
    RowsDistinct(env.dir, picked);
    RowsMembership(env.dir, picked);
    var c := Advance(db.cursor, p.until, p.maxLogID);
    forall r | r in p.rows
      ensures r.logID in world && world[r.logID].quota == r.quota > 0 && world[r.logID].createdAt == r.logTS
      ensures r.logID !in LogIDs(db.detail) && BelowWatermark(c, r.logTS, r.logID)
    {
      var e :| e in picked && Attribute(env.dir, e).Some? && r == RowOf(Attribute(env.dir, e).value, e);
    }
  }

  /** The logs a pass has to settle, by what upstream showed and what the tables held: among the newest 500
      of the overlap and without a detail row, or among the newest 2000 of its window and above the id
      watermark. */
  ghost predicate Due(db: Db, env: PassEnv, end: int, e: LogEntry) {
    && e.quota > 0
    && ((e in Newest(Select(env.late, Query(Max(0, db.cursor.ts - 600), db.cursor.ts - 1, None)), 500)
         && e.id !in LogIDs(db.detail))
        || (e in Newest(Select(env.current, Query(db.cursor.ts, end, None)), 2000) && e.id > db.cursor.logID))
  }

  ghost predicate FlagsReadable(db: Db, env: PassEnv, end: int) {
    forall e | Due(db, env, end, e) && Linked(env.dir, e) ::
      (if e.tokenID in env.dir.tokens then env.dir.tokens[e.tokenID].orgID else env.dir.orgs[e.userID]) in env.dir.billing
  }

  lemma {:induction false} LateReadIs(env: PassEnv, ts: int)
    ensures LateRead(env, ts) == Newest(Select(env.late, Query(Max(0, ts - 600), ts - 1, None)), 500)
  {
    assert RESCAN_ROWS == 500 && RescanSince(ts) == Max(0, ts - 600);
  }

  lemma {:induction false} LateIsDue(db: Db, env: PassEnv, e: LogEntry)
    ensures e in FreshLate(LateRead(env, db.cursor.ts), LogIDs(db.detail)) <==>
              && e in Newest(Select(env.late, Query(Max(0, db.cursor.ts - 600), db.cursor.ts - 1, None)), 500)
              && e.quota > 0 && e.id !in LogIDs(db.detail)
  {
    LateReadIs(env, db.cursor.ts);
    FreshLatePicks(LateRead(env, db.cursor.ts), LogIDs(db.detail));
  }

  lemma {:induction false} MainIsDue(db: Db, env: PassEnv, end: int, e: LogEntry)
    ensures e in FreshMain(MainRead(env, db.cursor.ts, end), db.cursor.logID) <==>
              && e in Newest(Select(env.current, Query(db.cursor.ts, end, None)), 2000)
              && e.quota > 0 && e.id > db.cursor.logID
  {
    FreshMainPicks(MainRead(env, db.cursor.ts, end), db.cursor.logID);
  }

  lemma {:induction false} InEither(a: seq<LogEntry>, b: seq<LogEntry>, e: LogEntry)
    ensures e in a + b <==> e in a || e in b
  {
  }

  lemma {:induction false} FreshIsDue(db: Db, env: PassEnv, end: int, e: LogEntry)
    ensures e in Fresh(db, env, end) <==> Due(db, env, end, e)
  {
    LateIsDue(db, env, e);
    MainIsDue(db, env, end, e);
    InEither(FreshLate(LateRead(env, db.cursor.ts), LogIDs(db.detail)),
             FreshMain(MainRead(env, db.cursor.ts, end), db.cursor.logID), e);
  }

  lemma {:induction false} PickedAreDue(db: Db, env: PassEnv, end: int)
    ensures forall e :: e in Fresh(db, env, end) <==> Due(db, env, end, e)
    ensures FlagsKnown(env.dir, Fresh(db, env, end)) <==> FlagsReadable(db, env, end)
  {
    forall e ensures e in Fresh(db, env, end) <==> Due(db, env, end, e) {
      FreshIsDue(db, env, end, e);
    }
  }

  /** The id watermark is the largest id read in the window, or the old one. */
  ghost predicate WatermarkRises(env: PassEnv, c: Cursor, c': Cursor) {
    var read := Newest(Select(env.current, Query(c.ts, c'.ts, None)), 2000);
    && c'.logID >= c.logID && (forall e | e in read :: e.id <= c'.logID)
    && (c'.logID == c.logID || exists e :: e in read && e.id == c'.logID)
  }

  /** The first pass ever only sets its baseline; who is not leader does nothing. */
  lemma {:induction false} FirstPassSetsBaseline(db: Db, env: PassEnv)
    ensures !env.leader ==> RunPass(db, env) == db
    ensures env.leader && db.cursor.ts == 0 ==>
              RunPass(db, env) == db.(cursor := Cursor(Max(0, env.now - 5), Max(db.cursor.logID, 0), db.cursor.version + 1))
  {
  }

  lemma {:induction false} WatermarkIs(env: PassEnv, c: Cursor, end: int, version: int)
    ensures WatermarkRises(env, c, Cursor(end, MaxID(MainRead(env, c.ts, end), c.logID), version))
  {
    MaxIDBounds(MainRead(env, c.ts, end), c.logID);
  }

  /** When a later pass has something to commit, and what. */
  lemma {:induction false} PlanIs(db: Db, env: PassEnv, end: int)
    requires env.leader && db.cursor.ts != 0 && env.now - 5 > db.cursor.ts
    requires end == SubWindowEnd(env.sizing, db.cursor.ts, env.now - 5)
    ensures PlanPass(db, env).Some? <==> env.upstreamOk && FlagsReadable(db, env, end)
    ensures PlanPass(db, env).Some? ==>
              var plan := PlanPass(db, env).value;
              plan.Window? && plan.version == db.cursor.version && plan.until == end
              && plan.maxLogID == MaxID(MainRead(env, db.cursor.ts, end), db.cursor.logID)
  {
    PickedAreDue(db, env, end);
  }

  lemma {:induction false} CommitMovesCursor(db: Db, plan: Plan)
    requires plan.Window? && plan.version == db.cursor.version
    ensures CommitPass(db, plan).cursor == Advance(db.cursor, plan.until, plan.maxLogID)
  {
  }

  /** Every later pass commits exactly when its window is not empty, upstream answers and every billing flag
      it needs can be read, observed or not. It ends 5 seconds before now if that can be read whole, and
      otherwise where the bisection ends. */
  lemma {:induction false} PassMovesCursor(db: Db, env: PassEnv)
    requires env.leader && db.cursor.ts != 0
    ensures var c, c', until := db.cursor, RunPass(db, env).cursor, env.now - 5;
            && (until <= c.ts ==> RunPass(db, env) == db)
            && (until > c.ts ==>
                  var end := SubWindowEnd(env.sizing, c.ts, until);
                  if env.upstreamOk && FlagsReadable(db, env, end)
                  then c'.ts == end && c'.version == c.version + 1 && WatermarkRises(env, c, c')
                       && (!Overflows(env.sizing, c.ts, until) ==> c'.ts == until)
                  else RunPass(db, env) == db)
  {
    var c, until := db.cursor, env.now - 5;
    if until > c.ts {
      var end := SubWindowEnd(env.sizing, c.ts, until);
      PlanIs(db, env, end);
      if PlanPass(db, env).Some? {
        var plan := PlanPass(db, env).value;
        CommitMovesCursor(db, plan);
        MaxIDBounds(MainRead(env, c.ts, end), c.logID);
        WatermarkIs(env, c, end, c.version + 1);
        assert RunPass(db, env).cursor == Cursor(end, plan.maxLogID, c.version + 1);
        SubWindowIsWidest(env.sizing, c.ts, until);
      }
    } else {
      assert PlanPass(db, env).None?;
    }
  }

  /** Exactly which logs a committed pass settles: those due that somebody is charged for, each with a row
      that says who. */
  lemma {:induction false} PassSettlesExactly(db: Db, env: PassEnv, e: LogEntry, world: map<int, LogEntry>)
    requires EnvFrom(env, world) && RowsFrom(db.detail, world) && Settled(db.cursor, db.detail)
    requires db.cursor.ts != 0 && RunPass(db, env) != db
    requires e.id in world && world[e.id] == e && e.id !in LogIDs(db.detail)
    ensures var db' := RunPass(db, env);
            && (e.id in LogIDs(db'.detail) <==> Due(db, env, db'.cursor.ts, e) && Linked(env.dir, e))
            && (e.id in LogIDs(db'.detail) ==> exists r :: r in db'.detail && RowTells(r, e, env.dir))
  {
    var p := PlanPass(db, env).value;
    var picked := Fresh(db, env, p.until);
    PlanIsSound(db, env, world);
    NothingIgnored(db.detail, p.rows);
    assert RunPass(db, env).detail == db.detail + p.rows;
    PickedAreDue(db, env, p.until);
    FreshEntries(db, env, p.until, world);
    RowsMembership(env.dir, picked);
    AttributedRight(env.dir, e);
    if e in picked && Attribute(env.dir, e).Some? {
      assert RowOf(Attribute(env.dir, e).value, e) in p.rows;
    }
    if e.id in LogIDs(p.rows) {
      var r :| r in p.rows && r.logID == e.id;
      var e' :| e' in picked && Attribute(env.dir, e').Some? && r == RowOf(Attribute(env.dir, e').value, e');
      assert world[e'.id] == e';
    }
  }
}
