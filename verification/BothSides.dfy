/** Forward settlement and backfill together: a boundary is never older than the baseline, so every log
    of a backfilled organisation is on a side that somebody covers. */
module BothSides {
  import opened UsageLogs
  import opened UsageTables
  import opened SettlementPlan
  import opened BackfillPlan
  import opened Ingestion
  import opened IngestionGuarantees
  import opened BackfillCoverage

  /** Where forward settlement began: the start of the first committed pass, or where it will be. */
  function BaseTS(s: Sys): int { if |s.committed| == 0 then s.db.cursor.ts else s.committed[0].since }

  ghost predicate BoundariesAfterBase(s: Sys) {
    && BaseTS(s) <= s.db.cursor.ts
    && (forall o | o in s.db.jobs :: BaseTS(s) <= s.db.jobs[o].boundaryTS)
    && (forall o | o in s.enqueues :: BaseTS(s) <= s.enqueues[o].ts)
  }

  /** Before the baseline there is nothing to bound. */
  lemma {:induction false} NothingBeforeBaseline(s: Sys)
    requires BoundariesOk(s) && s.db.cursor.ts == 0
    ensures s.db.jobs == map[] && s.enqueues == map[]
  {
    assert forall o | o in s.db.jobs :: Reached(s.db.jobs[o].boundaryTS, s.db.jobs[o].boundaryLogID, s.db.cursor);
    assert forall o | o in s.enqueues :: Reached(s.enqueues[o].ts, s.enqueues[o].logID, s.db.cursor);
  }

  lemma {:induction false} CommitKeepsBase(s: Sys, pid: int, world: map<int, LogEntry>)
    requires Core(s, world) && BoundariesAfterBase(s)
    ensures BoundariesAfterBase(Apply(s, Commit(pid)))
  {
    if pid in s.passes && s.passes[pid].version == s.db.cursor.version {
      var p, s' := s.passes[pid], Apply(s, Commit(pid));
      assert PlanOk(p, s, world);
      if s.db.cursor.ts == 0 {
        NothingBeforeBaseline(s);
      }
      if p.Window? {
        assert BaseTS(s') == BaseTS(s);
      }
    }
  }

  lemma {:induction false} OthersKeepBase(s: Sys, s': Sys)
    requires BoundariesAfterBase(s) && s'.db.cursor == s.db.cursor && s'.committed == s.committed
    requires forall o | o in s'.db.jobs :: BoundFrom(s, o, s'.db.jobs[o].boundaryTS)
    requires forall o | o in s'.enqueues :: (o in s.enqueues && s'.enqueues[o] == s.enqueues[o]) || s'.enqueues[o] == s.db.cursor
    ensures BoundariesAfterBase(s')
  {
  }

  /** A boundary is an earlier one, or one that was read for this organisation. */
  ghost predicate BoundFrom(s: Sys, o: int, ts: int) {
    (o in s.db.jobs && s.db.jobs[o].boundaryTS == ts) || (o in s.enqueues && s.enqueues[o].ts == ts)
  }

  lemma {:induction false} JobStepBounds(s: Sys, a: Action)
    requires JobStep(a)
    ensures var s' := Apply(s, a);
            && (forall o | o in s'.db.jobs :: BoundFrom(s, o, s'.db.jobs[o].boundaryTS))
            && (forall o | o in s'.enqueues :: o in s.enqueues && s'.enqueues[o] == s.enqueues[o])
  {
  }

  lemma {:induction false} WorkerStepBounds(s: Sys, a: Action)
    requires WorkerStep(a)
    ensures var s' := Apply(s, a);
            && (forall o | o in s'.db.jobs :: BoundFrom(s, o, s'.db.jobs[o].boundaryTS))
            && s'.enqueues == s.enqueues
  {
  }

  lemma {:induction false} OtherStepBounds(s: Sys, a: Action)
    requires !JobStep(a) && !WorkerStep(a) && !a.Commit?
    ensures var s' := Apply(s, a);
            && s'.db.jobs == s.db.jobs
            && (forall o | o in s'.enqueues ::
                  (o in s.enqueues && s'.enqueues[o] == s.enqueues[o]) || s'.enqueues[o] == s.db.cursor)
  {
  }

  lemma {:induction false} StepKeepsBase(s: Sys, a: Action, world: map<int, LogEntry>)
    requires Core(s, world) && BoundariesAfterBase(s)
    ensures BoundariesAfterBase(Apply(s, a))
  {
    if a.Commit? {
      CommitKeepsBase(s, a.pid, world);
    } else {
      OnlyCommitsMoveTheCursor(s, a);
      if JobStep(a) {
        JobStepBounds(s, a);
      } else if WorkerStep(a) {
        WorkerStepBounds(s, a);
      } else {
        OtherStepBounds(s, a);
      }
      OthersKeepBase(s, Apply(s, a));
    }
  }

  lemma {:induction false} RunKeepsBase(actions: seq<Action>, world: map<int, LogEntry>)
    requires RunFrom(actions, world)
    ensures BoundariesAfterBase(Exec(Init(), actions))
  {
    if |actions| > 0 {
      RunKeepsCore(actions[..|actions| - 1], world);
      RunKeepsBase(actions[..|actions| - 1], world);
      StepKeepsBase(Exec(Init(), actions[..|actions| - 1]), actions[|actions| - 1], world);
    }
  }

  /** Some committed pass starts after the log, and the first such pass showed it, in a rescan that
      fitted, to a directory that links it. The pass whose own window holds the log need not have known
      the organisation: it may have been in flight when the boundary was read. */
  ghost predicate ShownForward(s: Sys, e: LogEntry) {
    && |s.committed| > 0 && e.createdAt < s.committed[|s.committed| - 1].since
    && forall k | FirstPassAfter(s, k, e.createdAt) ::
         && s.committed[k - 1].until - s.committed[k - 1].since <= 600
         && |Select(s.committed[k].env.late, Overlap(s.committed[k].since))| <= 500
         && e in s.committed[k].env.late && Linked(s.committed[k].env.dir, e)
  }

  predicate BackfillSide(e: LogEntry, job: Job) {
    e.createdAt < job.boundaryTS || (e.createdAt == job.boundaryTS && e.id <= job.boundaryLogID)
  }

  /** Over every run: once an organisation's backfill is done, each positive log of its user from second
      1 on, shown and linked on its own side of the boundary, has its detail row. */
  lemma {:induction false} NoGapAtTheBoundary(actions: seq<Action>, world: map<int, LogEntry>, org: int, e: LogEntry)
    requires RunFrom(actions, world)
    requires var s := Exec(Init(), actions);
             && org in s.db.jobs && s.db.jobs[org].status == Done && org in s.windows
             && e.username == s.db.jobs[org].username && e.userID == s.db.jobs[org].userID
             && e.quota > 0 && e.createdAt >= 1
             && if BackfillSide(e, s.db.jobs[org]) then ShownToItsWindow(s.windows[org], e) else ShownForward(s, e)
    ensures e.id in LogIDs(Exec(Init(), actions).db.detail)
  {
    var s := Exec(Init(), actions);
    if BackfillSide(e, s.db.jobs[org]) {
      DoneMeansCovered(actions, org, e);
    } else {
      RunKeepsBase(actions, world);
      var k := FirstPassExists(s.committed, e.createdAt);
      assert FirstPassAfter(s, k, e.createdAt);
      AtLeastOnce(actions, world, k, e);
    }
  }
}
