/** The backfill code: window bisection, page reading outside the mutex, the filtered write under
    it, and the slice that a worker tick runs. */
module Backfill {
  import opened Prelude
  import opened UsageLogs
  import opened UsageTables
  import opened SettlementPlan
  import opened BackfillPlan
  import opened Settlement

  class BackfillService {
    const svc: Service
    const store: Store

    constructor (svc: Service)
      ensures this.svc == svc && store == svc.store
    {
      this.svc, store := svc, svc.store;
    }

    /** Snapshot the forward cursor as the boundary; a cursor never set is first given its baseline. */
    method EnqueueBackfill(org: int, userID: int, username: string, env: PassEnv) returns (ok: bool)
      requires svc.store == store
      modifies store
      ensures username == "" ==> !ok && store.Contents() == old(store.Contents())
      ensures username != "" ==>
                var db := if old(store.cursor.ts) == 0 then RunPass(old(store.Contents()), env) else old(store.Contents());
                && ok == (db.cursor.ts != 0)
                && store.Contents() == if ok then InsertJob(db, org, userID, username, db.cursor) else db
      ensures ok && org !in old(store.jobs) ==>
                org in store.jobs
                && store.jobs[org] == Job(userID, username, store.cursor.ts, store.cursor.logID, store.cursor.ts, Pending)
    {
      if username == "" {
        return false;
      }
      if store.cursor.ts == 0 {
        var ran := svc.RunSettlement(env);
        if store.cursor.ts == 0 {
          return false;
        }
      }
      store.InsertBackfillJob(org, userID, username, store.cursor);
      return true;
    }

    method BackfillLowerBound(v: View, user: string, hi: int) returns (lo: int)
      requires 0 <= hi
      ensures lo == LowerBound(v, user, hi)
    {
      lo := 0;
      while true
        invariant 0 <= lo <= hi
        invariant LowerBoundFrom(v, user, lo, hi) == LowerBound(v, user, hi)
        decreases hi - lo
      {
        var (_, total) := ReadPage(v, ByUser(user, lo, hi), 1);
        if total <= WINDOW_ROWS {
          return;
        }
        if lo >= hi - 1 {
          return;
        }
        lo := hi - (hi - lo) / 2;
      }
    }

    method KeepEntries(read: seq<LogEntry>, job: Job) returns (keep: seq<LogEntry>)
      ensures keep == Keep(read, job)
    {
      keep := [];
      var i := 0;
      while i < |read|
        invariant 0 <= i <= |read| && keep == Keep(read[..i], job)
      {
        assert read[..i + 1][..i] == read[..i];
        if Kept(read[i], job) {
          keep := keep + [read[i]];
        }
        i := i + 1;
      }
      assert read[..i] == read;
    }

    method SkipExisting(keep: seq<LogEntry>) returns (todo: seq<LogEntry>)
      ensures todo == Unsettled(keep, LogIDs(store.detail))
    {
      var ids := seq(|keep|, i requires 0 <= i < |keep| => keep[i].id);
      var existing := store.FilterExistingDetailLogIDs(ids);
      todo := [];
      var i := 0;
      while i < |keep|
        invariant 0 <= i <= |keep| && todo == Unsettled(keep[..i], LogIDs(store.detail))
      {
        assert keep[..i + 1][..i] == keep[..i];
        assert ids[i] == keep[i].id && ids[i] in ids;
        if keep[i].id !in existing {
          todo := todo + [keep[i]];
        }
        i := i + 1;
      }
      assert keep[..i] == keep;
    }

    /** Deduplicate, group and post in one transaction, under the mutex. */
    method WriteKept(keep: seq<LogEntry>, dir: Directory)
      requires svc.store == store
      modifies store`ledger, store`detail
      ensures store.Contents() == WriteWindow(old(store.Contents()), keep, dir)
    {
      var todo := SkipExisting(keep);
      var sk := new SettleSink(true);
      var ok := sk.IngestAll(dir, todo);
      assert sk.details == BackfillRows(store.Contents(), keep, dir);
      if sk.details == [] {
        assert Posted(store.ledger, []) == store.ledger;
        return;
      }
      svc.CommitUsageOnly(sk.aggs, sk.details, sk.names);
    }

    /** One window [lo, hi]; on failure nothing was written. */
    method BackfillOneWindow(job: Job, hi: int, env: WindowEnv) returns (ok: bool, lo: int)
      requires svc.store == store && 0 <= hi
      modifies store`ledger, store`detail
      ensures ok == (env.readOk && (Keep(WindowRead(env.view, job.username, LowerBound(env.view, job.username, hi), hi), job) == []
                                    || env.writeOk))
      ensures !ok ==> store.Contents() == old(store.Contents())
      ensures ok ==> lo == LowerBound(env.view, job.username, hi)
      ensures ok ==> var keep := Keep(WindowRead(env.view, job.username, lo, hi), job);
                     store.Contents() == if keep == [] then old(store.Contents())
                                         else WriteWindow(old(store.Contents()), keep, env.dir)
    {
      lo := hi;
      if !env.readOk {
        return false, lo;
      }
      lo := BackfillLowerBound(env.view, job.username, hi);
      var read := ReadPages(env.view, ByUser(job.username, lo, hi), MAX_PAGES);
      var keep := KeepEntries(read, job);
      if |keep| == 0 {
        return true, lo;
      }
      if !env.writeOk {
        return false, lo;
      }
      WriteKept(keep, env.dir);
      return true, lo;
    }

    /** The windows of a tick, from `hi` down; false when one fails. */
    method SliceLoop(org: int, job: Job, start: int, envs: seq<WindowEnv>) returns (ok: bool)
      requires svc.store == store && org in store.jobs
      modifies store
      ensures store.Contents() == Slice(old(store.Contents()), org, job, start, envs)
      ensures ok == SliceOk(job, start, envs)
    {
      var hi, windows := start, 0;
      while hi > 0 && windows < |envs|
        invariant 0 <= windows <= |envs| && org in store.jobs
        invariant Slice(store.Contents(), org, job, hi, envs[windows..]) == Slice(old(store.Contents()), org, job, start, envs)
        invariant SliceOk(job, hi, envs[windows..]) == SliceOk(job, start, envs)
      {
        var env := envs[windows];
        assert envs[windows..][0] == env && envs[windows..][1..] == envs[windows + 1..];
        var lo;
        ok, lo := BackfillOneWindow(job, hi, env);
        if !ok || !env.progressOk {
          return false;
        }
        hi := lo - 1;
        store.UpdateBackfillProgress(org, hi);
        windows := windows + 1;
      }
      if hi <= 0 {
        store.SetBackfillStatus(org, Done);
      }
      return true;
    }

    /** One tick: at most |envs| windows of one unfinished job, if there is any. */
    method RunBackfillSlice(leader: bool, envs: seq<WindowEnv>) returns (ok: bool, ghost org: Option<int>)
      requires svc.store == store
      modifies store
      ensures org.None? <==> !leader || forall o | o in old(store.jobs) :: old(store.jobs)[o].status == Done
      ensures org.None? ==> ok && store.Contents() == old(store.Contents())
      ensures org.Some? ==> org.value in old(store.jobs) && old(store.jobs)[org.value].status != Done
                            && store.Contents() == RunSlice(old(store.Contents()), org.value, envs)
                            && ok == SliceOk(old(store.jobs)[org.value], old(store.jobs)[org.value].cursorTS, envs)
    {
      org := None;
      if !leader {
        return true, None;
      }
      var picked := store.NextBackfillJob();
      if picked.None? {
        return true, None;
      }
      org := picked;
      var o := picked.value;
      var job := store.jobs[o];
      if job.status == Pending {
        store.SetBackfillStatus(o, Running);
      }
      ok := SliceLoop(o, job, job.cursorTS, envs);
    }
  }
}
