/** The calls of the code are runs of the step machine: what is proved of all runs holds of every
    interleaving of whole calls too. */
module IngestionCalls {
  import opened UsageTables
  import opened SettlementPlan
  import opened BackfillPlan
  import opened Ingestion

  lemma {:induction false} ExecAppend(s: Sys, a: seq<Action>, b: seq<Action>)
    ensures Exec(s, a + b) == Exec(Exec(s, a), b)
  {
    if |b| == 0 {
      assert a + b == a;
    } else {
      assert (a + b)[..|a + b| - 1] == a + b[..|b| - 1];
      ExecAppend(s, a, b[..|b| - 1]);
    }
  }

  lemma {:induction false} ExecOne(s: Sys, a: Action)
    ensures Exec(s, [a]) == Apply(s, a)
  {
    assert [a][..0] == [];
    assert Exec(s, [a][..0]) == s;
  }

  lemma {:induction false} ExecCons(s: Sys, a: Action, rest: seq<Action>)
    ensures Exec(s, [a] + rest) == Exec(Apply(s, a), rest)
  {
    ExecAppend(s, [a], rest);
    ExecOne(s, a);
  }

  /** A settlement run is a scan followed by its commit. */
  lemma {:induction false} PassIsRun(s: Sys, pid: int, env: PassEnv)
    requires pid !in s.passes
    ensures Exec(s, [Scan(pid, env), Commit(pid)]).db == RunPass(s.db, env)
  {
    assert [Scan(pid, env), Commit(pid)] == [Scan(pid, env)] + [Commit(pid)];
    ExecCons(s, Scan(pid, env), [Commit(pid)]);
    ExecOne(Apply(s, Scan(pid, env)), Commit(pid));
  }

  function SliceSteps(job: Job, hi: int, envs: seq<WindowEnv>): seq<Action>
    decreases |envs|
  {
    if hi <= 0 || |envs| == 0 || !envs[0].readOk then [EndSlice]
    else
      var env := envs[0];
      var lo := LowerBound(env.view, job.username, hi);
      var keep := Keep(WindowRead(env.view, job.username, lo, hi), job);
      if keep != [] && !env.writeOk then [ReadWindow(env.view), EndSlice]
      else if !env.progressOk then [ReadWindow(env.view), Write(env.dir), EndSlice]
      else [ReadWindow(env.view), Write(env.dir), RecordProgress] + SliceSteps(job, lo - 1, envs[1..])
  }

  lemma {:induction false} WindowIsRun(s: Sys, org: int, job: Job, hi: int, env: WindowEnv)
    requires s.worker == Slicing(org, job, hi) && hi > 0 && s.passes == map[]
    requires org in s.db.jobs && org in s.windows
    ensures var lo := LowerBound(env.view, job.username, hi);
            var keep := Keep(WindowRead(env.view, job.username, lo, hi), job);
            var s1 := Apply(Apply(s, ReadWindow(env.view)), Write(env.dir));
            && s1.worker == Written(org, job, WindowRecord(lo, hi, env.view, env.dir))
            && s1.db == (if keep == [] then s.db else WriteWindow(s.db, keep, env.dir))
            && s1.passes == map[] && s1.windows == s.windows
  {
  }

  lemma {:induction false} SplitTwo(a: Action, b: Action, rest: seq<Action>)
    ensures [a, b] + rest == [a] + ([b] + rest)
  {
  }

  lemma {:induction false} ExecConsTwo(s: Sys, a: Action, b: Action, rest: seq<Action>)
    ensures Exec(s, [a, b] + rest) == Exec(Apply(Apply(s, a), b), rest)
  {
    SplitTwo(a, b, rest);
    ExecCons(s, a, [b] + rest);
    ExecCons(Apply(s, a), b, rest);
  }

  lemma {:induction false} FailedWrite(s: Sys, env: WindowEnv)
    ensures Exec(s, [ReadWindow(env.view), EndSlice]) == Apply(Apply(s, ReadWindow(env.view)), EndSlice)
  {
    assert [ReadWindow(env.view), EndSlice] == [ReadWindow(env.view)] + [EndSlice];
    ExecCons(s, ReadWindow(env.view), [EndSlice]);
    ExecOne(Apply(s, ReadWindow(env.view)), EndSlice);
  }

  ghost predicate InSlice(s: Sys, org: int, job: Job, hi: int) {
    && s.worker == Slicing(org, job, hi) && s.passes == map[]
    && org in s.db.jobs && org in s.windows
  }

  /** The window is written but its progress is not recorded. */
  lemma {:induction false} SliceBreaksOff(s: Sys, org: int, job: Job, hi: int, env: WindowEnv)
    requires InSlice(s, org, job, hi) && hi > 0
    ensures Exec(s, [ReadWindow(env.view), Write(env.dir), EndSlice]).db
         == Apply(Apply(s, ReadWindow(env.view)), Write(env.dir)).db
  {
    assert [ReadWindow(env.view), Write(env.dir), EndSlice] == [ReadWindow(env.view), Write(env.dir)] + [EndSlice];
    ExecConsTwo(s, ReadWindow(env.view), Write(env.dir), [EndSlice]);
    WindowIsRun(s, org, job, hi, env);
    ExecOne(Apply(Apply(s, ReadWindow(env.view)), Write(env.dir)), EndSlice);
  }

  lemma {:induction false} ExecConsThree(s: Sys, a: Action, b: Action, c: Action, rest: seq<Action>)
    ensures Exec(s, [a, b, c] + rest) == Exec(Apply(Apply(Apply(s, a), b), c), rest)
  {
    assert [a, b, c] + rest == [a, b] + ([c] + rest);
    ExecConsTwo(s, a, b, [c] + rest);
    ExecCons(Apply(Apply(s, a), b), c, rest);
  }

  /** Recording the progress of a written window. */
  lemma {:induction false} ProgressIs(s: Sys, org: int, job: Job, win: WindowRecord)
    requires s.worker == Written(org, job, win) && s.passes == map[] && org in s.db.jobs && org in s.windows
    ensures var s' := Apply(s, RecordProgress);
            InSlice(s', org, job, win.lo - 1) && s'.db == SetProgress(s.db, org, win.lo - 1)
  {
  }

  /** The window is written and recorded: the slice stands one window further down. */
  lemma {:induction false} SliceGoesOn(s: Sys, org: int, job: Job, hi: int, env: WindowEnv)
    requires InSlice(s, org, job, hi) && hi > 0
    ensures var s1 := Apply(Apply(s, ReadWindow(env.view)), Write(env.dir));
            var s2, lo := Apply(s1, RecordProgress), LowerBound(env.view, job.username, hi);
            InSlice(s2, org, job, lo - 1) && s2.db == SetProgress(s1.db, org, lo - 1)
  {
    WindowIsRun(s, org, job, hi, env);
    var s1 := Apply(Apply(s, ReadWindow(env.view)), Write(env.dir));
    assert org in s1.db.jobs;
    ProgressIs(s1, org, job, s1.worker.win);
  }

  function NextBound(job: Job, hi: int, env: WindowEnv): int
    requires hi >= 0
  {
    LowerBound(env.view, job.username, hi)
  }

  /** The window's read or write fails. */
  predicate Fails(job: Job, hi: int, env: WindowEnv)
    requires hi >= 0
  {
    !env.readOk || (Keep(WindowRead(env.view, job.username, NextBound(job, hi, env), hi), job) != [] && !env.writeOk)
  }

  function AfterWindow(s: Sys, env: WindowEnv): Sys {
    Apply(Apply(Apply(s, ReadWindow(env.view)), Write(env.dir)), RecordProgress)
  }

  /** A slice that ends at once, or with its first window. */
  lemma {:induction false} SliceEnds(s: Sys, org: int, job: Job, hi: int, envs: seq<WindowEnv>)
    requires InSlice(s, org, job, hi)
    requires hi <= 0 || |envs| == 0 || Fails(job, hi, envs[0]) || !envs[0].progressOk
    ensures Exec(s, SliceSteps(job, hi, envs)).db == Slice(s.db, org, job, hi, envs)
  {
    if hi <= 0 || |envs| == 0 || !envs[0].readOk {
      ExecOne(s, EndSlice);
    } else if Fails(job, hi, envs[0]) {
      FailedWrite(s, envs[0]);
    } else {
      WindowIsRun(s, org, job, hi, envs[0]);
      SliceBreaksOff(s, org, job, hi, envs[0]);
    }
  }

  /** A slice whose first window succeeds is that window and the rest of the slice. */
  lemma {:induction false} SliceContinues(s: Sys, org: int, job: Job, hi: int, envs: seq<WindowEnv>)
    requires InSlice(s, org, job, hi) && hi > 0 && |envs| > 0 && !Fails(job, hi, envs[0]) && envs[0].progressOk
    ensures var s2, next := AfterWindow(s, envs[0]), NextBound(job, hi, envs[0]) - 1;
            && InSlice(s2, org, job, next)
            && Exec(s, SliceSteps(job, hi, envs)) == Exec(s2, SliceSteps(job, next, envs[1..]))
            && Slice(s.db, org, job, hi, envs) == Slice(s2.db, org, job, next, envs[1..])
  {
    var env, next := envs[0], NextBound(job, hi, envs[0]) - 1;
    WindowIsRun(s, org, job, hi, env);
    SliceGoesOn(s, org, job, hi, env);
    ExecConsThree(s, ReadWindow(env.view), Write(env.dir), RecordProgress, SliceSteps(job, next, envs[1..]));
  }

  lemma {:induction false} SliceIsRun(s: Sys, org: int, job: Job, hi: int, envs: seq<WindowEnv>)
    requires InSlice(s, org, job, hi)
    ensures Exec(s, SliceSteps(job, hi, envs)).db == Slice(s.db, org, job, hi, envs)
    decreases |envs|
  {
    if hi <= 0 || |envs| == 0 || Fails(job, hi, envs[0]) || !envs[0].progressOk {
      SliceEnds(s, org, job, hi, envs);
    } else {
      SliceContinues(s, org, job, hi, envs);
      SliceIsRun(AfterWindow(s, envs[0]), org, job, NextBound(job, hi, envs[0]) - 1, envs[1..]);
    }
  }

  /** A worker tick, errors included, is a run of the machine, when the mutex is free at its writes. */
  lemma {:induction false} TickIsRun(s: Sys, org: int, envs: seq<WindowEnv>)
    requires s.worker.Idle? && s.passes == map[]
    requires org in s.db.jobs && org in s.windows && s.db.jobs[org].status != Done
    ensures var job := s.db.jobs[org];
            Exec(s, [TakeJob(org), MarkRunning] + SliceSteps(job, job.cursorTS, envs)).db == RunSlice(s.db, org, envs)
  {
    var job := s.db.jobs[org];
    var steps := SliceSteps(job, job.cursorTS, envs);
    assert [TakeJob(org), MarkRunning] + steps == [TakeJob(org)] + ([MarkRunning] + steps);
    ExecCons(s, TakeJob(org), [MarkRunning] + steps);
    var s0 := Apply(s, TakeJob(org));
    ExecCons(s0, MarkRunning, steps);
    SliceIsRun(Apply(s0, MarkRunning), org, job, job.cursorTS, envs);
  }
}
