/** The single exit to the upstream: breaker fields changed in place, and the retry loop that says
    after each request how it went. The loop is proved to be a run of the breaker machine. */
module UpstreamClient {
  import opened CircuitBreaker

  class Cell {
    const cfg: Config
    var state: BreakerState
    var consecFails: int
    var openedAt: int
    var probing: bool

    constructor (cfg: Config)
      ensures this.cfg == cfg && Value() == Fresh()
    {
      this.cfg := cfg;
      state, consecFails, openedAt, probing := Closed, 0, 0, false;
    }

    function Value(): Breaker
      reads this
    {
      Breaker(state, consecFails, openedAt, probing)
    }

    method TryAllow(now: int) returns (ok: bool)
      modifies this
      ensures (Value(), ok) == Allow(cfg, old(Value()), now)
    {
      match state
      case Closed =>
        return true;
      case Open =>
        if now - openedAt >= cfg.cooldown {
          state := HalfOpen;
          probing := true;
          return true;
        }
        return false;
      case HalfOpen =>
        if probing {
          return false;
        }
        probing := true;
        return true;
    }

    method Succeeded()
      modifies this
      ensures Value() == OnSuccess(old(Value()))
    {
      consecFails := 0;
      state := Closed;
      probing := false;
    }

    method Aborted()
      modifies this
      ensures Value() == ProbeAbort(old(Value()))
    {
      probing := false;
    }

    method Failed(now: int)
      modifies this
      ensures Value() == OnFailure(cfg, old(Value()), now)
    {
      consecFails := consecFails + 1;
      probing := false;
      if state == HalfOpen {
        state := Open;
        openedAt := now;
        return;
      }
      if consecFails >= cfg.threshold {
        state := Open;
        openedAt := now;
      }
    }
  }

  /** How one request goes: how long it takes, whether it is worth a retry, and whether the caller
      outlives the backoff after it. */
  datatype Try = Try(took: nat, retryable: bool, outlives: bool, backoff: nat)

  /** What a call meets: the limiter, its own body, and its requests; a call that runs out of listed
      requests gets an answer. */
  datatype Fortune = Fortune(limitOk: bool, bodyOk: bool, tries: seq<Try>)

  datatype Result = Refused | Aborted | BadBody | Answered | Failed

  function NthTry(f: Fortune, n: nat): Try { if n < |f.tries| then f.tries[n] else Try(0, false, true, 0) }

  /** The steps of a call from its nth request on. */
  function TrySteps(cfg: Config, c: int, f: Fortune, n: nat): seq<Step>
    decreases cfg.attempts - n
  {
    var t := NthTry(f, n);
    if !t.retryable then [Tick(t.took), Answer(c)]
    else if n + 1 >= cfg.attempts then [Tick(t.took), Fail(c)]
    else if !t.outlives then [Tick(t.took), Fail(c), Tick(t.backoff), GiveUp(c)]
    else [Tick(t.took), Fail(c), Tick(t.backoff), Resume(c)] + TrySteps(cfg, c, f, n + 1)
  }

  /** How the requests of a call end, from the nth on. */
  function TriesResult(cfg: Config, f: Fortune, n: nat): (r: Result)
    ensures r == Answered || r == Failed
    decreases cfg.attempts - n
  {
    if !NthTry(f, n).retryable then Answered
    else if n + 1 >= cfg.attempts || !NthTry(f, n).outlives then Failed
    else TriesResult(cfg, f, n + 1)
  }

  function CallResult(cfg: Config, allowed: bool, f: Fortune): Result {
    if !allowed then Refused
    else if !f.limitOk then Aborted
    else if !f.bodyOk then BadBody
    else TriesResult(cfg, f, 0)
  }

  predicate GoesOn(f: Fortune, n: nat) { NthTry(f, n).retryable && NthTry(f, n).outlives }

  function Failures(steps: seq<Step>): nat {
    if |steps| == 0 then 0 else Failures(steps[..|steps| - 1]) + if steps[|steps| - 1].Fail? then 1 else 0
  }

  function Answers(steps: seq<Step>): nat {
    if |steps| == 0 then 0 else Answers(steps[..|steps| - 1]) + if steps[|steps| - 1].Answer? then 1 else 0
  }

  lemma {:induction false} ReportsAppend(a: seq<Step>, b: seq<Step>)
    ensures Failures(a + b) == Failures(a) + Failures(b) && Answers(a + b) == Answers(a) + Answers(b)
  {
    if |b| == 0 {
      assert a + b == a;
    } else {
      assert (a + b)[..|a + b| - 1] == a + b[..|b| - 1];
      ReportsAppend(a, b[..|b| - 1]);
    }
  }

  lemma {:induction false} ReportsLast(steps: seq<Step>, a: Step)
    ensures Failures(steps + [a]) == Failures(steps) + if a.Fail? then 1 else 0
    ensures Answers(steps + [a]) == Answers(steps) + if a.Answer? then 1 else 0
  {
    assert (steps + [a])[..|steps|] == steps;
  }

  lemma {:induction false} ReportsOfTwo(a: Step, b: Step)
    requires a.Tick?
    ensures Failures([a, b]) == (if b.Fail? then 1 else 0) && Answers([a, b]) == if b.Answer? then 1 else 0
  {
    ReportsLast([], a);
    ReportsLast([a], b);
    assert [] + [a] == [a] && [a] + [b] == [a, b];
  }

  lemma {:induction false} ReportsOfFour(a: Step, b: Step, c: Step, d: Step)
    requires a.Tick? && b.Fail? && c.Tick? && (d.GiveUp? || d.Resume?)
    ensures Failures([a, b, c, d]) == 1 && Answers([a, b, c, d]) == 0
  {
    ReportsOfTwo(a, b);
    ReportsLast([a, b], c);
    ReportsLast([a, b, c], d);
    assert [a, b] + [c] == [a, b, c] && [a, b, c] + [d] == [a, b, c, d];
  }

  /** A call makes requests until one is answered, the caller gives up or the attempts are used up, and
      reports every one: the last is request k, the kth after the first. */
  lemma {:induction false} TriesReport(cfg: Config, c: int, f: Fortune, n: nat) returns (k: nat)
    requires n < cfg.attempts
    ensures n <= k < cfg.attempts && (forall j | n <= j < k :: GoesOn(f, j)) && (!GoesOn(f, k) || k + 1 == cfg.attempts)
    ensures TriesResult(cfg, f, n) == if NthTry(f, k).retryable then Failed else Answered
    ensures Failures(TrySteps(cfg, c, f, n)) == k - n + if NthTry(f, k).retryable then 1 else 0
    ensures Answers(TrySteps(cfg, c, f, n)) == if NthTry(f, k).retryable then 0 else 1
    decreases cfg.attempts - n
  {
    var t := NthTry(f, n);
    ReportsOfTwo(Tick(t.took), Answer(c));
    ReportsOfTwo(Tick(t.took), Step.Fail(c));
    ReportsOfFour(Tick(t.took), Step.Fail(c), Tick(t.backoff), GiveUp(c));
    if GoesOn(f, n) && n + 1 < cfg.attempts {
      ReportsOfFour(Tick(t.took), Step.Fail(c), Tick(t.backoff), Resume(c));
      k := TriesReport(cfg, c, f, n + 1);
      ReportsAppend([Tick(t.took), Step.Fail(c), Tick(t.backoff), Resume(c)], TrySteps(cfg, c, f, n + 1));
    } else {
      k := n;
    }
  }

  function CallSteps(cfg: Config, c: int, f: Fortune): seq<Step> {
    if !f.limitOk then [Admit(c), LimitFail(c)]
    else if !f.bodyOk then [Admit(c), LimitOk(c), EncodeFail(c)]
    else [Admit(c), LimitOk(c), EncodeOk(c)] + TrySteps(cfg, c, f, 0)
  }

  lemma {:induction false} ExecTwo(cfg: Config, s: BreakerSys, a: Step, b: Step)
    ensures Exec(cfg, s, [a, b]) == Apply(cfg, Apply(cfg, s, a), b)
  {
    ExecLast(cfg, s, [], a);
    ExecLast(cfg, s, [a], b);
    assert [] + [a] == [a] && [a] + [b] == [a, b];
  }

  lemma {:induction false} ExecFour(cfg: Config, s: BreakerSys, a: Step, b: Step, c: Step, d: Step)
    ensures Exec(cfg, s, [a, b, c, d]) == Apply(cfg, Apply(cfg, Apply(cfg, Apply(cfg, s, a), b), c), d)
  {
    ExecThree(cfg, s, a, b, c);
    ExecLast(cfg, s, [a, b, c], d);
    assert [a, b, c] + [d] == [a, b, c, d];
  }

  predicate SendsNth(s: BreakerSys, c: int, n: nat) { c in s.calls && s.calls[c] == Sending(n) }

  /** What the breaker and the clock are after a step or two, and who else is under way. */
  predicate Ends(s: BreakerSys, c: int, s': BreakerSys, b: Breaker, now: int) {
    s'.b == b && s'.now == now && s'.calls == s.calls - {c}
  }

  lemma {:induction false} AnswerEnds(cfg: Config, s: BreakerSys, c: int, n: nat, t: Try)
    requires SendsNth(s, c, n)
    ensures Ends(s, c, Exec(cfg, s, [Tick(t.took), Answer(c)]), OnSuccess(s.b), s.now + t.took)
  {
    ExecTwo(cfg, s, Tick(t.took), Answer(c));
  }

  lemma {:induction false} LastFailEnds(cfg: Config, s: BreakerSys, c: int, n: nat, t: Try)
    requires SendsNth(s, c, n) && n + 1 >= cfg.attempts
    ensures Ends(s, c, Exec(cfg, s, [Tick(t.took), Step.Fail(c)]), OnFailure(cfg, s.b, s.now + t.took), s.now + t.took)
  {
    ExecTwo(cfg, s, Tick(t.took), Step.Fail(c));
  }

  lemma {:induction false} GiveUpEnds(cfg: Config, s: BreakerSys, c: int, n: nat, t: Try)
    requires SendsNth(s, c, n) && n + 1 < cfg.attempts
    ensures Ends(s, c, Exec(cfg, s, [Tick(t.took), Step.Fail(c), Tick(t.backoff), GiveUp(c)]),
                 OnFailure(cfg, s.b, s.now + t.took), s.now + t.took + t.backoff)
  {
    ExecFour(cfg, s, Tick(t.took), Step.Fail(c), Tick(t.backoff), GiveUp(c));
    assert s.calls[c := BackingOff(n + 1)] - {c} == s.calls - {c};
  }

  lemma {:induction false} RetryGoesOn(cfg: Config, s: BreakerSys, c: int, n: nat, t: Try)
    requires SendsNth(s, c, n) && n + 1 < cfg.attempts
    ensures var s' := Exec(cfg, s, [Tick(t.took), Step.Fail(c), Tick(t.backoff), Resume(c)]);
            && s'.b == OnFailure(cfg, s.b, s.now + t.took) && s'.now == s.now + t.took + t.backoff
            && SendsNth(s', c, n + 1) && s'.calls - {c} == s.calls - {c}
  {
    ExecFour(cfg, s, Tick(t.took), Step.Fail(c), Tick(t.backoff), Resume(c));
    assert s.calls[c := BackingOff(n + 1)][c := Sending(n + 1)] - {c} == s.calls - {c};
  }

  /** The steps of a call up to its first request, or to an early end. */
  lemma {:induction false} CallStarts(cfg: Config, s: BreakerSys, c: int)
    requires c !in s.calls && Allow(cfg, s.b, s.now).1
    ensures var b := Allow(cfg, s.b, s.now).0;
            && Ends(s, c, Exec(cfg, s, [Admit(c), LimitFail(c)]), ProbeAbort(b), s.now)
            && Ends(s, c, Exec(cfg, s, [Admit(c), LimitOk(c), EncodeFail(c)]), b, s.now)
            && var s' := Exec(cfg, s, [Admit(c), LimitOk(c), EncodeOk(c)]);
               s'.b == b && s'.now == s.now && SendsNth(s', c, 0) && s'.calls - {c} == s.calls - {c}
  {
    var s1 := Apply(cfg, s, Admit(c));
    assert s1.calls == s.calls[c := Limited] && s1.b == Allow(cfg, s.b, s.now).0 && s1.now == s.now;
    ExecTwo(cfg, s, Admit(c), LimitFail(c));
    ExecThree(cfg, s, Admit(c), LimitOk(c), EncodeFail(c));
    ExecThree(cfg, s, Admit(c), LimitOk(c), EncodeOk(c));
  }

  class Client {
    const breaker: Cell
    var now: int

    constructor (cfg: Config)
      ensures fresh(breaker) && breaker.cfg == cfg && breaker.Value() == Fresh() && now == 0
    {
      breaker := new Cell(cfg);
      now := 0;
    }

    /** The breaker and the clock are those of `s`. */
    ghost predicate Shows(s: BreakerSys)
      reads this, breaker
    {
      breaker.Value() == s.b && now == s.now
    }

    /** The retry loop, from the first request on. */
    method Attempts(c: int, f: Fortune, ghost s: BreakerSys) returns (r: Result)
      requires breaker.cfg.Valid() && Shows(s) && SendsNth(s, c, 0)
      modifies this, breaker
      ensures var s' := Exec(breaker.cfg, s, TrySteps(breaker.cfg, c, f, 0));
              Shows(s') && s'.calls == s.calls - {c}
      ensures r == TriesResult(breaker.cfg, f, 0)
    {
      ghost var cfg, t := breaker.cfg, s;
      var attempt := 0;
      while true
        invariant 0 <= attempt < cfg.attempts && Shows(t) && SendsNth(t, c, attempt)
        invariant t.calls - {c} == s.calls - {c}
        invariant Exec(cfg, t, TrySteps(cfg, c, f, attempt)) == Exec(cfg, s, TrySteps(cfg, c, f, 0))
        invariant TriesResult(cfg, f, attempt) == TriesResult(cfg, f, 0)
        decreases cfg.attempts - attempt
      {
        var try := NthTry(f, attempt);
        now := now + try.took;
        if !try.retryable {
          AnswerEnds(cfg, t, c, attempt, try);
          breaker.Succeeded();
          return Answered;
        }
        breaker.Failed(now);
        if attempt + 1 >= breaker.cfg.attempts {
          LastFailEnds(cfg, t, c, attempt, try);
          return Failed;
        }
        now := now + try.backoff;
        if !try.outlives {
          GiveUpEnds(cfg, t, c, attempt, try);
          return Failed;
        }
        RetryGoesOn(cfg, t, c, attempt, try);
        ghost var back := [Tick(try.took), Step.Fail(c), Tick(try.backoff), Resume(c)];
        ExecAppend(cfg, t, back, TrySteps(cfg, c, f, attempt + 1));
        t := Exec(cfg, t, back);
        attempt := attempt + 1;
      }
    }

    /** A whole call. A body that cannot be encoded returns without a word to the breaker. */
    method Do(c: int, f: Fortune, ghost s: BreakerSys) returns (r: Result)
      requires breaker.cfg.Valid() && Shows(s) && c !in s.calls
      modifies this, breaker
      ensures var cfg, ok := breaker.cfg, Allow(breaker.cfg, s.b, s.now).1;
              var s' := if ok then Exec(cfg, s, CallSteps(cfg, c, f)) else s;
              && Shows(s') && s'.calls == s.calls
              && r == CallResult(cfg, ok, f)
              && (r == Refused <==> !ok) && (r == Result.Aborted <==> ok && !f.limitOk)
              && (r == BadBody <==> ok && f.limitOk && !f.bodyOk)
    {
      ghost var cfg := breaker.cfg;
      var ok := breaker.TryAllow(now);
      if !ok {
        return Refused;
      }
      CallStarts(cfg, s, c);
      assert s.calls - {c} == s.calls;
      if !f.limitOk {
        breaker.Aborted();
        return Result.Aborted;
      }
      if !f.bodyOk {
        return BadBody;
      }
      ghost var s3 := Exec(cfg, s, [Admit(c), LimitOk(c), EncodeOk(c)]);
      ExecAppend(cfg, s, [Admit(c), LimitOk(c), EncodeOk(c)], TrySteps(cfg, c, f, 0));
      r := Attempts(c, f, s3);
    }
  }
}
