/** The circuit breaker in front of the upstream, as driven by any number of concurrent calls. */
module CircuitBreaker {
  import opened Prelude

  datatype BreakerState = Closed | Open | HalfOpen

  datatype Breaker = Breaker(state: BreakerState, fails: int, openedAt: int, probing: bool)

  /** Failures that open it, how long it stays open, and how often one call tries. */
  datatype Config = Config(threshold: int, cooldown: int, attempts: int)
  {
    ghost predicate Valid() { threshold >= 1 && cooldown >= 1 && attempts >= 1 }
  }

  function Fresh(): Breaker { Breaker(Closed, 0, 0, false) }

  function Allow(cfg: Config, b: Breaker, now: int): (Breaker, bool) {
    match b.state
    case Closed => (b, true)
    case Open =>
      if now - b.openedAt >= cfg.cooldown then (b.(state := HalfOpen, probing := true), true) else (b, false)
    case HalfOpen => if b.probing then (b, false) else (b.(probing := true), true)
  }

  function OnSuccess(b: Breaker): Breaker { b.(fails := 0, state := Closed, probing := false) }

  function ProbeAbort(b: Breaker): Breaker { b.(probing := false) }

  function OnFailure(cfg: Config, b: Breaker, now: int): Breaker {
    var b1 := b.(fails := b.fails + 1, probing := false);
    if b.state == HalfOpen || b1.fails >= cfg.threshold then b1.(state := Open, openedAt := now) else b1
  }

  /** Where an admitted call is: waiting for the limiter, about to encode its body, on its nth
      request, or backing off before it. */
  datatype Phase = Limited | Encoding | Sending(n: nat) | BackingOff(n: nat)

  datatype BreakerSys = BreakerSys(
    b: Breaker, now: int, calls: map<int, Phase>,
    // history, never read by a step
    lastFailure: int,
    probes: set<int>,    // calls let through while the breaker was not closed
    prober: Option<int>, // the call that got the probe, until some call reports
    muted: bool)         // that call could not encode its body, and no call has reported since

  function Start(): BreakerSys { BreakerSys(Fresh(), 0, map[], 0, {}, None, false) }

  datatype Step =
    | Tick(d: nat)
    | Admit(c: int)
    | LimitFail(c: int)
    | LimitOk(c: int)
    | EncodeFail(c: int)
    | EncodeOk(c: int)
    | Answer(c: int)
    | Fail(c: int)
    | Resume(c: int)
    | GiveUp(c: int)

  predicate In(s: BreakerSys, c: int, phase: Phase) { c in s.calls && s.calls[c] == phase }

  function Leave(s: BreakerSys, c: int): BreakerSys { s.(calls := s.calls - {c}) }

  function DoAdmit(cfg: Config, s: BreakerSys, c: int): BreakerSys {
    var (b, ok) := Allow(cfg, s.b, s.now);
    if !ok then s
    else
      var s1 := s.(b := b, calls := s.calls[c := Limited]);
      if s.b.state == Closed then s1.(probes := s.probes - {c})
      else s1.(probes := s.probes + {c}, prober := Some(c), muted := false)
  }

  /** Every report to the breaker frees the probe. */
  function Report(s: BreakerSys, b: Breaker): BreakerSys { s.(b := b, prober := None, muted := false) }

  function DoFail(cfg: Config, s: BreakerSys, c: int, n: nat): BreakerSys {
    var s1 := Report(s, OnFailure(cfg, s.b, s.now)).(lastFailure := s.now);
    if n + 1 < cfg.attempts then s1.(calls := s.calls[c := BackingOff(n + 1)]) else Leave(s1, c)
  }

  /** A step that is not enabled changes nothing. `Answer` is a response of any kind that is not
      worth a retry: to the breaker a refusal by a live upstream is a success. */
  function Apply(cfg: Config, s: BreakerSys, a: Step): BreakerSys {
    match a
    case Tick(d) => s.(now := s.now + d)
    case Admit(c) => if c in s.calls then s else DoAdmit(cfg, s, c)
    case LimitFail(c) => if In(s, c, Limited) then Report(Leave(s, c), ProbeAbort(s.b)) else s
    case LimitOk(c) => if In(s, c, Limited) then s.(calls := s.calls[c := Encoding]) else s
    case EncodeFail(c) =>
      if In(s, c, Encoding) then Leave(s, c).(muted := s.muted || s.prober == Some(c)) else s
    case EncodeOk(c) => if In(s, c, Encoding) then s.(calls := s.calls[c := Sending(0)]) else s
    case Answer(c) =>
      if c in s.calls && s.calls[c].Sending? then Report(Leave(s, c), OnSuccess(s.b)) else s
    case Fail(c) => if c in s.calls && s.calls[c].Sending? then DoFail(cfg, s, c, s.calls[c].n) else s
    case Resume(c) =>
      if c in s.calls && s.calls[c].BackingOff? then s.(calls := s.calls[c := Sending(s.calls[c].n)]) else s
    case GiveUp(c) => if c in s.calls && s.calls[c].BackingOff? then Leave(s, c) else s
  }

  function Exec(cfg: Config, s: BreakerSys, steps: seq<Step>): BreakerSys {
    if |steps| == 0 then s else Apply(cfg, Exec(cfg, s, steps[..|steps| - 1]), steps[|steps| - 1])
  }

  // ----- what every step keeps -----

  /** Admitted, and has not yet told the breaker anything. */
  predicate Unsettled(s: BreakerSys, c: int) {
    c in s.calls && (s.calls[c].Limited? || s.calls[c].Encoding? || s.calls[c] == Sending(0))
  }

  ghost predicate BreakerOk(cfg: Config, s: BreakerSys) {
    && s.b.fails >= 0
    && (s.b.state == Closed <==> s.b.fails < cfg.threshold)
    && (s.b.probing ==> s.b.state == HalfOpen)
    && (s.b.state == Open ==> s.b.openedAt == s.lastFailure)
    && (s.b.state == HalfOpen ==> s.now >= s.lastFailure + cfg.cooldown)
    && s.lastFailure <= s.now
    && (forall c | c in s.calls && s.calls[c].BackingOff? :: s.calls[c].n > 0)
  }

  /** The probe is held by a call that has still to report, or that never will. */
  ghost predicate ProbeOk(s: BreakerSys) {
    && (s.b.probing <==> s.prober.Some?)
    && (s.prober.Some? ==> s.prober.value in s.probes && (s.muted || Unsettled(s, s.prober.value)))
    && (s.muted ==> s.prober.Some?)
  }

  lemma {:induction false} StepKeeps(cfg: Config, s: BreakerSys, a: Step)
    requires cfg.Valid() && BreakerOk(cfg, s)
    ensures BreakerOk(cfg, Apply(cfg, s, a))
  {
  }

  lemma {:induction false} StepKeepsProbe(cfg: Config, s: BreakerSys, a: Step)
    requires BreakerOk(cfg, s) && ProbeOk(s)
    ensures ProbeOk(Apply(cfg, s, a))
  {
  }

  lemma {:induction false} RunKeeps(cfg: Config, steps: seq<Step>)
    requires cfg.Valid()
    ensures BreakerOk(cfg, Exec(cfg, Start(), steps)) && ProbeOk(Exec(cfg, Start(), steps))
  {
    if |steps| > 0 {
      var s := Exec(cfg, Start(), steps[..|steps| - 1]);
      RunKeeps(cfg, steps[..|steps| - 1]);
      StepKeeps(cfg, s, steps[|steps| - 1]);
      StepKeepsProbe(cfg, s, steps[|steps| - 1]);
    }
  }

  /** If a body cannot be encoded, its call was let through while the breaker was closed. */
  predicate Blameless(s: BreakerSys, a: Step) { a.EncodeFail? && In(s, a.c, Encoding) ==> a.c !in s.probes }

  ghost predicate BlamelessRun(cfg: Config, steps: seq<Step>) {
    forall i | 0 <= i < |steps| :: Blameless(Exec(cfg, Start(), steps[..i]), steps[i])
  }

  lemma {:induction false} NeverMuted(cfg: Config, steps: seq<Step>)
    requires cfg.Valid() && BlamelessRun(cfg, steps)
    ensures !Exec(cfg, Start(), steps).muted
  {
    if |steps| > 0 {
      var front := steps[..|steps| - 1];
      assert forall i | 0 <= i < |front| :: front[..i] == steps[..i];
      NeverMuted(cfg, front);
      RunKeeps(cfg, front);
      assert Blameless(Exec(cfg, Start(), front), steps[|steps| - 1]);
    }
  }

  // ----- main results -----

  /** Failures reported since the last answer, or since the start. */
  function Streak(cfg: Config, steps: seq<Step>): nat {
    if |steps| == 0 then 0
    else
      var front, a := steps[..|steps| - 1], steps[|steps| - 1];
      var calls := Exec(cfg, Start(), front).calls;
      if a.Answer? && a.c in calls && calls[a.c].Sending? then 0
      else if a.Fail? && a.c in calls && calls[a.c].Sending? then Streak(cfg, front) + 1
      else Streak(cfg, front)
  }

  lemma {:induction false} StepCounts(cfg: Config, s: BreakerSys, a: Step)
    ensures var sending := (a.Answer? || a.Fail?) && a.c in s.calls && s.calls[a.c].Sending?;
            Apply(cfg, s, a).b.fails == if !sending then s.b.fails else if a.Answer? then 0 else s.b.fails + 1
  {
  }

  lemma {:induction false} CountsStreak(cfg: Config, steps: seq<Step>)
    ensures Exec(cfg, Start(), steps).b.fails == Streak(cfg, steps)
  {
    if |steps| > 0 {
      var front := steps[..|steps| - 1];
      CountsStreak(cfg, front);
      StepCounts(cfg, Exec(cfg, Start(), front), steps[|steps| - 1]);
    }
  }

  /** Over every run the counted failures are consecutive, the breaker is closed if and only if fewer than
      the threshold were reported since the last answer, and a call is let through if and only if it is
      closed, or nobody has the probe and the last failure is a cooldown ago. */
  lemma {:induction false} LetThroughIff(cfg: Config, steps: seq<Step>)
    requires cfg.Valid()
    ensures var s, streak := Exec(cfg, Start(), steps), Streak(cfg, steps);
            && s.b.fails == streak && (s.b.state == Closed <==> streak < cfg.threshold)
            && (Allow(cfg, s.b, s.now).1 <==>
                  streak < cfg.threshold || (s.prober.None? && s.now >= s.lastFailure + cfg.cooldown))
  {
    RunKeeps(cfg, steps);
    CountsStreak(cfg, steps);
  }

  /** Over every run: closed exactly below the threshold; a probe only while half open; and whoever
      is let through a breaker that is not closed comes a full cooldown after the last failure of any call. */
  lemma {:induction false} ClosedBelowThreshold(cfg: Config, steps: seq<Step>)
    requires cfg.Valid()
    ensures var s := Exec(cfg, Start(), steps);
            && (s.b.state == Closed <==> s.b.fails < cfg.threshold)
            && (s.b.probing ==> s.b.state == HalfOpen && !Allow(cfg, s.b, s.now).1)
            && (s.b.state != Closed && Allow(cfg, s.b, s.now).1 ==> s.now >= s.lastFailure + cfg.cooldown)
  {
    RunKeeps(cfg, steps);
  }

  /** Over every run in which a body that cannot be encoded is only ever met by a call let through
      while the breaker was closed, the breaker never locks up: while it holds a probe some call has
      still to report, so with no such call and the cooldown over the next call is let through. */
  lemma {:induction false} NeverWedges(cfg: Config, steps: seq<Step>)
    requires cfg.Valid() && BlamelessRun(cfg, steps)
    ensures var s := Exec(cfg, Start(), steps);
            && (s.b.probing ==> exists c :: c in s.probes && Unsettled(s, c))
            && ((forall c :: !Unsettled(s, c)) && s.now >= s.lastFailure + cfg.cooldown ==> Allow(cfg, s.b, s.now).1)
  {
    RunKeeps(cfg, steps);
    NeverMuted(cfg, steps);
  }

  /** The exact condition, over every run: with no call left that has still to report and the cooldown
      over, the next call is refused if and only if the call that got the probe could not encode its
      body and no call has reported since. */
  lemma {:induction false} RefusedIffMuted(cfg: Config, steps: seq<Step>)
    requires cfg.Valid()
    ensures var s := Exec(cfg, Start(), steps);
            (forall c :: !Unsettled(s, c)) && s.now >= s.lastFailure + cfg.cooldown
            ==> (!Allow(cfg, s.b, s.now).1 <==> s.muted)
  {
    RunKeeps(cfg, steps);
  }

  ghost predicate Wedged(s: BreakerSys) { s.b.state == HalfOpen && s.b.probing && s.calls == map[] }

  /** Once a probe is gone without a word, no call is ever let through again. */
  lemma {:induction false} WedgedForever(cfg: Config, s: BreakerSys, steps: seq<Step>)
    requires Wedged(s)
    ensures var s' := Exec(cfg, s, steps); Wedged(s') && !Allow(cfg, s'.b, s'.now).1
  {
    if |steps| > 0 {
      WedgedForever(cfg, s, steps[..|steps| - 1]);
    }
  }

  /** Over every run without an earlier such call, beside any others that came and went: the last call
      in flight locks the breaker up by failing to encode if and only if it has the probe. */
  lemma {:induction false} LastCallWedgesIff(cfg: Config, steps: seq<Step>, c: int)
    requires cfg.Valid() && BlamelessRun(cfg, steps)
    requires Exec(cfg, Start(), steps).calls == map[c := Encoding]
    ensures var s := Exec(cfg, Start(), steps);
            Wedged(Apply(cfg, s, EncodeFail(c))) <==> s.prober == Some(c)
  {
    RunKeeps(cfg, steps);
    NeverMuted(cfg, steps);
    assert map[c := Encoding] - {c} == map[];
  }

  /** A call, alone, whose body cannot be encoded. */
  function UnencodableCall(cfg: Config, s: BreakerSys, c: int): BreakerSys {
    Apply(cfg, Apply(cfg, Apply(cfg, s, Admit(c)), LimitOk(c)), EncodeFail(c))
  }

  /** For a call that nobody else is under way beside, known before it: it locks the breaker up if and
      only if it is let through while the breaker is not closed; otherwise the breaker opens up again
      after the cooldown. */
  lemma {:induction false} UnencodableCallWedgesIff(cfg: Config, steps: seq<Step>, c: int)
    requires cfg.Valid() && BlamelessRun(cfg, steps) && Exec(cfg, Start(), steps).calls == map[]
    ensures var s := Exec(cfg, Start(), steps);
            var s' := UnencodableCall(cfg, s, c);
            && (Wedged(s') <==> s.b.state != Closed && Allow(cfg, s.b, s.now).1)
            && (!Wedged(s') ==> forall later | later >= s.lastFailure + cfg.cooldown :: Allow(cfg, s'.b, later).1)
  {
    RunKeeps(cfg, steps);
    NeverMuted(cfg, steps);
    assert !Exec(cfg, Start(), steps).b.probing;
  }

  /** A run that locks up: one failure opens a breaker of threshold 1, the cooldown passes, and the
      next call cannot encode its body. */
  lemma {:induction false} UnencodableProbeLocksUp(cfg: Config)
    requires cfg == Config(1, 10, 1)
    ensures Wedged(Exec(cfg, Start(), [Admit(1), LimitOk(1), EncodeOk(1), Fail(1), Tick(10),
                                       Admit(2), LimitOk(2), EncodeFail(2)]))
  {
    var s0 := Start();
    var first := [Admit(1), LimitOk(1), EncodeOk(1), Fail(1), Tick(10)];
    var second := [Admit(2), LimitOk(2), EncodeFail(2)];
    assert first + second == [Admit(1), LimitOk(1), EncodeOk(1), Fail(1), Tick(10), Admit(2), LimitOk(2), EncodeFail(2)];
    ExecAppend(cfg, s0, first, second);
    OpenAndCooled(cfg);
    ExecThree(cfg, Exec(cfg, s0, first), Admit(2), LimitOk(2), EncodeFail(2));
  }

  lemma {:induction false} OpenAndCooled(cfg: Config)
    requires cfg == Config(1, 10, 1)
    ensures Exec(cfg, Start(), [Admit(1), LimitOk(1), EncodeOk(1), Fail(1), Tick(10)])
         == BreakerSys(Breaker(Open, 1, 0, false), 10, map[], 0, {}, None, false)
  {
    var s0 := Start();
    var a, b := [Admit(1), LimitOk(1), EncodeOk(1)], [Fail(1), Tick(10)];
    assert a + b == [Admit(1), LimitOk(1), EncodeOk(1), Fail(1), Tick(10)];
    ExecAppend(cfg, s0, a, b);
    ExecThree(cfg, s0, Admit(1), LimitOk(1), EncodeOk(1));
    var s3 := Exec(cfg, s0, a);
    assert s3 == BreakerSys(Fresh(), 0, map[1 := Sending(0)], 0, {}, None, false);
    ExecLast(cfg, s3, [Fail(1)], Tick(10));
    ExecLast(cfg, s3, [], Fail(1));
    assert [] + [Fail(1)] == [Fail(1)] && [Fail(1)] + [Tick(10)] == b;
    assert Leave(s3, 1).calls == map[];
  }

  lemma {:induction false} ExecAppend(cfg: Config, s: BreakerSys, a: seq<Step>, b: seq<Step>)
    ensures Exec(cfg, s, a + b) == Exec(cfg, Exec(cfg, s, a), b)
  {
    if |b| == 0 {
      assert a + b == a;
    } else {
      assert (a + b)[..|a + b| - 1] == a + b[..|b| - 1];
      ExecAppend(cfg, s, a, b[..|b| - 1]);
    }
  }

  lemma {:induction false} ExecLast(cfg: Config, s: BreakerSys, steps: seq<Step>, a: Step)
    ensures Exec(cfg, s, steps + [a]) == Apply(cfg, Exec(cfg, s, steps), a)
  {
    assert (steps + [a])[..|steps|] == steps;
  }

  lemma {:induction false} ExecThree(cfg: Config, s: BreakerSys, a: Step, b: Step, c: Step)
    ensures Exec(cfg, s, [a, b, c]) == Apply(cfg, Apply(cfg, Apply(cfg, s, a), b), c)
  {
    ExecLast(cfg, s, [], a);
    ExecLast(cfg, s, [a], b);
    ExecLast(cfg, s, [a, b], c);
    assert [] + [a] == [a] && [a] + [b] == [a, b] && [a, b] + [c] == [a, b, c];
  }
}
