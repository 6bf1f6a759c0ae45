/** The quota pushed upstream for one member is a cache of its base plus its active grants: whoever
    changes a grant afterwards recomputes and pushes, under the organisation's lock. Grants change
    outside that lock, a push may be refused, and a call may end before it gets to push. */
module OverrideRuns {
  import opened Prelude

  /** A grant's id is its place in the table; only quota grants move the quota. */
  datatype Grant = Grant(delta: int, quota: bool, active: bool, expireAt: int)

  function ActiveSum(grants: seq<Grant>): int {
    if |grants| == 0 then 0
    else ActiveSum(grants[..|grants| - 1]) + Counts(grants[|grants| - 1])
  }

  function Counts(g: Grant): int { if g.quota && g.active then g.delta else 0 }

  /** Waiting for the lock, holding it, or holding it with the value to push. */
  datatype Phase = Waiting | Locked | Computed(v: int)

  datatype QuotaSys = QuotaSys(
    base: int, grants: seq<Grant>, pushed: int, calls: map<int, Phase>, holder: Option<int>,
    // history, never read by a step: since the last value was computed, some call ended without its
    // push getting through
    missed: bool)

  function Override(base: int, grants: seq<Grant>): int { Max(0, base + ActiveSum(grants)) }

  function Target(s: QuotaSys): int { Override(s.base, s.grants) }

  /** A member whose base has been pushed once. */
  function Start(base: int): QuotaSys { QuotaSys(base, [], Max(0, base), map[], None, false) }

  datatype Step =
    | Create(c: int, delta: int, quota: bool, expireAt: int)
    | Revert(c: int, id: int)
    | Lock(c: int)
    | Compute(c: int)
    | Push(c: int, ok: bool)
    | Drop(c: int)

  predicate IsActive(s: QuotaSys, id: int) { 0 <= id < |s.grants| && s.grants[id].active }

  predicate In(s: QuotaSys, c: int, phase: Phase) { c in s.calls && s.calls[c] == phase }

  predicate Computing(s: QuotaSys, c: int) { c in s.calls && s.calls[c].Computed? }

  function Call(s: QuotaSys, c: int, quota: bool): QuotaSys { if quota then s.(calls := s.calls[c := Waiting]) else s }

  /** A call ends; the lock is free again if it had it. */
  function End(s: QuotaSys, c: int): QuotaSys {
    s.(calls := s.calls - {c}, holder := if s.holder == Some(c) then None else s.holder)
  }

  /** A step that is not enabled changes nothing. Revoking and expiring are the same compare-and-set
      on an active grant; who loses the race neither changes nor pushes. */
  function Apply(s: QuotaSys, a: Step): QuotaSys {
    match a
    case Create(c, delta, quota, expireAt) =>
      if c in s.calls then s else Call(s.(grants := s.grants + [Grant(delta, quota, true, expireAt)]), c, quota)
    case Revert(c, id) =>
      if c in s.calls || !IsActive(s, id) then s
      else Call(s.(grants := s.grants[id := s.grants[id].(active := false)]), c, s.grants[id].quota)
    case Lock(c) =>
      if In(s, c, Waiting) && s.holder.None? then s.(calls := s.calls[c := Locked], holder := Some(c)) else s
    case Compute(c) =>
      if In(s, c, Locked) then s.(calls := s.calls[c := Computed(Target(s))], missed := false) else s
    case Push(c, ok) =>
      if !Computing(s, c) then s
      else if ok then End(s, c).(pushed := s.calls[c].v)
      else End(s, c).(missed := true)
    case Drop(c) => if c in s.calls then End(s, c).(missed := true) else s
  }

  function Exec(s: QuotaSys, steps: seq<Step>): QuotaSys {
    if |steps| == 0 then s else Apply(Exec(s, steps[..|steps| - 1]), steps[|steps| - 1])
  }

  // ----- sums of grants -----

  lemma {:induction false} SumAppend(grants: seq<Grant>, more: seq<Grant>)
    ensures ActiveSum(grants + more) == ActiveSum(grants) + ActiveSum(more)
  {
    if |more| == 0 {
      assert grants + more == grants;
    } else {
      assert (grants + more)[..|grants + more| - 1] == grants + more[..|more| - 1];
      SumAppend(grants, more[..|more| - 1]);
    }
  }

  lemma {:induction false} SumOne(grants: seq<Grant>, g: Grant)
    ensures ActiveSum(grants + [g]) == ActiveSum(grants) + Counts(g)
  {
    assert (grants + [g])[..|grants|] == grants;
  }

  lemma {:induction false} SumUpdate(grants: seq<Grant>, id: nat, g: Grant)
    requires id < |grants|
    ensures ActiveSum(grants[id := g]) == ActiveSum(grants) - Counts(grants[id]) + Counts(g)
  {
    assert grants == grants[..id] + [grants[id]] + grants[id + 1..];
    assert grants[id := g] == grants[..id] + [g] + grants[id + 1..];
    SumAppend(grants[..id] + [grants[id]], grants[id + 1..]);
    SumAppend(grants[..id] + [g], grants[id + 1..]);
    SumOne(grants[..id], grants[id]);
    SumOne(grants[..id], g);
  }

  /** By how much a step moves the sum of active quota grants. */
  function Moves(s: QuotaSys, a: Step): int {
    match a
    case Create(c, delta, quota, _) => if c !in s.calls && quota then delta else 0
    case Revert(c, id) => if c !in s.calls && IsActive(s, id) && s.grants[id].quota then -s.grants[id].delta else 0
    case _ => 0
  }

  lemma {:induction false} StepMoves(s: QuotaSys, a: Step)
    ensures ActiveSum(Apply(s, a).grants) == ActiveSum(s.grants) + Moves(s, a)
    ensures Apply(s, a).base == s.base
  {
    match a {
      case Create(c, delta, quota, expireAt) => SumOne(s.grants, Grant(delta, quota, true, expireAt));
      case Revert(c, id) =>
        if IsActive(s, id) {
          SumUpdate(s.grants, id, s.grants[id].(active := false));
        }
      case _ =>
    }
  }

  // ----- what every step keeps -----

  /** Only the holder of the lock is past waiting. */
  ghost predicate LockOk(s: QuotaSys) {
    && (forall c | c in s.calls && s.calls[c] != Waiting :: s.holder == Some(c))
    && (s.holder.Some? ==> s.holder.value in s.calls && s.calls[s.holder.value] != Waiting)
  }

  predicate WillCompute(s: QuotaSys, c: int) { c in s.calls && !s.calls[c].Computed? }

  /** What the last push that got through, or the one about to happen, says. */
  function Standing(s: QuotaSys): int {
    if s.holder.Some? && Computing(s, s.holder.value) then s.calls[s.holder.value].v else s.pushed
  }

  /** A standing value that is out of date has somebody behind it who will compute it again. */
  ghost predicate Covered(s: QuotaSys) { Standing(s) == Target(s) || exists c :: WillCompute(s, c) }

  lemma {:induction false} LockKept(s: QuotaSys, a: Step)
    requires LockOk(s)
    ensures LockOk(Apply(s, a))
  {
  }

  /** A change of a quota grant leaves a call behind that will compute. */
  lemma {:induction false} QuotaChangeIsCovered(s: QuotaSys, a: Step)
    requires (a.Create? && a.quota) || (a.Revert? && IsActive(s, a.id) && s.grants[a.id].quota)
    requires a.c !in s.calls
    ensures Covered(Apply(s, a))
  {
    assert Apply(s, a).calls[a.c] == Waiting;
    assert WillCompute(Apply(s, a), a.c);
  }

  /** Every other change leaves the target where it was. */
  lemma {:induction false} OtherChangeKeepsTarget(s: QuotaSys, a: Step)
    requires (a.Create? && !a.quota) || (a.Revert? && !(IsActive(s, a.id) && s.grants[a.id].quota)) || a.c in s.calls
    requires a.Create? || a.Revert?
    ensures var s' := Apply(s, a);
            && Target(s') == Target(s) && s'.calls == s.calls && s'.holder == s.holder && s'.pushed == s.pushed
  {
    StepMoves(s, a);
    if a.Create? {
      assert Moves(s, a) == 0 && (a.c in s.calls || !a.quota);
    } else {
      assert Moves(s, a) == 0;
    }
  }

  lemma {:induction false} StillCovered(s: QuotaSys, s': QuotaSys)
    requires Covered(s) && s'.calls == s.calls && s'.holder == s.holder && s'.pushed == s.pushed && Target(s') == Target(s)
    ensures Covered(s')
  {
    if Standing(s) != Target(s) {
      var c :| WillCompute(s, c);
      assert WillCompute(s', c);
    }
  }

  lemma {:induction false} ChangeIsCovered(s: QuotaSys, a: Step)
    requires Covered(s) && (a.Create? || a.Revert?)
    ensures Covered(Apply(s, a))
  {
    if a.c !in s.calls && (if a.Create? then a.quota else IsActive(s, a.id) && s.grants[a.id].quota) {
      QuotaChangeIsCovered(s, a);
    } else {
      OtherChangeKeepsTarget(s, a);
      StillCovered(s, Apply(s, a));
    }
  }

  lemma {:induction false} LockIsCovered(s: QuotaSys, c: int)
    requires LockOk(s) && Covered(s)
    ensures Covered(Apply(s, Lock(c)))
  {
    var s' := Apply(s, Lock(c));
    if Standing(s) != Target(s) {
      var d :| WillCompute(s, d);
      assert WillCompute(s', d);
    }
  }

  lemma {:induction false} ComputeIsCovered(s: QuotaSys, c: int)
    requires LockOk(s) && In(s, c, Locked)
    ensures Covered(Apply(s, Compute(c)))
  {
    assert s.holder == Some(c);
    assert Standing(Apply(s, Compute(c))) == Target(s);
  }

  lemma {:induction false} PushIsCovered(s: QuotaSys, c: int)
    requires LockOk(s) && Covered(s) && Computing(s, c)
    ensures Covered(Apply(s, Push(c, true)))
  {
    var s' := Apply(s, Push(c, true));
    assert s.holder == Some(c);
    if Standing(s) != Target(s) {
      var d :| WillCompute(s, d);
      assert WillCompute(s', d);
    }
  }

  ghost predicate QuotaOk(s: QuotaSys) { LockOk(s) && (!s.missed ==> Covered(s)) }

  lemma {:induction false} StepKeeps(s: QuotaSys, a: Step)
    requires QuotaOk(s)
    ensures QuotaOk(Apply(s, a))
  {
    LockKept(s, a);
    if !Apply(s, a).missed {
      match a {
        case Create(_, _, _, _) => ChangeIsCovered(s, a);
        case Revert(_, _) => ChangeIsCovered(s, a);
        case Lock(c) => LockIsCovered(s, c);
        case Compute(c) => if In(s, c, Locked) { ComputeIsCovered(s, c); }
        case Push(c, _) => if Computing(s, c) { PushIsCovered(s, c); }
        case Drop(_) =>
      }
    }
  }

  lemma {:induction false} RunKeeps(base: int, steps: seq<Step>)
    ensures QuotaOk(Exec(Start(base), steps)) && Exec(Start(base), steps).base == base
  {
    if |steps| > 0 {
      var s := Exec(Start(base), steps[..|steps| - 1]);
      RunKeeps(base, steps[..|steps| - 1]);
      StepKeeps(s, steps[|steps| - 1]);
      StepMoves(s, steps[|steps| - 1]);
    }
  }

  // ----- when the quota is right -----

  /** Over every run, whatever was refused or cut short before: once nobody is under way, and no call
      ended without its push since the last value was computed, the quota upstream is
      max(0, base + active grants). */
  lemma {:induction false} QuotaConverges(base: int, steps: seq<Step>)
    requires Exec(Start(base), steps).calls == map[] && !Exec(Start(base), steps).missed
    ensures Exec(Start(base), steps).pushed == Max(0, base + ActiveSum(Exec(Start(base), steps).grants))
  {
    RunKeeps(base, steps);
  }

  /** Whether the last push to complete got through; true before the first. */
  predicate LastPushOk(base: int, steps: seq<Step>) {
    if |steps| == 0 then true
    else
      var front, a := steps[..|steps| - 1], steps[|steps| - 1];
      if a.Push? && Computing(Exec(Start(base), front), a.c) then a.ok else LastPushOk(base, front)
  }

  ghost predicate NoDrops(steps: seq<Step>) { forall i | 0 <= i < |steps| :: !steps[i].Drop? }

  lemma {:induction false} OnlyRefusalsMiss(base: int, steps: seq<Step>)
    requires NoDrops(steps)
    ensures var s := Exec(Start(base), steps);
            s.missed ==> !LastPushOk(base, steps) && forall c :: !Computing(s, c)
  {
    if |steps| > 0 {
      var front, a := steps[..|steps| - 1], steps[|steps| - 1];
      var s := Exec(Start(base), front);
      RunKeeps(base, front);
      assert NoDrops(front) && !a.Drop?;
      OnlyRefusalsMiss(base, front);
      if Apply(s, a).missed {
        OnlyRefusalsMissStep(s, a);
      }
    }
  }

  lemma {:induction false} OnlyRefusalsMissStep(s: QuotaSys, a: Step)
    requires LockOk(s) && !a.Drop? && Apply(s, a).missed
    requires s.missed ==> forall c :: !Computing(s, c)
    ensures forall c :: !Computing(Apply(s, a), c)
    ensures s.missed || (a.Push? && Computing(s, a.c) && !a.ok)
    ensures s.missed && a.Push? ==> !Computing(s, a.c)
  {
    forall c | Computing(Apply(s, a), c) ensures false {
      assert Computing(s, c);
    }
  }

  /** If no call ends before it pushes, the last push to complete decides: when it got through and
      nobody is under way the quota is right, whatever was refused before. */
  lemma {:induction false} LastPushDecides(base: int, steps: seq<Step>)
    requires NoDrops(steps) && LastPushOk(base, steps) && Exec(Start(base), steps).calls == map[]
    ensures Exec(Start(base), steps).pushed == Max(0, base + ActiveSum(Exec(Start(base), steps).grants))
  {
    OnlyRefusalsMiss(base, steps);
    QuotaConverges(base, steps);
  }

  // ----- when nothing gets through -----

  ghost predicate NothingGetsThrough(steps: seq<Step>) { forall i | 0 <= i < |steps| :: !(steps[i].Push? && steps[i].ok) }

  /** The net change of the grants that took effect in a run. */
  function Net(s: QuotaSys, steps: seq<Step>): int {
    if |steps| == 0 then 0
    else
      var front := steps[..|steps| - 1];
      Net(s, front) + Moves(Exec(s, front), steps[|steps| - 1])
  }

  lemma {:induction false} RunMoves(s: QuotaSys, steps: seq<Step>)
    ensures ActiveSum(Exec(s, steps).grants) == ActiveSum(s.grants) + Net(s, steps) && Exec(s, steps).base == s.base
    ensures NothingGetsThrough(steps) ==> Exec(s, steps).pushed == s.pushed
  {
    if |steps| > 0 {
      var front, a := steps[..|steps| - 1], steps[|steps| - 1];
      RunMoves(s, front);
      StepMoves(Exec(s, front), a);
      assert NothingGetsThrough(steps) ==> NothingGetsThrough(front) && !(a.Push? && a.ok);
    }
  }

  /** The exact condition for changes whose pushes are all refused or never come, any number of them
      and interleaved in any way, from a quota that was right: it stays right if and only if their
      net change is absorbed by the clamp at zero, or is none. */
  lemma {:induction false} RefusedChangesIff(s: QuotaSys, more: seq<Step>)
    requires s.pushed == Target(s) && NothingGetsThrough(more)
    ensures var s', sum := Exec(s, more), s.base + ActiveSum(s.grants);
            s'.pushed == Target(s') <==> Net(s, more) == 0 || (sum <= 0 && sum + Net(s, more) <= 0)
  {
    RunMoves(s, more);
  }

  /** A whole change by one caller, alone. */
  function Alone(s: QuotaSys, change: Step, ok: bool): QuotaSys {
    Apply(Apply(Apply(Apply(s, change), Lock(change.c)), Compute(change.c)), Push(change.c, ok))
  }

  lemma {:induction false} PushAlone(s: QuotaSys, c: int, ok: bool)
    requires s.calls == map[c := Waiting] && s.holder.None?
    ensures Apply(Apply(Apply(s, Lock(c)), Compute(c)), Push(c, ok))
         == s.(calls := map[], pushed := if ok then Target(s) else s.pushed, missed := !ok)
  {
    var s1 := s.(calls := map[c := Locked], holder := Some(c));
    assert Apply(s, Lock(c)) == s1;
    var s2 := s1.(calls := map[c := Computed(Target(s))], missed := false);
    assert Apply(s1, Compute(c)) == s2;
    assert s2.calls - {c} == map[];
  }

  lemma {:induction false} ChangeAlone(s: QuotaSys, change: Step)
    requires s.calls == map[] && (change.Create? || change.Revert?) && Moves(s, change) != 0
    ensures var s1 := Apply(s, change);
            s1.calls == map[change.c := Waiting] && s1.holder == s.holder && s1.pushed == s.pushed
  {
  }

  lemma {:induction false} AloneDoes(s: QuotaSys, change: Step, ok: bool)
    requires s.calls == map[] && s.holder.None? && (change.Create? || change.Revert?) && Moves(s, change) != 0
    ensures var s' := Alone(s, change, ok);
            && s'.calls == map[] && s'.holder.None? && s'.base == s.base
            && ActiveSum(s'.grants) == ActiveSum(s.grants) + Moves(s, change)
            && s'.pushed == if ok then Max(0, s.base + ActiveSum(s.grants) + Moves(s, change)) else s.pushed
  {
    StepMoves(s, change);
    ChangeAlone(s, change);
    PushAlone(Apply(s, change), change.c, ok);
  }

  /** The same for one call: a new grant of `delta`, or the end of one, whose push is refused leaves a
      right quota right if and only if the grants add up to at most zero before and after it. */
  lemma {:induction false} RefusedPushIff(s: QuotaSys, change: Step)
    requires s.calls == map[] && s.holder.None? && s.pushed == Target(s)
    requires (change.Create? && change.quota && change.delta != 0)
             || (change.Revert? && 0 <= change.id < |s.grants| && s.grants[change.id].active
                 && s.grants[change.id].quota && s.grants[change.id].delta != 0)
    ensures var s' := Alone(s, change, false);
            var d := if change.Create? then change.delta else -s.grants[change.id].delta;
            var sum := s.base + ActiveSum(s.grants);
            s'.pushed == Target(s') <==> sum <= 0 && sum + d <= 0
  {
    AloneDoes(s, change, false);
  }

  /** The next change that gets through makes up for everything missed before it. */
  lemma {:induction false} NextPushRepairs(s: QuotaSys, change: Step)
    requires s.calls == map[] && s.holder.None? && (change.Create? || change.Revert?) && Moves(s, change) != 0
    ensures var s' := Alone(s, change, true);
            s'.pushed == Target(s') == Max(0, s.base + ActiveSum(s.grants) + Moves(s, change))
  {
    AloneDoes(s, change, true);
  }

  /** Of any number of revocations and expiries of one grant, only the first does anything. */
  lemma {:induction false} RevertedOnce(s: QuotaSys, more: seq<Step>, id: int)
    requires 0 <= id < |s.grants| && !s.grants[id].active
    ensures id < |Exec(s, more).grants| && Exec(s, more).grants[id] == s.grants[id]
    ensures forall c :: Apply(Exec(s, more), Revert(c, id)) == Exec(s, more)
  {
    if |more| > 0 {
      RevertedOnce(s, more[..|more| - 1], id);
    }
  }
}
