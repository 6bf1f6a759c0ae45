/** The calls that change grants and push a member's quota, statement by statement. */
module Overrides {
  import opened Prelude
  import opened OverrideRuns

  const MAX_ADJUST := 100_000_000_000_000

  const EXPIRY_BATCH := 100

  function DeltaSum(gs: seq<Grant>): int {
    if |gs| == 0 then 0 else DeltaSum(gs[..|gs| - 1]) + gs[|gs| - 1].delta
  }

  /** Past its time and not ended yet. */
  predicate Expired(grants: seq<Grant>, now: int, id: int) {
    0 <= id < |grants| && grants[id].active && grants[id].expireAt <= now
  }

  predicate NoLater(grants: seq<Grant>, i: int, j: int)
    requires 0 <= i < |grants| && 0 <= j < |grants|
  {
    grants[i].expireAt <= grants[j].expireAt
  }

  /** A choice of expired grants, the longest expired first, cut off at `limit`. */
  ghost predicate LongestExpired(grants: seq<Grant>, now: int, limit: nat, ids: seq<int>) {
    && |ids| <= limit
    && (forall k | 0 <= k < |ids| :: Expired(grants, now, ids[k]))
    && (forall k, l | 0 <= k < l < |ids| :: ids[k] != ids[l] && NoLater(grants, ids[k], ids[l]))
    && (forall k, j | 0 <= k < |ids| && Expired(grants, now, j) && j !in ids :: NoLater(grants, ids[k], j))
  }

  /** How many of the grants were ended without their push being refused. */
  function Reversed(grants: seq<Grant>, ids: seq<int>, ok: int -> bool): nat {
    if |ids| == 0 then 0
    else
      var id := ids[|ids| - 1];
      Reversed(grants, ids[..|ids| - 1], ok) + if 0 <= id < |grants| && grants[id].quota && !ok(id) then 0 else 1
  }

  function Batch(limit: int): nat { if limit <= 0 then EXPIRY_BATCH else limit }

  /** The table after the given grants have ended. */
  function Ended(grants: seq<Grant>, ids: seq<int>): seq<Grant> {
    seq(|grants|, i requires 0 <= i < |grants| => if i in ids then grants[i].(active := false) else grants[i])
  }

  lemma {:induction false} EndOne(grants: seq<Grant>, ids: seq<int>, n: nat)
    requires n < |ids| && 0 <= ids[n] < |grants| && grants[ids[n]].active
    requires forall k | 0 <= k < n :: ids[k] != ids[n]
    ensures var before, id := Ended(grants, ids[..n]), ids[n];
            && before[id] == grants[id]
            && Ended(grants, ids[..n + 1]) == before[id := before[id].(active := false)]
    ensures ids[..n + 1][..n] == ids[..n]
  {
    assert ids[..n + 1] == ids[..n] + [ids[n]];
  }

  class MemberQuota {
    const base: int
    var grants: seq<Grant>
    var pushed: int
    ghost var missed: bool

    constructor (base: int)
      ensures this.base == base && State() == Start(base)
    {
      this.base := base;
      grants, pushed, missed := [], Max(0, base), false;
    }

    ghost function State(): QuotaSys
      reads this
    {
      QuotaSys(base, grants, pushed, map[], None, missed)
    }

    method ListActiveQuotaGrants() returns (gs: seq<Grant>)
      ensures DeltaSum(gs) == ActiveSum(grants)
      ensures forall g | g in gs :: g in grants && g.quota && g.active
    {
      gs := [];
      var i := 0;
      while i < |grants|
        invariant 0 <= i <= |grants| && DeltaSum(gs) == ActiveSum(grants[..i])
        invariant forall g | g in gs :: g in grants && g.quota && g.active
      {
        assert grants[..i + 1][..i] == grants[..i];
        if grants[i].quota && grants[i].active {
          assert (gs + [grants[i]])[..|gs|] == gs;
          gs := gs + [grants[i]];
        }
        i := i + 1;
      }
      assert grants[..i] == grants;
    }

    method ComputeOverride() returns (override: int)
      ensures override == Target(State())
    {
      var gs := ListActiveQuotaGrants();
      override := base;
      var i := 0;
      while i < |gs|
        invariant 0 <= i <= |gs| && override == base + DeltaSum(gs[..i])
      {
        assert gs[..i + 1][..i] == gs[..i];
        override := override + gs[i].delta;
        i := i + 1;
      }
      assert gs[..i] == gs;
      if override < 0 {
        override := 0;
      }
    }

    method ApplyMemberOverride(ok: bool)
      modifies `pushed, `missed
      ensures pushed == (if ok then Target(old(State())) else old(pushed)) && missed == !ok
    {
      var override := ComputeOverride();
      if ok {
        pushed := override;
      }
      missed := !ok;
    }

    method MarkGrantReverted(id: int) returns (marked: bool)
      modifies `grants
      ensures marked == (0 <= id < |old(grants)| && old(grants)[id].active)
      ensures grants == if marked then old(grants)[id := old(grants)[id].(active := false)] else old(grants)
    {
      if 0 <= id < |grants| && grants[id].active {
        grants := grants[id := grants[id].(active := false)];
        return true;
      }
      return false;
    }

    method AdjustQuota(delta: int, expireAt: int, ok: bool) returns (accepted: bool)
      modifies this
      ensures accepted == (delta != 0 && -100_000_000_000_000 <= delta <= 100_000_000_000_000)
      ensures State() == if accepted then Alone(old(State()), Create(0, delta, true, expireAt), ok) else old(State())
      ensures grants == old(grants) + if accepted then [Grant(delta, true, true, expireAt)] else []
      ensures accepted && ok ==> pushed == Max(0, base + old(ActiveSum(grants)) + delta)
      ensures !accepted || !ok ==> pushed == old(pushed)
    {
      if delta == 0 || delta > MAX_ADJUST || delta < -MAX_ADJUST {
        return false;
      }
      SumOne(grants, Grant(delta, true, true, expireAt));
      ChangeThenPush(State(), Create(0, delta, true, expireAt), ok);
      grants := grants + [Grant(delta, true, true, expireAt)];
      ApplyMemberOverride(ok);
      return true;
    }

    method RevokeGrant(id: int, ok: bool) returns (accepted: bool)
      modifies this
      ensures accepted == (0 <= id < |old(grants)| && old(grants)[id].active)
      ensures State() == if accepted && old(grants)[id].quota then Alone(old(State()), Revert(0, id), ok)
                         else Apply(old(State()), Revert(0, id))
      ensures grants == if accepted then old(grants)[id := old(grants)[id].(active := false)] else old(grants)
      ensures accepted && old(grants)[id].quota && ok ==>
                pushed == Max(0, base + old(ActiveSum(grants)) - old(grants)[id].delta)
      ensures !accepted || !old(grants)[id].quota || !ok ==> pushed == old(pushed)
    {
      if id < 0 || |grants| <= id || !grants[id].active {
        return false;
      }
      SumUpdate(grants, id, grants[id].(active := false));
      if grants[id].quota {
        ChangeThenPush(State(), Revert(0, id), ok);
      }
      accepted := MarkGrantReverted(id);
      if grants[id].quota {
        ApplyMemberOverride(ok);
      }
    }

    /** Picks the expired grant with the earliest expiry again and again, up to the limit. */
    method ListExpiredActiveGrants(now: int, limit: nat) returns (ids: seq<int>)
      ensures LongestExpired(grants, now, limit, ids)
      ensures |ids| < limit ==> forall id | Expired(grants, now, id) :: id in ids
    {
      ids := [];
      while |ids| < limit
        invariant LongestExpired(grants, now, limit, ids)
        decreases limit - |ids|
      {
        var best := NextExpired(now, ids);
        if best == -1 {
          return;
        }
        ids := ids + [best];
      }
    }

    method NextExpired(now: int, ids: seq<int>) returns (best: int)
      ensures best == -1 ==> forall id | Expired(grants, now, id) :: id in ids
      ensures best != -1 ==> Expired(grants, now, best) && best !in ids
                             && forall id | Expired(grants, now, id) && id !in ids :: NoLater(grants, best, id)
    {
      best := -1;
      var i := 0;
      while i < |grants|
        invariant 0 <= i <= |grants|
        invariant best == -1 ==> forall id | Expired(grants, now, id) && id < i :: id in ids
        invariant best != -1 ==> Expired(grants, now, best) && best !in ids
                                 && forall id | Expired(grants, now, id) && id !in ids && id < i :: NoLater(grants, best, id)
      {
        if grants[i].active && grants[i].expireAt <= now && i !in ids {
          if best == -1 || grants[i].expireAt < grants[best].expireAt {
            best := i;
          }
        }
        i := i + 1;
      }
    }

    /** Ends one grant and pushes if it was a quota grant; false when the push is refused. */
    method ReverseGrant(id: int, ok: bool) returns (done: bool)
      requires IsActive(State(), id)
      modifies this
      ensures grants == old(grants)[id := old(grants)[id].(active := false)]
      ensures done == (ok || !old(grants)[id].quota)
      ensures done && old(pushed) == Target(old(State())) ==> pushed == Target(State())
    {
      SumUpdate(grants, id, grants[id].(active := false));
      var marked := MarkGrantReverted(id);
      if !grants[id].quota {
        return true;
      }
      ApplyMemberOverride(ok);
      return ok;
    }

    method ReverseAll(ids: seq<int>, ok: int -> bool) returns (reversed: nat)
      requires forall k | 0 <= k < |ids| :: IsActive(State(), ids[k])
      requires forall k, l | 0 <= k < l < |ids| :: ids[k] != ids[l]
      modifies this
      ensures grants == Ended(old(grants), ids)
      ensures reversed == Reversed(old(grants), ids, ok)
      ensures (forall id :: ok(id)) && old(pushed) == Target(old(State())) ==> pushed == Target(State())
    {
      reversed := 0;
      var n := 0;
      while n < |ids|
        invariant 0 <= n <= |ids| && grants == Ended(old(grants), ids[..n])
        invariant reversed == Reversed(old(grants), ids[..n], ok)
        invariant (forall id :: ok(id)) && old(pushed) == Target(old(State())) ==> pushed == Target(State())
      {
        EndOne(old(grants), ids, n);
        var done := ReverseGrant(ids[n], ok(ids[n]));
        if done {
          reversed := reversed + 1;
        }
        n := n + 1;
      }
      assert ids[..n] == ids;
    }

    /** The expiry worker: the longest expired grants end, at most the batch; the others stay; a quota
        that was right stays right when no push is refused. */
    method ReverseExpiredGrants(now: int, limit: int, ok: int -> bool) returns (ids: seq<int>, reversed: nat)
      modifies this
      ensures LongestExpired(old(grants), now, Batch(limit), ids)
      ensures |ids| < Batch(limit) ==> forall id :: !Expired(grants, now, id)
      ensures grants == Ended(old(grants), ids)
      ensures reversed == Reversed(old(grants), ids, ok)
      ensures (forall id :: ok(id)) && old(pushed) == Target(old(State())) ==> pushed == Target(State())
    {
      ids := ListExpiredActiveGrants(now, Batch(limit));
      assert forall k | 0 <= k < |ids| :: Expired(grants, now, ids[k]);
      ghost var before := grants;
      reversed := ReverseAll(ids, ok);
      forall id | |ids| < Batch(limit) ensures !Expired(grants, now, id) {
        assert Expired(before, now, id) ==> id in ids;
      }
    }
  }

  /** A lone change of a quota grant, in closed form. */
  lemma {:induction false} ChangeThenPush(s: QuotaSys, change: Step, ok: bool)
    requires s.calls == map[] && s.holder.None?
    requires (change.Create? && change.quota) || (change.Revert? && IsActive(s, change.id) && s.grants[change.id].quota)
    ensures var s1 := Apply(s, change);
            Alone(s, change, ok) == s.(grants := s1.grants, pushed := if ok then Target(s1) else s.pushed, missed := !ok)
  {
    var s1 := Apply(s, change);
    assert s1.calls == map[change.c := Waiting];
    PushAlone(s1, change.c, ok);
  }
}
