/** The escrow calls of the service. Each takes what the outside does between its steps (how much
    members spend, whether the upstream write succeeds) and is proved to be a run of the machine. */
module EscrowCalls {
  import opened Prelude
  import opened EscrowBuckets
  import opened EscrowRuns
  import opened Escrow

  function Then(s: EscrowSys, a: Step, b: Step, c: Step, d: Step): EscrowSys {
    Apply(Apply(Apply(Apply(s, a), b), c), d)
  }

  lemma {:induction false} ExecLast(s: EscrowSys, steps: seq<Step>, a: Step)
    ensures Exec(s, steps + [a]) == Apply(Exec(s, steps), a)
  {
    assert (steps + [a])[..|steps|] == steps;
  }

  lemma {:induction false} ExecOne(s: EscrowSys, a: Step)
    ensures Exec(s, [a]) == Apply(s, a)
  {
    ExecLast(s, [], a);
    assert [] + [a] == [a];
  }

  lemma {:induction false} ThenIsRun(s: EscrowSys, a: Step, b: Step, c: Step, d: Step)
    ensures Then(s, a, b, c, d) == Exec(s, [a, b, c, d])
  {
    ExecOne(s, a);
    ExecLast(s, [a], b);
    ExecLast(s, [a, b], c);
    ExecLast(s, [a, b, c], d);
    assert [a] + [b] == [a, b] && [a, b] + [c] == [a, b, c] && [a, b, c] + [d] == [a, b, c, d];
  }

  /** A reconcile during which members spend three times. */
  function ReconcileWith(s: EscrowSys, used1: nat, used2: nat, used3: nat, ok: bool): EscrowSys {
    var s1 := Then(s, ReadTarget, Spend(used1), ReadActual, Spend(used2));
    Apply(Apply(Apply(s1, PushCorrection(ok)), Spend(used3)), CheckBooks)
  }

  lemma {:induction false} ReconcileWithIs(s: EscrowSys, used1: nat, used2: nat, used3: nat, ok: bool)
    ensures ReconcileWith(s, used1, used2, used3, ok) == Reconcile(s, [Spend(used1)], [Spend(used2)], [Spend(used3)], ok)
  {
    ExecOne(Apply(s, ReadTarget), Spend(used1));
    ExecOne(Compared(s, [Spend(used1)]), Spend(used2));
    ExecOne(Corrected(Compared(s, [Spend(used1)]), [Spend(used2)], ok), Spend(used3));
  }

  lemma {:induction false} ReconcileWithEnds(s: EscrowSys, used1: nat, used2: nat, used3: nat, ok: bool)
    requires s.call.Idle?
    ensures ReconcileWith(s, used1, used2, used3, ok)
         == s.(window := (if ok then Min(s.window - used1, Target(s)) else s.window - used1) - used2 - used3,
               baseline := Some(Baseline(s)), spent := s.spent + used1 + used2 + used3,
               org := if !ok && s.window - used1 > Target(s) then s.org else s.org.(balance := Some(BalanceOf(s.org))))
  {
    var s2 := Then(s, ReadTarget, Spend(used1), ReadActual, Spend(used2));
    var over := s.window - used1 > Target(s);
    assert s2 == s.(window := s.window - used1 - used2, baseline := Some(Baseline(s)), spent := s.spent + used1 + used2,
                    call := if over then Correcting(ActiveAmount(s.org.buckets), s.window - used1 - Target(s))
                            else Checking(ActiveAmount(s.org.buckets)));
  }

  lemma {:induction false} RefillEnds(s: EscrowSys, trigger: int, used: nat, addOk: bool)
    requires s.call.Idle?
    ensures var room := WINDOW_CAP - s.window;
            var merged := MergedBy(s.org.buckets, room);
            Then(s, StartRefill(trigger), CommitRefill, Spend(used), PushAdd(addOk))
            == if s.window >= trigger || room <= 0 then s.(window := s.window - used, spent := s.spent + used)
               else s.(org := s.org.(buckets := MergeTx(s.org.buckets, room)), spent := s.spent + used,
                       window := s.window - used + if merged > 0 && addOk then merged else 0)
  {
    if s.window < trigger && s.window < WINDOW_CAP {
      assert Apply(Apply(s, StartRefill(trigger)), CommitRefill) == DoCommitRefill(s.(call := Refilling(s.window)));
    }
  }

  // ----- what the calls come to -----

  /** What of a recharge is released at once: all of it when it fits below the cap, what fits when only part
      does, nothing at or above the cap. */
  function Released(amount: int, window: int): int {
    if window + amount <= 2_000_000_000 then amount
    else if window < 2_000_000_000 then 2_000_000_000 - window
    else 0
  }

  lemma {:induction false} FitIsReleased(amount: int, window: int)
    requires amount > 0
    ensures Fit(amount, window) == Released(amount, window)
    ensures 0 <= Fit(amount, window) <= amount && (Fit(amount, window) > 0 ==> window + Fit(amount, window) <= WINDOW_CAP)
  {
  }

  /** The steps of a recharge in closed form. */
  lemma {:induction false} RechargeEnds(s: EscrowSys, amount: int, transfer: string, used: nat, addOk: bool)
    requires s.call.Idle? && amount > 0
    ensures var fit := Released(amount, s.window);
            var booked := RechargeTx(s.org, amount, transfer, fit);
            Then(s, StartRecharge(amount, transfer), CommitRecharge, Spend(used), PushAdd(addOk))
            == s.(org := if booked.Some? then booked.value else s.org, spent := s.spent + used,
                  window := s.window - used + if booked.Some? && addOk then fit else 0)
  {
    FitIsReleased(amount, s.window);
    var s1 := s.(call := Recharging(amount, transfer, s.window));
    assert Apply(s, StartRecharge(amount, transfer)) == s1 && Apply(s1, CommitRecharge) == DoCommitRecharge(s1);
  }

  lemma {:induction false} RechargeBooks(o: Org, amount: int, transfer: string, fit: int)
    requires Shape(o.buckets) && 0 <= fit <= amount && transfer !in o.transfers
    ensures var o' := RechargeTx(o, amount, transfer, fit).value;
            && ActiveAmount(o'.buckets) == ActiveAmount(o.buckets) + fit
            && HoldingSum(o'.buckets) == HoldingSum(o.buckets) + amount - fit
            && Recharged(o') == Recharged(o) + amount && Refunded(o') == Refunded(o)
            && Available(o') == Recharged(o) + amount - Charged(o) - Refunded(o)
            && o'.transfers == o.transfers + {transfer}
  {
    ReleaseSplits(o.buckets, fit, amount - fit);
  }

  /** A recharge under a new transfer number: released and held amounts, balance and window. One under a
      known number changes nothing. */
  lemma {:induction false} RechargeDoes(s: EscrowSys, amount: int, transfer: string, used: nat, addOk: bool)
    requires Shape(s.org.buckets) && s.call.Idle? && amount > 0
    ensures var s' := Then(s, StartRecharge(amount, transfer), CommitRecharge, Spend(used), PushAdd(addOk));
            var released := Released(amount, s.window);
            && s'.call.Idle? && s'.spent == s.spent + used && s'.lost == s.lost
            && if transfer in s.org.transfers then s'.org == s.org && s'.window == s.window - used
               else
                 && ActiveAmount(s'.org.buckets) == ActiveAmount(s.org.buckets) + released
                 && HoldingSum(s'.org.buckets) == HoldingSum(s.org.buckets) + amount - released
                 && Recharged(s'.org) == Recharged(s.org) + amount && Refunded(s'.org) == Refunded(s.org)
                 && Available(s'.org) == Recharged(s.org) + amount - Charged(s.org) - Refunded(s.org)
                 && s'.org.transfers == s.org.transfers + {transfer}
                 && s'.window == s.window - used + if addOk then released else 0
  {
    RechargeEnds(s, amount, transfer, used, addOk);
    if transfer !in s.org.transfers {
      RechargeBooks(s.org, amount, transfer, Released(amount, s.window));
    }
  }

  /** A refill moves min(room, held) into the active bucket when the window is below trigger and cap, and
      nothing otherwise. */
  lemma {:induction false} RefillDoes(s: EscrowSys, trigger: int, used: nat, addOk: bool)
    requires Shape(s.org.buckets) && s.call.Idle?
    ensures var s' := Then(s, StartRefill(trigger), CommitRefill, Spend(used), PushAdd(addOk));
            var moved := if s.window < trigger && s.window < 2_000_000_000 && s.org.buckets != []
                         then Min(2_000_000_000 - s.window, HoldingSum(s.org.buckets)) else 0;
            && ActiveAmount(s'.org.buckets) == ActiveAmount(s.org.buckets) + moved
            && HoldingSum(s'.org.buckets) == HoldingSum(s.org.buckets) - moved
            && s'.org.balance == s.org.balance && s'.org.transfers == s.org.transfers
            && s'.window == s.window - used + if addOk then moved else 0
  {
    RefillEnds(s, trigger, used, addOk);
    MergeMoves(s.org.buckets, 2_000_000_000 - s.window);
    HoldingSumNonNegative(s.org.buckets);
  }

  /** A refund the balance covers leaves the holding buckets first and the active one, with the window, last;
      any other changes nothing. */
  lemma {:induction false} RefundDoes(s: EscrowSys, amount: int, used: nat, subtractOk: bool)
    requires BooksOk(s.org) && s.call.Idle? && amount > 0
    ensures var s' := Apply(Apply(Apply(s, Refund(amount)), Spend(used)), PushSubtract(subtractOk));
            var held := HoldingSum(s.org.buckets);
            var dec := Max(0, amount - held);
            && s'.call.Idle? && s'.spent == s.spent + used
            && if s.org.balance.None? || amount > Available(s.org) then
                 s'.org == s.org && s'.window == s.window - used && s'.lost == s.lost
               else
                 && ActiveAmount(s'.org.buckets) == ActiveAmount(s.org.buckets) - dec
                 && HoldingSum(s'.org.buckets) == held - Min(amount, held)
                 && Refunded(s'.org) == Refunded(s.org) + amount && Recharged(s'.org) == Recharged(s.org)
                 && Available(s'.org) == Available(s.org) - amount
                 && s'.window == s.window - used - (if subtractOk then dec else 0)
                 && s'.lost == s.lost + if subtractOk then 0 else dec
  {
    RefundFits(s.org, amount);
    if RefundTx(s.org, amount).Some? {
      RefundKeepsBooks(s.org, amount);
      ReduceTakes(s.org.buckets, amount);
    }
    assert Apply(s, Refund(amount)) == DoRefund(s, amount);
  }

  class EscrowService {
    const tables: EscrowTables
    var window: int
    var ledger: int
    var baseline: Option<int>
    ghost var spent: int
    ghost var lost: int

    constructor ()
      ensures State() == Start() && fresh(tables)
    {
      tables := new EscrowTables();
      window, ledger, baseline := 0, 0, None;
      spent, lost := 0, 0;
    }

    ghost function State(): EscrowSys
      reads this, tables
    {
      EscrowSys(tables.Contents(), window, ledger, baseline, Idle, spent, lost)
    }

    method MembersSpend(n: nat)
      modifies this
      ensures window == old(window) - n && spent == old(spent) + n
      ensures ledger == old(ledger) && baseline == old(baseline) && lost == old(lost)
    {
      window, spent := window - n, spent + n;
    }

    /** Upstream adds to the quota once, or refuses. */
    method ManageUserQuota(delta: int, ok: bool)
      modifies `window
      ensures window == old(window) + if ok then delta else 0
    {
      if ok {
        window := window + delta;
      }
    }

    /** A refused add is only logged; the tables keep what was released. */
    method ApplyRecharge(amount: int, transfer: string, used: nat, addOk: bool) returns (ok: bool)
      requires Shape(tables.buckets) && amount > 0
      modifies this, tables
      ensures State() == Then(old(State()), StartRecharge(amount, transfer), CommitRecharge, Spend(used), PushAdd(addOk))
      ensures ok == (transfer !in old(tables.transfers))
      ensures ok ==> var released := Released(amount, old(window));
                     && ActiveAmount(tables.buckets) == old(ActiveAmount(tables.buckets)) + released
                     && HoldingSum(tables.buckets) == old(HoldingSum(tables.buckets)) + amount - released
                     && window == old(window) - used + if addOk then released else 0
      ensures !ok ==> tables.Contents() == old(tables.Contents()) && window == old(window) - used
    {
      RechargeDoes(State(), amount, transfer, used, addOk);
      var seen := window;
      var fit := amount;
      var space := WINDOW_CAP - seen;
      if fit > space {
        fit := space;
      }
      if fit < 0 {
        fit := 0;
      }
      assert fit == Fit(amount, seen);
      ok := tables.RechargeAll(amount, transfer, fit);
      MembersSpend(used);
      if ok && fit > 0 && seen + fit <= WINDOW_CAP {
        ManageUserQuota(fit, addOk);
      }
    }

    method RefillToWindow(trigger: int, used: nat, addOk: bool) returns (merged: int)
      requires Shape(tables.buckets)
      modifies this, tables
      ensures State() == Then(old(State()), StartRefill(trigger), CommitRefill, Spend(used), PushAdd(addOk))
      ensures merged == if old(window) < trigger && old(window) < 2_000_000_000 && old(tables.buckets) != []
                        then Min(2_000_000_000 - old(window), old(HoldingSum(tables.buckets))) else 0
    {
      MergeMoves(tables.buckets, WINDOW_CAP - window);
      RefillEnds(State(), trigger, used, addOk);
      var seen := window;
      if seen >= trigger {
        MembersSpend(used);
        return 0;
      }
      var space := WINDOW_CAP - seen;
      if space <= 0 {
        MembersSpend(used);
        return 0;
      }
      merged := tables.MergeHoldingIntoActiveTx(space);
      MembersSpend(used);
      if merged > 0 {
        ManageUserQuota(merged, addOk);
      }
    }

    method DebitBalance(amount: int, used: nat, subtractOk: bool) returns (ok: bool)
      requires Shape(tables.buckets)
      modifies this, tables
      ensures State() == Apply(Apply(Apply(old(State()), Refund(amount)), Spend(used)), PushSubtract(subtractOk))
      ensures ok == (amount > 0 && RefundTx(old(tables.Contents()), amount).Some?)
    {
      if amount <= 0 {
        MembersSpend(used);
        return false;
      }
      var windowDec := tables.RefundAll(amount);
      MembersSpend(used);
      if windowDec.None? {
        return false;
      }
      if windowDec.value > 0 {
        ManageUserQuota(-windowDec.value, subtractOk);
        if !subtractOk {
          lost := lost + windowDec.value;
        }
      }
      return true;
    }

    /** The active amount and the target, from the tables and the ledger; the first call ever fixes
        the baseline. */
    method ReadTargets() returns (released: int, target: int)
      requires BooksOk(tables.Contents())
      modifies `baseline
      ensures released == ActiveAmount(tables.buckets) && target == Target(old(State()))
      ensures baseline == Some(Baseline(old(State())))
    {
      released := 0;
      if |tables.buckets| > 0 {
        released := tables.buckets[0].amount;
      }
      var consumed := ledger;
      var base := consumed;
      if baseline.Some? {
        base := baseline.value;
      } else {
        baseline := Some(consumed);
      }
      target := released - (consumed - base);
      if target < 0 {
        target := 0;
      }
    }

    /** Released plus held against recharged minus refunded; creates the balance row. */
    method CheckConservation(released: int) returns (alarm: bool)
      modifies tables`balance
      ensures tables.balance == Some(BalanceOf(old(tables.Contents())))
      ensures alarm <==> released + HoldingSum(tables.buckets) != old(Recharged(tables.Contents()) - Refunded(tables.Contents()))
    {
      var holding := HoldingSum(tables.buckets);
      tables.balance := Some(BalanceOf(tables.Contents()));
      var row := tables.balance.value;
      alarm := released + holding != row.recharged - row.refunded;
    }

    /** Lowers a window that is above its target and never raises one; the returned alarm is the
        conservation check at the end, which never sounds. */
    method ReconcileOrgEscrow(used1: nat, used2: nat, used3: nat, subtractOk: bool) returns (ok: bool, alarm: bool)
      requires EscrowOk(State())
      modifies this, tables
      ensures State() == ReconcileWith(old(State()), used1, used2, used3, subtractOk)
      ensures !alarm
      ensures !ok <==> !subtractOk && old(window) - used1 > Target(old(State()))
    {
      ReconcileWithEnds(State(), used1, used2, used3, subtractOk);
      var released, target := ReadTargets();
      MembersSpend(used1);
      var actual := window;
      MembersSpend(used2);
      if actual > target {
        ManageUserQuota(-(actual - target), subtractOk);
        if !subtractOk {
          MembersSpend(used3);
          return false, false;
        }
      }
      MembersSpend(used3);
      alarm := CheckConservation(released);
      ok := true;
    }
  }
}
