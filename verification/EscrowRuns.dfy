/** Escrow of one organisation as a step machine. Every call that moves money holds the
    organisation's lock, so one call at a time is between its steps; members spend, settlement posts
    and balances are charged between any two of them, and a call may be lost anywhere. */
module EscrowRuns {
  import opened Prelude
  import opened UsageTables
  import opened EscrowBuckets

  /** Where the call that holds the organisation's lock stands. */
  datatype Call =
    | Idle
    | Recharging(amount: int, transfer: string, seen: int)
    | Refilling(seen: int)
    | Adding(fit: int)
    | Subtracting(dec: int)
    | Comparing(released: int, target: int)
    | Correcting(released: int, delta: int)
    | Checking(released: int)

  datatype EscrowSys = EscrowSys(
    org: Org,
    window: int,           // the upstream quota
    ledger: int,           // everything settled so far
    baseline: Option<int>, // the ledger when the first reconcile looked
    call: Call,
    // history, never read by a step
    spent: int,            // what members have really spent
    lost: int)             // refunds whose upstream subtract never happened

  function Start(): EscrowSys {
    EscrowSys(Org([], None, {}), 0, 0, None, Idle, 0, 0)
  }

  datatype Step =
    | Spend(n: nat)
    | Settle(n: nat)
    | Consume(n: nat)
    | StartRecharge(amount: int, transfer: string)
    | CommitRecharge
    | StartRefill(trigger: int)
    | CommitRefill
    | PushAdd(ok: bool)
    | Refund(amount: int)
    | PushSubtract(ok: bool)
    | ReadTarget
    | ReadActual
    | PushCorrection(ok: bool)
    | CheckBooks
    | Crash

  /** What of a recharge goes straight into the window. */
  function Fit(amount: int, window: int): int { Max(0, Min(amount, WINDOW_CAP - window)) }

  function Baseline(s: EscrowSys): int { if s.baseline.Some? then s.baseline.value else s.ledger }

  function Target(s: EscrowSys): int { Max(0, ActiveAmount(s.org.buckets) - (s.ledger - Baseline(s))) }

  function DoCommitRecharge(s: EscrowSys): EscrowSys
    requires s.call.Recharging?
  {
    var fit := Fit(s.call.amount, s.call.seen);
    match RechargeTx(s.org, s.call.amount, s.call.transfer, fit)
    case None => s.(call := Idle)
    case Some(o) => s.(org := o, call := if fit > 0 && s.call.seen + fit <= WINDOW_CAP then Adding(fit) else Idle)
  }

  function DoCommitRefill(s: EscrowSys): EscrowSys
    requires s.call.Refilling?
  {
    var room := WINDOW_CAP - s.call.seen;
    var merged := MergedBy(s.org.buckets, room);
    s.(org := s.org.(buckets := MergeTx(s.org.buckets, room)), call := if merged > 0 then Adding(merged) else Idle)
  }

  function DoRefund(s: EscrowSys, amount: int): EscrowSys {
    match RefundTx(s.org, amount)
    case None => s
    case Some((o, dec)) => s.(org := o, call := if dec > 0 then Subtracting(dec) else Idle)
  }

  /** A step that is not enabled changes nothing. */
  function Apply(s: EscrowSys, a: Step): EscrowSys {
    match a
    case Spend(n) => s.(window := s.window - n, spent := s.spent + n)
    case Settle(n) => s.(ledger := s.ledger + n)
    case Consume(n) =>
      if s.org.balance.None? then s else s.(org := s.org.(balance := Some(Deduct(s.org.balance.value, n))))
    case StartRecharge(amount, transfer) =>
      if s.call.Idle? && amount > 0 then s.(call := Recharging(amount, transfer, s.window)) else s
    case CommitRecharge => if s.call.Recharging? then DoCommitRecharge(s) else s
    case StartRefill(trigger) =>
      if s.call.Idle? && s.window < trigger && s.window < WINDOW_CAP then s.(call := Refilling(s.window)) else s
    case CommitRefill => if s.call.Refilling? then DoCommitRefill(s) else s
    case PushAdd(ok) =>
      if s.call.Adding? then s.(window := s.window + (if ok then s.call.fit else 0), call := Idle) else s
    case Refund(amount) => if s.call.Idle? && amount > 0 then DoRefund(s, amount) else s
    case PushSubtract(ok) =>
      if !s.call.Subtracting? then s
      else if ok then s.(window := s.window - s.call.dec, call := Idle)
      else s.(lost := s.lost + s.call.dec, call := Idle)
    case ReadTarget =>
      if s.call.Idle?
      then s.(baseline := Some(Baseline(s)), call := Comparing(ActiveAmount(s.org.buckets), Target(s)))
      else s
    case ReadActual =>
      if !s.call.Comparing? then s
      else if s.window > s.call.target then s.(call := Correcting(s.call.released, s.window - s.call.target))
      else s.(call := Checking(s.call.released))
    case PushCorrection(ok) =>
      if !s.call.Correcting? then s
      else if ok then s.(window := s.window - s.call.delta, call := Checking(s.call.released))
      else s.(call := Idle)
    case CheckBooks =>
      if s.call.Checking? then s.(org := s.org.(balance := Some(BalanceOf(s.org))), call := Idle) else s
    case Crash => s.(call := Idle, lost := s.lost + PendingSubtract(s.call))
  }

  function Exec(s: EscrowSys, steps: seq<Step>): EscrowSys {
    if |steps| == 0 then s else Apply(Exec(s, steps[..|steps| - 1]), steps[|steps| - 1])
  }

  function PendingAdd(c: Call): int { if c.Adding? then c.fit else 0 }

  function PendingSubtract(c: Call): int { if c.Subtracting? then c.dec else 0 }

  // ----- what every step keeps -----

  ghost predicate BooksOk(o: Org) {
    && Sound(o.buckets)
    && Total(o.buckets) == Recharged(o) - Refunded(o)
    && Available(o) == Recharged(o) - Charged(o) - Refunded(o) && Charged(o) >= 0
  }

  ghost predicate CallOk(s: EscrowSys) {
    var c := s.call;
    && (c.Recharging? ==> c.amount > 0 && s.window <= c.seen)
    && (c.Refilling? ==> s.window <= c.seen < WINDOW_CAP)
    && (c.Adding? ==> c.fit > 0)
    && (c.Subtracting? ==> c.dec > 0)
    && (c.Comparing? ==> c.target >= 0)
    && (c.Correcting? ==> c.delta > 0)
    && (c.Comparing? || c.Correcting? || c.Checking? ==> c.released == ActiveAmount(s.org.buckets) && s.baseline.Some?)
  }

  ghost predicate WindowOk(s: EscrowSys) {
    && s.window + PendingAdd(s.call) <= WINDOW_CAP
    && s.window + s.spent + PendingAdd(s.call) <= ActiveAmount(s.org.buckets) + s.lost + PendingSubtract(s.call)
    && s.spent >= 0 && s.lost >= 0
  }

  ghost predicate EscrowOk(s: EscrowSys) { BooksOk(s.org) && CallOk(s) && WindowOk(s) }

  lemma {:induction false} RechargeKeepsBooks(o: Org, amount: int, transfer: string, fit: int)
    requires BooksOk(o) && 0 <= fit <= amount && transfer !in o.transfers
    ensures BooksOk(RechargeTx(o, amount, transfer, fit).value)
  {
    ReleaseSplits(o.buckets, fit, amount - fit);
  }

  /** The check on the balance is enough: a refund that passes it never finds the buckets short. */
  lemma {:induction false} RefundFits(o: Org, amount: int)
    requires BooksOk(o) && amount > 0
    ensures RefundTx(o, amount).Some? <==> o.balance.Some? && amount <= o.balance.value.balance
    ensures RefundTx(o, amount).Some? ==> RefundTx(o, amount).value.1 == Max(0, amount - HoldingSum(o.buckets))
  {
    ReduceFits(o.buckets, amount);
  }

  lemma {:induction false} RefundKeepsBooks(o: Org, amount: int)
    requires BooksOk(o) && amount > 0 && RefundTx(o, amount).Some?
    ensures BooksOk(RefundTx(o, amount).value.0)
    ensures var (o', dec) := RefundTx(o, amount).value;
            dec >= 0 && ActiveAmount(o'.buckets) == ActiveAmount(o.buckets) - dec
  {
    ReduceTakes(o.buckets, amount);
  }

  lemma {:induction false} RefillKeepsBooks(o: Org, room: int)
    requires BooksOk(o)
    ensures BooksOk(o.(buckets := MergeTx(o.buckets, room)))
    ensures 0 <= MergedBy(o.buckets, room) <= Max(0, room)
    ensures ActiveAmount(MergeTx(o.buckets, room)) == ActiveAmount(o.buckets) + MergedBy(o.buckets, room)
  {
    MergeMoves(o.buckets, room);
    HoldingSumNonNegative(o.buckets);
  }

  lemma {:induction false} RefillKeeps(s: EscrowSys)
    requires EscrowOk(s) && s.call.Refilling?
    ensures EscrowOk(DoCommitRefill(s))
  {
    RefillKeepsBooks(s.org, WINDOW_CAP - s.call.seen);
  }

  lemma {:induction false} RechargeKeeps(s: EscrowSys)
    requires EscrowOk(s) && s.call.Recharging?
    ensures EscrowOk(DoCommitRecharge(s))
  {
    if s.call.transfer !in s.org.transfers {
      var fit := Fit(s.call.amount, s.call.seen);
      RechargeKeepsBooks(s.org, s.call.amount, s.call.transfer, fit);
      ReleaseSplits(s.org.buckets, fit, s.call.amount - fit);
    }
  }

  lemma {:induction false} RefundKeeps(s: EscrowSys, amount: int)
    requires EscrowOk(s) && s.call.Idle? && amount > 0
    ensures EscrowOk(DoRefund(s, amount))
  {
    if RefundTx(s.org, amount).Some? {
      RefundKeepsBooks(s.org, amount);
    }
  }

  predicate MovesBuckets(a: Step) { a.CommitRecharge? || a.CommitRefill? || a.Refund? }

  lemma {:induction false} OtherKeeps(s: EscrowSys, a: Step)
    requires EscrowOk(s) && !MovesBuckets(a)
    ensures EscrowOk(Apply(s, a))
  {
    var s' := Apply(s, a);
    assert s'.org.buckets == s.org.buckets && BooksOk(s'.org);
  }

  lemma {:induction false} StepKeeps(s: EscrowSys, a: Step)
    requires EscrowOk(s)
    ensures EscrowOk(Apply(s, a))
  {
    match a {
      case CommitRecharge => if s.call.Recharging? { RechargeKeeps(s); }
      case CommitRefill => if s.call.Refilling? { RefillKeeps(s); }
      case Refund(amount) => if s.call.Idle? && amount > 0 { RefundKeeps(s, amount); }
      case _ => OtherKeeps(s, a);
    }
  }

  lemma {:induction false} RunKeeps(steps: seq<Step>)
    ensures EscrowOk(Exec(Start(), steps))
  {
    if |steps| > 0 {
      RunKeeps(steps[..|steps| - 1]);
      StepKeeps(Exec(Start(), steps[..|steps| - 1]), steps[|steps| - 1]);
    } else {
      assert HoldingSum([]) == 0;
    }
  }

  // ----- main results -----

  /** Over every run nothing enters or leaves the buckets but recharges and refunds, there is one
      active bucket and it is number 1, numbers are distinct and no holding bucket is empty. */
  lemma {:induction false} Conservation(steps: seq<Step>)
    ensures var o := Exec(Start(), steps).org;
            var bs := o.buckets;
            && ActiveAmount(bs) + HoldingSum(bs) == Recharged(o) - Refunded(o)
            && Available(o) == Recharged(o) - Charged(o) - Refunded(o)
            && (bs != [] ==> bs[0].status == Active && bs[0].ord == 1)
            && (forall i | 1 <= i < |bs| :: bs[i].status != Active)
            && (forall i, j | 0 <= i < j < |bs| :: bs[i].ord != bs[j].ord)
            && (forall i | 0 <= i < |bs| && bs[i].status == Holding :: bs[i].amount > 0)
  {
    RunKeeps(steps);
    var bs := Exec(Start(), steps).org.buckets;
    forall i, j | 0 <= i < j < |bs| ensures bs[i].ord != bs[j].ord {
      assert OrdAt(bs, i) < OrdAt(bs, j);
    }
  }

  predicate NoLostSubtract(a: Step) { !(a.PushSubtract? && !a.ok) && !a.Crash? }

  lemma {:induction false} NothingLost(steps: seq<Step>)
    requires forall a | a in steps :: NoLostSubtract(a)
    ensures Exec(Start(), steps).lost == 0
  {
    if |steps| > 0 {
      assert steps == steps[..|steps| - 1] + [steps[|steps| - 1]] && NoLostSubtract(steps[|steps| - 1]);
      NothingLost(steps[..|steps| - 1]);
    }
  }

  /** The upstream window never passes its cap, and window plus spending passes what was released only
      by refunds whose subtract was lost or is still on its way. */
  lemma {:induction false} NoOverRelease(steps: seq<Step>)
    ensures var s := Exec(Start(), steps);
            && s.window <= WINDOW_CAP
            && s.window + s.spent <= ActiveAmount(s.org.buckets) + s.lost + PendingSubtract(s.call)
    ensures (forall a | a in steps :: NoLostSubtract(a)) ==>
              var s := Exec(Start(), steps);
              s.window + s.spent <= ActiveAmount(s.org.buckets) + PendingSubtract(s.call)
  {
    RunKeeps(steps);
    if forall a | a in steps :: NoLostSubtract(a) {
      NothingLost(steps);
    }
  }

  /** In every reachable state a refund goes through exactly when the balance allows it, and takes
      from the window only what is not in holding buckets. */
  lemma {:induction false} RefundAlwaysFits(steps: seq<Step>, amount: int)
    requires amount > 0
    ensures var o := Exec(Start(), steps).org;
            && (RefundTx(o, amount).Some? <==> o.balance.Some? && amount <= o.balance.value.balance)
            && (RefundTx(o, amount).Some? ==> RefundTx(o, amount).value.1 == Max(0, amount - HoldingSum(o.buckets)))
  {
    RunKeeps(steps);
    RefundFits(Exec(Start(), steps).org, amount);
  }

  /** What the conservation check compares always agrees: the active amount read at the start of the
      reconcile, the holding sum and the balance row at its end. */
  lemma {:induction false} AlarmNeverSounds(steps: seq<Step>)
    ensures var s := Exec(Start(), steps);
            s.call.Checking? ==> s.call.released + HoldingSum(s.org.buckets) == Recharged(s.org) - Refunded(s.org)
  {
    RunKeeps(steps);
  }

  // ----- reconcile -----

  predicate Outside(a: Step) { a.Spend? || a.Settle? || a.Consume? }

  ghost predicate AllOutside(steps: seq<Step>) { forall a | a in steps :: Outside(a) }

  /** What members spend during some steps taken by others. */
  function Spending(steps: seq<Step>): int {
    if |steps| == 0 then 0
    else
      var a := steps[|steps| - 1];
      Spending(steps[..|steps| - 1]) + if a.Spend? then a.n else 0
  }

  lemma {:induction false} OutsideOnly(s: EscrowSys, steps: seq<Step>)
    requires AllOutside(steps)
    ensures var s' := Exec(s, steps);
            && s'.window == s.window - Spending(steps) && s'.spent == s.spent + Spending(steps)
            && s'.call == s.call && s'.org.buckets == s.org.buckets && s'.baseline == s.baseline && s'.lost == s.lost
            && s'.ledger >= s.ledger && Spending(steps) >= 0
  {
    if |steps| > 0 {
      assert steps == steps[..|steps| - 1] + [steps[|steps| - 1]] && Outside(steps[|steps| - 1]);
      OutsideOnly(s, steps[..|steps| - 1]);
    }
  }

  /** A reconcile, with others' steps before the window is read, before the subtract and before the
      books are checked. */
  function Reconcile(s: EscrowSys, e1: seq<Step>, e2: seq<Step>, e3: seq<Step>, ok: bool): EscrowSys {
    Checked(Corrected(Compared(s, e1), e2, ok), e3)
  }

  function Compared(s: EscrowSys, e1: seq<Step>): EscrowSys { Apply(Exec(Apply(s, ReadTarget), e1), ReadActual) }

  function Corrected(s: EscrowSys, e2: seq<Step>, ok: bool): EscrowSys { Apply(Exec(s, e2), PushCorrection(ok)) }

  function Checked(s: EscrowSys, e3: seq<Step>): EscrowSys { Apply(Exec(s, e3), CheckBooks) }

  /** The call in hand and what it may not see change. */
  ghost predicate Follows(s: EscrowSys, s': EscrowSys, used: int) {
    && used >= 0 && s'.spent == s.spent + used
    && s'.org.buckets == s.org.buckets && s'.baseline == Some(Baseline(s))
  }

  lemma {:induction false} ComparedIs(s: EscrowSys, e1: seq<Step>)
    requires s.call.Idle? && AllOutside(e1)
    ensures var s1, w := Compared(s, e1), s.window - Spending(e1);
            && Follows(s, s1, Spending(e1)) && s1.window == w
            && if w > Target(s) then s1.call == Correcting(ActiveAmount(s.org.buckets), w - Target(s))
               else s1.call == Checking(ActiveAmount(s.org.buckets))
  {
    OutsideOnly(Apply(s, ReadTarget), e1);
  }

  lemma {:induction false} CorrectedIs(s: EscrowSys, e2: seq<Step>, ok: bool)
    requires (s.call.Correcting? || s.call.Checking?) && s.baseline.Some? && AllOutside(e2)
    ensures var s2 := Corrected(s, e2, ok);
            && Follows(s, s2, Spending(e2))
            && s2.window == s.window - Spending(e2) - (if s.call.Correcting? && ok then s.call.delta else 0)
            && s2.call == if s.call.Correcting? && !ok then Idle else Checking(s.call.released)
  {
    OutsideOnly(s, e2);
  }

  lemma {:induction false} CheckedIs(s: EscrowSys, e3: seq<Step>)
    requires (s.call.Idle? || s.call.Checking?) && s.baseline.Some? && AllOutside(e3)
    ensures var s3 := Checked(s, e3);
            Follows(s, s3, Spending(e3)) && s3.call.Idle? && s3.window == s.window - Spending(e3)
  {
    OutsideOnly(s, e3);
  }

  lemma {:induction false} ReconcileComputes(s: EscrowSys, e1: seq<Step>, e2: seq<Step>, e3: seq<Step>, ok: bool)
    requires s.call.Idle? && AllOutside(e1) && AllOutside(e2) && AllOutside(e3)
    ensures var s' := Reconcile(s, e1, e2, e3, ok);
            && Follows(s, s', Spending(e1) + Spending(e2) + Spending(e3)) && s'.call.Idle?
            && Spending(e1) >= 0 && Spending(e2) >= 0 && Spending(e3) >= 0
            && s'.window == (if ok then Min(s.window - Spending(e1), Target(s)) else s.window - Spending(e1))
                            - Spending(e2) - Spending(e3)
  {
    ComparedIs(s, e1);
    var s1 := Compared(s, e1);
    CorrectedIs(s1, e2, ok);
    CheckedIs(Corrected(s1, e2, ok), e3);
  }

  /** A reconcile only lowers the window, and what it leaves is exact; one whose ledger is no further
      than true spending never takes what members could still rightly spend; and one whose ledger has
      all spending undoes every lost subtract, if what was spent had been released. */
  lemma {:induction false} ReconcileOnlyLowers(s: EscrowSys, e1: seq<Step>, e2: seq<Step>, e3: seq<Step>, ok: bool)
    requires s.call.Idle? && AllOutside(e1) && AllOutside(e2) && AllOutside(e3)
    ensures var s' := Reconcile(s, e1, e2, e3, ok);
            var base := if s.baseline.Some? then s.baseline.value else s.ledger;
            var released, used := ActiveAmount(s.org.buckets), Spending(e1) + Spending(e2) + Spending(e3);
            && s'.window <= s.window && s'.baseline == Some(base)
            && (ok ==> s'.window == Min(s.window - Spending(e1), Max(0, released - (s.ledger - base)))
                                    - Spending(e2) - Spending(e3))
            && (s.ledger - base <= s.spent ==> s'.window >= Min(s.window, released - s.spent) - used)
            && (ok && s.ledger - base == s.spent <= released ==> s'.window + s'.spent <= released + Spending(e1))
  {
    ReconcileComputes(s, e1, e2, e3, ok);
  }

  /** With nobody spending, the second of two reconciles moves no quota. */
  lemma {:induction false} SecondReconcileIsIdle(s: EscrowSys, ok: bool)
    requires s.call.Idle?
    ensures var once := Reconcile(s, [], [], [], true);
            var twice := Reconcile(once, [], [], [], ok);
            && twice.window == once.window == Min(s.window, Target(s))
            && twice.org.buckets == s.org.buckets && twice.call.Idle?
  {
    ReconcileComputes(s, [], [], [], true);
    var once := Reconcile(s, [], [], [], true);
    NothingSettled(s);
    ReconcileComputes(once, [], [], [], ok);
  }

  lemma {:induction false} NothingSettled(s: EscrowSys)
    requires s.call.Idle?
    ensures Reconcile(s, [], [], [], true).ledger == s.ledger
  {
  }
}
