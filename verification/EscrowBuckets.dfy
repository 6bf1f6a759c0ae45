/** Escrow buckets of one organisation: one active bucket mirrored upstream as the spendable window,
    and holding buckets that are merged oldest first and reduced newest first. */
module EscrowBuckets {
  import opened Prelude
  import opened UsageTables

  const WINDOW_CAP := 2_000_000_000

  datatype BucketStatus = Active | Holding | Merged

  /** A row of the bucket table; `ord` is its unique sequence number. */
  datatype Bucket = Bucket(ord: int, amount: int, status: BucketStatus)

  function HoldingSum(bs: seq<Bucket>): int {
    if |bs| == 0 then 0 else HoldingSum(bs[..|bs| - 1]) + HoldingAmount(bs[|bs| - 1])
  }

  function HoldingAmount(b: Bucket): int { if b.status == Holding then b.amount else 0 }

  function ActiveAmount(bs: seq<Bucket>): int {
    if |bs| > 0 && bs[0].status == Active then bs[0].amount else 0
  }

  function OrdAt(bs: seq<Bucket>, i: int): int
    requires 0 <= i < |bs|
  {
    bs[i].ord
  }

  /** The active bucket is row 0 with number 1; numbers rise with the rows; a holding bucket is never
      empty and a merged one always is. */
  ghost predicate Shape(bs: seq<Bucket>) {
    && (|bs| > 0 ==> bs[0].status == Active && bs[0].ord == 1)
    && (forall i | 1 <= i < |bs| :: bs[i].status != Active)
    && (forall i | 0 <= i < |bs| ::
          (bs[i].status == Holding ==> bs[i].amount > 0) && (bs[i].status == Merged ==> bs[i].amount == 0))
    && (forall i, j | 0 <= i < j < |bs| :: OrdAt(bs, i) < OrdAt(bs, j))
  }

  ghost predicate HoldingsPositive(bs: seq<Bucket>) {
    forall b | b in bs && b.status == Holding :: b.amount > 0
  }

  // ----- sums -----

  lemma {:induction false} HoldingSumAppend(a: seq<Bucket>, b: seq<Bucket>)
    ensures HoldingSum(a + b) == HoldingSum(a) + HoldingSum(b)
  {
    if |b| == 0 {
      assert a + b == a;
    } else {
      assert (a + b)[..|a + b| - 1] == a + b[..|b| - 1];
      HoldingSumAppend(a, b[..|b| - 1]);
    }
  }

  lemma {:induction false} HoldingSumUpdate(bs: seq<Bucket>, i: nat, b: Bucket)
    requires i < |bs|
    ensures HoldingSum(bs[i := b]) == HoldingSum(bs) - HoldingAmount(bs[i]) + HoldingAmount(b)
  {
    assert bs == bs[..i] + [bs[i]] + bs[i + 1..];
    assert bs[i := b] == bs[..i] + [b] + bs[i + 1..];
    HoldingSumAppend(bs[..i] + [bs[i]], bs[i + 1..]);
    HoldingSumAppend(bs[..i] + [b], bs[i + 1..]);
    assert (bs[..i] + [b])[..i] == bs[..i] == (bs[..i] + [bs[i]])[..i];
  }

  lemma {:induction false} HoldingSumNonNegative(bs: seq<Bucket>)
    requires HoldingsPositive(bs)
    ensures HoldingSum(bs) >= 0
    ensures HoldingSum(bs) == 0 <==> forall b | b in bs :: b.status != Holding
  {
    if |bs| > 0 {
      assert bs == bs[..|bs| - 1] + [bs[|bs| - 1]];
      HoldingSumNonNegative(bs[..|bs| - 1]);
    }
  }

  // ----- merging, oldest first -----

  /** Take up to `room` out of one holding bucket. */
  function Taken(b: Bucket, room: int): Bucket {
    if room >= b.amount then b.(amount := 0, status := Merged) else b.(amount := b.amount - room)
  }

  function DrainOldest(bs: seq<Bucket>, room: int): seq<Bucket>
  {
    if |bs| == 0 || room <= 0 then bs
    else if bs[0].status == Holding then
      [Taken(bs[0], room)] + DrainOldest(bs[1..], room - Min(room, bs[0].amount))
    else [bs[0]] + DrainOldest(bs[1..], room)
  }

  predicate FirstHolding(bs: seq<Bucket>, i: int) {
    0 <= i < |bs| && bs[i].status == Holding && forall j | 0 <= j < i :: bs[j].status != Holding
  }

  lemma {:induction false} NothingToDrain(bs: seq<Bucket>, room: int)
    requires forall b | b in bs :: b.status != Holding
    ensures DrainOldest(bs, room) == bs
  {
    if |bs| > 0 && room > 0 {
      NothingToDrain(bs[1..], room);
    }
  }

  /** One round of the merge loop: the oldest holding bucket gives what it can. */
  lemma {:induction false} DrainOne(bs: seq<Bucket>, room: int, i: nat)
    requires FirstHolding(bs, i) && room > 0
    ensures DrainOldest(bs, room) == DrainOldest(bs[i := Taken(bs[i], room)], room - Min(room, bs[i].amount))
  {
    var left := room - Min(room, bs[i].amount);
    var after := bs[i := Taken(bs[i], room)];
    if i == 0 {
      assert after[1..] == bs[1..] && after == [Taken(bs[0], room)] + bs[1..];
    } else {
      assert after[1..] == bs[1..][i - 1 := Taken(bs[i], room)];
      DrainOne(bs[1..], room, i - 1);
      assert left <= 0 ==> DrainOldest(after[1..], left) == after[1..];
      assert after == [bs[0]] + after[1..];
    }
  }

  /** FIFO: before some row every holding bucket is emptied, after it nothing changes, and only that
      row may be split. */
  ghost predicate FifoSplit(bs: seq<Bucket>, after: seq<Bucket>, p: int) {
    && |after| == |bs| && 0 <= p <= |bs|
    && (forall i | 0 <= i < p :: after[i] == if bs[i].status == Holding then bs[i].(amount := 0, status := Merged) else bs[i])
    && (forall i | p < i < |bs| :: after[i] == bs[i])
    && (p < |bs| ==> bs[p].status == after[p].status && bs[p].ord == after[p].ord &&
                     (bs[p] == after[p] || (bs[p].status == Holding && 0 < after[p].amount < bs[p].amount)))
  }

  lemma {:induction false} DrainOldestIsFifo(bs: seq<Bucket>, room: int) returns (p: int)
    requires room >= 0 && HoldingsPositive(bs)
    ensures FifoSplit(bs, DrainOldest(bs, room), p)
  {
    if |bs| == 0 || room == 0 {
      p := 0;
    } else {
      var head, tail := bs[0], bs[1..];
      assert bs == [head] + tail;
      var left := if head.status == Holding then room - Min(room, head.amount) else room;
      var first := if head.status == Holding then Taken(head, room) else head;
      var q := DrainOldestIsFifo(tail, left);
      p := if head.status == Holding && head.amount > room then 0 else q + 1;
      assert left == 0 ==> DrainOldest(tail, left) == tail;
      FifoStep(tail, DrainOldest(tail, left), head, first, p);
    }
  }

  lemma {:induction false} FifoStep(tail: seq<Bucket>, rest: seq<Bucket>, head: Bucket, first: Bucket, p: int)
    requires |rest| == |tail| && 0 <= p <= |tail| + 1
    requires if p == 0
      then rest == tail && head.status == Holding && first == head.(amount := first.amount) && 0 < first.amount <= head.amount
      else FifoSplit(tail, rest, p - 1) && first == if head.status == Holding then head.(amount := 0, status := Merged) else head
    ensures FifoSplit([head] + tail, [first] + rest, p)
  {
    var bs, after := [head] + tail, [first] + rest;
    forall i | 1 <= i < |bs| ensures bs[i] == tail[i - 1] && after[i] == rest[i - 1] {
    }
  }

  lemma {:induction false} HoldingSumCons(head: Bucket, tail: seq<Bucket>)
    ensures HoldingSum([head] + tail) == HoldingAmount(head) + HoldingSum(tail)
  {
    HoldingSumAppend([head], tail);
    assert [head][..0] == [] && HoldingSum([head][..0]) == 0;
  }

  lemma {:induction false} DrainOldestTakes(bs: seq<Bucket>, room: int)
    requires room >= 0 && HoldingsPositive(bs)
    ensures HoldingSum(bs) - HoldingSum(DrainOldest(bs, room)) == Min(room, HoldingSum(bs))
  {
    HoldingSumNonNegative(bs);
    if |bs| > 0 && room > 0 {
      var head, tail := bs[0], bs[1..];
      assert bs == [head] + tail;
      HoldingSumNonNegative(tail);
      HoldingSumCons(head, tail);
      if head.status == Holding {
        DrainOldestTakes(tail, room - Min(room, head.amount));
        HoldingSumCons(Taken(head, room), DrainOldest(tail, room - Min(room, head.amount)));
      } else {
        DrainOldestTakes(tail, room);
        HoldingSumCons(head, DrainOldest(tail, room));
      }
    }
  }

  // ----- reducing, newest first -----

  function DrainNewest(bs: seq<Bucket>, amount: int): seq<Bucket>
  {
    if |bs| == 0 || amount <= 0 then bs
    else
      var front, last := bs[..|bs| - 1], bs[|bs| - 1];
      if last.status == Holding then DrainNewest(front, amount - Min(amount, last.amount)) + [Taken(last, amount)]
      else DrainNewest(front, amount) + [last]
  }

  /** LIFO: after some row every holding bucket is emptied, before it nothing changes, and only that
      row may be split. */
  ghost predicate LifoSplit(bs: seq<Bucket>, after: seq<Bucket>, p: int) {
    && |after| == |bs| && -1 <= p < |bs|
    && (forall i | p < i < |bs| :: after[i] == if bs[i].status == Holding then bs[i].(amount := 0, status := Merged) else bs[i])
    && (forall i | 0 <= i < p :: after[i] == bs[i])
    && (p >= 0 ==> bs[p].status == after[p].status && bs[p].ord == after[p].ord &&
                   (bs[p] == after[p] || (bs[p].status == Holding && 0 < after[p].amount < bs[p].amount)))
  }

  lemma {:induction false} DrainNewestIsLifo(bs: seq<Bucket>, amount: int) returns (p: int)
    requires amount >= 0 && HoldingsPositive(bs)
    ensures LifoSplit(bs, DrainNewest(bs, amount), p)
  {
    if |bs| == 0 || amount == 0 {
      p := |bs| - 1;
    } else {
      var front, last := bs[..|bs| - 1], bs[|bs| - 1];
      assert bs == front + [last];
      var left := if last.status == Holding then amount - Min(amount, last.amount) else amount;
      var final := if last.status == Holding then Taken(last, amount) else last;
      var q := DrainNewestIsLifo(front, left);
      p := if last.status == Holding && last.amount > amount then |bs| - 1 else q;
      assert left == 0 ==> DrainNewest(front, left) == front;
      LifoStep(front, DrainNewest(front, left), last, final, p);
    }
  }

  lemma {:induction false} LifoStep(front: seq<Bucket>, rest: seq<Bucket>, last: Bucket, final: Bucket, p: int)
    requires |rest| == |front| && -1 <= p <= |front|
    requires if p == |front|
      then rest == front && last.status == Holding && final == last.(amount := final.amount) && 0 < final.amount <= last.amount
      else LifoSplit(front, rest, p) && final == if last.status == Holding then last.(amount := 0, status := Merged) else last
    ensures LifoSplit(front + [last], rest + [final], p)
  {
  }

  lemma {:induction false} DrainNewestTakes(bs: seq<Bucket>, amount: int)
    requires amount >= 0 && HoldingsPositive(bs)
    ensures HoldingSum(bs) - HoldingSum(DrainNewest(bs, amount)) == Min(amount, HoldingSum(bs))
  {
    HoldingSumNonNegative(bs);
    if |bs| > 0 && amount > 0 {
      var front, last := bs[..|bs| - 1], bs[|bs| - 1];
      assert bs == front + [last];
      HoldingSumNonNegative(front);
      var left := if last.status == Holding then amount - Min(amount, last.amount) else amount;
      DrainNewestTakes(front, left);
      var after := DrainNewest(bs, amount);
      assert after[..|after| - 1] == DrainNewest(front, left);
    }
  }

  /** Neither drain touches the active bucket or the numbering. */
  lemma {:induction false} MergeKeepsShape(bs: seq<Bucket>, room: int)
    requires Shape(bs) && room >= 0
    ensures var after := DrainOldest(bs, room);
            && Shape(after) && |after| == |bs| && (|bs| > 0 ==> after[0] == bs[0])
            && HoldingSum(bs) >= 0 && HoldingSum(bs) - HoldingSum(after) == Min(room, HoldingSum(bs))
  {
    var p := DrainOldestIsFifo(bs, room);
    SplitKeepsShape(bs, DrainOldest(bs, room));
    DrainOldestTakes(bs, room);
    HoldingSumNonNegative(bs);
  }

  lemma {:induction false} ReduceKeepsShape(bs: seq<Bucket>, amount: int)
    requires Shape(bs) && amount >= 0
    ensures var after := DrainNewest(bs, amount);
            && Shape(after) && |after| == |bs| && (|bs| > 0 ==> after[0] == bs[0])
            && HoldingSum(bs) >= 0 && HoldingSum(bs) - HoldingSum(after) == Min(amount, HoldingSum(bs))
  {
    var p := DrainNewestIsLifo(bs, amount);
    SplitKeepsShape(bs, DrainNewest(bs, amount));
    DrainNewestTakes(bs, amount);
    HoldingSumNonNegative(bs);
  }

  lemma {:induction false} SplitKeepsShape(bs: seq<Bucket>, after: seq<Bucket>)
    requires Shape(bs) && |after| == |bs|
    requires forall i | 0 <= i < |bs| ::
               || after[i] == bs[i]
               || (bs[i].status == Holding && after[i] == bs[i].(amount := 0, status := Merged))
               || (bs[i].status == Holding && after[i].status == Holding && after[i].ord == bs[i].ord && after[i].amount > 0)
    ensures Shape(after) && (|bs| > 0 ==> after[0] == bs[0])
  {
    forall i, j | 0 <= i < j < |after| ensures OrdAt(after, i) < OrdAt(after, j) {
      assert OrdAt(bs, i) < OrdAt(bs, j);
    }
  }

  // ----- the transactions -----

  /** One organisation's escrow tables. */
  datatype Org = Org(buckets: seq<Bucket>, balance: Option<Balance>, transfers: set<string>)

  predicate HasActive(bs: seq<Bucket>) { |bs| > 0 && bs[0].status == Active }

  function MaxOrd(bs: seq<Bucket>): int {
    if |bs| == 0 then 0 else Max(MaxOrd(bs[..|bs| - 1]), bs[|bs| - 1].ord)
  }

  function AddToActive(bs: seq<Bucket>, amount: int): seq<Bucket>
    requires HasActive(bs)
  {
    bs[0 := bs[0].(amount := bs[0].amount + amount)]
  }

  /** The merge of a refill: at most `room` moves from holding buckets into the active one. */
  function MergeTx(bs: seq<Bucket>, room: int): seq<Bucket> {
    if room <= 0 || !HasActive(bs) then bs
    else
      var drained := DrainOldest(bs, room);
      if HasActive(drained) then AddToActive(drained, HoldingSum(bs) - HoldingSum(drained)) else bs
  }

  function MergedBy(bs: seq<Bucket>, room: int): int {
    ActiveAmount(MergeTx(bs, room)) - ActiveAmount(bs)
  }

  /** The bucket half of a recharge: `fit` is released, the rest becomes a new holding bucket. */
  function Release(bs: seq<Bucket>, fit: int, rest: int): seq<Bucket> {
    var bs1 := if HasActive(bs) then AddToActive(bs, fit) else bs + [Bucket(1, fit, Active)];
    if rest > 0 then bs1 + [Bucket(if HasActive(bs) then MaxOrd(bs1) + 1 else 2, rest, Holding)] else bs1
  }

  /** The UPDATE of a recharge runs left to right: the balance is computed from the old total. */
  function Credit(b: Balance, amount: int): Balance {
    var b1 := b.(balance := b.recharged + amount - b.consumed - b.refunded);
    b1.(recharged := b1.recharged + amount)
  }

  function Debit(b: Balance, amount: int): Balance {
    var b1 := b.(balance := b.recharged - b.consumed - b.refunded - amount);
    b1.(refunded := b1.refunded + amount)
  }

  function Recharged(o: Org): int { if o.balance.Some? then o.balance.value.recharged else 0 }

  function Charged(o: Org): int { if o.balance.Some? then o.balance.value.consumed else 0 }

  function Refunded(o: Org): int { if o.balance.Some? then o.balance.value.refunded else 0 }

  function Available(o: Org): int { if o.balance.Some? then o.balance.value.balance else 0 }

  /** The balance row, created with zeros when there is none. */
  function BalanceOf(o: Org): Balance { Balance(Recharged(o), Charged(o), Refunded(o), Available(o)) }

  /** None: the transfer number is already booked and everything rolls back. */
  function RechargeTx(o: Org, amount: int, transfer: string, fit: int): Option<Org> {
    if transfer in o.transfers then None
    else Some(Org(Release(o.buckets, fit, amount - fit), Some(Credit(BalanceOf(o), amount)), o.transfers + {transfer}))
  }

  /** Holding buckets first, newest first, then the active bucket; the second part is what leaves the
      active bucket. None: not enough in all buckets together. */
  function ReduceTx(bs: seq<Bucket>, amount: int): Option<(seq<Bucket>, int)> {
    var drained := DrainNewest(bs, amount);
    var rest := amount - (HoldingSum(bs) - HoldingSum(drained));
    if rest <= 0 then Some((drained, 0))
    else if !HasActive(drained) || rest > drained[0].amount then None
    else Some((AddToActive(drained, -rest), rest))
  }

  function RefundTx(o: Org, amount: int): Option<(Org, int)> {
    if o.balance.None? || amount > o.balance.value.balance then None
    else
      match ReduceTx(o.buckets, amount)
      case None => None
      case Some((bs, dec)) => Some((o.(buckets := bs, balance := Some(Debit(o.balance.value, amount))), dec))
  }

  // ----- what the transactions keep -----

  ghost predicate Sound(bs: seq<Bucket>) { Shape(bs) && ActiveAmount(bs) >= 0 }

  function Total(bs: seq<Bucket>): int { ActiveAmount(bs) + HoldingSum(bs) }

  lemma {:induction false} ActiveUpdate(bs: seq<Bucket>, amount: int)
    requires Shape(bs) && HasActive(bs)
    ensures Shape(AddToActive(bs, amount))
    ensures ActiveAmount(AddToActive(bs, amount)) == ActiveAmount(bs) + amount
    ensures HoldingSum(AddToActive(bs, amount)) == HoldingSum(bs)
  {
    HoldingSumUpdate(bs, 0, bs[0].(amount := bs[0].amount + amount));
    var after := AddToActive(bs, amount);
    forall i, j | 0 <= i < j < |after| ensures OrdAt(after, i) < OrdAt(after, j) {
      assert OrdAt(bs, i) < OrdAt(bs, j);
    }
  }

  lemma {:induction false} MaxOrdIsMax(bs: seq<Bucket>)
    ensures forall i | 0 <= i < |bs| :: bs[i].ord <= MaxOrd(bs)
    ensures MaxOrd(bs) >= 0
  {
    if |bs| > 0 {
      MaxOrdIsMax(bs[..|bs| - 1]);
      assert bs == bs[..|bs| - 1] + [bs[|bs| - 1]];
    }
  }

  lemma {:induction false} MaxOrdIsLast(bs: seq<Bucket>)
    requires Shape(bs) && |bs| > 0
    ensures MaxOrd(bs) == bs[|bs| - 1].ord
  {
    if |bs| > 1 {
      var front := bs[..|bs| - 1];
      forall i, j | 0 <= i < j < |front| ensures OrdAt(front, i) < OrdAt(front, j) {
        assert OrdAt(bs, i) < OrdAt(bs, j);
      }
      MaxOrdIsLast(front);
      assert OrdAt(bs, |bs| - 2) < OrdAt(bs, |bs| - 1);
    } else {
      assert MaxOrd(bs[..0]) == 0;
    }
  }

  lemma {:induction false} AppendHolding(bs: seq<Bucket>, ord: int, amount: int)
    requires Shape(bs) && |bs| > 0 && amount > 0 && forall i | 0 <= i < |bs| :: bs[i].ord < ord
    ensures var after := bs + [Bucket(ord, amount, Holding)];
            Shape(after) && ActiveAmount(after) == ActiveAmount(bs) && HoldingSum(after) == HoldingSum(bs) + amount
  {
    var after := bs + [Bucket(ord, amount, Holding)];
    assert after[..|after| - 1] == bs;
    forall i, j | 0 <= i < j < |after| ensures OrdAt(after, i) < OrdAt(after, j) {
      assert j < |bs| ==> OrdAt(bs, i) < OrdAt(bs, j);
    }
  }

  /** A recharge releases exactly `fit` and holds exactly the rest. */
  lemma {:induction false} ReleaseSplits(bs: seq<Bucket>, fit: int, rest: int)
    requires Shape(bs) && rest >= 0
    ensures var after := Release(bs, fit, rest);
            && Shape(after) && HasActive(after)
            && ActiveAmount(after) == ActiveAmount(bs) + fit && HoldingSum(after) == HoldingSum(bs) + rest
            && |after| == Max(1, |bs|) + (if rest > 0 then 1 else 0)
            && (forall i | 1 <= i < |bs| :: after[i] == bs[i])
            && (rest > 0 ==> after[|after| - 1] == Bucket(if bs == [] then 2 else bs[|bs| - 1].ord + 1, rest, Holding))
  {
    var bs1 := if HasActive(bs) then AddToActive(bs, fit) else bs + [Bucket(1, fit, Active)];
    if HasActive(bs) {
      ActiveUpdate(bs, fit);
    } else {
      assert bs1[..0] == [] && HoldingSum(bs1[..0]) == 0;
    }
    if rest > 0 {
      MaxOrdIsMax(bs1);
      MaxOrdIsLast(bs1);
      AppendHolding(bs1, if HasActive(bs) then MaxOrd(bs1) + 1 else 2, rest);
    }
  }

  lemma {:induction false} MergeTxIs(bs: seq<Bucket>, room: int)
    requires Shape(bs) && HasActive(bs) && room > 0
    ensures var drained, moved := DrainOldest(bs, room), Min(room, HoldingSum(bs));
            && Shape(drained) && HasActive(drained) && ActiveAmount(drained) == ActiveAmount(bs) && moved >= 0
            && HoldingSum(drained) == HoldingSum(bs) - moved
            && MergeTx(bs, room) == AddToActive(drained, moved)
  {
    MergeKeepsShape(bs, room);
  }

  lemma {:induction false} MergeSome(bs: seq<Bucket>, room: int)
    requires Shape(bs) && HasActive(bs) && room > 0
    ensures var after, moved := MergeTx(bs, room), Min(room, HoldingSum(bs));
            && Shape(after) && moved >= 0
            && ActiveAmount(after) == ActiveAmount(bs) + moved && HoldingSum(after) == HoldingSum(bs) - moved
  {
    MergeTxIs(bs, room);
    ActiveUpdate(DrainOldest(bs, room), Min(room, HoldingSum(bs)));
  }

  /** A merge moves exactly min(room, everything held) and loses nothing. */
  lemma {:induction false} MergeMoves(bs: seq<Bucket>, room: int)
    requires Shape(bs)
    ensures var after := MergeTx(bs, room);
            && Shape(after) && Total(after) == Total(bs)
            && MergedBy(bs, room) == HoldingSum(bs) - HoldingSum(after)
            && MergedBy(bs, room) == if HasActive(bs) && room > 0 then Min(room, HoldingSum(bs)) else 0
  {
    if room > 0 && HasActive(bs) {
      MergeSome(bs, room);
    }
  }

  lemma {:induction false} MergeRows(bs: seq<Bucket>, room: int)
    requires Shape(bs) && HasActive(bs) && room > 0
    ensures |MergeTx(bs, room)| == |bs| && MergeTx(bs, room)[0 := bs[0]] == DrainOldest(bs, room)
  {
    MergeKeepsShape(bs, room);
  }

  /** Apart from the active row, a merge drains a prefix of the holding buckets and splits at most one. */
  lemma {:induction false} MergeIsFifo(bs: seq<Bucket>, room: int) returns (p: int)
    requires Shape(bs) && HasActive(bs) && room > 0
    ensures |MergeTx(bs, room)| == |bs| && FifoSplit(bs, MergeTx(bs, room)[0 := bs[0]], p)
  {
    MergeRows(bs, room);
    p := DrainOldestIsFifo(bs, room);
  }

  lemma {:induction false} ReduceRows(bs: seq<Bucket>, amount: int)
    requires Shape(bs) && bs != [] && amount > 0 && ReduceTx(bs, amount).Some?
    ensures |ReduceTx(bs, amount).value.0| == |bs| && ReduceTx(bs, amount).value.0[0 := bs[0]] == DrainNewest(bs, amount)
  {
    ReduceKeepsShape(bs, amount);
  }

  /** Apart from the active row, a reduction drains a suffix of the holding buckets and splits at most one. */
  lemma {:induction false} ReduceIsLifo(bs: seq<Bucket>, amount: int) returns (p: int)
    requires Shape(bs) && bs != [] && amount > 0 && ReduceTx(bs, amount).Some?
    ensures var after := ReduceTx(bs, amount).value.0;
            |after| == |bs| && LifoSplit(bs, after[0 := bs[0]], p)
  {
    ReduceRows(bs, amount);
    p := DrainNewestIsLifo(bs, amount);
  }

  /** A reduction runs short exactly when the buckets together hold less, and what leaves the active
      bucket is exactly what the holding buckets could not give. */
  lemma {:induction false} ReduceFits(bs: seq<Bucket>, amount: int)
    requires Sound(bs) && amount > 0
    ensures ReduceTx(bs, amount).Some? <==> amount <= Total(bs)
    ensures ReduceTx(bs, amount).Some? ==> ReduceTx(bs, amount).value.1 == Max(0, amount - HoldingSum(bs))
  {
    ReduceKeepsShape(bs, amount);
  }

  lemma {:induction false} ReduceTakes(bs: seq<Bucket>, amount: int)
    requires Sound(bs) && amount > 0 && ReduceTx(bs, amount).Some?
    ensures var (after, dec) := ReduceTx(bs, amount).value;
            && Sound(after) && dec >= 0
            && ActiveAmount(after) == ActiveAmount(bs) - dec
            && HoldingSum(after) == HoldingSum(bs) - (amount - dec)
  {
    ReduceKeepsShape(bs, amount);
    var drained := DrainNewest(bs, amount);
    var rest := amount - (HoldingSum(bs) - HoldingSum(drained));
    if rest > 0 {
      ActiveUpdate(drained, -rest);
    }
  }
}
