/** The escrow transactions and calls as the code runs them, statement by statement; each call is
    proved to be a run of the step machine. */
module Escrow {
  import opened Prelude
  import opened UsageTables
  import opened EscrowBuckets
  import opened EscrowRuns

  /** The reduce loop has dealt with the rows from i on; the others are as before. */
  ghost predicate Reducing(before: seq<Bucket>, amount: int, now: seq<Bucket>, i: nat, remaining: int)
    requires i <= |now|
  {
    && |now| == |before| && now[..i] == before[..i] && 0 <= remaining <= amount
    && DrainNewest(before[..i], remaining) + now[i..] == DrainNewest(before, amount)
    && remaining == amount - (HoldingSum(before) - HoldingSum(now))
  }

  /** One round of the reduce loop: row i is the newest not yet looked at. */
  lemma {:induction false} ReduceRound(before: seq<Bucket>, amount: int, now: seq<Bucket>, i: nat, remaining: int)
    requires i < |now| && Reducing(before, amount, now, i + 1, remaining) && remaining > 0
    requires now[i].status == Holding ==> now[i].amount > 0
    ensures var b := now[i];
            var after := if b.status == Holding then now[i := Taken(b, remaining)] else now;
            var left := remaining - if b.status == Holding then Min(remaining, b.amount) else 0;
            Reducing(before, amount, after, i, left)
  {
    var b := now[i];
    assert before[..i + 1][..i] == before[..i] && before[..i + 1][i] == before[i] && now[..i + 1][i] == b;
    assert now[..i] == now[..i + 1][..i];
    var after := if b.status == Holding then now[i := Taken(b, remaining)] else now;
    HoldingSumUpdate(now, i, after[i]);
    assert after[i..] == [after[i]] + now[i + 1..];
  }

  class EscrowTables {
    var buckets: seq<Bucket>
    var balance: Option<Balance>
    var transfers: set<string>

    constructor ()
      ensures Contents() == Start().org
    {
      buckets, balance, transfers := [], None, {};
    }

    function Contents(): Org
      reads this
    {
      Org(buckets, balance, transfers)
    }

    method Rollback(saved: Org)
      modifies this
      ensures Contents() == saved
    {
      buckets, balance, transfers := saved.buckets, saved.balance, saved.transfers;
    }

    /** The oldest holding bucket, or -1. */
    method NextHoldingBucketTx() returns (i: int)
      ensures i == -1 ==> forall b | b in buckets :: b.status != Holding
      ensures i != -1 ==> FirstHolding(buckets, i)
    {
      i := 0;
      while i < |buckets|
        invariant 0 <= i <= |buckets|
        invariant forall j | 0 <= j < i :: buckets[j].status != Holding
      {
        if buckets[i].status == Holding {
          return;
        }
        i := i + 1;
      }
      return -1;
    }

    method UpdateEscrowBucketTx(i: int, amount: int, status: BucketStatus)
      requires 0 <= i < |buckets|
      modifies this`buckets
      ensures buckets == old(buckets)[i := Bucket(old(buckets)[i].ord, amount, status)]
    {
      buckets := buckets[i := Bucket(buckets[i].ord, amount, status)];
    }

    method CreateEscrowBucketTx(ord: int, amount: int, status: BucketStatus)
      modifies this`buckets
      ensures buckets == old(buckets) + [Bucket(ord, amount, status)]
    {
      buckets := buckets + [Bucket(ord, amount, status)];
    }

    /** Moves holding buckets into the active one, oldest first, at most `maxMerge` in all. */
    method MergeHoldingIntoActiveTx(maxMerge: int) returns (merged: int)
      requires Shape(buckets)
      modifies this`buckets
      ensures buckets == MergeTx(old(buckets), maxMerge)
      ensures merged == MergedBy(old(buckets), maxMerge)
    {
      if maxMerge <= 0 || |buckets| == 0 {
        return 0;
      }
      ghost var before := buckets;
      var active := buckets[0];
      MergeKeepsShape(before, maxMerge);
      merged := MergeLoop(maxMerge);
      MergeMoves(before, maxMerge);
      assert buckets[0 := active] == buckets;
      if merged > 0 {
        UpdateEscrowBucketTx(0, active.amount + merged, Active);
      }
    }

    method MergeLoop(maxMerge: int) returns (merged: int)
      requires Shape(buckets) && maxMerge > 0
      modifies this`buckets
      ensures buckets == DrainOldest(old(buckets), maxMerge)
      ensures merged == HoldingSum(old(buckets)) - HoldingSum(buckets)
      ensures |old(buckets)| > 0 ==> |buckets| > 0 && buckets[0] == old(buckets[0])
    {
      var remaining := maxMerge;
      merged := 0;
      while remaining > 0
        invariant 0 <= remaining <= maxMerge
        invariant |buckets| == |old(buckets)| && (|buckets| > 0 ==> buckets[0] == old(buckets[0]))
        invariant HoldingsPositive(buckets)
        invariant DrainOldest(buckets, remaining) == DrainOldest(old(buckets), maxMerge)
        invariant merged == HoldingSum(old(buckets)) - HoldingSum(buckets)
      {
        var h := NextHoldingBucketTx();
        if h == -1 {
          NothingToDrain(buckets, remaining);
          break;
        }
        DrainOne(buckets, remaining, h);
        var take := buckets[h].amount;
        if take > remaining {
          take := remaining;
        }
        HoldingSumUpdate(buckets, h, Taken(buckets[h], remaining));
        if take >= buckets[h].amount {
          UpdateEscrowBucketTx(h, 0, Merged);
        } else {
          UpdateEscrowBucketTx(h, buckets[h].amount - take, Holding);
        }
        merged := merged + take;
        remaining := remaining - take;
      }
    }

    /** Holding buckets give first, newest first, then the active one; None is the error of running
        short, after which the caller rolls back. */
    method ReduceEscrowTx(amount: int) returns (windowDec: Option<int>)
      requires Shape(buckets) && amount > 0
      modifies this`buckets
      ensures windowDec.Some? == ReduceTx(old(buckets), amount).Some?
      ensures windowDec.Some? ==> (buckets, windowDec.value) == ReduceTx(old(buckets), amount).value
    {
      ReduceKeepsShape(buckets, amount);
      var remaining := ReduceLoop(amount);
      if remaining <= 0 {
        return Some(0);
      }
      windowDec := TakeFromActive(remaining);
    }

    method TakeFromActive(amount: int) returns (windowDec: Option<int>)
      requires Shape(buckets) && amount > 0
      modifies this`buckets
      ensures windowDec == if HasActive(old(buckets)) && amount <= old(buckets)[0].amount then Some(amount) else None
      ensures windowDec.Some? ==> buckets == AddToActive(old(buckets), -amount)
    {
      if |buckets| == 0 {
        return None;
      }
      var active, remaining := buckets[0], amount;
      var dec := remaining;
      if dec > active.amount {
        dec := active.amount;
      }
      UpdateEscrowBucketTx(0, active.amount - dec, Active);
      remaining := remaining - dec;
      if remaining > 0 {
        return None;
      }
      return Some(dec);
    }

    method ReduceLoop(amount: int) returns (remaining: int)
      requires Shape(buckets) && amount > 0
      modifies this`buckets
      ensures buckets == DrainNewest(old(buckets), amount)
      ensures remaining == amount - (HoldingSum(old(buckets)) - HoldingSum(buckets))
    {
      ghost var before := buckets;
      remaining := amount;
      var i := |buckets|;
      assert before[..i] == before && before + buckets[i..] == before;
      while i > 0
        invariant 0 <= i <= |buckets| && Reducing(before, amount, buckets, i, remaining)
      {
        if remaining <= 0 {
          break;
        }
        i := i - 1;
        ReduceRound(before, amount, buckets, i, remaining);
        remaining := ReduceOne(i, remaining);
      }
      assert before[..i] + buckets[i..] == buckets;
    }

    /** Takes what one row can give. */
    method ReduceOne(i: nat, remaining: int) returns (left: int)
      requires i < |buckets| && remaining > 0
      modifies this`buckets
      ensures buckets == if old(buckets)[i].status == Holding then old(buckets)[i := Taken(old(buckets)[i], remaining)] else old(buckets)
      ensures left == remaining - if old(buckets)[i].status == Holding then Min(remaining, old(buckets)[i].amount) else 0
    {
      left := remaining;
      if buckets[i].status == Holding {
        var dec := remaining;
        if dec > buckets[i].amount {
          dec := buckets[i].amount;
        }
        var rest := buckets[i].amount - dec;
        UpdateEscrowBucketTx(i, rest, if rest == 0 then Merged else Holding);
        left := left - dec;
      }
    }

    /** Books a transfer and adds to the balance; false when the transfer number is taken. */
    method AddRechargeTx(amount: int, transfer: string) returns (ok: bool)
      modifies this
      ensures ok == (transfer !in old(transfers))
      ensures ok ==> Contents() == Org(old(buckets), Some(Credit(BalanceOf(old(Contents())), amount)), old(transfers) + {transfer})
      ensures buckets == old(buckets)
    {
      if balance.None? {
        balance := Some(BalanceOf(Contents()));
      }
      if transfer in transfers {
        return false;
      }
      transfers := transfers + {transfer};
      var row := balance.value;
      row := row.(balance := row.recharged + amount - row.consumed - row.refunded);
      row := row.(recharged := row.recharged + amount);
      balance := Some(row);
      return true;
    }

    method DebitBalanceTx(amount: int) returns (ok: bool)
      modifies this`balance
      ensures ok == (old(balance).Some? && amount <= old(balance).value.balance)
      ensures balance == if ok then Some(Debit(old(balance).value, amount)) else old(balance)
    {
      if balance.None? || amount > balance.value.balance {
        return false;
      }
      var row := balance.value;
      row := row.(balance := row.recharged - row.consumed - row.refunded - amount);
      row := row.(refunded := row.refunded + amount);
      balance := Some(row);
      return true;
    }

    /** Transfer, balance and buckets in one transaction. */
    method RechargeAll(amount: int, transfer: string, fit: int) returns (ok: bool)
      requires Shape(buckets)
      modifies this
      ensures ok == RechargeTx(old(Contents()), amount, transfer, fit).Some?
      ensures Contents() == if ok then RechargeTx(old(Contents()), amount, transfer, fit).value else old(Contents())
    {
      var saved := Contents();
      ok := AddRechargeTx(amount, transfer);
      if !ok {
        Rollback(saved);
        return;
      }
      var firstTime := |buckets| == 0;
      if firstTime {
        CreateEscrowBucketTx(1, fit, Active);
      } else {
        UpdateEscrowBucketTx(0, buckets[0].amount + fit, Active);
      }
      var remainder := amount - fit;
      if remainder > 0 {
        var holdingSeq := MaxOrd(buckets) + 1;
        if firstTime {
          holdingSeq := 2;
        }
        CreateEscrowBucketTx(holdingSeq, remainder, Holding);
      }
    }

    /** Balance and buckets in one transaction; None when either refuses. */
    method RefundAll(amount: int) returns (windowDec: Option<int>)
      requires Shape(buckets) && amount > 0
      modifies this
      ensures windowDec.Some? == RefundTx(old(Contents()), amount).Some?
      ensures windowDec.Some? ==> (Contents(), windowDec.value) == RefundTx(old(Contents()), amount).value
      ensures windowDec.None? ==> Contents() == old(Contents())
    {
      var saved := Contents();
      var ok := DebitBalanceTx(amount);
      if !ok {
        return None;
      }
      windowDec := ReduceEscrowTx(amount);
      if windowDec.None? {
        Rollback(saved);
      }
    }
  }
}
