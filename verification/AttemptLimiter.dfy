/** Back-off of failed logins: the lock doubles with every failure past the threshold, computed by a
    64-bit shift that wraps, and clamped. */
module AttemptLimiter {
  import opened Prelude

  const THRESHOLD := 5
  const BASE_LOCK := 30_000_000_000   // 30 s in nanoseconds
  const MAX_LOCK := 900_000_000_000   // 15 min

  const TWO_63 := 0x8000_0000_0000_0000
  const TWO_64 := 0x1_0000_0000_0000_0000

  function Pow2(k: nat): (r: int)
    ensures r >= 1
  {
    if k == 0 then 1 else 2 * Pow2(k - 1)
  }

  /** A result that has overflowed a signed 64-bit register. */
  function Wrap64(x: int): int { (x + TWO_63) % TWO_64 - TWO_63 }

  function Shl64(x: int, k: nat): int { Wrap64(x * Pow2(k)) }

  function LockFor(fails: int): int
    requires fails >= THRESHOLD
  {
    var d := Shl64(BASE_LOCK, fails - THRESHOLD);
    if d <= 0 || d > MAX_LOCK then MAX_LOCK else d
  }

  // ----- the shift against the exact power -----

  lemma {:induction false} Pow2Splits(a: nat, b: nat)
    ensures Pow2(a + b) == Pow2(a) * Pow2(b)
  {
    if b > 0 {
      Pow2Splits(a, b - 1);
      assert Pow2(a + b) == 2 * Pow2(a + (b - 1));
      assert Pow2(a) * (2 * Pow2(b - 1)) == 2 * (Pow2(a) * Pow2(b - 1));
    }
  }

  lemma {:induction false} LowPowers()
    ensures Pow2(4) == 16 && Pow2(5) == 32 && Pow2(10) == 1024
  {
    Pow2Splits(2, 2);
    Pow2Splits(4, 1);
    Pow2Splits(5, 5);
  }

  lemma {:induction false} SmallPowers()
    ensures Pow2(4) == 16 && Pow2(5) == 32 && Pow2(28) == 0x1000_0000 && Pow2(29) == 0x2000_0000 && Pow2(30) == 0x4000_0000
  {
    LowPowers();
    Pow2Splits(10, 10);
    Pow2Splits(20, 10);
    assert Pow2(30) == 2 * Pow2(29);
    assert Pow2(29) == 2 * Pow2(28);
  }

  lemma {:induction false} Pow2Grows(a: nat, b: nat)
    requires a <= b
    ensures Pow2(a) <= Pow2(b)
  {
    Pow2Splits(a, b - a);
    assert Pow2(a) * Pow2(b - a) >= Pow2(a) by {
      assert Pow2(a) * (Pow2(b - a) - 1) >= 0;
    }
  }

  /** Once it has wrapped, the shift is a multiple of 2^40 nanoseconds: never between 0 and the cap. */
  lemma {:induction false} WrappedIsOutside(k: nat)
    requires k >= 30
    ensures Shl64(BASE_LOCK, k) <= 0 || Shl64(BASE_LOCK, k) > MAX_LOCK
  {
    SmallPowers();
    Pow2Splits(30, k - 30);
    var q := 29_296_875 * Pow2(k - 30);
    assert BASE_LOCK * Pow2(k) == 0x100_0000_0000 * q by {
      assert BASE_LOCK * Pow2(k) == BASE_LOCK * 0x4000_0000 * Pow2(k - 30);
    }
    MultipleStays(q);
  }

  lemma {:induction false} MultipleStays(q: int)
    ensures Wrap64(0x100_0000_0000 * q) <= 0 || Wrap64(0x100_0000_0000 * q) >= 0x100_0000_0000
  {
    var x := 0x100_0000_0000 * q + TWO_63;
    assert x == TWO_64 * (x / TWO_64) + x % TWO_64;
    var r := q - 0x100_0000 * (x / TWO_64);
    assert Wrap64(0x100_0000_0000 * q) == 0x100_0000_0000 * r;
  }

  lemma {:induction false} NoWrap(x: int)
    requires 0 <= x < TWO_63
    ensures Wrap64(x) == x
  {
  }

  /** The clamped, wrapping shift is the exact minimum of the cap and the doubled lock, for every
      number of failures. */
  lemma {:induction false} LockIsExact(fails: int)
    requires fails >= THRESHOLD
    ensures LockFor(fails) == Min(MAX_LOCK, BASE_LOCK * Pow2(fails - THRESHOLD))
  {
    var k := fails - THRESHOLD;
    SmallPowers();
    if k <= 4 {
      Pow2Grows(k, 4);
      NoWrap(BASE_LOCK * Pow2(k));
    } else {
      Pow2Grows(5, k);
      if k <= 28 {
        Pow2Grows(k, 28);
        NoWrap(BASE_LOCK * Pow2(k));
      } else if k >= 30 {
        WrappedIsOutside(k);
      } else {
        assert Shl64(BASE_LOCK, k) == Wrap64(BASE_LOCK * 0x2000_0000) < 0;
      }
    }
  }

  lemma {:induction false} LockGrows(fails: int, more: int)
    requires THRESHOLD <= fails <= more
    ensures 0 < LockFor(fails) <= LockFor(more) <= MAX_LOCK
  {
    LockIsExact(fails);
    LockIsExact(more);
    Pow2Grows(fails - THRESHOLD, more - THRESHOLD);
  }

  // ----- the table -----

  /** `lockedUntil` is None until the threshold is first reached. */
  datatype Attempts = Attempts(fails: int, lockedUntil: Option<int>)

  type Table = map<string, Attempts>

  function Entry(t: Table, key: string): Attempts { if key in t then t[key] else Attempts(0, None) }

  function RecordFailure(t: Table, key: string, now: int): Table {
    var e := Entry(t, key);
    var fails := e.fails + 1;
    t[key := Attempts(fails, if fails >= THRESHOLD then Some(now + LockFor(fails)) else e.lockedUntil)]
  }

  function RetryAfter(t: Table, key: string, now: int): int {
    match Entry(t, key).lockedUntil
    case None => 0
    case Some(u) => Max(0, u - now)
  }

  datatype LimiterSys = LimiterSys(table: Table, now: int)

  datatype Step = Tick(d: nat) | Fail(key: string) | Reset(key: string)

  function Apply(s: LimiterSys, a: Step): LimiterSys {
    match a
    case Tick(d) => s.(now := s.now + d)
    case Fail(key) => s.(table := RecordFailure(s.table, key, s.now))
    case Reset(key) => s.(table := s.table - {key})
  }

  function Exec(s: LimiterSys, steps: seq<Step>): LimiterSys {
    if |steps| == 0 then s else Apply(Exec(s, steps[..|steps| - 1]), steps[|steps| - 1])
  }

  function Start(now: int): LimiterSys { LimiterSys(map[], now) }

  ghost predicate EntryOk(e: Attempts, now: int) {
    && e.fails >= 0
    && (e.lockedUntil.Some? <==> e.fails >= THRESHOLD)
    && (e.lockedUntil.Some? ==> e.lockedUntil.value <= now + LockFor(e.fails))
  }

  ghost predicate LimiterOk(s: LimiterSys) { forall key | key in s.table :: EntryOk(s.table[key], s.now) }

  lemma {:induction false} StepKeeps(s: LimiterSys, a: Step)
    requires LimiterOk(s)
    ensures LimiterOk(Apply(s, a))
  {
    var s' := Apply(s, a);
    forall key | key in s'.table ensures EntryOk(s'.table[key], s'.now) {
      assert EntryOk(Entry(s.table, key), s.now);
    }
  }

  lemma {:induction false} RunKeeps(start: int, steps: seq<Step>)
    ensures LimiterOk(Exec(Start(start), steps))
  {
    if |steps| > 0 {
      RunKeeps(start, steps[..|steps| - 1]);
      StepKeeps(Exec(Start(start), steps[..|steps| - 1]), steps[|steps| - 1]);
    }
  }

  // ----- the table tells the run -----

  function Clock(start: int, steps: seq<Step>): int {
    if |steps| == 0 then start
    else
      var a := steps[|steps| - 1];
      Clock(start, steps[..|steps| - 1]) + if a.Tick? then a.d else 0
  }

  /** Failures of the key since its last reset. */
  function FailsSince(steps: seq<Step>, key: string): nat {
    if |steps| == 0 then 0
    else
      var front, a := steps[..|steps| - 1], steps[|steps| - 1];
      if a == Reset(key) then 0 else FailsSince(front, key) + if a == Fail(key) then 1 else 0
  }

  /** When the key last failed. */
  function LastFail(start: int, steps: seq<Step>, key: string): int {
    if |steps| == 0 then start
    else
      var front := steps[..|steps| - 1];
      if steps[|steps| - 1] == Fail(key) then Clock(start, front) else LastFail(start, front, key)
  }

  /** 30 s after the fifth failure, twice as long after every further one, at most 15 min. */
  function LockTime(n: nat): int
    requires n >= 5
  {
    Min(900_000_000_000, 30_000_000_000 * Pow2(n - 5))
  }

  function LockEnd(start: int, steps: seq<Step>, key: string): Option<int> {
    var n := FailsSince(steps, key);
    if n >= 5 then Some(LastFail(start, steps, key) + LockTime(n)) else None
  }

  /** The entry of a key with n failures, the last of them at `last`. */
  function EntryAfter(n: nat, last: int): Attempts { Attempts(n, if n >= 5 then Some(last + LockTime(n)) else None) }

  lemma {:induction false} FailureCounts(s: LimiterSys, key: string, n: nat, last: int)
    requires if key in s.table then s.table[key] == EntryAfter(n, last) else n == 0
    ensures var s' := Apply(s, Fail(key)); key in s'.table && s'.table[key] == EntryAfter(n + 1, s.now)
  {
    if n + 1 >= 5 {
      LockIsExact(n + 1);
    }
  }

  lemma {:induction false} EntryTellsRun(start: int, steps: seq<Step>, key: string)
    ensures var s, n := Exec(Start(start), steps), FailsSince(steps, key);
            && s.now == Clock(start, steps)
            && if key in s.table then s.table[key] == EntryAfter(n, LastFail(start, steps, key)) else n == 0
  {
    if |steps| > 0 {
      var front := steps[..|steps| - 1];
      EntryTellsRun(start, front, key);
      if steps[|steps| - 1] == Fail(key) {
        FailureCounts(Exec(Start(start), front), key, FailsSince(front, key), LastFail(start, front, key));
      }
    }
  }

  /** Over every run a key's entry holds the number of its failures since its last reset and, from the fifth
      on, the end of a lock that starts with the last of them; the gate is shut until then. */
  lemma {:induction false} TableTellsRun(start: int, steps: seq<Step>, key: string)
    ensures var s, n, end := Exec(Start(start), steps), FailsSince(steps, key), LockEnd(start, steps, key);
            && s.now == Clock(start, steps)
            && (if key in s.table then s.table[key] == Attempts(n, end) else n == 0)
            && RetryAfter(s.table, key, s.now) == if end.Some? then Max(0, end.value - s.now) else 0
  {
    EntryTellsRun(start, steps, key);
  }

  // ----- the lock only moves forward -----

  ghost predicate NeverReset(steps: seq<Step>, key: string) {
    forall i | 0 <= i < |steps| :: steps[i] != Reset(key)
  }

  predicate NoLaterThan(a: Option<int>, b: Option<int>) { a.Some? ==> b.Some? && a.value <= b.value }

  lemma {:induction false} StepMovesForward(s: LimiterSys, a: Step, key: string)
    requires LimiterOk(s) && a != Reset(key)
    ensures NoLaterThan(Entry(s.table, key).lockedUntil, Entry(Apply(s, a).table, key).lockedUntil)
  {
    var e := Entry(s.table, key);
    if a == Fail(key) && e.lockedUntil.Some? {
      assert EntryOk(e, s.now);
      LockGrows(e.fails, e.fails + 1);
    }
  }

  lemma {:induction false} MovesForward(s: LimiterSys, more: seq<Step>, key: string)
    requires LimiterOk(s) && NeverReset(more, key)
    ensures LimiterOk(Exec(s, more))
    ensures NoLaterThan(Entry(s.table, key).lockedUntil, Entry(Exec(s, more).table, key).lockedUntil)
  {
    if |more| > 0 {
      var front, a := more[..|more| - 1], more[|more| - 1];
      MovesForward(s, front, key);
      StepKeeps(Exec(s, front), a);
      StepMovesForward(Exec(s, front), a, key);
    }
  }

  /** On a clock that never goes back a key's lock never moves back until the key is reset. */
  lemma {:induction false} LockNeverMovesBack(start: int, steps: seq<Step>, more: seq<Step>, key: string)
    requires NeverReset(more, key)
    ensures var s := Exec(Start(start), steps);
            NoLaterThan(Entry(s.table, key).lockedUntil, Entry(Exec(s, more).table, key).lockedUntil)
  {
    RunKeeps(start, steps);
    MovesForward(Exec(Start(start), steps), more, key);
  }

  // ----- how many guesses get through -----

  /** Every failure of the key comes while its gate is open, and the key is never reset. */
  ghost predicate Gated(s: LimiterSys, steps: seq<Step>, key: string) {
    forall i | 0 <= i < |steps| ::
      steps[i] != Reset(key) && (steps[i] == Fail(key) ==> RetryAfter(Exec(s, steps[..i]).table, key, Exec(s, steps[..i]).now) <= 0)
  }

  /** All locks up to and including the one of the nth failure. */
  function LockSum(n: int): int
    decreases n
  {
    if n < THRESHOLD then 0 else LockSum(n - 1) + LockFor(n)
  }

  ghost predicate PaidFor(s: LimiterSys, start: int, key: string) {
    var e := Entry(s.table, key);
    && s.now >= start && e.fails >= 0
    && (e.fails < THRESHOLD ==> e.lockedUntil.None?)
    && (e.fails >= THRESHOLD ==> e.lockedUntil.Some? && e.lockedUntil.value >= start + LockSum(e.fails)
                                 && s.now >= start + LockSum(e.fails - 1))
  }

  lemma {:induction false} GatedPays(start: int, steps: seq<Step>, key: string)
    requires Gated(Start(start), steps, key)
    ensures PaidFor(Exec(Start(start), steps), start, key)
  {
    if |steps| > 0 {
      var front, a := steps[..|steps| - 1], steps[|steps| - 1];
      assert forall i | 0 <= i < |front| :: front[..i] == steps[..i];
      GatedPays(start, front, key);
      PaysOn(Exec(Start(start), front), a, start, key);
    }
  }

  lemma {:induction false} PaysOn(s: LimiterSys, a: Step, start: int, key: string)
    requires PaidFor(s, start, key) && a != Reset(key) && (a == Fail(key) ==> RetryAfter(s.table, key, s.now) <= 0)
    ensures PaidFor(Apply(s, a), start, key)
  {
  }

  lemma {:induction false} LockSumIs(n: int)
    requires n >= 9
    ensures LockSum(n) == 930_000_000_000 + (n - 9) * MAX_LOCK
  {
    LockIsExact(n);
    if n == 9 {
      LockIsExact(5);
      LockIsExact(6);
      LockIsExact(7);
      LockIsExact(8);
      Pow2Splits(2, 2);
      assert LockSum(9) == LockFor(5) + LockFor(6) + LockFor(7) + LockFor(8) + LockFor(9) by {
        assert LockSum(4) == 0 && LockSum(6) == LockSum(5) + LockFor(6);
      }
    } else {
      LockSumIs(n - 1);
      Pow2Grows(5, n - THRESHOLD);
    }
  }

  /** All the failures of a key in a run. */
  function Failures(steps: seq<Step>, key: string): nat {
    if |steps| == 0 then 0 else Failures(steps[..|steps| - 1], key) + if steps[|steps| - 1] == Fail(key) then 1 else 0
  }

  lemma {:induction false} AllSinceReset(steps: seq<Step>, key: string)
    requires NeverReset(steps, key)
    ensures FailsSince(steps, key) == Failures(steps, key)
  {
    if |steps| > 0 {
      AllSinceReset(steps[..|steps| - 1], key);
    }
  }

  /** Who keeps to the gate needs at least 930 s for ten failures and 900 s for each one more. */
  lemma {:induction false} GuessesAreSlow(start: int, steps: seq<Step>, key: string)
    requires Gated(Start(start), steps, key)
    ensures var s := Exec(Start(start), steps);
            var n := Failures(steps, key);
            n >= 10 ==> s.now >= start + 930_000_000_000 + (n - 10) * 900_000_000_000
  {
    GatedPays(start, steps, key);
    AllSinceReset(steps, key);
    TableTellsRun(start, steps, key);
    var n := Entry(Exec(Start(start), steps).table, key).fails;
    if n >= 10 {
      LockSumIs(n - 1);
    }
  }

  // ----- the object -----

  class Limiter {
    var st: Table

    constructor ()
      ensures st == map[]
    {
      st := map[];
    }

    method GetRetryAfter(key: string, now: int) returns (d: int)
      ensures d == RetryAfter(st, key, now)
    {
      if key !in st || st[key].lockedUntil.None? {
        return 0;
      }
      d := st[key].lockedUntil.value - now;
      if d > 0 {
        return;
      }
      return 0;
    }

    method Failed(key: string, now: int)
      requires Entry(st, key).fails >= 0
      modifies this
      ensures st == RecordFailure(old(st), key, now)
      ensures key in st && st[key].fails == 1 + if key in old(st) then old(st)[key].fails else 0
      ensures forall k | k != key :: k in st <==> k in old(st)
      ensures forall k | k in old(st) && k != key :: st[k] == old(st)[k]
    {
      if key !in st {
        st := st[key := Attempts(0, None)];
      }
      var s := st[key];
      s := s.(fails := s.fails + 1);
      if s.fails >= THRESHOLD {
        var d := Shl64(BASE_LOCK, s.fails - THRESHOLD);
        if d <= 0 || d > MAX_LOCK {
          d := MAX_LOCK;
        }
        s := s.(lockedUntil := Some(now + d));
      }
      st := st[key := s];
    }

    method Cleared(key: string)
      modifies this
      ensures st == old(st) - {key}
    {
      st := st - {key};
    }
  }
}
