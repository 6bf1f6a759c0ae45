/** The token bucket in front of the upstream: lazy refill over real-valued tokens and a clock in
    whole nanoseconds. The wait it returns is cut to whole nanoseconds, and its caller takes a wait of
    zero for a token. */
module TokenBucket {

  const NANOS := 1_000_000_000.0

  /** `rate` is in tokens per second, `last` in nanoseconds. */
  datatype Bucket = Bucket(rate: real, burst: int, tokens: real, last: int)

  ghost predicate Valid(b: Bucket) {
    b.rate > 0.0 && b.burst >= 1 && 0.0 <= b.tokens <= b.burst as real
  }

  function New(rate: real, burst: int, now: int): Bucket { Bucket(rate, burst, burst as real, now) }

  function Refill(b: Bucket, now: int): Bucket {
    var elapsed := (now - b.last) as real / NANOS;
    if elapsed > 0.0 then
      var tokens := b.tokens + elapsed * b.rate;
      b.(tokens := if tokens > b.burst as real then b.burst as real else tokens, last := now)
    else b
  }

  /** The nanoseconds it takes to earn `short`. */
  function Needs(rate: real, short: real): real
    requires rate > 0.0
  {
    short / rate * NANOS
  }

  /** The new bucket and the wait in nanoseconds; the caller goes ahead when the wait is not positive. */
  function Reserve(b: Bucket, now: int): (r: (Bucket, int))
    requires b.rate > 0.0
    ensures r.0.rate == b.rate && r.0.burst == b.burst
  {
    var b1 := Refill(b, now);
    if b1.tokens >= 1.0 then (b1.(tokens := b1.tokens - 1.0), 0)
    else (b1, Needs(b.rate, 1.0 - b1.tokens).Floor)
  }

  predicate Admitted(b: Bucket, now: int)
    requires b.rate > 0.0
  {
    Reserve(b, now).1 <= 0
  }

  /** A token was there and is gone. */
  predicate Takes(b: Bucket, now: int) { Refill(b, now).tokens >= 1.0 }

  // ----- one call -----

  /** What a rate earns in `x` nanoseconds. */
  function Earns(rate: real, x: real): real { x / NANOS * rate }

  function Earned(rate: real, d: int): real { Earns(rate, d as real) }

  lemma {:induction false} EarnedAdds(rate: real, d: int, e: int)
    ensures Earned(rate, d) + Earned(rate, e) == Earned(rate, d + e)
  {
    var x, y := d as real / NANOS, e as real / NANOS;
    assert (d + e) as real / NANOS == x + y;
    assert (x + y) * rate == x * rate + y * rate;
  }

  lemma {:induction false} EarnedGrows(rate: real, d: int)
    requires rate > 0.0 && d >= 0
    ensures Earned(rate, d) >= 0.0
  {
  }

  lemma {:induction false} EarnsMore(rate: real, x: real, y: real)
    requires x < y && rate > 0.0
    ensures Earns(rate, x) < Earns(rate, y)
  {
    var p, q := x / NANOS, y / NANOS;
    assert (q - p) * rate > 0.0;
  }

  lemma {:induction false} NeedsIsEnough(rate: real, short: real)
    requires rate > 0.0
    ensures Earns(rate, Needs(rate, short)) == short
    ensures short >= 0.0 ==> Needs(rate, short) >= 0.0
  {
    var q := short / rate;
    assert q * rate == short;
    assert q * NANOS / NANOS == q;
  }

  lemma {:induction false} ReserveKeeps(b: Bucket, now: int)
    requires Valid(b)
    ensures Valid(Reserve(b, now).0)
    ensures now >= b.last ==> Reserve(b, now).0.last == now
  {
    if now > b.last {
      EarnedGrows(b.rate, now - b.last);
    }
  }

  /** The wait is the shortage in nanoseconds, rounded down. */
  lemma {:induction false} WaitCoversShortage(b: Bucket, now: int)
    requires Valid(b) && !Takes(b, now)
    ensures var short, w := 1.0 - Refill(b, now).tokens, Reserve(b, now).1;
            w >= 0 && Earned(b.rate, w) <= short < Earned(b.rate, w + 1)
  {
    ReserveKeeps(b, now);
    var short := 1.0 - Refill(b, now).tokens;
    var x := Needs(b.rate, short);
    NeedsIsEnough(b.rate, short);
    var w := x.Floor;
    assert w as real <= x < (w + 1) as real;
    EarnsMore(b.rate, x, (w + 1) as real);
    if w as real < x {
      EarnsMore(b.rate, w as real, x);
    }
  }

  /** A caller is let through without a token exactly when less than a nanosecond's worth is missing. */
  lemma {:induction false} FreeRideIff(b: Bucket, now: int)
    requires Valid(b)
    ensures Admitted(b, now) && !Takes(b, now) <==> 0.0 < 1.0 - Refill(b, now).tokens < Earned(b.rate, 1)
  {
    if !Takes(b, now) {
      WaitCoversShortage(b, now);
      var w := Reserve(b, now).1;
      if w > 0 {
        EarnedAdds(b.rate, 1, w - 1);
        EarnedGrows(b.rate, w - 1);
      }
    }
  }

  // ----- waiting -----

  lemma {:induction false} RefillAfter(b: Bucket, now: int, later: int)
    requires Valid(b) && b.last == now <= later
    ensures var t := b.tokens + Earned(b.rate, later - now);
            Refill(b, later).tokens == if t > b.burst as real then b.burst as real else t
  {
    EarnedGrows(b.rate, later - now);
  }

  lemma {:induction false} EarnedMonotone(rate: real, d: int, e: int)
    requires rate > 0.0 && d <= e
    ensures Earned(rate, d) <= Earned(rate, e)
  {
    EarnedAdds(rate, d, e - d);
    EarnedGrows(rate, e - d);
  }

  /** With no competitor, who waits as told is let through; at the first moment it does so by a token
      exactly when the shortage was a whole number of nanoseconds. */
  lemma {:induction false} WaitIsEnough(b: Bucket, now: int, later: int)
    requires Valid(b) && b.last <= now && Reserve(b, now).1 > 0 && later >= now + Reserve(b, now).1
    ensures var (b1, w) := Reserve(b, now);
            && Admitted(b1, later)
            && (Takes(b1, now + w) <==> Earned(b.rate, w) == 1.0 - b1.tokens)
  {
    var (b1, w) := Reserve(b, now);
    var short := 1.0 - b1.tokens;
    ReserveKeeps(b, now);
    WaitCoversShortage(b, now);
    RefillAfter(b1, now, later);
    RefillAfter(b1, now, now + w);
    EarnedMonotone(b.rate, w, later - now);
    EarnedAdds(b.rate, w, 1);
    if !Takes(b1, later) {
      FreeRideIff(b1, later);
    }
  }

  /** What a bucket has at a moment: what it had and what it earned since, up to the burst. */
  function Has(b: Bucket, now: int): real {
    var t := b.tokens + (if now > b.last then (now - b.last) as real / 1_000_000_000.0 * b.rate else 0.0);
    if t > b.burst as real then b.burst as real else t
  }

  /** One call, exactly: with a token or more it goes ahead and takes one, otherwise it takes none and is
      told the time in which the rate earns what is missing, cut to whole nanoseconds. */
  lemma {:induction false} ReserveExactly(b: Bucket, now: int)
    requires Valid(b)
    ensures var (b', w) := Reserve(b, now);
            && b' == b.(tokens := b'.tokens, last := if now > b.last then now else b.last)
            && if Has(b, now) >= 1.0 then w == 0 && b'.tokens == Has(b, now) - 1.0
               else b'.tokens == Has(b, now)
                    && w as real <= (1.0 - Has(b, now)) / b.rate * 1_000_000_000.0 < (w + 1) as real
  {
  }

  // ----- runs -----

  function After(b: Bucket, times: seq<int>): (r: Bucket)
    requires b.rate > 0.0
    ensures r.rate == b.rate && r.burst == b.burst
  {
    if |times| == 0 then b else Reserve(After(b, times[..|times| - 1]), times[|times| - 1]).0
  }

  function TakenIn(b: Bucket, times: seq<int>): nat
    requires b.rate > 0.0
  {
    if |times| == 0 then 0
    else
      var front, now := times[..|times| - 1], times[|times| - 1];
      TakenIn(b, front) + if Takes(After(b, front), now) then 1 else 0
  }

  function AdmittedIn(b: Bucket, times: seq<int>): nat
    requires b.rate > 0.0
  {
    if |times| == 0 then 0
    else
      var front, now := times[..|times| - 1], times[|times| - 1];
      AdmittedIn(b, front) + if Admitted(After(b, front), now) then 1 else 0
  }

  /** A clock that never goes back. */
  ghost predicate Rising(start: int, times: seq<int>) {
    && (forall i | 0 <= i < |times| :: start <= times[i])
    && (forall i, j | 0 <= i <= j < |times| :: times[i] <= times[j])
  }

  lemma {:induction false} RunKeeps(b: Bucket, times: seq<int>)
    requires Valid(b) && Rising(b.last, times)
    ensures Valid(After(b, times))
    ensures After(b, times).last == if |times| == 0 then b.last else times[|times| - 1]
  {
    if |times| > 0 {
      var front := times[..|times| - 1];
      RunKeeps(b, front);
      assert |front| > 0 ==> front[|front| - 1] == times[|times| - 2];
      ReserveKeeps(After(b, front), times[|times| - 1]);
    }
  }

  /** What is taken and what is left come from one full bucket and what was earned since. */
  lemma {:induction false} TakenAndLeft(b: Bucket, times: seq<int>)
    requires Valid(b) && Rising(b.last, times) && |times| > 0
    ensures TakenIn(b, times) as real + After(b, times).tokens
         <= b.burst as real + Earned(b.rate, times[|times| - 1] - times[0])
  {
    var front, now := times[..|times| - 1], times[|times| - 1];
    RunKeeps(b, front);
    var b1 := After(b, front);
    if |front| == 0 {
      ReserveKeeps(b, now);
    } else {
      TakenAndLeft(b, front);
      var before := front[|front| - 1];
      assert before == times[|times| - 2] <= now && front[0] == times[0];
      RefillAfter(b1, before, now);
      EarnedAdds(b.rate, before - times[0], now - before);
    }
  }

  lemma {:induction false} RisingParts(start: int, times: seq<int>, i: nat, j: nat)
    requires Rising(start, times) && i < j <= |times|
    ensures Rising(start, times[..i])
    ensures Rising(if i == 0 then start else times[i - 1], times[i..j])
  {
  }

  /** In any stretch of any run on a clock that never goes back, the tokens taken are at most one full
      bucket and what the rate earns over the stretch. */
  lemma {:induction false} TakenBounded(rate: real, burst: int, start: int, times: seq<int>, i: nat, j: nat)
    requires rate > 0.0 && burst >= 1 && Rising(start, times) && i < j <= |times|
    ensures TakenIn(After(New(rate, burst, start), times[..i]), times[i..j]) as real
         <= burst as real + Earned(rate, times[j - 1] - times[i])
  {
    var b, part := New(rate, burst, start), times[i..j];
    RisingParts(start, times, i, j);
    RunKeeps(b, times[..i]);
    TakenAndLeft(After(b, times[..i]), part);
    RunKeeps(After(b, times[..i]), part);
    assert part[0] == times[i] && part[|part| - 1] == times[j - 1];
  }

  // ----- does everyone who goes ahead take a token? -----

  /** One token is earned in a whole number of nanoseconds. */
  predicate WholeNanos(rate: real)
    requires rate > 0.0
  {
    (NANOS / rate).Floor as real == NANOS / rate
  }

  ghost predicate InUnits(b: Bucket, k: int, u: int) { b.tokens * k as real == u as real }

  lemma {:induction false} EarnedInUnits(rate: real, k: int, d: int)
    requires rate * k as real == NANOS
    ensures Earned(rate, d) * k as real == d as real
  {
    var x := d as real / NANOS;
    assert x * rate * k as real == x * (rate * k as real);
  }

  lemma {:induction false} RefillInUnits(b: Bucket, k: int, u: int, now: int) returns (v: int)
    requires Valid(b) && b.last <= now && k >= 1 && b.rate * k as real == NANOS && InUnits(b, k, u)
    ensures InUnits(Refill(b, now), k, v)
  {
    RefillAfter(b, b.last, now);
    var t := b.tokens + Earned(b.rate, now - b.last);
    EarnedInUnits(b.rate, k, now - b.last);
    if t > b.burst as real {
      v := b.burst * k;
    } else {
      v := u + (now - b.last);
      assert t * k as real == b.tokens * k as real + Earned(b.rate, now - b.last) * k as real;
    }
  }

  lemma {:induction false} NoFreeRide(b: Bucket, k: int, u: int, now: int) returns (v: int)
    requires Valid(b) && b.last <= now && k >= 1 && b.rate * k as real == NANOS && InUnits(b, k, u)
    ensures InUnits(Reserve(b, now).0, k, v)
    ensures Admitted(b, now) <==> Takes(b, now)
  {
    v := RefillInUnits(b, k, u, now);
    var t := Refill(b, now).tokens;
    FreeRideIff(b, now);
    EarnedInUnits(b.rate, k, 1);
    if t >= 1.0 {
      assert (t - 1.0) * k as real == t * k as real - k as real;
      v := v - k;
    } else {
      ShortIsWhole(t, k, v, Earned(b.rate, 1));
    }
  }

  lemma {:induction false} ShortIsWhole(t: real, k: int, v: int, unit: real)
    requires t < 1.0 && k >= 1 && t * k as real == v as real && unit * k as real == 1.0
    ensures 1.0 - t >= unit
  {
    assert (1.0 - t) * k as real == (k - v) as real;
    assert (1.0 - t) * k as real > 0.0;
    assert (1.0 - t - unit) * k as real >= 0.0;
  }

  lemma {:induction false} AllPay(b: Bucket, k: int, u: int, times: seq<int>) returns (v: int)
    requires Valid(b) && Rising(b.last, times) && k >= 1 && b.rate * k as real == NANOS && InUnits(b, k, u)
    ensures AdmittedIn(b, times) == TakenIn(b, times) && InUnits(After(b, times), k, v)
  {
    v := u;
    if |times| > 0 {
      var front := times[..|times| - 1];
      v := AllPay(b, k, u, front);
      RunKeeps(b, front);
      assert |front| > 0 ==> front[|front| - 1] == times[|times| - 2];
      v := NoFreeRide(After(b, front), k, v, times[|times| - 1]);
    }
  }

  /** Calls at the start of a full bucket, one token each. */
  lemma {:induction false} Drained(rate: real, burst: int, start: int, n: nat)
    requires rate > 0.0 && n <= burst
    ensures var b, times := New(rate, burst, start), seq(n, i => start);
            && After(b, times) == b.(tokens := (burst - n) as real)
            && TakenIn(b, times) == AdmittedIn(b, times) == n
  {
    if n > 0 {
      var times := seq(n, i => start);
      assert times[..n - 1] == seq(n - 1, i => start);
      Drained(rate, burst, start, n - 1);
    }
  }

  /** A full bucket emptied at once, and one call just before the next token is whole. */
  function Probe(rate: real, burst: nat, start: int): seq<int>
    requires rate > 0.0
  {
    seq(burst, i => start) + [start + (NANOS / rate).Floor]
  }

  lemma {:induction false} JustShort(rate: real)
    requires rate > 0.0 && !WholeNanos(rate)
    ensures var n := (NANOS / rate).Floor; n >= 0 && Earned(rate, n) < 1.0 < Earned(rate, n + 1)
  {
    var x := NANOS / rate;
    var n := x.Floor;
    assert x > 0.0 && n as real < x < (n + 1) as real;
    NeedsIsEnough(rate, 1.0);
    assert Needs(rate, 1.0) == x by {
      var q := 1.0 / rate;
      assert q * rate == 1.0 && q * NANOS * rate == NANOS && x * rate == NANOS;
      assert (q * NANOS - x) * rate == 0.0;
    }
    EarnsMore(rate, n as real, x);
    EarnsMore(rate, x, (n + 1) as real);
  }

  lemma {:induction false} ProbeRidesFree(rate: real, burst: nat, start: int)
    requires rate > 0.0 && burst >= 1 && !WholeNanos(rate)
    ensures var b, times := New(rate, burst, start), Probe(rate, burst, start);
            Rising(start, times) && AdmittedIn(b, times) == burst + 1 && TakenIn(b, times) == burst
  {
    var b, times, n := New(rate, burst, start), Probe(rate, burst, start), (NANOS / rate).Floor;
    Drained(rate, burst, start, burst);
    JustShort(rate);
    assert times[..|times| - 1] == seq(burst, i => start);
    var b1 := b.(tokens := 0.0);
    RefillAfter(b1, start, start + n);
    EarnedAdds(rate, n, 1);
    FreeRideIff(b1, start + n);
  }

  /** The exact condition: in every run on a clock that never goes back everyone let through takes a
      token if and only if the rate earns a token in a whole number of nanoseconds. */
  lemma {:induction false} EveryonePaysIff(rate: real, burst: int, start: int)
    requires rate > 0.0 && burst >= 1
    ensures WholeNanos(rate) <==>
              forall times | Rising(start, times) ::
                AdmittedIn(New(rate, burst, start), times) == TakenIn(New(rate, burst, start), times)
  {
    var b := New(rate, burst, start);
    if WholeNanos(rate) {
      var k := (NANOS / rate).Floor;
      assert rate * k as real == NANOS && k >= 1;
      forall times | Rising(start, times) ensures AdmittedIn(b, times) == TakenIn(b, times) {
        var v := AllPay(b, k, burst * k, times);
      }
    } else {
      ProbeRidesFree(rate, burst, start);
    }
  }

  /** Where one rides free any number do. */
  lemma {:induction false} FreeRidersRepeat(b: Bucket, now: int, n: nat)
    requires Valid(b) && b.last == now && Admitted(b, now) && !Takes(b, now)
    ensures var times := seq(n, i => now);
            After(b, times) == b && AdmittedIn(b, times) == n && TakenIn(b, times) == 0
  {
    if n > 0 {
      var times := seq(n, i => now);
      assert times[..n - 1] == seq(n - 1, i => now);
      FreeRidersRepeat(b, now, n - 1);
    }
  }

  lemma {:induction false} RunAppend(b: Bucket, first: seq<int>, second: seq<int>)
    requires b.rate > 0.0
    ensures After(b, first + second) == After(After(b, first), second)
    ensures AdmittedIn(b, first + second) == AdmittedIn(b, first) + AdmittedIn(After(b, first), second)
    ensures TakenIn(b, first + second) == TakenIn(b, first) + TakenIn(After(b, first), second)
  {
    if |second| == 0 {
      assert first + second == first;
    } else {
      assert (first + second)[..|first + second| - 1] == first + second[..|second| - 1];
      RunAppend(b, first, second[..|second| - 1]);
    }
  }

  lemma {:induction false} ProbeEndsShort(rate: real, burst: nat, start: int)
    requires rate > 0.0 && burst >= 1 && !WholeNanos(rate)
    ensures var b, now := After(New(rate, burst, start), Probe(rate, burst, start)), start + (NANOS / rate).Floor;
            Valid(b) && b.last == now && Admitted(b, now) && !Takes(b, now)
  {
    var b0, times, now := New(rate, burst, start), Probe(rate, burst, start), start + (NANOS / rate).Floor;
    Drained(rate, burst, start, burst);
    JustShort(rate);
    assert times[..|times| - 1] == seq(burst, i => start);
    var b1 := b0.(tokens := 0.0);
    RefillAfter(b1, start, now);
    EarnedAdds(rate, now - start, 1);
    FreeRideIff(b1, now);
    var b := Reserve(b1, now).0;
    ReserveKeeps(b1, now);
    assert b == After(b0, times);
    FreeRideIff(b, now);
  }

  /** At any other rate there is no bound at all: within the time of one token, burst + 1 + n calls go
      ahead, for every n, and only burst of them take a token. */
  lemma {:induction false} NoBoundOtherwise(rate: real, burst: nat, start: int, n: nat)
    requires rate > 0.0 && burst >= 1 && !WholeNanos(rate)
    ensures var b, now := New(rate, burst, start), start + (NANOS / rate).Floor;
            var times := Probe(rate, burst, start) + seq(n, i => now);
            AdmittedIn(b, times) == burst + 1 + n && TakenIn(b, times) == burst
  {
    var b, now := New(rate, burst, start), start + (NANOS / rate).Floor;
    ProbeRidesFree(rate, burst, start);
    ProbeEndsShort(rate, burst, start);
    FreeRidersRepeat(After(b, Probe(rate, burst, start)), now, n);
    RunAppend(b, Probe(rate, burst, start), seq(n, i => now));
  }

  // ----- the object -----

  class Limiter {
    const rate: real
    const burst: int
    var tokens: real
    var last: int

    constructor (rate: real, burst: int, now: int)
      ensures Contents() == New(rate, burst, now)
    {
      this.rate, this.burst := rate, burst;
      tokens, last := burst as real, now;
    }

    function Contents(): Bucket
      reads this
    {
      Bucket(rate, burst, tokens, last)
    }

    method TryReserve(now: int) returns (wait: int)
      requires rate > 0.0
      modifies this
      ensures (Contents(), wait) == Reserve(old(Contents()), now)
    {
      var elapsed := (now - last) as real / NANOS;
      if elapsed > 0.0 {
        tokens := tokens + elapsed * rate;
        if tokens > burst as real {
          tokens := burst as real;
        }
        last := now;
      }
      if tokens >= 1.0 {
        tokens := tokens - 1.0;
        return 0;
      }
      var need := 1.0 - tokens;
      return (need / rate * NANOS).Floor;
    }

    /** Waits as told until let through; alone it is after at most one wait, which is exact. */
    method Wait(now: int, cancelled: bool) returns (ok: bool, end: int)
      requires Valid(Contents()) && last <= now
      modifies this
      ensures Valid(Contents()) && last == end
      ensures ok <==> Admitted(old(Contents()), now) || !cancelled
      ensures end == if Admitted(old(Contents()), now) || cancelled then now else now + Reserve(old(Contents()), now).1
      ensures Contents() == if end == now then Reserve(old(Contents()), now).0
                            else Reserve(Reserve(old(Contents()), now).0, end).0
    {
      end := now;
      ghost var waited := false;
      while true
        invariant Valid(Contents()) && last <= end
        invariant !waited ==> end == now && Contents() == old(Contents())
        invariant waited ==> !cancelled && !Admitted(old(Contents()), now) && Admitted(Contents(), end)
                             && end == now + Reserve(old(Contents()), now).1 > now
                             && Contents() == Reserve(old(Contents()), now).0
        decreases !waited
      {
        ReserveKeeps(Contents(), end);
        ghost var before := Contents();
        var wait := TryReserve(end);
        if wait <= 0 {
          return true, end;
        }
        if cancelled {
          return false, end;
        }
        WaitIsEnough(before, end, end + wait);
        end := end + wait;
        waited := true;
      }
    }
  }
}
