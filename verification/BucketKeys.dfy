/** The text key under which one pass groups consumption before it is written.
    A model name may itself contain the separator, so it is not obvious that
    distinct buckets get distinct texts. */
module BucketKeys {

  datatype BucketKey = BucketKey(orgID: int, userID: int, keyID: int, modelName: string, hour: int)

  /** Start of the UTC hour that holds a unix time (floor, also before 1970). */
  function HourBucket(unixSec: int): (hour: int)
    ensures hour % 3600 == 0 && hour <= unixSec < hour + 3600
  {
    unixSec - unixSec % 3600
  }

  function Digit(d: int): char
    requires 0 <= d < 10
  {
    '0' + d as char
  }

  function Digits(n: nat): string {
    if n < 10 then [Digit(n)] else Digits(n / 10) + [Digit(n % 10)]
  }

  /** The text of an integer under the %d verb. */
  function Decimal(n: int): string {
    if n < 0 then "-" + Digits(-n) else Digits(n)
  }

  const BAR := '|'

  function KeyText(k: BucketKey): string {
    Decimal(k.orgID) + [BAR] + (Decimal(k.userID) + [BAR]
    + (Decimal(k.keyID) + [BAR] + (k.modelName + [BAR] + Decimal(k.hour))))
  }

  function Value(s: string): int {
    if |s| == 0 then 0 else Value(s[..|s| - 1]) * 10 + (s[|s| - 1] as int - '0' as int)
  }

  lemma {:induction false} DigitsShape(n: nat)
    ensures Value(Digits(n)) == n && |Digits(n)| > 0
    ensures forall c | c in Digits(n) :: '0' <= c <= '9'
  {
    if n >= 10 {
      DigitsShape(n / 10);
      assert Digits(n)[..|Digits(n)| - 1] == Digits(n / 10);
    } else {
      assert Digits(n)[..0] == "";
    }
  }

  lemma {:induction false} DecimalShape(n: int)
    ensures BAR !in Decimal(n)
    ensures |Decimal(n)| > 0 && (n < 0 <==> Decimal(n)[0] == '-')
  {
    DigitsShape(if n < 0 then -n else n);
    assert n >= 0 ==> Decimal(n)[0] in Digits(n);
  }

  lemma {:induction false} DecimalInjective(a: int, b: int)
    requires Decimal(a) == Decimal(b)
    ensures a == b
  {
    DecimalShape(a);
    DecimalShape(b);
    if a < 0 {
      DigitsShape(-a);
      DigitsShape(-b);
      assert Digits(-a) == Decimal(a)[1..] == Decimal(b)[1..] == Digits(-b);
    } else {
      DigitsShape(a);
      DigitsShape(b);
    }
  }

  /** Text up to the first separator is determined by the whole. */
  lemma {:induction false} SplitFirst(a: string, x: string, b: string, y: string)
    requires BAR !in a && BAR !in b
    requires a + [BAR] + x == b + [BAR] + y
    ensures a == b && x == y
  {
    var s := a + [BAR] + x;
    assert s[|a|] == BAR && s[|b|] == BAR;
    assert |a| == |b|;
    assert a == s[..|a|] && b == s[..|b|];
    assert x == s[|a| + 1..] && y == s[|b| + 1..];
  }

  /** Text after the last separator is determined by the whole. */
  lemma {:induction false} SplitLast(a: string, x: string, b: string, y: string)
    requires BAR !in x && BAR !in y
    requires a + [BAR] + x == b + [BAR] + y
    ensures a == b && x == y
  {
    var s := a + [BAR] + x;
    assert s == b + [BAR] + y;
    assert s[|a|] == BAR && s[|b|] == BAR;
    assert |a| == |b|;
    assert a == s[..|a|] && b == s[..|b|];
    assert x == s[|a| + 1..] && y == s[|b| + 1..];
  }

  /** Distinct buckets have distinct texts, whatever characters the model names hold. */
  lemma {:induction false} KeyTextInjective(k: BucketKey, l: BucketKey)
    requires KeyText(k) == KeyText(l)
    ensures k == l
  {
    DecimalShape(k.orgID); DecimalShape(l.orgID);
    DecimalShape(k.userID); DecimalShape(l.userID);
    DecimalShape(k.keyID); DecimalShape(l.keyID);
    DecimalShape(k.hour); DecimalShape(l.hour);
    var k3, l3 := k.modelName + [BAR] + Decimal(k.hour), l.modelName + [BAR] + Decimal(l.hour);
    var k2, l2 := Decimal(k.keyID) + [BAR] + k3, Decimal(l.keyID) + [BAR] + l3;
    var k1, l1 := Decimal(k.userID) + [BAR] + k2, Decimal(l.userID) + [BAR] + l2;
    SplitFirst(Decimal(k.orgID), k1, Decimal(l.orgID), l1);
    SplitFirst(Decimal(k.userID), k2, Decimal(l.userID), l2);
    SplitFirst(Decimal(k.keyID), k3, Decimal(l.keyID), l3);
    SplitLast(k.modelName, Decimal(k.hour), l.modelName, Decimal(l.hour));
    DecimalInjective(k.orgID, l.orgID);
    DecimalInjective(k.userID, l.userID);
    DecimalInjective(k.keyID, l.keyID);
    DecimalInjective(k.hour, l.hour);
  }
}
