/**
 The numbers of the live line (crates/ui/src/activity.rs): byte counts rounded to tenths of a common
 unit, in integers only, and counters padded to the width of their total.
 */
module Counters {
  const UNIT: nat := 1024
  const UNITS: seq<string> := ["B", "KiB", "MiB", "GiB", "TiB"]
  const U64: nat := 0x1_0000_0000_0000_0000

  // ---------------------------------------------------------------------------
  // Numbers

  function Digit(n: nat): char
    requires n < 10
  {
    '0' + n as char
  }

  function Decimal(n: nat): (s: string)
    ensures s != ""
  {
    if n < 10 then [Digit(n)] else Decimal(n / 10) + [Digit(n % 10)]
  }

  function Power10(k: nat): (p: nat)
    ensures p >= 1
  {
    if k == 0 then 1 else 10 * Power10(k - 1)
  }

  /** `checked_ilog10`, zero counted like one. */
  function Log10(n: nat): nat { if n < 10 then 0 else 1 + Log10(n / 10) }

  lemma {:induction false} Log10Bounds(n: nat)
    requires n > 0
    ensures Power10(Log10(n)) <= n < Power10(Log10(n) + 1)
  {
    if n >= 10 {
      Log10Bounds(n / 10);
    } else {
      assert Power10(1) == 10 * Power10(0);
    }
  }

  function Digits(n: nat): nat { Log10(n) + 1 }

  /** `digits` says how many digits are written. */
  lemma {:induction false} DigitsAreWritten(n: nat)
    ensures |Decimal(n)| == Digits(n)
  {
    if n >= 10 {
      DigitsAreWritten(n / 10);
    }
  }

  predicate AllDigits(s: string) { forall i :: 0 <= i < |s| ==> '0' <= s[i] <= '9' }

  function Read(s: string): nat
    requires AllDigits(s)
  {
    if s == "" then 0 else 10 * Read(s[..|s| - 1]) + (s[|s| - 1] as int - '0' as int)
  }

  /** The digits read back as the number, and there is no zero in front of others. */
  lemma {:induction false} DecimalReads(n: nat)
    ensures AllDigits(Decimal(n))
    ensures Read(Decimal(n)) == n
    ensures n > 0 ==> Decimal(n)[0] != '0'
  {
    if n < 10 {
      assert Decimal(n)[..0] == "";
    } else {
      DecimalReads(n / 10);
      assert Decimal(n)[..|Decimal(n)| - 1] == Decimal(n / 10);
    }
  }

  /** `write_u64`: the digits from the last to the first, into the end of a buffer. */
  method WriteNumber(out: string, value: nat) returns (r: string)
    requires value < U64
    ensures r == out + Decimal(value)
  {
    DecimalIsShort(value);
    var digits := new char[20];
    var at := digits.Length;
    var rest := value;
    at := at - 1;
    digits[at] := Digit(rest % 10);
    rest := rest / 10;
    while rest != 0
      invariant 0 <= at < 20 && (rest > 0 ==> |Decimal(rest)| <= at)
      invariant (if rest > 0 then Decimal(rest) else "") + digits[at..] == Decimal(value)
      decreases rest
    {
      ghost var written := digits[at..];
      at := at - 1;
      digits[at] := Digit(rest % 10);
      assert digits[at..] == [Digit(rest % 10)] + written;
      FirstDigits(rest, written);
      rest := rest / 10;
    }
    assert "" + digits[at..] == digits[at..];
    r := out + digits[at..];
  }

  lemma FirstDigits(n: nat, written: string)
    requires n > 0
    ensures Decimal(n) + written == (if n / 10 > 0 then Decimal(n / 10) else "") + ([Digit(n % 10)] + written)
  {}

  lemma DecimalIsShort(n: nat)
    requires n < U64
    ensures |Decimal(n)| <= 20
  {
    TwentyDigitsAreEnough();
    ShortDecimal(n, 20);
  }

  lemma {:induction false} PowerAdds(a: nat, b: nat)
    ensures Power10(a + b) == Power10(a) * Power10(b)
  {
    if a > 0 {
      PowerAdds(a - 1, b);
    }
  }

  lemma TwentyDigitsAreEnough()
    ensures Power10(20) >= U64
  {
    assert Power10(1) == 10 && Power10(2) == 100 && Power10(3) == 1000 && Power10(4) == 10000;
    assert Power10(5) == 100000;
    PowerAdds(5, 5);
    PowerAdds(10, 10);
  }

  lemma {:induction false} ShortDecimal(n: nat, k: nat)
    requires k > 0 && n < Power10(k)
    ensures |Decimal(n)| <= k
  {
    if n >= 10 {
      assert k > 1 by {
        assert Power10(1) == 10 * Power10(0);
      }
      ShortDecimal(n / 10, k - 1);
    }
  }

  // ---------------------------------------------------------------------------
  // A counter and its total

  function Spaces(n: nat): string { if n == 0 then "" else " " + Spaces(n - 1) }

  function Counter(done: nat, expected: nat): string {
    Spaces(if Digits(done) < Digits(expected) then Digits(expected) - Digits(done) else 0) + Decimal(done) + "/" + Decimal(expected)
  }

  lemma {:induction false} SpacesAre(n: nat)
    ensures |Spaces(n)| == n && forall c | c in Spaces(n) :: c == ' '
  {
    if n > 0 {
      SpacesAre(n - 1);
    }
  }

  method WriteCounter(out: string, done: nat, expected: nat) returns (r: string)
    requires done < U64 && expected < U64
    ensures r == out + Counter(done, expected)
  {
    r := out;
    var i := Digits(done);
    ghost var all := if Digits(done) < Digits(expected) then Digits(expected) - Digits(done) else 0;
    while i < Digits(expected)
      invariant Digits(done) <= i && (i <= Digits(expected) || i == Digits(done))
      invariant r + Spaces(if i < Digits(expected) then Digits(expected) - i else 0) == out + Spaces(all)
    {
      assert r + (" " + Spaces(Digits(expected) - i - 1)) == r + " " + Spaces(Digits(expected) - i - 1);
      r := r + " ";
      i := i + 1;
    }
    assert r + "" == r;
    r := WriteNumber(r, done);
    r := r + "/";
    r := WriteNumber(r, expected);
  }

  /** The number, padded to the width, then the first slash and the rest. */
  predicate IsPadded(text: string, width: nat, number: string, rest: string) {
    width < |text| && text[width] == '/' && '/' !in text[..width] &&
    |number| <= width && text[width - |number|..width] == number && text[width + 1..] == rest
  }

  /** What stands before the slash is as wide as the wider of the two numbers, the number at its end. */
  lemma CounterKeepsItsWidth(done: nat, expected: nat)
    ensures var width := if Digits(done) < Digits(expected) then Digits(expected) else Digits(done);
      IsPadded(Counter(done, expected), width, Decimal(done), Decimal(expected))
  {
    var blank := if Digits(done) < Digits(expected) then Digits(expected) - Digits(done) else 0;
    DigitsAreWritten(done);
    SpacesAre(blank);
    DecimalReads(done);
    NoSlash(Decimal(done));
    InPieces(Spaces(blank), Decimal(done), Decimal(expected));
  }

  lemma NoSlash(s: string)
    requires AllDigits(s)
    ensures '/' !in s
  {}

  lemma InPieces(a: string, b: string, c: string)
    requires '/' !in a && '/' !in b
    ensures IsPadded(a + b + "/" + c, |a| + |b|, b, c)
  {
    var text, n := a + b + "/" + c, |a| + |b|;
    assert text[..n] == a + b;
    assert text[|a|..n] == b;
  }

  // ---------------------------------------------------------------------------
  // Bytes

  function UnitPower(k: nat): (p: nat)
    ensures p >= 1
  {
    if k == 0 then 1 else UNIT * UnitPower(k - 1)
  }

  /** The unit: as large as it takes to stay below 1024 of it, and no larger. */
  ghost predicate IsScale(bytes: nat, divisor: nat, unit: nat) {
    unit < |UNITS| && divisor == UnitPower(unit) &&
    (bytes / divisor < UNIT || unit == |UNITS| - 1) &&
    (unit > 0 ==> bytes / UnitPower(unit - 1) >= UNIT)
  }

  method Scale(bytes: nat) returns (divisor: nat, unit: nat)
    ensures IsScale(bytes, divisor, unit)
  {
    divisor, unit := 1, 0;
    while bytes / divisor >= UNIT && unit + 1 < |UNITS|
      invariant unit < |UNITS| && divisor == UnitPower(unit)
      invariant unit > 0 ==> bytes / UnitPower(unit - 1) >= UNIT
      decreases |UNITS| - unit
    {
      divisor := divisor * UNIT;
      unit := unit + 1;
    }
  }

  lemma {:induction false} ScaleIsUnique(bytes: nat, d1: nat, u1: nat, d2: nat, u2: nat)
    requires IsScale(bytes, d1, u1) && IsScale(bytes, d2, u2)
    ensures u1 == u2 && d1 == d2
  {
    if u1 < u2 {
      FewerOfALargerUnit(bytes, u1, u2 - 1);
    } else if u2 < u1 {
      FewerOfALargerUnit(bytes, u2, u1 - 1);
    }
  }

  lemma {:induction false} FewerOfALargerUnit(bytes: nat, u: nat, v: nat)
    requires u <= v
    ensures bytes / UnitPower(v) <= bytes / UnitPower(u)
    decreases v - u
  {
    if u < v {
      FewerOfALargerUnit(bytes, u, v - 1);
      DivideAgain(bytes, UnitPower(v - 1));
    }
  }

  lemma {:induction false} MulMonotone(a: nat, b: nat, d: nat)
    requires a <= b
    ensures a * d <= b * d
    decreases b - a
  {
    if a < b {
      MulMonotone(a, b - 1, d);
      assert b * d == (b - 1) * d + d;
    }
  }

  lemma AtMostQuotient(k: nat, n: nat, d: nat)
    requires d > 0 && k * d <= n
    ensures k <= n / d
  {
    var p := n / d;
    DivMod(n, d);
    Distributes(p, 1, d);
    if p + 1 <= k {
      MulMonotone(p + 1, k, d);
    }
  }

  lemma ThousandTimes(q: nat, d: nat)
    ensures q * (UNIT * d) == (UNIT * q) * d
  {}

  lemma DivideAgain(n: nat, d: nat)
    requires d > 0
    ensures n / (UNIT * d) <= n / d
  {
    var q := n / (UNIT * d);
    DivMod(n, UNIT * d);
    ThousandTimes(q, d);
    AtMostQuotient(UNIT * q, n, d);
  }

  /** Ten times the count in units, rounded half up. */
  function Tenths(bytes: nat, divisor: nat): nat
    requires divisor > 0
  {
    (10 * bytes + divisor / 2) / divisor
  }

  function ShownScaled(bytes: nat, divisor: nat): string
    requires divisor > 0
  {
    if divisor == 1 then Decimal(bytes)
    else Decimal(Tenths(bytes, divisor) / 10) + "." + [Digit(Tenths(bytes, divisor) % 10)]
  }

  /** Within half a tenth, a half going up. */
  lemma RoundsHalfUp(bytes: nat, divisor: nat)
    requires divisor > 0 && divisor % 2 == 0
    ensures var t := Tenths(bytes, divisor);
      2 * (10 * bytes) < 2 * (t * divisor) + divisor && 2 * (t * divisor) <= 2 * (10 * bytes) + divisor
  {
    DivMod(10 * bytes + divisor / 2, divisor);
  }

  lemma DivMod(n: nat, d: nat)
    requires d > 0
    ensures n == (n / d) * d + n % d && n % d < d
  {}

  lemma Distributes(a: nat, b: nat, d: nat)
    ensures (a + b) * d == a * d + b * d
  {}

  lemma QuotientIs(q: nat, r: nat, d: nat)
    requires r < d
    ensures (q * d + r) / d == q
  {
    var p := (q * d + r) / d;
    DivMod(q * d + r, d);
    if p < q {
      Distributes(p + 1, q - p - 1, d);
      Distributes(p, 1, d);
    } else if p > q {
      Distributes(q + 1, p - q - 1, d);
      Distributes(q, 1, d);
    }
  }

  lemma DivideSum(q: nat, r: nat, d: nat)
    requires d > 0
    ensures (q * d + r) / d == q + r / d
  {
    DivMod(r, d);
    Distributes(q, r / d, d);
    QuotientIs(q + r / d, r % d, d);
  }

  lemma AtMostTen(rest: nat, d: nat)
    requires rest < d
    ensures (rest * 10 + d / 2) / d <= 10
  {
    var x := rest * 10 + d / 2;
    DivMod(x, d);
    if x / d > 10 {
      Distributes(11, x / d - 11, d);
    }
  }

  /** The two parts computed apart are the tenths computed at once. */
  lemma PartsAreTenths(bytes: nat, divisor: nat)
    requires divisor > 1
    ensures var whole, tenths := bytes / divisor, ((bytes % divisor) * 10 + divisor / 2) / divisor;
      tenths <= 10 && 10 * whole + tenths == Tenths(bytes, divisor)
  {
    var whole, rest := bytes / divisor, bytes % divisor;
    DivMod(bytes, divisor);
    AtMostTen(rest, divisor);
    TenTimes(whole, divisor);
    assert 10 * bytes + divisor / 2 == (10 * whole) * divisor + (rest * 10 + divisor / 2);
    DivideSum(10 * whole, rest * 10 + divisor / 2, divisor);
  }

  lemma TenTimes(n: nat, d: nat)
    ensures (10 * n) * d == 10 * (n * d)
  {}

  lemma {:induction false} UnitsAreSmall(k: nat)
    requires k <= 4
    ensures UnitPower(k) <= 0x100_0000_0000
  {
    assert UnitPower(1) == UNIT * UnitPower(0) && UnitPower(2) == UNIT * UnitPower(1);
    assert UnitPower(3) == UNIT * UnitPower(2) && UnitPower(4) == UNIT * UnitPower(3);
  }

  /** No intermediate result leaves 64 bits. */
  lemma StaysIn64Bits(bytes: nat, divisor: nat)
    requires bytes < U64 && 1 < divisor <= 0x100_0000_0000
    ensures bytes / divisor + 1 < U64 && (bytes % divisor) * 10 + divisor / 2 < U64
  {
    var whole, rest := bytes / divisor, bytes % divisor;
    DivMod(bytes, divisor);
    MulMonotone(2, divisor, whole);
    assert divisor * whole == whole * divisor;
  }

  /** Exactly one digit stands behind the point, whatever the rounding. */
  method WriteScaled(out: string, bytes: nat, divisor: nat, ghost unit: nat) returns (r: string)
    requires bytes < U64 && unit < |UNITS| && divisor == UnitPower(unit)
    ensures r == out + ShownScaled(bytes, divisor)
  {
    if divisor == 1 {
      r := WriteNumber(out, bytes);
      return;
    }
    UnitsAreSmall(unit);
    StaysIn64Bits(bytes, divisor);
    PartsAreTenths(bytes, divisor);
    var whole := bytes / divisor;
    var tenths := ((bytes % divisor) * 10 + divisor / 2) / divisor;
    if tenths == 10 {
      whole := whole + 1;
      tenths := 0;
    }
    r := WriteParts(out, whole, tenths, Tenths(bytes, divisor));
  }

  method WriteParts(out: string, whole: nat, tenths: nat, ghost all: nat) returns (r: string)
    requires whole < U64 && tenths < 10 && all == 10 * whole + tenths
    ensures r == out + (Decimal(all / 10) + "." + [Digit(all % 10)])
  {
    r := WriteNumber(out, whole);
    r := r + ".";
    r := r + [Digit(tenths)];
  }

  /** Both counts in the unit of the larger one, named once. */
  ghost predicate IsBytesText(text: string, done: nat, expected: nat, divisor: nat, unit: nat) {
    IsScale(if done > expected then done else expected, divisor, unit) &&
    text == ShownScaled(done, divisor) + "/" + ShownScaled(expected, divisor) + " " + UNITS[unit]
  }

  method WriteBytes(out: string, done: nat, expected: nat) returns (r: string)
    requires done < U64 && expected < U64
    ensures exists text: string, divisor: nat, unit: nat :: IsBytesText(text, done, expected, divisor, unit) && r == out + text
  {
    var larger := if done > expected then done else expected;
    var divisor, unit := Scale(larger);
    r := WriteScaled(out, done, divisor, unit);
    r := r + "/";
    r := WriteScaled(r, expected, divisor, unit);
    r := r + " ";
    r := r + UNITS[unit];
    ghost var text := ShownScaled(done, divisor) + "/" + ShownScaled(expected, divisor) + " " + UNITS[unit];
    assert r == out + text && IsBytesText(text, done, expected, divisor, unit);
  }
}
