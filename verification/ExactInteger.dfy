/** Exact numbers as display text (lib/exact-integer.ts). */
module ExactInteger {
  import opened Common
  import opened Decimals

  // ---- Rounding half up ----

  /** `m` is `n / d` rounded to the nearest whole number, a half going up. */
  ghost predicate IsHalfUp(m: int, n: int, d: int) { 2 * m * d <= 2 * n + d < 2 * (m + 1) * d }

  lemma {:induction false} FloorBounds(a: int, b: int)
    requires b > 0
    ensures a / b * b <= a < (a / b + 1) * b
  {
    assert a == a / b * b + a % b;
  }

  lemma {:induction false} FloorUnique(a: int, b: int, q: int, p: int)
    requires b > 0
    requires q * b <= a < (q + 1) * b
    requires p * b <= a < (p + 1) * b
    ensures q == p
  {
    if q < p { Times(q + 1, p, b); }
    if p < q { Times(p + 1, q, b); }
  }

  lemma {:induction false} Times(x: int, y: int, b: int)
    requires b > 0
    ensures x <= y ==> x * b <= y * b
  {
    if x <= y { assert (y - x) * b >= 0; }
  }

  lemma {:induction false} Regrouped(m: int, d: int)
    ensures m * (d * 2) == 2 * m * d
  {
  }

  lemma {:induction false} HalfUpUnique(m: int, m': int, n: int, d: int)
    requires d > 0 && IsHalfUp(m, n, d) && IsHalfUp(m', n, d)
    ensures m == m'
  {
    Regrouped(m, d);
    Regrouped(m + 1, d);
    Regrouped(m', d);
    Regrouped(m' + 1, d);
    FloorUnique(2 * n + d, d * 2, m, m');
  }

  /** The source's way to round. */
  function Rounded(n: nat, d: nat): (m: nat)
    requires d > 0
    ensures IsHalfUp(m, n, d)
  {
    FloorBounds(n * 2 + d, d * 2);
    var m := (n * 2 + d) / (d * 2);
    Regrouped(m, d);
    Regrouped(m + 1, d);
    m
  }

  /** A decimal text of `n / d` with its last digit rounded half up. */
  function RoundedText(n: nat, d: nat, decimals: nat): string
    requires d > 0
  {
    DecimalText(Rounded(n * Power10(decimals), d), decimals)
  }

  function FormatScaledInteger(value: int, divisor: int, decimals: int): (r: Result<string>)
    ensures r.Ok? <==> value >= 0 && divisor > 0 && decimals >= 0
    ensures r.Ok? ==>
      exists m: nat :: IsHalfUp(m, value * Power10(decimals), divisor) && r.value == DecimalText(m, decimals)
  {
    if value < 0 || divisor <= 0 || decimals < 0 then Err
    else
      var m := Rounded(value * Power10(decimals), divisor);
      assert IsHalfUp(m, value * Power10(decimals), divisor);
      Ok(DecimalText(m, decimals))
  }

  // ---- Compact amounts ----

  datatype Unit = Unit(suffix: char, size: nat)

  const UNITS: seq<Unit> := [
    Unit('E', 1_000_000_000_000_000_000), Unit('P', 1_000_000_000_000_000), Unit('T', 1_000_000_000_000),
    Unit('B', 1_000_000_000), Unit('M', 1_000_000), Unit('K', 1_000)]

  /** Where a whole number starts to be written in a unit. */
  function Threshold(size: nat): int { size - size / 200000 }

  /** The guard of the ratio's loop. */
  predicate Reaches(n: nat, d: nat, size: nat) { n * 200000 >= d * size * 199999 }

  /** The first unit from `k` on whose threshold `n` reaches. */
  function UnitOf(n: nat, k: nat): (i: nat)
    requires k <= |UNITS|
    ensures k <= i <= |UNITS|
    ensures forall j :: k <= j < i ==> n < Threshold(UNITS[j].size)
    ensures i < |UNITS| ==> n >= Threshold(UNITS[i].size)
    decreases |UNITS| - k
  {
    if k == |UNITS| || n >= Threshold(UNITS[k].size) then k else UnitOf(n, k + 1)
  }

  function RatioUnitOf(n: nat, d: nat, k: nat): (i: nat)
    requires k <= |UNITS|
    ensures k <= i <= |UNITS|
    ensures forall j :: k <= j < i ==> !Reaches(n, d, UNITS[j].size)
    ensures i < |UNITS| ==> Reaches(n, d, UNITS[i].size)
    decreases |UNITS| - k
  {
    if k == |UNITS| || Reaches(n, d, UNITS[k].size) then k else RatioUnitOf(n, d, k + 1)
  }

  function CompactText(n: nat): string {
    var i := UnitOf(n, 0);
    if i == |UNITS| then Digits(n) else RoundedText(n, UNITS[i].size, 2) + [UNITS[i].suffix]
  }

  function RatioText(n: nat, d: nat): string
    requires d > 0
  {
    var i := RatioUnitOf(n, d, 0);
    if i == |UNITS| then RoundedText(n, d, 2)
    else
      ProductPositive(d, UNITS[i].size);
      RoundedText(n, d * UNITS[i].size, 2) + [UNITS[i].suffix]
  }

  lemma {:induction false} ProductPositive(a: nat, b: nat)
    requires a > 0 && b > 0
    ensures a * b > 0
  {
  }

  lemma {:induction false} ScaledInteger(n: nat, d: nat)
    requires d > 0
    ensures FormatScaledInteger(n, d, 2) == Ok(RoundedText(n, d, 2))
  {
  }

  method FormatCompactInteger(value: string) returns (r: Result<string>)
    ensures r == if IsUnsigned(value) then Ok(CompactText(ValueOf(value))) else Err
  {
    hide Threshold, RoundedText, Digits, FormatScaledInteger, ValueOf;
    var parsed := ParseUnsigned(value);
    if parsed.None? { return Err; }
    var integer := parsed.value;
    var k := 0;
    while k < |UNITS|
      invariant 0 <= k <= |UNITS|
      invariant UnitOf(integer, 0) == UnitOf(integer, k)
    {
      if integer >= Threshold(UNITS[k].size) {
        ScaledInteger(integer, UNITS[k].size);
        var text := FormatScaledInteger(integer, UNITS[k].size, 2);
        return Ok(text.value + [UNITS[k].suffix]);
      }
      k := k + 1;
    }
    r := Ok(Digits(integer));
  }

  method FormatCompactRatio(numerator: int, denominator: int) returns (r: Result<string>)
    ensures r == if numerator < 0 || denominator <= 0 then Err else Ok(RatioText(numerator, denominator))
  {
    hide Reaches, RoundedText, FormatScaledInteger;
    if numerator < 0 || denominator <= 0 { return Err; }
    var k := 0;
    while k < |UNITS|
      invariant 0 <= k <= |UNITS|
      invariant RatioUnitOf(numerator, denominator, 0) == RatioUnitOf(numerator, denominator, k)
    {
      if Reaches(numerator, denominator, UNITS[k].size) {
        ProductPositive(denominator, UNITS[k].size);
        ScaledInteger(numerator, denominator * UNITS[k].size);
        var text := FormatScaledInteger(numerator, denominator * UNITS[k].size, 2);
        return Ok(text.value + [UNITS[k].suffix]);
      }
      k := k + 1;
    }
    ScaledInteger(numerator, denominator);
    r := FormatScaledInteger(numerator, denominator, 2);
  }

  /** The hundredths a compact amount shows before its suffix. */
  function Mantissa(n: nat, d: nat): nat
    requires d > 0
  {
    Rounded(n * 100, d)
  }

  lemma {:induction false} MantissaText(n: nat, d: nat)
    requires d > 0
    ensures RoundedText(n, d, 2) == DecimalText(Mantissa(n, d), 2)
  {
    assert Power10(2) == 10 * Power10(1);
    assert Power10(1) == 10 * Power10(0);
    assert Power10(2) == 100;
  }

  lemma {:induction false} HalfUpBounds(m: int, n: int, d: int)
    requires IsHalfUp(m, n, d)
    ensures 2 * (m * d) <= 2 * n + d < 2 * ((m + 1) * d)
  {
    assert 2 * m * d == 2 * (m * d) && 2 * (m + 1) * d == 2 * ((m + 1) * d);
  }

  lemma {:induction false} MantissaAtLeast(n: nat, d: nat)
    requires d > 0 && 200 * n >= 199 * d
    ensures Mantissa(n, d) >= 100
  {
    HalfUpBounds(Mantissa(n, d), n * 100, d);
    hide Mantissa, IsHalfUp;
    var m := Mantissa(n, d);
    if m < 100 { Times(m + 1, 100, d); }
  }

  lemma {:induction false} MantissaBelow(n: nat, d: nat)
    requires d > 0 && 200 * n + d < 200000 * d
    ensures Mantissa(n, d) <= 99999
  {
    HalfUpBounds(Mantissa(n, d), n * 100, d);
    hide Mantissa, IsHalfUp;
    var m := Mantissa(n, d);
    if m > 99999 { Times(100000, m, d); }
  }

  lemma {:induction false} UnitSteps(i: nat)
    requires i < |UNITS|
    ensures i > 0 ==> UNITS[i - 1].size == 1000 * UNITS[i].size
    ensures UNITS[i].size > 0 && UNITS[i].size % 200 == 0
  {
    assert i == 0 || i == 1 || i == 2 || i == 3 || i == 4 || i == 5;
  }

  lemma {:induction false} ThresholdBounds(n: nat, size: nat)
    requires size > 0
    ensures n >= Threshold(size) ==> 200 * n >= 199 * size
    ensures size % 200 == 0 && n < Threshold(1000 * size) ==> 200 * n + size < 200000 * size
  {
  }

  /**
   A compact whole number: the plain digits below a thousand; otherwise a mantissa of at least 1.00, and at most
   999.99 for every unit but the largest, before the unit's letter.
   */
  lemma {:induction false} CompactMantissa(n: nat)
    ensures var i := UnitOf(n, 0);
      if n < 1000 then i == |UNITS| && CompactText(n) == Digits(n)
      else
        && i < |UNITS|
        && var m := Mantissa(n, UNITS[i].size);
           && CompactText(n) == DecimalText(m, 2) + [UNITS[i].suffix]
           && 100 <= m && (i > 0 ==> m <= 99999)
  {
    hide RoundedText, Mantissa, DecimalText, Digits;
    var i := UnitOf(n, 0);
    assert Threshold(UNITS[5].size) == 1000;
    if i < |UNITS| {
      UnitSteps(i);
      var size := UNITS[i].size;
      ThresholdBounds(n, size);
      MantissaText(n, size);
      MantissaAtLeast(n, size);
      if i > 0 { MantissaBelow(n, size); }
      assert n >= 1000 by { ThresholdsFrom1000(i); }
    }
  }

  lemma {:induction false} ThresholdsFrom1000(i: nat)
    requires i < |UNITS|
    ensures Threshold(UNITS[i].size) >= 1000
  {
    assert i == 0 || i == 1 || i == 2 || i == 3 || i == 4 || i == 5;
  }

  lemma {:induction false} ReachBounds(n: nat, d: nat, size: nat)
    ensures Reaches(n, d, size) ==> 200 * n >= 199 * (d * size)
    ensures d * size > 0 && !Reaches(n, d, 1000 * size) ==> 200 * n + d * size < 200000 * (d * size)
  {
    assert d * (1000 * size) == 1000 * (d * size);
  }

  /** A compact ratio: the same bounds, and below every unit a text of at most 999.99 with no letter. */
  lemma {:induction false} RatioMantissa(n: nat, d: nat)
    requires d > 0
    ensures var i := RatioUnitOf(n, d, 0);
      if i == |UNITS| then RatioText(n, d) == DecimalText(Mantissa(n, d), 2) && Mantissa(n, d) <= 99999
      else
        && d * UNITS[i].size > 0
        && var m := Mantissa(n, d * UNITS[i].size);
           && RatioText(n, d) == DecimalText(m, 2) + [UNITS[i].suffix]
           && 100 <= m && (i > 0 ==> m <= 99999)
  {
    hide RoundedText, Mantissa, DecimalText, Reaches;
    var i := RatioUnitOf(n, d, 0);
    if i == |UNITS| {
      assert UNITS[5].size == 1000 * 1 && !Reaches(n, d, UNITS[5].size);
      ReachBounds(n, d, 1);
      assert d * 1 == d;
      MantissaText(n, d);
      MantissaBelow(n, d);
    } else {
      UnitSteps(i);
      var size := UNITS[i].size;
      ProductPositive(d, size);
      ReachBounds(n, d, size);
      MantissaText(n, d * size);
      MantissaAtLeast(n, d * size);
      if i > 0 { MantissaBelow(n, d * size); }
    }
  }

  /** Which letter stands for which power of ten. */
  ghost predicate StandsFor(letter: char, zeros: nat) {
    || (letter == 'K' && zeros == 3) || (letter == 'M' && zeros == 6) || (letter == 'B' && zeros == 9)
    || (letter == 'T' && zeros == 12) || (letter == 'P' && zeros == 15) || (letter == 'E' && zeros == 18)
  }

  /**
   A compact text of `n / d`: two decimals of it in the letter's unit, rounded half up, from 1.00 on and below 1000
   except in the largest unit.
   */
  ghost predicate Abbreviates(text: string, n: nat, d: nat) {
    exists m: nat, zeros: nat :: |text| > 0 && StandsFor(text[|text| - 1], zeros)
      && IsHalfUp(m, 100 * n, d * Power10(zeros)) && Reads(text[..|text| - 1], 2, m)
      && 100 <= m && (zeros < 18 ==> m < 100000)
  }

  lemma {:induction false} UnitLetters(i: nat) returns (zeros: nat)
    requires i < |UNITS|
    ensures StandsFor(UNITS[i].suffix, zeros) && UNITS[i].size == Power10(zeros) && (zeros == 18 <==> i == 0)
  {
    zeros := 18 - 3 * i;
    hide Power10;
    Bases();
    NextPower(0); NextPower(1); NextPower(2); NextPower(3); NextPower(4); NextPower(5); NextPower(6); NextPower(7);
    NextPower(8); NextPower(9); NextPower(10); NextPower(11); NextPower(12); NextPower(13); NextPower(14);
    NextPower(15); NextPower(16); NextPower(17);
    assert i == 0 || i == 1 || i == 2 || i == 3 || i == 4 || i == 5;
  }

  lemma {:induction false} AbbreviatedBy(text: string, n: nat, d: nat, i: nat)
    requires i < |UNITS| && d > 0 && d * UNITS[i].size > 0
    requires var m := Mantissa(n, d * UNITS[i].size);
      text == DecimalText(m, 2) + [UNITS[i].suffix] && 100 <= m && (i > 0 ==> m <= 99999)
    ensures Abbreviates(text, n, d)
  {
    hide DecimalText, Reads, Power10, StandsFor;
    var zeros := UnitLetters(i);
    var m := Mantissa(n, d * UNITS[i].size);
    DecimalTextReads(m, 2);
    assert text[..|text| - 1] == DecimalText(m, 2);
    assert n * 100 == 100 * n && IsHalfUp(m, 100 * n, d * Power10(zeros));
  }

  /** From a thousand on a whole number is abbreviated; below it stands as it is. */
  lemma {:induction false} CompactAbbreviates(n: nat)
    ensures if n < 1000 then CompactText(n) == Digits(n) else Abbreviates(CompactText(n), n, 1)
  {
    hide CompactText, DecimalText, Abbreviates, Mantissa, UnitOf, Digits;
    CompactMantissa(n);
    if n >= 1000 {
      assert 1 * UNITS[UnitOf(n, 0)].size == UNITS[UnitOf(n, 0)].size;
      UnitSteps(UnitOf(n, 0));
      AbbreviatedBy(CompactText(n), n, 1, UnitOf(n, 0));
    }
  }

  /** A ratio is abbreviated, or shows its two decimals, rounded half up, below a thousand. */
  lemma {:induction false} RatioAbbreviates(n: nat, d: nat)
    requires d > 0
    ensures Abbreviates(RatioText(n, d), n, d)
      || exists m: nat :: m < 100000 && IsHalfUp(m, 100 * n, d) && Reads(RatioText(n, d), 2, m)
  {
    hide RatioText, DecimalText, Abbreviates, Mantissa, RatioUnitOf, Reads;
    RatioMantissa(n, d);
    var i := RatioUnitOf(n, d, 0);
    if i < |UNITS| {
      AbbreviatedBy(RatioText(n, d), n, d, i);
    } else {
      RoundedHundredths(n, d);
      DecimalTextReads(Mantissa(n, d), 2);
    }
  }

  lemma {:induction false} RoundedHundredths(n: nat, d: nat)
    requires d > 0
    ensures IsHalfUp(Mantissa(n, d), 100 * n, d)
  {
    assert n * 100 == 100 * n;
  }

  lemma {:induction false} SameGuard(n: nat, i: nat)
    requires i < |UNITS|
    ensures n >= Threshold(UNITS[i].size) <==> Reaches(n, 1, UNITS[i].size)
  {
    assert i == 0 || i == 1 || i == 2 || i == 3 || i == 4 || i == 5;
  }

  lemma {:induction false} SameUnit(n: nat, k: nat)
    requires k <= |UNITS|
    ensures UnitOf(n, k) == RatioUnitOf(n, 1, k)
    decreases |UNITS| - k
  {
    hide Threshold, Reaches;
    if k < |UNITS| {
      SameGuard(n, k);
      SameUnit(n, k + 1);
    }
  }

  /** The two compact forms of a whole number are the same text exactly from a thousand on. */
  lemma {:induction false} CompactAgree(n: nat)
    ensures CompactText(n) == RatioText(n, 1) <==> n >= 1000
  {
    hide RoundedText, Mantissa, DecimalText, Digits, Reads, ValueOf, UnitOf, RatioUnitOf, CompactText, RatioText;
    SameUnit(n, 0);
    CompactMantissa(n);
    RatioMantissa(n, 1);
    if n >= 1000 {
      assert 1 * UNITS[UnitOf(n, 0)].size == UNITS[UnitOf(n, 0)].size;
    } else {
      DecimalTextReads(Mantissa(n, 1), 2);
      PointInText(DecimalText(Mantissa(n, 1), 2), 2, Mantissa(n, 1));
      assert forall i :: 0 <= i < |Digits(n)| ==> IsDigit(Digits(n)[i]);
    }
  }

  lemma {:induction false} PointInText(s: string, decimals: nat, n: nat)
    requires Reads(s, decimals, n)
    ensures exists i :: 0 <= i < |s| && !IsDigit(s[i])
  {
    assert !IsDigit(s[|s| - decimals - 1]);
  }

  // ---- Shares of exact ratios ----

  /** The divisor's multiple is read back from the remainder: `d` divides `m`. */
  predicate Divides(d: nat, m: nat)
    requires d > 0
  {
    m % d == 0
  }

  lemma {:induction false} DividesParts(d: nat, m: nat)
    requires d > 0 && Divides(d, m)
    ensures m == d * (m / d) && m / d >= 0
  {
  }

  lemma {:induction false} DividesProduct(d: nat, k: nat)
    requires d > 0
    ensures Divides(d, d * k) && d * k / d == k
  {
    assert (k + 1) * d == d * k + d;
    FloorBounds(d * k, d);
    FloorUnique(d * k, d, k, d * k / d);
    assert d * k == d * k / d * d + d * k % d;
  }

  function GcdOf(a: nat, b: nat): (g: nat)
    ensures a > 0 || b > 0 ==> g > 0
    decreases b
  {
    if b == 0 then a else GcdOf(b, a % b)
  }

  lemma {:induction false} RemainderParts(a: nat, b: nat, g: nat, x: nat, y: nat)
    requires b > 0 && b == g * x && a % b == g * y
    ensures a == g * (a / b * x + y)
  {
    assert a == a / b * (g * x) + g * y;
    assert a / b * (g * x) == g * (a / b * x);
  }

  /** The loop's result divides both numbers, */
  lemma {:induction false} GcdDivides(a: nat, b: nat) returns (x: nat, y: nat)
    ensures a == GcdOf(a, b) * x && b == GcdOf(a, b) * y
    decreases b
  {
    if b == 0 {
      x, y := 1, 0;
    } else {
      var p, q := GcdDivides(b, a % b);
      RemainderParts(a, b, GcdOf(a, b), p, q);
      x, y := a / b * p + q, p;
    }
  }

  lemma {:induction false} CombineStep(a: int, b: int, u: int, v: int)
    requires b != 0
    ensures u * b + v * (a % b) == v * a + (u - a / b * v) * b
  {
    var q, r := a / b, a % b;
    assert a == q * b + r;
    assert v * a == v * (q * b) + v * r;
    assert v * (q * b) == q * v * b;
    assert (u - q * v) * b == u * b - q * v * b;
  }

  /** and is a whole combination of them, so every common divisor divides it. */
  lemma {:induction false} GcdCombines(a: nat, b: nat) returns (u: int, v: int)
    ensures GcdOf(a, b) == u * a + v * b
    decreases b
  {
    if b == 0 {
      u, v := 1, 0;
    } else {
      var p, q := GcdCombines(b, a % b);
      CombineStep(a, b, p, q);
      u, v := q, p - a / b * q;
    }
  }

  method Gcd(a0: nat, b0: nat) returns (a: nat)
    ensures a == GcdOf(a0, b0)
  {
    var b: nat := b0;
    a := a0;
    while b != 0
      invariant GcdOf(a, b) == GcdOf(a0, b0)
      decreases b
    {
      a, b := b, a % b;
    }
  }

  datatype Ratio = Ratio(num: int, den: int)

  predicate AllRatios(values: seq<Ratio>) {
    forall i :: 0 <= i < |values| ==> values[i].num >= 0 && values[i].den > 0
  }

  /** One step of the fold that makes the common denominator. */
  function Join(m: nat, d: nat): (r: nat)
    requires m > 0 && d > 0
  {
    DivisionParts(m, GcdOf(m, d));
    m / GcdOf(m, d) * d
  }

  lemma {:induction false} JoinParts(m: nat, d: nat) returns (x: nat, y: nat)
    requires m > 0 && d > 0
    ensures var g := GcdOf(m, d); m == g * x && d == g * y && Join(m, d) == x * d == m * y && x > 0 && y > 0
  {
    hide GcdOf;
    var g := GcdOf(m, d);
    x, y := GcdDivides(m, d);
    DividesProduct(g, x);
    assert x * d == x * (g * y) == g * x * y;
  }

  /** The fold's step gives a common multiple. */
  lemma {:induction false} JoinIsMultiple(m: nat, d: nat)
    requires m > 0 && d > 0
    ensures Join(m, d) > 0 && Divides(m, Join(m, d)) && Divides(d, Join(m, d))
  {
    hide GcdOf, Join, Divides;
    var x, y := JoinParts(m, d);
    ProductPositive(x, d);
    DividesProduct(m, y);
    DividesProduct(d, x);
    assert d * x == x * d;
  }

  lemma {:induction false} CombineMultiples(g: int, m: int, d: int, x: int, u: int, v: int, c: int, p: int, q: int)
    requires g > 0 && m == g * x && g == u * m + v * d && c == m * p && c == d * q
    ensures c == x * d * (u * q + v * p)
  {
    Spread(c, u * m, v * d);
    Shuffle(d, q, u, m);
    Shuffle(m, p, v, d);
    Spread(m * d, u * q, v * p);
    Pull(g, x, d, u * q + v * p);
    CancelFactor(g, c, x * d * (u * q + v * p));
  }

  lemma {:induction false} Spread(a: int, b: int, c: int)
    ensures a * (b + c) == a * b + a * c
  {
  }

  lemma {:induction false} Shuffle(d: int, q: int, u: int, m: int)
    ensures d * q * (u * m) == m * d * (u * q) == d * m * (u * q)
  {
    assert d * q * (u * m) == d * m * (u * q);
  }

  lemma {:induction false} Pull(g: int, x: int, d: int, k: int)
    ensures g * x * d * k == g * (x * d * k)
  {
  }

  lemma {:induction false} CancelFactor(g: int, a: int, b: int)
    requires g > 0 && a * g == g * b
    ensures a == b
  {
    assert g * (a - b) == 0;
  }

  /** The least one: it divides every other common multiple. */
  lemma {:induction false} JoinIsLeast(m: nat, d: nat, c: nat)
    requires m > 0 && d > 0 && Divides(m, c) && Divides(d, c)
    ensures Join(m, d) > 0 && Divides(Join(m, d), c)
  {
    hide GcdOf, Join, Divides;
    JoinIsMultiple(m, d);
    DividesParts(m, c);
    DividesParts(d, c);
    var x, y := JoinParts(m, d);
    var u, v := GcdCombines(m, d);
    var k := u * (c / d) + v * (c / m);
    CombineMultiples(GcdOf(m, d), m, d, x, u, v, c, c / m, c / d);
    assert c == Join(m, d) * k;
    assert k >= 0 by { FactorSign(Join(m, d), k); }
    DividesProduct(Join(m, d), k);
  }

  lemma {:induction false} FactorSign(a: int, k: int)
    requires a > 0 && a * k >= 0
    ensures k >= 0
  {
  }

  function CommonOf(values: seq<Ratio>): (m: nat)
    requires AllRatios(values)
    ensures m > 0
  {
    if values == [] then 1
    else
      var n := |values| - 1;
      JoinIsMultiple(CommonOf(values[..n]), values[n].den);
      Join(CommonOf(values[..n]), values[n].den)
  }

  lemma {:induction false} DividesOn(a: nat, b: nat, c: nat)
    requires a > 0 && b > 0 && Divides(a, b) && Divides(b, c)
    ensures Divides(a, c)
  {
    hide Divides;
    DividesParts(a, b);
    DividesParts(b, c);
    assert c == a * (b / a) * (c / b) == a * (b / a * (c / b));
    DividesProduct(a, b / a * (c / b));
  }

  /** The common denominator is a multiple of every denominator, so scaling by it loses nothing. */
  lemma {:induction false} CommonIsMultiple(values: seq<Ratio>, i: nat)
    requires AllRatios(values) && i < |values|
    ensures Divides(values[i].den, CommonOf(values))
  {
    hide Divides, Join;
    var n := |values| - 1;
    var m := CommonOf(values[..n]);
    JoinIsMultiple(m, values[n].den);
    if i < n {
      CommonIsMultiple(values[..n], i);
      DividesOn(values[i].den, m, CommonOf(values));
    }
  }

  /** It is the least: it divides every multiple of all the denominators. */
  lemma {:induction false} CommonIsLeast(values: seq<Ratio>, c: nat)
    requires AllRatios(values)
    requires forall i :: 0 <= i < |values| ==> Divides(values[i].den, c)
    ensures Divides(CommonOf(values), c)
  {
    hide Join;
    if values != [] {
      var n := |values| - 1;
      CommonIsLeast(values[..n], c);
      JoinIsLeast(CommonOf(values[..n]), values[n].den, c);
    }
  }

  method CommonDenominator(values: seq<Ratio>) returns (m: nat)
    requires AllRatios(values)
    ensures m == CommonOf(values)
  {
    hide GcdOf;
    m := 1;
    var i := 0;
    while i < |values|
      invariant 0 <= i <= |values|
      invariant m == CommonOf(values[..i])
    {
      assert values[..i + 1][..i] == values[..i];
      var g := Gcd(m, values[i].den);
      DivisionParts(m, g);
      m := m / g * values[i].den;
      i := i + 1;
    }
    assert values[..i] == values;
  }

  // ---- The percentage ----

  function ValueAt(r: Ratio): real
    requires r.den > 0
  {
    r.num as real / r.den as real
  }

  function TotalOf(values: seq<Ratio>): real
    requires AllRatios(values)
  {
    if values == [] then 0.0 else TotalOf(values[..|values| - 1]) + ValueAt(values[|values| - 1])
  }

  /** `m` is the real number `x` rounded half up. */
  ghost predicate NearestTo(m: int, x: real) { m as real <= x + 0.5 < m as real + 1.0 }

  /**
   The text shows the ratio's share of the true total in percent, its hundredths rounded half up; with no total, a dash.
   */
  ghost predicate ShowsShare(values: seq<Ratio>, index: nat, text: string)
    requires AllRatios(values) && index < |values|
  {
    if TotalOf(values) == 0.0 then text == "\U{2014}"
    else
      var share := ValueAt(values[index]) / TotalOf(values);
      exists m: nat :: NearestTo(m, 10000.0 * share) && text == DecimalText(m, 2) + "%"
  }

  function Scaled(r: Ratio, common: nat): (n: nat)
    requires r.num >= 0 && r.den > 0
  {
    DivisionParts(common, r.den);
    ProductNonNegative(r.num, common / r.den);
    r.num * (common / r.den)
  }

  lemma {:induction false} ProductNonNegative(a: int, b: int)
    requires a >= 0 && b >= 0
    ensures a * b >= 0
  {
  }

  function ScaledTotal(values: seq<Ratio>, common: nat): nat
    requires AllRatios(values)
  {
    if values == [] then 0 else ScaledTotal(values[..|values| - 1], common) + Scaled(values[|values| - 1], common)
  }

  lemma {:induction false} ScaleExact(num: real, den: real, k: real)
    requires den > 0.0
    ensures num * k == num / den * (den * k)
  {
    assert num == num / den * den;
    assert num / den * den * k == num / den * (den * k);
  }

  lemma {:induction false} ProductAsReal(a: int, b: int)
    ensures (a * b) as real == a as real * b as real
  {
  }

  lemma {:induction false} ScaledValue(r: Ratio, common: nat)
    requires r.num >= 0 && r.den > 0 && Divides(r.den, common)
    ensures Scaled(r, common) as real == ValueAt(r) * common as real
  {
    DividesParts(r.den, common);
    var k := common / r.den;
    ProductAsReal(r.num, k);
    ProductAsReal(r.den, k);
    ScaleExact(r.num as real, r.den as real, k as real);
  }

  lemma {:induction false} ScaledTotalValue(values: seq<Ratio>, common: nat)
    requires AllRatios(values)
    requires forall i :: 0 <= i < |values| ==> Divides(values[i].den, common)
    ensures ScaledTotal(values, common) as real == TotalOf(values) * common as real
  {
    hide Scaled, ValueAt, Divides;
    if values != [] {
      var n := |values| - 1;
      ScaledTotalValue(values[..n], common);
      ScaledValue(values[n], common);
      assert (TotalOf(values[..n]) + ValueAt(values[n])) * common as real
          == TotalOf(values[..n]) * common as real + ValueAt(values[n]) * common as real;
    }
  }

  lemma {:induction false} DivideBoth(a: real, b: real, c: real)
    requires b > 0.0
    ensures a * b <= c <==> a <= c / b
    ensures c < a * b <==> c / b < a
  {
    assert c == c / b * b;
    if a <= c / b { assert (c / b - a) * b >= 0.0; }
    if a > c / b { assert (a - c / b) * b > 0.0; }
  }

  /** Rounding a fraction of whole numbers is rounding the real number it is. */
  lemma {:induction false} HalfUpIsNearest(m: int, n: int, d: int)
    requires d > 0 && IsHalfUp(m, n, d)
    ensures NearestTo(m, n as real / d as real)
  {
    var x, y, z := m as real, n as real, d as real;
    ProductAsReal(2 * m, d);
    ProductAsReal(2 * (m + 1), d);
    assert (2 * m * d) as real == 2.0 * x * z;
    assert (2 * (m + 1) * d) as real == (2.0 * x + 2.0) * z;
    DivideBoth(2.0 * x, z, 2.0 * y + z);
    DivideBoth(2.0 * x + 2.0, z, 2.0 * y + z);
    DivideSum(y, z);
  }

  lemma {:induction false} QuotientIs(c: real, z: real, q: real)
    requires z > 0.0 && c == q * z
    ensures c / z == q
  {
  }

  lemma {:induction false} DivideSum(y: real, z: real)
    requires z > 0.0
    ensures (2.0 * y + z) / z == 2.0 * (y / z) + 1.0
  {
    assert y == y / z * z;
    assert (2.0 * (y / z) + 1.0) * z == 2.0 * y + z;
    QuotientIs(2.0 * y + z, z, 2.0 * (y / z) + 1.0);
  }

  lemma {:induction false} ShareOfScaled(part: real, total: real, v: real, t: real, common: real)
    requires common > 0.0 && t > 0.0 && part == v * common && total == t * common
    ensures total > 0.0 && 10000.0 * part / total == 10000.0 * (v / t)
  {
    assert t * common > 0.0;
    assert v == v / t * t;
    assert v * common == v / t * (t * common);
    assert 10000.0 * part == 10000.0 * (v / t) * total;
    QuotientIs(10000.0 * part, total, 10000.0 * (v / t));
  }

  lemma {:induction false} TotalSign(values: seq<Ratio>)
    requires AllRatios(values)
    ensures TotalOf(values) >= 0.0
  {
    if values != [] { TotalSign(values[..|values| - 1]); }
  }

  lemma {:induction false} ShareRounds(values: seq<Ratio>, index: nat, m: nat)
    requires AllRatios(values) && index < |values|
    requires var common := CommonOf(values); var total := ScaledTotal(values, common);
      total > 0 && IsHalfUp(m, Scaled(values[index], common) * 100 * 100, total)
    ensures TotalOf(values) != 0.0
    ensures NearestTo(m, 10000.0 * (ValueAt(values[index]) / TotalOf(values)))
  {
    hide CommonOf, Scaled, ScaledTotal, TotalOf, ValueAt, Divides, NearestTo, IsHalfUp;
    var common := CommonOf(values);
    var part, total := Scaled(values[index], common), ScaledTotal(values, common);
    ScalingLosesNothing(values, index);
    TotalSign(values);
    HalfUpIsNearest(m, part * 100 * 100, total);
    assert (part * 100 * 100) as real == 10000.0 * part as real;
    assert TotalOf(values) > 0.0;
    ShareOfScaled(part as real, total as real, ValueAt(values[index]), TotalOf(values), common as real);
  }

  lemma {:induction false} ScalingLosesNothing(values: seq<Ratio>, index: nat)
    requires AllRatios(values) && index < |values|
    ensures var common := CommonOf(values);
      && Scaled(values[index], common) as real == ValueAt(values[index]) * common as real
      && ScaledTotal(values, common) as real == TotalOf(values) * common as real
      && (ScaledTotal(values, common) == 0 <==> TotalOf(values) == 0.0)
  {
    hide CommonOf, Scaled, ScaledTotal, TotalOf, ValueAt, Divides;
    var common := CommonOf(values);
    forall i | 0 <= i < |values| ensures Divides(values[i].den, common) {
      CommonIsMultiple(values, i);
    }
    ScaledValue(values[index], common);
    ScaledTotalValue(values, common);
    ZeroProduct(TotalOf(values), common as real);
  }

  lemma {:induction false} ZeroProduct(t: real, c: real)
    requires c > 0.0
    ensures t * c == 0.0 <==> t == 0.0
  {
  }

  method SumScaled(values: seq<Ratio>, common: nat) returns (total: nat)
    requires AllRatios(values)
    ensures total == ScaledTotal(values, common)
  {
    hide Scaled;
    total := 0;
    var i := 0;
    while i < |values|
      invariant 0 <= i <= |values|
      invariant total == ScaledTotal(values[..i], common)
    {
      assert values[..i + 1][..i] == values[..i];
      total := total + Scaled(values[i], common);
      i := i + 1;
    }
    assert values[..i] == values;
  }

  method FormatExactShare(values: seq<Ratio>, index: int) returns (r: Result<string>)
    ensures r.Ok? <==>
      0 <= index < |values| && forall i :: 0 <= i < |values| ==> 0 <= values[i].num && 0 < values[i].den
    ensures r.Ok? ==> ShowsShare(values, index, r.value)
  {
    hide CommonOf, Scaled, ScaledTotal, TotalOf, ValueAt, DecimalText, NearestTo, IsHalfUp, Power10;
    if !AllRatios(values) { return Err; }
    var common := CommonDenominator(values);
    if index < 0 || index >= |values| { return Err; }
    var part := Scaled(values[index], common);
    var total := SumScaled(values, common);
    ScalingLosesNothing(values, index);
    if total == 0 { return Ok("\U{2014}"); }
    var text := FormatScaledInteger(part * 100, total, 2);
    assert Power10(2) == 100 by { Hundred(); }
    ghost var m: nat :| IsHalfUp(m, part * 100 * 100, total) && text.value == DecimalText(m, 2);
    ShareRounds(values, index, m);
    r := Ok(text.value + "%");
  }

  lemma {:induction false} Hundred()
    ensures Power10(2) == 100
  {
    assert Power10(2) == 10 * Power10(1);
    assert Power10(1) == 10 * Power10(0);
  }

  lemma {:induction false} SameTotal(values: seq<Ratio>, other: seq<Ratio>)
    requires AllRatios(values) && AllRatios(other) && |values| == |other|
    requires forall i :: 0 <= i < |values| ==> ValueAt(values[i]) == ValueAt(other[i])
    ensures TotalOf(values) == TotalOf(other)
  {
    if values != [] { SameTotal(values[..|values| - 1], other[..|values| - 1]); }
  }

  /** One text at most shows a share, and it is the same however the ratios are written. */
  lemma {:induction false} ShareIgnoresRepresentation(values: seq<Ratio>, other: seq<Ratio>, index: nat, text: string,
      text': string)
    requires AllRatios(values) && AllRatios(other) && |values| == |other| && index < |values|
    requires forall i :: 0 <= i < |values| ==> ValueAt(values[i]) == ValueAt(other[i])
    requires ShowsShare(values, index, text) && ShowsShare(other, index, text')
    ensures text == text'
  {
    hide TotalOf, ValueAt, DecimalText;
    SameTotal(values, other);
    if TotalOf(values) != 0.0 {
      var x := 10000.0 * (ValueAt(values[index]) / TotalOf(values));
      var m: nat :| NearestTo(m, x) && text == DecimalText(m, 2) + "%";
      var m': nat :| NearestTo(m', x) && text' == DecimalText(m', 2) + "%";
      assert m == m';
    }
  }
}
