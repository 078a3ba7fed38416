/** Whole numbers and decimals as text. */
module Decimals {
  import opened Common

  predicate IsDigit(c: char) { '0' <= c <= '9' }

  predicate AllDigits(s: string) { forall i :: 0 <= i < |s| ==> IsDigit(s[i]) }

  function DigitChar(d: nat): (c: char)
    requires d < 10
    ensures IsDigit(c)
  {
    ('0' as int + d) as char
  }

  function DigitValue(c: char): (d: nat)
    requires IsDigit(c)
    ensures d < 10 && DigitChar(d) == c
  {
    c as int - '0' as int
  }

  /** The text of a whole number. */
  function Digits(n: nat): (s: string)
    ensures s != "" && AllDigits(s) && (n > 0 ==> s[0] != '0')
  {
    if n < 10 then [DigitChar(n)] else Digits(n / 10) + [DigitChar(n % 10)]
  }

  function ValueOf(s: string): nat
    requires AllDigits(s)
  {
    if s == "" then 0 else 10 * ValueOf(s[..|s| - 1]) + DigitValue(s[|s| - 1])
  }

  lemma {:induction false} ValueOfDigits(n: nat)
    ensures ValueOf(Digits(n)) == n
  {
    if n >= 10 {
      ValueOfDigits(n / 10);
      assert Digits(n)[..|Digits(n)| - 1] == Digits(n / 10);
    } else {
      assert Digits(n)[..0] == "";
      assert ValueOf("") == 0;
    }
  }

  function Power10(n: nat): (p: nat)
    ensures p > 0
  {
    if n == 0 then 1 else 10 * Power10(n - 1)
  }

  lemma {:induction false} ValueOfMore(s: string, c: char)
    requires AllDigits(s) && IsDigit(c)
    ensures AllDigits(s + [c]) && ValueOf(s + [c]) == 10 * ValueOf(s) + DigitValue(c)
  {
    assert (s + [c])[..|s|] == s;
  }

  lemma Bases()
    ensures ValueOf("") == 0 && Power10(0) == 1
  {
  }

  lemma NextPower(n: nat)
    ensures Power10(n + 1) == 10 * Power10(n)
  {
  }

  lemma TenTimes(v: int, p: int)
    ensures 10 * (v * p) == v * (10 * p)
  {
  }

  /** The number a digit text continues: reading on multiplies what was read. */
  lemma {:induction false} ValueOfConcat(a: string, b: string)
    requires AllDigits(a) && AllDigits(b)
    ensures ValueOf(a + b) == ValueOf(a) * Power10(|b|) + ValueOf(b)
    decreases |b|
  {
    hide ValueOf, Power10;
    Bases();
    if b == "" {
      assert a + b == a;
    } else {
      var n := |b| - 1;
      ValueOfConcat(a, b[..n]);
      assert b[..n] + [b[n]] == b && a + b[..n] + [b[n]] == a + b;
      ValueOfMore(b[..n], b[n]);
      ValueOfMore(a + b[..n], b[n]);
      NextPower(n);
      TenTimes(ValueOf(a), Power10(n));
    }
  }

  function Zeros(n: nat): (s: string)
    ensures |s| == n && AllDigits(s) && forall i :: 0 <= i < n ==> s[i] == '0'
  {
    seq(n, _ => '0')
  }

  /** `s.padStart(n, '0')`. */
  function PadStart(s: string, n: nat): string { if |s| >= n then s else Zeros(n - |s|) + s }

  lemma {:induction false} ValueOfZeros(n: nat)
    ensures ValueOf(Zeros(n)) == 0
  {
    if n > 0 {
      assert Zeros(n)[..n - 1] == Zeros(n - 1);
      ValueOfZeros(n - 1);
    }
  }

  lemma {:induction false} DigitsWithin(n: nat, k: nat)
    requires n < Power10(k) && k > 0
    ensures |Digits(n)| <= k
    decreases k
  {
    if n >= 10 { DigitsWithin(n / 10, k - 1); }
  }

  lemma {:induction false} PaddedDigits(n: nat, k: nat)
    requires n < Power10(k) && k > 0
    ensures var s := PadStart(Digits(n), k); |s| == k && AllDigits(s) && ValueOf(s) == n
  {
    hide ValueOf, Digits, Power10;
    DigitsWithin(n, k);
    ValueOfDigits(n);
    ValueOfZeros(k - |Digits(n)|);
    ValueOfConcat(Zeros(k - |Digits(n)|), Digits(n));
  }

  lemma {:induction false} DivisionParts(n: nat, scale: nat)
    requires scale > 0
    ensures n / scale * scale + n % scale == n && n % scale < scale && n / scale >= 0
  {
  }

  /** `n` divided by ten to the `decimals`, written out. */
  function DecimalText(n: nat, decimals: nat): string {
    var scale := Power10(decimals);
    DivisionParts(n, scale);
    if decimals == 0 then Digits(n) else Digits(n / scale) + "." + PadStart(Digits(n % scale), decimals)
  }

  /** The shape of a decimal text, and the number its digits make. */
  ghost predicate Reads(s: string, decimals: nat, n: nat) {
    var k := |s| - decimals - 1;
    && k > 0 && s[k] == '.' && AllDigits(s[..k]) && AllDigits(s[k + 1..])
    && ValueOf(s[..k] + s[k + 1..]) == n
  }

  lemma {:induction false} JoinedReads(whole: string, fraction: string)
    requires whole != "" && AllDigits(whole) && AllDigits(fraction)
    ensures Reads(whole + "." + fraction, |fraction|, ValueOf(whole + fraction))
  {
    hide ValueOf;
    var s, k := whole + "." + fraction, |whole|;
    assert s[..k] == whole && s[k + 1..] == fraction && s[k] == '.';
  }

  /**
   A decimal text is a whole part, a point and exactly `decimals` digits, and reads back as the number it was made from.
   */
  lemma {:induction false} DecimalTextReads(n: nat, decimals: nat)
    requires decimals > 0
    ensures Reads(DecimalText(n, decimals), decimals, n)
  {
    hide ValueOf, Digits, Power10, PadStart, Reads;
    var scale := Power10(decimals);
    DivisionParts(n, scale);
    var whole, fraction := Digits(n / scale), PadStart(Digits(n % scale), decimals);
    PaddedDigits(n % scale, decimals);
    ValueOfDigits(n / scale);
    ValueOfConcat(whole, fraction);
    JoinedReads(whole, fraction);
  }

  /** A text read by its regular expression: no sign, no leading zero. */
  predicate IsUnsigned(s: string) { s != "" && AllDigits(s) && (s[0] != '0' || |s| == 1) }

  /** `exactUnsignedInteger`. */
  function ParseUnsigned(s: string): Option<nat> { if IsUnsigned(s) then Some(ValueOf(s)) else None }

  /** The optional minus sign and digits of `exact`. */
  function ParseSigned(s: string): Option<int> {
    if s != "" && s[0] == '-'
      then (if |s| > 1 && AllDigits(s[1..]) then var n: int := ValueOf(s[1..]); Some(-n) else None)
    else if s != "" && AllDigits(s) then Some(ValueOf(s)) else None
  }

  /** The accepted texts are exactly the numbers' own. */
  lemma {:induction false} UnsignedRoundTrip(s: string)
    ensures IsUnsigned(s) ==> Digits(ValueOf(s)) == s
  {
    if IsUnsigned(s) {
      var n := |s| - 1;
      assert s == s[..n] + [s[n]];
      if n == 0 {
        assert ValueOf(s[..0]) == 0;
      } else {
        UnsignedRoundTrip(s[..n]);
        assert Digits(0) == "0";
      }
    }
  }

  /** A number's text is read as that number, and behind a minus sign as its opposite. */
  lemma {:induction false} SignedRoundTrip(n: nat)
    ensures ParseSigned(Digits(n)) == Some(n)
    ensures var r := ParseSigned("-" + Digits(n)); r.Some? && r.value + n == 0
    ensures ParseUnsigned(Digits(n)) == Some(n)
  {
    ValueOfDigits(n);
    assert ("-" + Digits(n))[1..] == Digits(n);
    assert IsDigit(Digits(n)[0]);
    if n < 10 { assert |Digits(n)| == 1; }
  }

  /** The texts that are read: one or more digits, with or without a minus sign before them. */
  ghost predicate IsSigned(s: string) { exists d: string :: d != "" && AllDigits(d) && (s == d || s == "-" + d) }

  lemma {:induction false} SignedIsRead(d: string)
    requires d != "" && AllDigits(d)
    ensures ParseSigned(d).Some? && ParseSigned("-" + d).Some?
  {
    assert IsDigit(d[0]) && ("-" + d)[1..] == d;
  }

  lemma {:induction false} SignedExactlyWhen(s: string)
    ensures ParseSigned(s).Some? <==> IsSigned(s)
  {
    if ParseSigned(s).Some? {
      var d := if s[0] == '-' then s[1..] else s;
      assert d != "" && AllDigits(d) && (s == d || s == "-" + d);
    }
    forall d: string | d != "" && AllDigits(d) && (s == d || s == "-" + d) ensures ParseSigned(s).Some? {
      SignedIsRead(d);
    }
  }

  /** Zeros in front of the digits change nothing, on either side of zero. */
  lemma {:induction false} LeadingZerosRead(k: nat, d: string)
    requires d != "" && AllDigits(d)
    ensures ParseSigned(Zeros(k) + d) == ParseSigned(d) && ParseSigned("-" + Zeros(k) + d) == ParseSigned("-" + d)
  {
    hide ValueOf;
    var z := Zeros(k) + d;
    ValueOfConcat(Zeros(k), d);
    ValueOfZeros(k);
    assert IsDigit(z[0]) && IsDigit(d[0]);
    assert ("-" + Zeros(k) + d)[1..] == z && ("-" + d)[1..] == d;
  }

  /** The ten digits are ten characters in a row from '0' to '9', the larger digit the later. */
  lemma {:induction false} DigitsInOrder(c: nat, d: nat)
    requires c < d < 10
    ensures DigitChar(c) < DigitChar(d) && DigitChar(0) == '0' && DigitChar(9) == '9'
  {
  }
}
