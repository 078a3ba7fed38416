/**
 Traits read from a digital object's DNA (lib/dob-render.ts). The case of a pattern's names is folded before this
 module; text decoding and number printing are the host's.
 */
module DobRender {
  import opened Common
  import opened Decimals
  import opened ExactInteger
  import ScriptCursor

  ghost predicate Bytes(s: seq<int>) { forall i :: 0 <= i < |s| ==> 0 <= s[i] < 256 }

  /** The whole number the bytes spell, the first one weighing least. */
  ghost function LittleEndian(s: seq<int>): (n: nat)
    requires Bytes(s)
  {
    if s == [] then 0
    else
      var k := |s| - 1;
      ProductNonNegative(s[k], ScriptCursor.Power256(k));
      LittleEndian(s[..k]) + s[k] * ScriptCursor.Power256(k)
  }

  /** The same number read from the front. */
  lemma {:induction false} LittleEndianFront(b: int, s: seq<int>)
    requires 0 <= b < 256 && Bytes(s)
    ensures Bytes([b] + s) && LittleEndian([b] + s) == b + 256 * LittleEndian(s)
  {
    var all := [b] + s;
    if s == [] {
      assert all[..0] == [];
      assert ScriptCursor.Power256(0) == 1;
    } else {
      var k := |s| - 1;
      LittleEndianFront(b, s[..k]);
      assert all[..|s|] == [b] + s[..k];
      var p := ScriptCursor.Power256(k);
      assert ScriptCursor.Power256(|s|) == 256 * p;
      assert s[k] * (256 * p) == 256 * (s[k] * p);
    }
  }

  lemma {:induction false} LittleEndianBound(s: seq<int>)
    requires Bytes(s)
    ensures LittleEndian(s) < ScriptCursor.Power256(|s|)
  {
    if s != [] {
      var k := |s| - 1;
      LittleEndianBound(s[..k]);
      Times(s[k], 255, ScriptCursor.Power256(k));
      assert ScriptCursor.Power256(|s|) == 256 * ScriptCursor.Power256(k);
    }
  }

  // ---- Arithmetic modulo a number ----

  lemma {:induction false} ModShift(a: nat, k: nat, m: nat)
    requires m > 0
    ensures (a + k * m) % m == a % m
  {
    ModParts(a, m);
    ModParts(a + k * m, m);
    var q := a / m;
    assert (q + k) * m == q * m + k * m;
    assert (q + k + 1) * m == q * m + k * m + m;
    FloorBounds(a + k * m, m);
    FloorUnique(a + k * m, m, q + k, (a + k * m) / m);
  }

  lemma {:induction false} ModParts(a: nat, m: nat)
    requires m > 0
    ensures a == a / m * m + a % m && 0 <= a % m < m && a / m >= 0
  {
  }

  lemma {:induction false} WeighParts(b: nat, f: nat, p: nat, t: nat, m: nat)
    requires f == p * m + t
    ensures b * f == b * t + b * p * m && b * t >= 0 && b * p >= 0
  {
    assert b * (p * m) == b * p * m;
  }

  /** A digit added with a reduced weight to a reduced sum. */
  lemma {:induction false} ModStep(a: nat, b: nat, f: nat, m: nat)
    requires m > 0
    ensures (a % m + b * (f % m)) % m == (a + b * f) % m
  {
    ModParts(a, m);
    ModParts(f, m);
    var q, r, p, t := a / m, a % m, f / m, f % m;
    WeighParts(b, f, p, t, m);
    assert (q + b * p) * m == q * m + b * p * m;
    ModShift(r + b * t, q + b * p, m);
  }

  lemma {:induction false} ModTimes(f: nat, b: nat, m: nat)
    requires m > 0
    ensures f % m * b % m == f * b % m
  {
    ModParts(f, m);
    var p, t := f / m, f % m;
    WeighParts(b, f, p, t, m);
    ModShift(b * t, b * p, m);
    assert t * b == b * t && f * b == b * f;
  }

  lemma {:induction false} NextByte(s: seq<int>, i: nat)
    requires Bytes(s) && i < |s|
    ensures LittleEndian(s[..i + 1]) == LittleEndian(s[..i]) + s[i] * ScriptCursor.Power256(i)
    ensures ScriptCursor.Power256(i + 1) == ScriptCursor.Power256(i) * 256
  {
    assert s[..i + 1][..i] == s[..i];
  }

  method ParseLeModulo(bytes: seq<int>, modulo: int) returns (r: Result<nat>)
    requires Bytes(bytes)
    ensures r.Ok? <==> modulo > 0
    ensures r.Ok? ==> r.value == LittleEndian(bytes) % modulo
  {
    hide LittleEndian, ScriptCursor.Power256;
    if modulo <= 0 { return Err; }
    var m: nat := modulo;
    NothingRead(bytes);
    ModParts(1, m);
    var acc: nat, factor: nat := 0, 1 % m;
    ModParts(0, m);
    assert 0 % m == 0;
    var i := 0;
    while i < |bytes|
      invariant 0 <= i <= |bytes|
      invariant acc == LittleEndian(bytes[..i]) % m
      invariant factor == ScriptCursor.Power256(i) % m
    {
      NextByte(bytes, i);
      ModStep(LittleEndian(bytes[..i]), bytes[i], ScriptCursor.Power256(i), m);
      ModTimes(ScriptCursor.Power256(i), 256, m);
      ProductNonNegative(bytes[i], factor);
      ModParts(acc + bytes[i] * factor, m);
      ModParts(factor * 256, m);
      acc, factor := (acc + bytes[i] * factor) % m, factor * 256 % m;
      i := i + 1;
    }
    assert bytes[..i] == bytes;
    r := Ok(acc);
  }

  lemma NothingRead(bytes: seq<int>)
    requires Bytes(bytes)
    ensures LittleEndian(bytes[..0]) == 0 && ScriptCursor.Power256(0) == 1
  {
  }

  method ParseLeNumber(bytes: seq<int>) returns (value: nat)
    requires Bytes(bytes)
    ensures value == LittleEndian(bytes) < ScriptCursor.Power256(|bytes|)
  {
    hide LittleEndian, ScriptCursor.Power256;
    NothingRead(bytes);
    value := 0;
    var factor: nat := 1;
    var i := 0;
    while i < |bytes|
      invariant 0 <= i <= |bytes|
      invariant value == LittleEndian(bytes[..i]) && factor == ScriptCursor.Power256(i)
    {
      NextByte(bytes, i);
      ProductNonNegative(bytes[i], factor);
      value, factor := value + bytes[i] * factor, factor * 256;
      i := i + 1;
    }
    assert bytes[..i] == bytes;
    LittleEndianBound(bytes);
  }

  /** Up to six bytes stay far below the whole numbers a JavaScript number holds exactly. */
  lemma {:induction false} SixBytesAreExact(s: seq<int>)
    requires Bytes(s) && |s| <= 6
    ensures LittleEndian(s) < 0x1_0000_0000_0000
  {
    LittleEndianBound(s);
    PowerGrows(|s|, 6);
    ScriptCursor.Power256Values();
    assert ScriptCursor.Power256(6) == 0x1_0000_0000_0000;
  }

  lemma {:induction false} PowerGrows(a: nat, b: nat)
    requires a <= b
    ensures ScriptCursor.Power256(a) <= ScriptCursor.Power256(b)
  {
    if a < b { PowerGrows(a, b - 1); }
  }

  // ---- One trait ----

  datatype Json =
    | JsonString(text: string)
    | JsonNumber(x: real)
    | JsonBool(b: bool)
    | JsonNull
    | JsonCompound(text: string)

  datatype Kind = Options | Range | Utf8 | RawNumber | RawString | Raw | OtherKind

  /** A pattern element; `args` is None when the trait arguments are not a list. */
  datatype Pattern = Pattern(name: string, kind: Kind, isNumber: bool, offset: int, length: int,
    args: Option<seq<Json>>)

  /** What the host does: decoding text and printing a number. */
  datatype Host = Host(utf8: seq<int> -> string, show: real -> string)

  datatype Value = Nothing | OfJson(json: Json) | OfText(text: string)

  predicate IsWhole(x: real) { x == x.Floor as real }

  predicate IsSafe(j: Json) { j.JsonNumber? && IsWhole(j.x) && IsSafeInteger(j.x.Floor) }

  predicate TwoNumbers(args: Option<seq<Json>>) {
    args.Some? && |args.value| >= 2 && args.value[0].JsonNumber? && args.value[1].JsonNumber?
  }

  function SignedText(n: int): string { if n < 0 then "-" + Digits(-n) else Digits(n) }

  function TrimNuls(s: string): string { if s != "" && s[|s| - 1] == '\0' then TrimNuls(s[..|s| - 1]) else s }

  ghost function HexText(s: seq<int>): string
    requires Bytes(s)
  {
    "0x" + ScriptCursor.HexOf(s)
  }

  ghost function NumberText(s: seq<int>): string
    requires Bytes(s)
  {
    if |s| > 6 then HexText(s) else Digits(LittleEndian(s))
  }

  function Least(a: int, b: int): int { if a <= b then a else b }

  function Most(a: int, b: int): int { if a <= b then b else a }

  ghost function OptionIndex(count: nat, s: seq<int>): (i: nat)
    requires Bytes(s) && count > 0
    ensures i < count
  {
    ModParts(LittleEndian(s), count);
    LittleEndian(s) % count
  }

  ghost function RangeValue(a: int, b: int, s: seq<int>): (v: int)
    requires Bytes(s)
    ensures Least(a, b) <= v <= Most(a, b)
  {
    ModParts(LittleEndian(s), Most(a, b) - Least(a, b) + 1);
    Least(a, b) + LittleEndian(s) % (Most(a, b) - Least(a, b) + 1)
  }

  /** What a pattern makes of its slice; a range with a bound that is not whole throws. */
  ghost function TraitValue(p: Pattern, s: seq<int>, host: Host): Result<Value>
    requires Bytes(s)
  {
    match p.kind
    case Options =>
      if p.args.None? || p.args.value == [] then Ok(Nothing)
      else Ok(OfJson(p.args.value[OptionIndex(|p.args.value|, s)]))
    case Range =>
      if !TwoNumbers(p.args) then Ok(Nothing)
      else
        var x, y := p.args.value[0].x, p.args.value[1].x;
        if IsWhole(x) && IsWhole(y) then Ok(OfText(SignedText(RangeValue(x.Floor, y.Floor, s)))) else Err
    case Utf8 => Ok(OfText(TrimNuls(host.utf8(s))))
    case RawNumber => Ok(OfText(NumberText(s)))
    case Raw => Ok(OfText(if p.isNumber then NumberText(s) else HexText(s)))
    case RawString => Ok(OfText(HexText(s)))
    case OtherKind => Ok(OfText(HexText(s)))
  }

  method HexOfBytes(s: seq<int>) returns (text: string)
    requires Bytes(s)
    ensures text == HexText(s)
  {
    text := "";
    var i := 0;
    assert s[..0] == [];
    ScriptCursor.HexOfNothing();
    while i < |s|
      invariant 0 <= i <= |s|
      invariant text == ScriptCursor.HexOf(s[..i])
    {
      text := text + ScriptCursor.ToHex(s[i]);
      ScriptCursor.HexOfMore(s[..i], s[i]);
      assert s[..i] + [s[i]] == s[..i + 1];
      i := i + 1;
    }
    assert s[..i] == s;
    text := "0x" + text;
  }

  method NumberOfBytes(s: seq<int>) returns (text: string)
    requires Bytes(s)
    ensures text == NumberText(s)
  {
    if |s| > 6 {
      text := HexOfBytes(s);
    } else {
      var n := ParseLeNumber(s);
      text := Digits(n);
    }
  }

  method DecodeTraitValue(p: Pattern, s: seq<int>, host: Host) returns (r: Result<Value>)
    requires Bytes(s)
    ensures r == TraitValue(p, s, host)
  {
    hide HexText, NumberText, LittleEndian, SignedText, TrimNuls;
    var text: string;
    match p.kind {
      case Options =>
        if p.args.None? || p.args.value == [] { return Ok(Nothing); }
        var index := ParseLeModulo(s, |p.args.value|);
        return Ok(OfJson(p.args.value[index.value]));
      case Range =>
        if !TwoNumbers(p.args) { return Ok(Nothing); }
        var x, y := p.args.value[0].x, p.args.value[1].x;
        if !IsWhole(x) || !IsWhole(y) { return Err; }
        var min, max := Least(x.Floor, y.Floor), Most(x.Floor, y.Floor);
        var step := ParseLeModulo(s, max - min + 1);
        return Ok(OfText(SignedText(min + step.value)));
      case Utf8 => return Ok(OfText(TrimNuls(host.utf8(s))));
      case RawNumber => text := NumberOfBytes(s);
      case Raw => if p.isNumber { text := NumberOfBytes(s); } else { text := HexOfBytes(s); }
      case RawString => text := HexOfBytes(s);
      case OtherKind => text := HexOfBytes(s);
    }
    r := Ok(OfText(text));
  }

  /** `formatUnknownValue`. */
  function Shown(v: Value, host: Host): string {
    match v
    case Nothing => "-"
    case OfText(text) => text
    case OfJson(JsonString(text)) => text
    case OfJson(JsonNumber(x)) => host.show(x)
    case OfJson(JsonBool(b)) => if b then "true" else "false"
    case OfJson(JsonNull) => "-"
    case OfJson(JsonCompound(text)) => text
  }

  // ---- The trait loop ----

  datatype Trait = Trait(name: string, value: string)

  datatype Issue =
    | OutsideDna(name: string, start: int, length: int, size: nat)
    | UnsafeRange(name: string)
    | NoPattern

  datatype Outcome = Gives(t: Trait) | Lacks(i: Issue)

  predicate Outside(p: Pattern, size: nat) {
    p.offset < 0 || p.length <= 0 || p.offset > size || p.length > size - p.offset
  }

  predicate BadRange(p: Pattern) {
    p.kind.Range? && (p.args.None? || |p.args.value| < 2 || !IsSafe(p.args.value[0]) || !IsSafe(p.args.value[1]))
  }

  function SliceOf(p: Pattern, dna: seq<int>): seq<int>
    requires !Outside(p, |dna|)
  {
    dna[p.offset..p.offset + p.length]
  }

  /** Past the loop's two checks no pattern throws. */
  lemma {:induction false} NeverThrows(p: Pattern, s: seq<int>, host: Host)
    requires Bytes(s) && !BadRange(p)
    ensures TraitValue(p, s, host).Ok?
  {
    hide HexText, NumberText, LittleEndian, SignedText, TrimNuls;
    assert p.kind.Range? ==> IsSafe(p.args.value[0]) && IsSafe(p.args.value[1]);
  }

  ghost function OutcomeOf(p: Pattern, dna: seq<int>, host: Host): Outcome
    requires Bytes(dna)
  {
    if Outside(p, |dna|) then Lacks(OutsideDna(p.name, p.offset, p.length, |dna|))
    else if BadRange(p) then Lacks(UnsafeRange(p.name))
    else
      NeverThrows(p, SliceOf(p, dna), host);
      Gives(Trait(p.name, Shown(TraitValue(p, SliceOf(p, dna), host).value, host)))
  }

  ghost function TraitsOf(ps: seq<Pattern>, dna: seq<int>, host: Host): seq<Trait>
    requires Bytes(dna)
  {
    if ps == [] then []
    else
      var o := OutcomeOf(ps[|ps| - 1], dna, host);
      TraitsOf(ps[..|ps| - 1], dna, host) + if o.Gives? then [o.t] else []
  }

  ghost function IssuesOf(ps: seq<Pattern>, dna: seq<int>, host: Host): seq<Issue>
    requires Bytes(dna)
  {
    if ps == [] then []
    else
      var o := OutcomeOf(ps[|ps| - 1], dna, host);
      IssuesOf(ps[..|ps| - 1], dna, host) + if o.Lacks? then [o.i] else []
  }

  lemma {:induction false} NextPattern(ps: seq<Pattern>, dna: seq<int>, host: Host, i: nat)
    requires Bytes(dna) && i < |ps|
    ensures var o := OutcomeOf(ps[i], dna, host);
      && TraitsOf(ps[..i + 1], dna, host) == TraitsOf(ps[..i], dna, host) + (if o.Gives? then [o.t] else [])
      && IssuesOf(ps[..i + 1], dna, host) == IssuesOf(ps[..i], dna, host) + (if o.Lacks? then [o.i] else [])
  {
    hide OutcomeOf;
    assert ps[..i + 1][..i] == ps[..i];
  }

  method DecodeTraits(ps: seq<Pattern>, dna: seq<int>, host: Host) returns (traits: seq<Trait>, issues: seq<Issue>)
    requires Bytes(dna)
    ensures traits == TraitsOf(ps, dna, host)
    ensures issues == if ps == [] then [NoPattern] else IssuesOf(ps, dna, host)
  {
    hide TraitsOf, IssuesOf, TraitValue, Shown, BadRange;
    traits, issues := [], [];
    var i := 0;
    NoPatterns(ps, dna, host);
    while i < |ps|
      invariant 0 <= i <= |ps|
      invariant traits == TraitsOf(ps[..i], dna, host) && issues == IssuesOf(ps[..i], dna, host)
    {
      var p := ps[i];
      NextPattern(ps, dna, host, i);
      i := i + 1;
      if Outside(p, |dna|) {
        issues := issues + [OutsideDna(p.name, p.offset, p.length, |dna|)];
      } else if BadRange(p) {
        issues := issues + [UnsafeRange(p.name)];
      } else {
        NeverThrows(p, SliceOf(p, dna), host);
        var value := DecodeTraitValue(p, SliceOf(p, dna), host);
        traits := traits + [Trait(p.name, Shown(value.value, host))];
      }
    }
    assert ps[..i] == ps;
    if |ps| == 0 { issues := issues + [NoPattern]; }
  }

  lemma NoPatterns(ps: seq<Pattern>, dna: seq<int>, host: Host)
    requires Bytes(dna)
    ensures TraitsOf(ps[..0], dna, host) == [] && IssuesOf(ps[..0], dna, host) == []
  {
  }

  /**
   Every pattern has exactly one entry, in its list and at the place its predecessors leave it; there are no others.
   */
  lemma {:induction false} OnePerPattern(ps: seq<Pattern>, dna: seq<int>, host: Host, i: nat)
    requires Bytes(dna) && i < |ps|
    ensures |TraitsOf(ps, dna, host)| + |IssuesOf(ps, dna, host)| == |ps|
    ensures var o := OutcomeOf(ps[i], dna, host);
      if o.Gives? then
        var k := |TraitsOf(ps[..i], dna, host)|;
        k < |TraitsOf(ps, dna, host)| && TraitsOf(ps, dna, host)[k] == o.t
      else
        var k := |IssuesOf(ps[..i], dna, host)|;
        k < |IssuesOf(ps, dna, host)| && IssuesOf(ps, dna, host)[k] == o.i
  {
    hide OutcomeOf;
    var n := |ps| - 1;
    if i < n {
      OnePerPattern(ps[..n], dna, host, i);
      assert ps[..n][..i] == ps[..i];
      assert ps[..n][i] == ps[i];
    } else {
      CountAll(ps[..n], dna, host);
    }
  }

  lemma {:induction false} CountAll(ps: seq<Pattern>, dna: seq<int>, host: Host)
    requires Bytes(dna)
    ensures |TraitsOf(ps, dna, host)| + |IssuesOf(ps, dna, host)| == |ps|
  {
    hide OutcomeOf;
    if ps != [] { CountAll(ps[..|ps| - 1], dna, host); }
  }
}
