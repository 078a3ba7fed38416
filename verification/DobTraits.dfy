/**
 What a digital object's DNA shows for one pattern: which bytes count, and what each kind of
 pattern makes of them, told from the bytes alone.
 */
module DobTraits {
  import opened Common
  import opened Decimals
  import opened DobRender
  import CursorFields
  import ExactInteger
  import ScriptCursor

  /** Patterns are independent: a longer list's traits and issues are its parts', one after the other. */
  lemma {:induction false} ListsJoin(ps: seq<Pattern>, qs: seq<Pattern>, dna: seq<int>, host: Host)
    requires Bytes(dna)
    ensures TraitsOf(ps + qs, dna, host) == TraitsOf(ps, dna, host) + TraitsOf(qs, dna, host)
    ensures IssuesOf(ps + qs, dna, host) == IssuesOf(ps, dna, host) + IssuesOf(qs, dna, host)
    decreases |qs|
  {
    hide OutcomeOf;
    if qs == [] {
      assert ps + qs == ps;
    } else {
      var n := |qs| - 1;
      ListsJoin(ps, qs[..n], dna, host);
      assert (ps + qs)[..|ps + qs| - 1] == ps + qs[..n];
    }
  }

  lemma OnlyEntry(p: Pattern, dna: seq<int>, host: Host)
    requires Bytes(dna)
    ensures var o := OutcomeOf(p, dna, host);
      && TraitsOf([p], dna, host) == (if o.Gives? then [o.t] else [])
      && IssuesOf([p], dna, host) == (if o.Lacks? then [o.i] else [])
  {
    hide OutcomeOf;
    assert [p][..0] == [];
    assert TraitsOf([p][..0], dna, host) == [] && IssuesOf([p][..0], dna, host) == [];
  }

  // ----- Which bytes -----

  /** The bytes `s` stand where the pattern says, `a` in front of them and `b` behind. */
  ghost predicate Split(p: Pattern, a: seq<int>, s: seq<int>, b: seq<int>) {
    |a| == p.offset && |s| == p.length > 0 && Bytes(a + s + b)
  }

  lemma SplitBytes(p: Pattern, a: seq<int>, s: seq<int>, b: seq<int>)
    requires Split(p, a, s, b)
    ensures Bytes(s) && !Outside(p, |a + s + b|) && SliceOf(p, a + s + b) == s
  {
    var dna := a + s + b;
    assert dna[|a|..|a| + |s|] == s;
    assert forall i :: 0 <= i < |s| ==> s[i] == dna[|a| + i];
  }

  /** The one entry a pattern has over these bytes is this trait. */
  ghost predicate Reads(p: Pattern, dna: seq<int>, host: Host, text: string)
    requires Bytes(dna)
  {
    TraitsOf([p], dna, host) == [Trait(p.name, text)] && IssuesOf([p], dna, host) == []
  }

  lemma ReadsFromSlice(p: Pattern, a: seq<int>, s: seq<int>, b: seq<int>, host: Host)
    requires Split(p, a, s, b) && !BadRange(p)
    ensures Bytes(s) && TraitValue(p, s, host).Ok?
    ensures Reads(p, a + s + b, host, Shown(TraitValue(p, s, host).value, host))
  {
    SplitBytes(p, a, s, b);
    NeverThrows(p, s, host);
    OnlyEntry(p, a + s + b, host);
    hide TraitValue, Shown, BadRange, TraitsOf, IssuesOf;
  }

  /** What stands around its bytes makes no difference to a pattern: it has the same entry. */
  lemma SurroundingsDoNotMatter(p: Pattern, a: seq<int>, s: seq<int>, b: seq<int>, c: seq<int>, d: seq<int>,
      host: Host)
    requires Split(p, a, s, b) && Split(p, c, s, d)
    ensures TraitsOf([p], a + s + b, host) == TraitsOf([p], c + s + d, host)
    ensures IssuesOf([p], a + s + b, host) == IssuesOf([p], c + s + d, host)
  {
    SplitBytes(p, a, s, b);
    SplitBytes(p, c, s, d);
    OnlyEntry(p, a + s + b, host);
    OnlyEntry(p, c + s + d, host);
    hide TraitValue, Shown, BadRange, TraitsOf, IssuesOf;
  }

  /** An entry is missing for want of bytes exactly when no such bytes are there. */
  lemma OutsideExactlyWhen(p: Pattern, dna: seq<int>, host: Host)
    requires Bytes(dna)
    ensures IssuesOf([p], dna, host) == [OutsideDna(p.name, p.offset, p.length, |dna|)] <==>
      !exists a, s, b :: Split(p, a, s, b) && dna == a + s + b
  {
    hide TraitValue, Shown, BadRange, TraitsOf, IssuesOf;
    OnlyEntry(p, dna, host);
    if !Outside(p, |dna|) {
      var a, s, b := dna[..p.offset], dna[p.offset..p.offset + p.length], dna[p.offset + p.length..];
      assert dna == a + s + b;
      assert Split(p, a, s, b);
    }
    forall a, s, b | Split(p, a, s, b) && dna == a + s + b ensures !Outside(p, |dna|) {
      SplitBytes(p, a, s, b);
    }
  }

  /** Two bounds a range can use: whole numbers a JavaScript number holds exactly. */
  ghost predicate Bounds(p: Pattern, x: int, y: int) {
    && p.args.Some? && |p.args.value| >= 2
    && p.args.value[0] == JsonNumber(x as real) && p.args.value[1] == JsonNumber(y as real)
    && -0x20_0000_0000_0000 < x < 0x20_0000_0000_0000 && -0x20_0000_0000_0000 < y < 0x20_0000_0000_0000
  }

  lemma BoundsAre(p: Pattern, x: int, y: int)
    ensures Bounds(p, x, y) <==>
      && p.args.Some? && |p.args.value| >= 2 && IsSafe(p.args.value[0]) && IsSafe(p.args.value[1])
      && p.args.value[0].x.Floor == x && p.args.value[1].x.Floor == y
  {
  }

  /** With the bytes there, the entry is missing exactly when a range has no usable bounds. */
  lemma UnsafeExactlyWhen(p: Pattern, a: seq<int>, s: seq<int>, b: seq<int>, host: Host)
    requires Split(p, a, s, b)
    ensures IssuesOf([p], a + s + b, host) == [UnsafeRange(p.name)] <==>
      p.kind.Range? && !exists x, y :: Bounds(p, x, y)
    ensures IssuesOf([p], a + s + b, host) == [] <==> !(p.kind.Range? && !exists x, y :: Bounds(p, x, y))
  {
    hide TraitValue, Shown, TraitsOf, IssuesOf;
    SplitBytes(p, a, s, b);
    OnlyEntry(p, a + s + b, host);
    if p.kind.Range? && !BadRange(p) {
      BoundsAre(p, p.args.value[0].x.Floor, p.args.value[1].x.Floor);
    }
    forall x, y | Bounds(p, x, y) ensures !BadRange(p) {
      BoundsAre(p, x, y);
    }
  }

  // ----- What each kind shows -----

  /** How an option shows: text as it is, a number as the host prints it, nothing as a dash. */
  ghost predicate Displays(j: Json, host: Host, text: string) {
    && (forall t :: j == JsonString(t) || j == JsonCompound(t) ==> text == t)
    && (forall x :: j == JsonNumber(x) ==> text == host.show(x))
    && (j == JsonBool(true) ==> text == "true") && (j == JsonBool(false) ==> text == "false")
    && (j == JsonNull ==> text == "-")
  }

  /** An option is chosen by the bytes' number modulo how many there are; without any a dash stands. */
  lemma OptionReads(p: Pattern, a: seq<int>, s: seq<int>, b: seq<int>, host: Host)
    requires Split(p, a, s, b) && p.kind.Options?
    ensures p.args.None? || p.args.value == [] ==> Reads(p, a + s + b, host, "-")
    ensures p.args.Some? && p.args.value != [] ==>
      && Bytes(s) && 0 <= LittleEndian(s) % |p.args.value| < |p.args.value|
      && exists text ::
        Displays(p.args.value[LittleEndian(s) % |p.args.value|], host, text) && Reads(p, a + s + b, host, text)
  {
    hide LittleEndian, Reads, TraitsOf, IssuesOf;
    ReadsFromSlice(p, a, s, b, host);
    if p.args.Some? && p.args.value != [] {
      ModParts(LittleEndian(s), |p.args.value|);
      var j := p.args.value[LittleEndian(s) % |p.args.value|];
      assert Displays(j, host, Shown(OfJson(j), host));
    }
  }

  /** A range shows its smaller bound plus the bytes' number modulo how many numbers it holds. */
  lemma RangeReads(p: Pattern, a: seq<int>, s: seq<int>, b: seq<int>, host: Host, x: int, y: int)
    requires Split(p, a, s, b) && p.kind.Range? && Bounds(p, x, y)
    ensures Bytes(s)
    ensures var low, high := if x < y then x else y, if x < y then y else x;
      var v := low + LittleEndian(s) % (high - low + 1);
      low <= v <= high && Reads(p, a + s + b, host, if v < 0 then "-" + Digits(-v) else Digits(v))
  {
    hide LittleEndian, Reads, TraitsOf, IssuesOf, Digits, RangeValue;
    BoundsAre(p, x, y);
    ReadsFromSlice(p, a, s, b, host);
    RangeValueIs(x, y, s);
    assert TraitValue(p, s, host).value == OfText(SignedText(RangeValue(x, y, s)));
  }

  lemma RangeValueIs(x: int, y: int, s: seq<int>)
    requires Bytes(s)
    ensures var low, high := if x < y then x else y, if x < y then y else x;
      RangeValue(x, y, s) == low + LittleEndian(s) % (high - low + 1)
  {
    hide LittleEndian;
  }

  /** The kinds that show a number while the bytes are few. */
  predicate ShowsNumber(p: Pattern) { p.kind.RawNumber? || (p.kind.Raw? && p.isNumber) }

  lemma NumberReads(p: Pattern, a: seq<int>, s: seq<int>, b: seq<int>, host: Host)
    requires Split(p, a, s, b) && ShowsNumber(p) && |s| <= 6
    ensures Bytes(s) && Reads(p, a + s + b, host, Digits(LittleEndian(s)))
  {
    hide LittleEndian, Reads, TraitsOf, IssuesOf, Digits;
    ReadsFromSlice(p, a, s, b, host);
  }

  /** "0x", then two digits for every byte, the high one first. */
  ghost predicate IsHexText(text: string, s: seq<int>)
    requires Bytes(s)
  {
    && |text| == 2 + 2 * |s| && text[..2] == "0x"
    && forall i :: 0 <= i < |s| ==> text[2 + 2 * i..4 + 2 * i] == CursorFields.TwoDigits(s[i])
  }

  lemma HexTextIs(s: seq<int>)
    requires Bytes(s)
    ensures IsHexText(HexText(s), s)
  {
    hide ScriptCursor.HexOf, CursorFields.TwoDigits;
    var text := HexText(s);
    forall i | 0 <= i < |s| ensures text[2 + 2 * i..4 + 2 * i] == CursorFields.TwoDigits(s[i]) {
      CursorFields.HexDigitsAt(s, i);
      assert text[2 + 2 * i..4 + 2 * i] == ScriptCursor.HexOf(s)[2 * i..2 * i + 2];
    }
  }

  /** Everything else that is raw, and numbers of more than six bytes, show their bytes. */
  lemma HexReads(p: Pattern, a: seq<int>, s: seq<int>, b: seq<int>, host: Host)
    requires Split(p, a, s, b) && !p.kind.Options? && !p.kind.Range? && !p.kind.Utf8?
    requires ShowsNumber(p) ==> |s| > 6
    ensures Bytes(s) && exists text :: IsHexText(text, s) && Reads(p, a + s + b, host, text)
  {
    hide HexText, Reads, TraitsOf, IssuesOf, IsHexText, LittleEndian;
    ReadsFromSlice(p, a, s, b, host);
    HexTextIs(s);
    assert IsHexText(HexText(s), s) && Reads(p, a + s + b, host, HexText(s));
  }

  ghost predicate OnlyNuls(s: string) { forall i :: 0 <= i < |s| ==> s[i] == '\0' }

  /** A text is what the host decodes, less the zeros at its end and no more. */
  ghost predicate Trims(text: string, decoded: string) {
    text <= decoded && OnlyNuls(decoded[|text|..]) && (text == "" || text[|text| - 1] != '\0')
  }

  lemma {:induction false} TrimNulsTrims(s: string)
    ensures Trims(TrimNuls(s), s)
  {
    if s != "" && s[|s| - 1] == '\0' {
      var front := s[..|s| - 1];
      TrimNulsTrims(front);
      var r := TrimNuls(front);
      assert s[|r|..] == front[|r|..] + ['\0'];
    }
  }

  lemma Utf8Reads(p: Pattern, a: seq<int>, s: seq<int>, b: seq<int>, host: Host)
    requires Split(p, a, s, b) && p.kind.Utf8?
    ensures exists text :: Trims(text, host.utf8(s)) && Reads(p, a + s + b, host, text)
  {
    hide Reads, TraitsOf, IssuesOf, TrimNuls, Trims;
    ReadsFromSlice(p, a, s, b, host);
    TrimNulsTrims(host.utf8(s));
    assert Trims(TrimNuls(host.utf8(s)), host.utf8(s)) && Reads(p, a + s + b, host, TrimNuls(host.utf8(s)));
  }

  /** The bytes alone never throw: only a range with two numbers, one of them not whole, does. */
  lemma ThrowsExactlyWhen(p: Pattern, s: seq<int>, host: Host)
    requires Bytes(s)
    ensures TraitValue(p, s, host).Err? <==>
      p.kind.Range? && p.args.Some? && |p.args.value| >= 2
        && p.args.value[0].JsonNumber? && p.args.value[1].JsonNumber?
        && exists i :: 0 <= i < 2 && p.args.value[i].x != p.args.value[i].x.Floor as real
  {
    hide HexText, NumberText, LittleEndian, SignedText, TrimNuls, RangeValue, OptionIndex;
    if p.kind.Range? && TwoNumbers(p.args) {
      var x, y := p.args.value[0].x, p.args.value[1].x;
      assert IsWhole(x) <==> p.args.value[0].x == p.args.value[0].x.Floor as real;
      assert IsWhole(y) <==> p.args.value[1].x == p.args.value[1].x.Floor as real;
    }
  }
}
