/** Reading a cells-by-script cursor back: where each field stands in its text, and what it says. */
module CursorFields {
  import opened Common
  import Decimals
  import NewestCells
  import opened ScriptCursor

  /** A byte's two digits in base 16, the high one first. */
  ghost function TwoDigits(b: int): string
    requires 0 <= b < 256
  {
    ["0123456789abcdef"[b / 16], "0123456789abcdef"[b % 16]]
  }

  /** Each byte prints as its two digits, in the bytes' order. */
  lemma {:induction false} HexDigitsAt(bytes: seq<int>, i: nat)
    requires (forall k :: 0 <= k < |bytes| ==> 0 <= bytes[k] < 256) && i < |bytes|
    ensures HexOf(bytes)[2 * i..2 * i + 2] == TwoDigits(bytes[i])
  {
    hide TwoDigits, ToHex;
    var n := |bytes| - 1;
    if i < n {
      HexDigitsAt(bytes[..n], i);
      assert HexOf(bytes)[2 * i..2 * i + 2] == HexOf(bytes[..n])[2 * i..2 * i + 2];
    } else {
      ByteDigits(bytes[n]);
      assert HexOf(bytes)[2 * n..] == ToHex(bytes[n]);
    }
  }

  lemma ByteDigits(b: int)
    requires 0 <= b < 256
    ensures ToHex(b) == TwoDigits(b)
  {
    HexCharIs(b / 16);
    HexCharIs(b % 16);
  }

  lemma HexCharIs(d: int)
    requires 0 <= d < 16
    ensures HexChar(d) == "0123456789abcdef"[d]
  {
  }

  /** The number a text in base 16 spells. */
  ghost function HexValue(s: string): int {
    if s == "" then 0
    else
      var d := DigitOf(s[|s| - 1]);
      16 * HexValue(s[..|s| - 1]) + if d.Some? then d.value else 0
  }

  lemma {:induction false} HexValueMore(s: string, v: int)
    requires 0 <= v < 256
    ensures HexValue(s + ToHex(v)) == 256 * HexValue(s) + v
  {
    var c, d := HexChar(v / 16), HexChar(v % 16);
    assert DigitOf(c) == Some(v / 16) && DigitOf(d) == Some(v % 16);
    hide HexChar, DigitOf;
    assert s + ToHex(v) == s + [c] + [d];
    assert (s + [c] + [d])[..|s| + 1] == s + [c] && (s + [c])[..|s|] == s;
    assert HexValue(s + [c]) == 16 * HexValue(s) + v / 16;
  }

  /** A number that fits is read back from its bytes' digits. */
  lemma {:induction false} HexValueOf(v: int, n: nat)
    requires 0 <= v < Power256(n)
    ensures HexValue(HexOf(BigEndian(v, n))) == v
    decreases n
  {
    if n > 0 {
      HighPart(v, n);
      HexValueOf(v / 256, n - 1);
      BigEndianStep(v, n);
      hide HexOf, BigEndian, HexValue, ToHex, Power256;
      HexValueMore(HexOf(BigEndian(v / 256, n - 1)), v % 256);
    }
  }

  /** A script's code hash as the page has it. */
  ghost predicate IsHash(s: string) { |s| == 66 && "0x" <= s && LowerHex(s[2..]) }

  lemma HashReads(s: string)
    requires IsHash(s)
    ensures ParseHex(s).Ok? && Printable(ParseHex(s).value) && HexOf(ParseHex(s).value) == s[2..]
  {
    hide PairBytes, HexOf;
    HexRoundTrip(s[2..], 32);
    assert s[2..][..64] == s[2..];
  }

  /** How a cursor of each phase begins. */
  ghost function Beginning(phase: Option<NewestCells.Kind>): string {
    if phase == None then "" else if phase == Some(NewestCells.Lock) then "lock:" else "type:"
  }

  lemma LetterOf(phase: Option<NewestCells.Kind>, text: string)
    requires Beginning(phase) <= text
    ensures phase.None? ==> |Beginning(phase)| == 0
    ensures phase.Some? ==> |Beginning(phase)| == 5 && text[0] == (if phase.value.Lock? then 'l' else 't')
  {
    if phase.Some? { assert text[0] == Beginning(phase)[0]; }
  }

  /** The fields of a cursor's text, each at its place. */
  ghost predicate Spells(text: string, reference: string, hashType: HashType, row: Row,
      phase: Option<NewestCells.Kind>)
    requires IsHash(reference) && OnChain(row)
  {
    var prefix := Beginning(phase);
    && |text| == |prefix| + 150 && prefix <= text
    && var key := text[|prefix|..];
    && key[..64] == reference[2..]
    && key[64..66] == (match hashType case Data => "00" case TypeHash => "01" case Data1 => "02" case Data2 => "04")
    && HexValue(key[66..82]) == row.createdAtBlock
    && key[82..146] == row.txHash[2..]
    && HexValue(key[146..150]) == row.outputIndex
  }

  lemma HashTypeText(h: HashType)
    ensures ToHex(HashTypeByte(h)) ==
      (match h case Data => "00" case TypeHash => "01" case Data1 => "02" case Data2 => "04")
  {
    ByteDigits(HashTypeByte(h));
  }

  lemma FiveParts(p: string, a: string, h: string, b: string, t: string, i: string)
    requires |a| == 64 && |h| == 2 && |b| == 16 && |t| == 64 && |i| == 4
    ensures var text := p + a + h + b + t + i;
      && |text| == |p| + 150 && p <= text
      && var key := text[|p|..];
      key[..64] == a && key[64..66] == h && key[66..82] == b && key[82..146] == t && key[146..150] == i
  {
  }

  /**
   A cursor's text spells its phase, reference, hash type, block, transaction hash and output index.
   */
  lemma {:induction false} CursorSpells(reference: string, hashType: HashType, row: Row,
      phase: Option<NewestCells.Kind>)
    requires IsHash(reference) && OnChain(row)
    ensures ParseHex(reference).Ok? && Printable(ParseHex(reference).value)
    ensures ParseHex(row.txHash).Ok? && Printable(ParseHex(row.txHash).value)
    ensures Spells(Cursor(ParseHex(reference).value, hashType, row, ParseHex(row.txHash).value, phase),
      reference, hashType, row, phase)
  {
    hide HexOf, ToHex, BigEndian, LowerHex, PairBytes, ParseHex, HexValue, Power256;
    HashReads(reference);
    HashReads(row.txHash);
    Power256Values();
    HexValueOf(row.createdAtBlock, 8);
    HexValueOf(row.outputIndex, 2);
    HashTypeText(hashType);
    FiveParts(PhasePrefix(phase), reference[2..], ToHex(HashTypeByte(hashType)),
      HexOf(BigEndian(row.createdAtBlock, 8)), row.txHash[2..], HexOf(BigEndian(row.outputIndex, 2)));
  }

  lemma SamePrefix(text: string, reference: string, other: string, g: HashType, h: HashType, a: Row, b: Row,
      phase: Option<NewestCells.Kind>, second: Option<NewestCells.Kind>)
    requires IsHash(reference) && IsHash(other) && OnChain(a) && OnChain(b)
    requires Spells(text, reference, g, a, phase) && Spells(text, other, h, b, second)
    ensures phase == second
  {
    hide HexValue, LowerHex;
    LetterOf(phase, text);
    LetterOf(second, text);
  }

  /** A text spells one cursor only: nothing a cursor is made from is lost in it. */
  lemma {:induction false} SpellsOne(text: string, reference: string, other: string, g: HashType, h: HashType, a: Row,
      b: Row, phase: Option<NewestCells.Kind>, second: Option<NewestCells.Kind>)
    requires IsHash(reference) && IsHash(other) && OnChain(a) && OnChain(b)
    requires Spells(text, reference, g, a, phase) && Spells(text, other, h, b, second)
    ensures reference == other && g == h && a == b && phase == second
  {
    hide HexValue, LowerHex;
    SamePrefix(text, reference, other, g, h, a, b, phase, second);
    assert reference == "0x" + reference[2..] && other == "0x" + other[2..];
    assert a.txHash == "0x" + a.txHash[2..] && b.txHash == "0x" + b.txHash[2..];
  }

  /** What two characters of a hash read as: upper case too, one digit where only one is there, a sign, a space. */
  lemma PairExamples()
    ensures ParsePair('f', 'F') == Some(255) && ParsePair('0', 'a') == Some(10) && ParsePair('7', 'g') == Some(7)
    ensures ParsePair('+', '7') == Some(7) && ParsePair(' ', 'b') == Some(11) && ParsePair('-', 'c') == Some(-12)
    ensures ParsePair('0', 'x') == None && ParsePair('0', 'X') == None && ParsePair('g', '1') == None
    ensures ParsePair('-', '-') == None && ParsePair('+', ' ') == None
  {
  }

  /** What parseInt skips in front of a number: the white space and line ends of ECMAScript. */
  lemma SpacesAre(c: char)
    ensures IsSpace(c) <==> c as int in {
      0x9, 0xa, 0xb, 0xc, 0xd, 0x20, 0xa0, 0x1680, 0x2000, 0x2001, 0x2002, 0x2003, 0x2004, 0x2005, 0x2006, 0x2007,
      0x2008, 0x2009, 0x200a, 0x2028, 0x2029, 0x202f, 0x205f, 0x3000, 0xfeff}
  {
  }
}
