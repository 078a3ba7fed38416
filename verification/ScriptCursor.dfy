/** script-ref.ts: the cursor of a cells-by-script page, as text the index orders by. */
module ScriptCursor {
  import opened Common
  import Decimals
  import Text
  import NewestCells

  // ----- Hexadecimal -----

  /** A hexadecimal digit's character, in lower case. */
  function HexChar(d: int): char
    requires 0 <= d < 16
  {
    if d < 10 then Decimals.DigitChar(d) else ('a' as int + d - 10) as char
  }

  predicate IsLowerHex(c: char) { '0' <= c <= '9' || 'a' <= c <= 'f' }

  function DigitOf(c: char): Option<int> {
    if '0' <= c <= '9' then Some(c as int - '0' as int)
    else if 'a' <= c <= 'f' then Some(c as int - 'a' as int + 10)
    else if 'A' <= c <= 'F' then Some(c as int - 'A' as int + 10)
    else None
  }

  /** The characters parseInt skips in front of a number. */
  predicate IsSpace(c: char) {
    var n := c as int;
    || 9 <= n <= 13 || n == 32 || n == 160 || n == 0x1680 || 0x2000 <= n <= 0x200a || n == 0x2028 || n == 0x2029
    || n == 0x202f || n == 0x205f || n == 0x3000 || n == 0xfeff
  }

  /** `Number.parseInt(pair, 16)` on two characters: it reads as far as it can, and takes a sign or a 0x. */
  function ParsePair(c: char, d: char): Option<int> {
    if c == '0' && (d == 'x' || d == 'X') then None
    else if DigitOf(c).Some? then
      if DigitOf(d).Some? then Some(16 * DigitOf(c).value + DigitOf(d).value) else Some(DigitOf(c).value)
    else if c == '+' || IsSpace(c) then
      if DigitOf(d).Some? then Some(DigitOf(d).value) else None
    else if c == '-' then
      if DigitOf(d).Some? then Some(-DigitOf(d).value) else None
    else None
  }

  function Bare(hex: string): string { if "0x" <= hex then hex[2..] else hex }

  /** The bytes of a text's first `k` character pairs, unless some pair reads as nothing. */
  function PairBytes(s: string, k: nat): Result<seq<int>>
    requires 2 * k <= |s|
  {
    if k == 0 then Ok([])
    else
      var front, last := PairBytes(s, k - 1), ParsePair(s[2 * k - 2], s[2 * k - 1]);
      if front.Err? || last == None then Err else Ok(front.value + [last.value])
  }

  lemma {:induction false} BadPairs(s: string, k: nat, n: nat)
    requires k <= n && 2 * n <= |s| && PairBytes(s, k).Err?
    ensures PairBytes(s, n).Err?
  {
    if k < n { BadPairs(s, k, n - 1); }
  }

  function ParseHex(hex: string): Result<seq<int>> {
    if |Bare(hex)| % 2 != 0 then Err else PairBytes(Bare(hex), |Bare(hex)| / 2)
  }

  method HexToBytes(hex: string) returns (r: Result<seq<int>>)
    ensures r == ParseHex(hex)
  {
    var s := Bare(hex);
    if |s| % 2 != 0 { return Err; }
    var bytes: seq<int> := [];
    var i := 0;
    while i < |s|
      invariant 0 <= i <= |s| && i % 2 == 0
      invariant PairBytes(s, i / 2) == Ok(bytes)
    {
      var value := ParsePair(s[i], s[i + 1]);
      if value == None {
        BadPairs(s, i / 2 + 1, |s| / 2);
        return Err;
      }
      bytes := bytes + [value.value];
      i := i + 2;
    }
    return Ok(bytes);
  }

  /** A number in base 16, at least two characters wide. */
  function ToHex(v: int): string
    requires -16 < v < 256
  {
    if v < 0 then ['-', HexChar(-v)] else [HexChar(v / 16), HexChar(v % 16)]
  }

  predicate Printable(bytes: seq<int>) { forall i :: 0 <= i < |bytes| ==> -16 < bytes[i] < 256 }

  function HexOf(bytes: seq<int>): (s: string)
    requires Printable(bytes)
    ensures |s| == 2 * |bytes|
  {
    if bytes == [] then "" else HexOf(bytes[..|bytes| - 1]) + ToHex(bytes[|bytes| - 1])
  }

  lemma {:induction false} HexOfMore(a: seq<int>, x: int)
    requires Printable(a) && -16 < x < 256
    ensures Printable(a + [x]) && HexOf(a + [x]) == HexOf(a) + ToHex(x)
  {
    assert (a + [x])[..|a|] == a;
  }

  lemma {:induction false} HexOfNothing()
    ensures HexOf([]) == ""
  {
  }

  lemma {:induction false} HexOfConcat(a: seq<int>, b: seq<int>)
    requires Printable(a) && Printable(b)
    ensures Printable(a + b) && HexOf(a + b) == HexOf(a) + HexOf(b)
    decreases |b|
  {
    hide HexOf, ToHex;
    if b == [] {
      assert a + b == a;
      HexOfNothing();
    } else {
      var n := |b| - 1;
      var front, x := b[..n], b[n];
      assert b == front + [x] && a + b == a + front + [x];
      HexOfConcat(a, front);
      HexOfMore(a + front, x);
      HexOfMore(front, x);
      assert HexOf(a) + (HexOf(front) + ToHex(x)) == HexOf(a) + HexOf(front) + ToHex(x);
    }
  }

  lemma {:induction false} PairBytesPrintable(s: string, k: nat)
    requires 2 * k <= |s|
    ensures PairBytes(s, k).Ok? ==> Printable(PairBytes(s, k).value)
  {
    if k > 0 { PairBytesPrintable(s, k - 1); }
  }

  ghost predicate LowerHex(s: string) { forall i :: 0 <= i < |s| ==> IsLowerHex(s[i]) }

  lemma {:induction false} DigitRoundTrip(c: char)
    requires IsLowerHex(c)
    ensures DigitOf(c).Some? && 0 <= DigitOf(c).value < 16 && HexChar(DigitOf(c).value) == c
  {
  }

  lemma {:induction false} PairRoundTrip(c: char, d: char)
    requires IsLowerHex(c) && IsLowerHex(d)
    ensures ParsePair(c, d).Some? && 0 <= ParsePair(c, d).value < 256 && ToHex(ParsePair(c, d).value) == [c, d]
  {
    DigitRoundTrip(c);
    DigitRoundTrip(d);
    var x, y := DigitOf(c).value, DigitOf(d).value;
    hide DigitOf, HexChar;
    assert (16 * x + y) / 16 == x && (16 * x + y) % 16 == y;
  }

  /** Lower-case hexadecimal is read and printed back unchanged. */
  lemma {:induction false} HexRoundTrip(s: string, k: nat)
    requires 2 * k <= |s| && LowerHex(s)
    ensures PairBytes(s, k).Ok? && Printable(PairBytes(s, k).value) && HexOf(PairBytes(s, k).value) == s[..2 * k]
  {
    hide ParsePair, ToHex, HexOf;
    HexOfNothing();
    if k > 0 {
      var c, d := s[2 * k - 2], s[2 * k - 1];
      PairRoundTrip(c, d);
      HexRoundTrip(s, k - 1);
      var front, x := PairBytes(s, k - 1).value, ParsePair(c, d).value;
      HexOfMore(front, x);
      assert PairBytes(s, k) == Ok(front + [x]);
      assert s[..2 * k] == s[..2 * (k - 1)] + [c, d];
    }
  }

  // ----- Numbers as bytes, highest first -----

  function Power256(n: nat): (p: nat)
    ensures p > 0
  {
    if n == 0 then 1 else 256 * Power256(n - 1)
  }

  /** The low `n` bytes of a number. */
  function BigEndian(v: int, n: nat): (b: seq<int>)
    ensures |b| == n && forall i :: 0 <= i < n ==> 0 <= b[i] < 256
    decreases n
  {
    if n == 0 then [] else BigEndian(v / 256, n - 1) + [v % 256]
  }

  lemma {:induction false} ToHexOrder(v: int, w: int)
    requires 0 <= v < 256 && 0 <= w < 256
    ensures Text.Less(ToHex(v), ToHex(w)) <==> v < w
    ensures ToHex(v) == ToHex(w) <==> v == w
  {
    DigitOrder(v / 16, w / 16);
    DigitOrder(v % 16, w % 16);
    TwoCharacters(HexChar(v / 16), HexChar(v % 16), HexChar(w / 16), HexChar(w % 16));
    hide HexChar;
  }

  lemma {:induction false} TwoCharacters(a: char, b: char, c: char, d: char)
    ensures Text.Less([a, b], [c, d]) <==> a < c || (a == c && b < d)
  {
    assert [a, b][1..] == [b] && [c, d][1..] == [d];
    assert [b][1..] == "" && [d][1..] == "";
    assert Text.Less([b], [d]) <==> b < d;
  }

  lemma {:induction false} DigitOrder(a: int, b: int)
    requires 0 <= a < 16 && 0 <= b < 16
    ensures HexChar(a) < HexChar(b) <==> a < b
    ensures HexChar(a) == HexChar(b) <==> a == b
  {
  }

  /** A fixed-width part that differs decides; one that is equal hands over to what follows it. */
  lemma {:induction false} PartDecides(p: string, q: string, a: string, b: string)
    requires |p| == |q|
    ensures p != q ==> (Text.Less(p + a, q + b) <==> Text.Less(p, q)) && p + a != q + b
    ensures p == q ==> (Text.Less(p + a, q + b) <==> Text.Less(a, b)) && (p + a == q + b <==> a == b)
  {
    assert (p + a)[..|p|] == p && (q + b)[..|q|] == q;
    assert (p + a)[|p|..] == a && (q + b)[|q|..] == b;
    hide Text.Less;
    if p == q { Text.LessAfterCommon(p, a, b); } else { Text.LessByBeginning(p, q, a, b); }
  }

  /** Dividing by 256 splits a comparison into its high and its low part. */
  lemma {:induction false} SplitOrder(v: int, w: int)
    ensures v < w <==> v / 256 < w / 256 || (v / 256 == w / 256 && v % 256 < w % 256)
    ensures v == w <==> v / 256 == w / 256 && v % 256 == w % 256
  {
  }

  lemma {:induction false} HighPart(v: int, n: nat)
    requires n > 0 && 0 <= v < Power256(n)
    ensures 0 <= v / 256 < Power256(n - 1) && 0 <= v % 256 < 256
  {
  }

  /** Equally wide, numbers compare as their hexadecimal texts do. */
  lemma {:induction false} BigEndianOrder(v: int, w: int, n: nat)
    requires 0 <= v < Power256(n) && 0 <= w < Power256(n)
    ensures Text.Less(HexOf(BigEndian(v, n)), HexOf(BigEndian(w, n))) <==> v < w
    ensures HexOf(BigEndian(v, n)) == HexOf(BigEndian(w, n)) <==> v == w
    decreases n
  {
    hide BigEndian, HexOf, ToHex, Text.Less, Power256;
    if n == 0 {
      NoBytes(v, w);
    } else {
      HighPart(v, n);
      HighPart(w, n);
      SplitOrder(v, w);
      var vh, wh, vl, wl := v / 256, w / 256, v % 256, w % 256;
      BigEndianOrder(vh, wh, n - 1);
      ToHexOrder(vl, wl);
      BigEndianStep(v, n);
      BigEndianStep(w, n);
      PartDecides(HexOf(BigEndian(vh, n - 1)), HexOf(BigEndian(wh, n - 1)), ToHex(vl), ToHex(wl));
    }
  }

  lemma {:induction false} NoBytes(v: int, w: int)
    requires 0 <= v < Power256(0) && 0 <= w < Power256(0)
    ensures v == w == 0 && BigEndian(v, 0) == BigEndian(w, 0) == [] && HexOf([]) == "" && !Text.Less("", "")
  {
  }

  lemma {:induction false} BigEndianStep(v: int, n: nat)
    requires n > 0
    ensures HexOf(BigEndian(v, n)) == HexOf(BigEndian(v / 256, n - 1)) + ToHex(v % 256)
  {
    var front := BigEndian(v / 256, n - 1);
    assert (front + [v % 256])[..n - 1] == front;
  }

  lemma Power256Values()
    ensures Power256(2) == 0x1_0000 && Power256(8) == 0x1_0000_0000_0000_0000
  {
    assert Power256(0) == 1 && Power256(1) == 256 && Power256(2) == 0x1_0000 && Power256(3) == 0x100_0000;
    assert Power256(4) == 0x1_0000_0000 && Power256(5) == 0x100_0000_0000 && Power256(6) == 0x1_0000_0000_0000;
    assert Power256(7) == 0x100_0000_0000_0000;
  }

  // ----- The cursor -----

  datatype HashType = Data | TypeHash | Data1 | Data2

  function HashTypeByte(h: HashType): int {
    match h
    case Data => 0
    case TypeHash => 1
    case Data1 => 2
    case Data2 => 4
  }

  /** The last row of a page, as the cursor names it. */
  datatype Row = Row(createdAtBlock: int, txHash: string, outputIndex: int)

  function PhasePrefix(phase: Option<NewestCells.Kind>): string {
    match phase
    case None => ""
    case Some(kind) => if kind == NewestCells.Lock then "lock:" else "type:"
  }

  lemma {:induction false} ParseHexPrintable(hex: string)
    ensures ParseHex(hex).Ok? ==> Printable(ParseHex(hex).value)
  {
    if |Bare(hex)| % 2 == 0 { PairBytesPrintable(Bare(hex), |Bare(hex)| / 2); }
  }

  /** Reference, hash type, block, transaction hash and output index, each in its own width. */
  function Cursor(reference: seq<int>, hashType: HashType, row: Row, tx: seq<int>,
      phase: Option<NewestCells.Kind>): string
    requires Printable(reference) && Printable(tx)
  {
    PhasePrefix(phase) + HexOf(reference) + ToHex(HashTypeByte(hashType)) + HexOf(BigEndian(row.createdAtBlock, 8))
    + HexOf(tx) + HexOf(BigEndian(row.outputIndex, 2))
  }

  lemma {:induction false} CursorKey(reference: seq<int>, hashType: HashType, row: Row, tx: seq<int>,
      phase: Option<NewestCells.Kind>, key: string)
    requires Printable(reference) && Printable(tx)
    requires key == HexOf(reference) + ToHex(HashTypeByte(hashType)) + HexOf(BigEndian(row.createdAtBlock, 8))
      + HexOf(tx) + HexOf(BigEndian(row.outputIndex, 2))
    ensures PhasePrefix(phase) + key == Cursor(reference, hashType, row, tx, phase)
  {
    hide HexOf, ToHex, BigEndian, PhasePrefix;
    var a, h, b, t, i := HexOf(reference), ToHex(HashTypeByte(hashType)), HexOf(BigEndian(row.createdAtBlock, 8)),
      HexOf(tx), HexOf(BigEndian(row.outputIndex, 2));
    assert PhasePrefix(phase) + (a + h + b + t + i) == PhasePrefix(phase) + a + h + b + t + i;
  }

  method EncodeCellsByScriptCursor(reference: string, hashType: HashType, row: Row, phase: Option<NewestCells.Kind>)
    returns (r: Result<string>)
    ensures r.Ok? <==> ParseHex(reference).Ok? && ParseHex(row.txHash).Ok?
    ensures r.Ok? ==> Printable(ParseHex(reference).value) && Printable(ParseHex(row.txHash).value)
    ensures r.Ok? ==> r.value == Cursor(ParseHex(reference).value, hashType, row, ParseHex(row.txHash).value, phase)
  {
    hide ParseHex, HexOf, ToHex, BigEndian, PhasePrefix;
    ParseHexPrintable(reference);
    ParseHexPrintable(row.txHash);
    var ref := HexToBytes(reference);
    if ref.Err? { return Err; }
    var tx := HexToBytes(row.txHash);
    if tx.Err? { return Err; }
    var bytes := ref.value + [HashTypeByte(hashType)] + BigEndian(row.createdAtBlock, 8) + tx.value
      + BigEndian(row.outputIndex, 2);
    HexOfParts(ref.value, HashTypeByte(hashType), BigEndian(row.createdAtBlock, 8), tx.value,
      BigEndian(row.outputIndex, 2));
    var key := HexOf(bytes);
    CursorKey(ref.value, hashType, row, tx.value, phase, key);
    hide Cursor;
    return Ok(PhasePrefix(phase) + key);
  }

  lemma {:induction false} HexOfParts(a: seq<int>, h: int, b: seq<int>, c: seq<int>, d: seq<int>)
    requires Printable(a) && 0 <= h < 256 && Printable(b) && Printable(c) && Printable(d)
    ensures Printable(a + [h] + b + c + d)
    ensures HexOf(a + [h] + b + c + d) == HexOf(a) + ToHex(h) + HexOf(b) + HexOf(c) + HexOf(d)
  {
    HexOfMore(a, h);
    HexOfConcat(a + [h], b);
    HexOfConcat(a + [h] + b, c);
    HexOfConcat(a + [h] + b + c, d);
  }

  /** Rows as the chain has them: a 32-byte hash in lower case, a block below 2^53, an output index below 2^16. */
  ghost predicate OnChain(row: Row) {
    && 0 <= row.createdAtBlock < 0x20_0000_0000_0000 && 0 <= row.outputIndex < 0x1_0000
    && |row.txHash| == 66 && "0x" <= row.txHash && LowerHex(row.txHash[2..])
  }

  function CellOf(row: Row): NewestCells.Cell {
    NewestCells.Cell(row.txHash, row.outputIndex, row.createdAtBlock, None)
  }

  lemma {:induction false} HashOrder(a: Row, b: Row)
    requires OnChain(a) && OnChain(b)
    ensures ParseHex(a.txHash).Ok? && Printable(ParseHex(a.txHash).value)
      && HexOf(ParseHex(a.txHash).value) == a.txHash[2..]
    ensures ParseHex(b.txHash).Ok? && Printable(ParseHex(b.txHash).value)
      && HexOf(ParseHex(b.txHash).value) == b.txHash[2..]
    ensures Text.Less(a.txHash[2..], b.txHash[2..]) <==> Text.Less(a.txHash, b.txHash)
    ensures a.txHash[2..] == b.txHash[2..] <==> a.txHash == b.txHash
  {
    HexRoundTrip(a.txHash[2..], 32);
    HexRoundTrip(b.txHash[2..], 32);
    assert a.txHash[2..][..64] == a.txHash[2..] && b.txHash[2..][..64] == b.txHash[2..];
    assert a.txHash == "0x" + a.txHash[2..] && b.txHash == "0x" + b.txHash[2..];
    hide PairBytes, HexOf, Text.Less;
    Text.LessAfterCommon("0x", a.txHash[2..], b.txHash[2..]);
  }

  /** What follows the common beginning: block, hash and index texts, each of its own width. */
  ghost function RowText(row: Row): string
    requires OnChain(row)
  {
    HexOf(BigEndian(row.createdAtBlock, 8)) + (row.txHash[2..] + HexOf(BigEndian(row.outputIndex, 2)))
  }

  /** Texts of three fixed-width parts compare part by part. */
  lemma {:induction false} ThreeParts(p: string, q: string, h: string, k: string, i: string, j: string)
    requires |p| == |q| && |h| == |k|
    ensures Text.Less(p + (h + i), q + (k + j)) <==>
      if p != q then Text.Less(p, q) else if h != k then Text.Less(h, k) else Text.Less(i, j)
    ensures p + (h + i) == q + (k + j) <==> p == q && h == k && i == j
  {
    hide Text.Less;
    PartDecides(p, q, h + i, k + j);
    PartDecides(h, k, i, j);
  }

  lemma {:induction false} RowTextOrder(a: Row, b: Row)
    requires OnChain(a) && OnChain(b)
    ensures Text.Less(RowText(a), RowText(b)) <==> NewestCells.Compare(CellOf(a), CellOf(b)) > 0
    ensures RowText(a) == RowText(b) <==> a == b
  {
    hide HexOf, BigEndian, Text.Less, LowerHex, PairBytes, Power256, ParseHex;
    Power256Values();
    BigEndianOrder(a.createdAtBlock, b.createdAtBlock, 8);
    BigEndianOrder(a.outputIndex, b.outputIndex, 2);
    HashOrder(a, b);
    Text.LessTotal(a.txHash, b.txHash);
    ThreeParts(HexOf(BigEndian(a.createdAtBlock, 8)), HexOf(BigEndian(b.createdAtBlock, 8)), a.txHash[2..],
      b.txHash[2..],
               HexOf(BigEndian(a.outputIndex, 2)), HexOf(BigEndian(b.outputIndex, 2)));
  }

  lemma {:induction false} CursorText(reference: seq<int>, hashType: HashType, row: Row, tx: seq<int>,
      phase: Option<NewestCells.Kind>)
    requires Printable(reference) && Printable(tx) && OnChain(row) && HexOf(tx) == row.txHash[2..]
    ensures Cursor(reference, hashType, row, tx, phase) ==
      PhasePrefix(phase) + HexOf(reference) + ToHex(HashTypeByte(hashType)) + RowText(row)
  {
    hide HexOf, ToHex, BigEndian, PhasePrefix, LowerHex;
    var p, b, t, i := PhasePrefix(phase) + HexOf(reference) + ToHex(HashTypeByte(hashType)),
      HexOf(BigEndian(row.createdAtBlock, 8)), row.txHash[2..], HexOf(BigEndian(row.outputIndex, 2));
    assert p + b + t + i == p + (b + (t + i));
  }

  /**
   For one reference, hash type and phase, cursors are as different as their rows, and their texts
   sort exactly opposite to newest first: the order the index pages in.
   */
  lemma {:induction false} CursorOrder(reference: seq<int>, hashType: HashType, phase: Option<NewestCells.Kind>, a: Row,
      b: Row)
    requires Printable(reference) && OnChain(a) && OnChain(b)
    ensures ParseHex(a.txHash).Ok? && Printable(ParseHex(a.txHash).value)
    ensures ParseHex(b.txHash).Ok? && Printable(ParseHex(b.txHash).value)
    ensures var x := Cursor(reference, hashType, a, ParseHex(a.txHash).value, phase);
      var y := Cursor(reference, hashType, b, ParseHex(b.txHash).value, phase);
      && (x == y <==> a == b)
      && (Text.Less(x, y) <==> NewestCells.Compare(CellOf(a), CellOf(b)) > 0)
  {
    hide HexOf, ToHex, BigEndian, Text.Less, LowerHex, PairBytes, ParseHex, NewestCells.Compare, PhasePrefix;
    HashOrder(a, b);
    RowTextOrder(a, b);
    var p := PhasePrefix(phase) + HexOf(reference) + ToHex(HashTypeByte(hashType));
    CursorText(reference, hashType, a, ParseHex(a.txHash).value, phase);
    CursorText(reference, hashType, b, ParseHex(b.txHash).value, phase);
    hide Cursor, RowText;
    PartDecides(p, p, RowText(a), RowText(b));
  }
}
