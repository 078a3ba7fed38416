/** cell-parts.ts: every byte of a cell's data named once. */
module CellParts {
  import opened Common
  import Sorting

  /** Which of a code cell's parts this is; the texts of the ids only tell these kinds apart. */
  datatype PartId =
    | HeaderField(field: nat)
    | ProgramHeader(index: int)
    | Section(index: int)
    | Padding(at: int)
    | SectionTable
    | Loaded(at: int)
    | Segment(name: string, at: int)
    | Unclassified(at: int)

  datatype Part = Part(id: PartId, start: int, end: int)

  // ----- Tilings -----

  /** From 0 to `end`, each part beginning where the one before it ended. */
  ghost predicate Tiles(parts: seq<Part>, end: int) {
    if parts == [] then end == 0
    else
      var n := |parts| - 1;
      parts[n].start <= parts[n].end == end && Tiles(parts[..n], parts[n].start)
  }

  ghost predicate Covers(p: Part, b: int) { p.start <= b < p.end }

  ghost predicate Forward(parts: seq<Part>) { forall i :: 0 <= i < |parts| ==> parts[i].start <= parts[i].end }

  ghost predicate NonEmpty(parts: seq<Part>) { forall i :: 0 <= i < |parts| ==> parts[i].start < parts[i].end }

  lemma {:induction false} TilesBounds(parts: seq<Part>, end: int)
    requires Tiles(parts, end)
    ensures end >= 0 && Forward(parts)
    ensures forall i :: 0 <= i < |parts| ==> 0 <= parts[i].start && parts[i].end <= end
    ensures forall i, j :: 0 <= i < j < |parts| ==> parts[i].end <= parts[j].start
  {
    if parts != [] {
      var n := |parts| - 1;
      TilesBounds(parts[..n], parts[n].start);
      assert forall i :: 0 <= i < n ==> parts[..n][i] == parts[i];
    }
  }

  /** In a tiling every byte is in exactly one part, and nothing else is in any. */
  lemma {:induction false} CoveredOnce(parts: seq<Part>, end: int, b: int)
    requires Tiles(parts, end)
    ensures (exists k :: 0 <= k < |parts| && Covers(parts[k], b)) <==> 0 <= b < end
    ensures forall i, j :: 0 <= i < |parts| && 0 <= j < |parts| && Covers(parts[i], b) && Covers(parts[j], b) ==> i == j
  {
    TilesBounds(parts, end);
    if 0 <= b < end { var k := PartOf(parts, end, b); }
  }

  lemma {:induction false} PartOf(parts: seq<Part>, end: int, b: int) returns (k: nat)
    requires Tiles(parts, end) && 0 <= b < end
    ensures k < |parts| && Covers(parts[k], b)
    decreases |parts|
  {
    var n := |parts| - 1;
    if parts[n].start <= b { k := n; }
    else {
      k := PartOf(parts[..n], parts[n].start, b);
      assert parts[..n][k] == parts[k];
    }
  }

  lemma {:induction false} TilesMore(parts: seq<Part>, end: int, p: Part)
    requires Tiles(parts, end) && p.start == end && p.start <= p.end
    ensures Tiles(parts + [p], p.end)
  {
    assert (parts + [p])[..|parts|] == parts;
  }

  predicate StartsBefore(a: Part, b: Part) { a.start <= b.start }

  ghost predicate ByStart(parts: seq<Part>) {
    forall i, j :: 0 <= i < j < |parts| ==> parts[i].start <= parts[j].start
  }

  function SortByStart(parts: seq<Part>): (r: seq<Part>)
    ensures |r| == |parts| && multiset(r) == multiset(parts)
  {
    Sorting.Sort(parts, (a: Part, b: Part) => StartsBefore(a, b))
  }

  lemma {:induction false} SortByStartSorts(parts: seq<Part>)
    ensures ByStart(SortByStart(parts))
    ensures forall p :: p in SortByStart(parts) <==> p in parts
  {
    var le := (a: Part, b: Part) => StartsBefore(a, b);
    Sorting.SortSorted(parts, le);
    Sorting.SortMembers(parts, le);
    var r := SortByStart(parts);
    forall i, j | 0 <= i < j < |r| ensures r[i].start <= r[j].start { assert le(r[i], r[j]); }
  }

  ghost predicate Strict(parts: seq<Part>) {
    forall i, j :: 0 <= i < j < |parts| ==> parts[i].start < parts[j].start
  }

  /** Parts that start at different bytes have only one order by start. */
  lemma {:induction false} StrictUnique(t: seq<Part>, r: seq<Part>)
    requires Strict(t) && ByStart(r) && multiset(r) == multiset(t)
    ensures r == t
  {
    var le := (a: Part, b: Part) => StartsBefore(a, b);
    assert Sorting.TieFree(t, le) && Sorting.Sorted(t, le) && Sorting.Sorted(r, le);
    Sorting.SortedUnique(t, r, le);
  }

  lemma {:induction false} TilesStrict(parts: seq<Part>, end: int)
    requires Tiles(parts, end) && NonEmpty(parts)
    ensures Strict(parts)
  {
    TilesBounds(parts, end);
  }

  // ----- The gap fill -----

  /** A program segment's bytes in the file. */
  datatype ProgramSegment = ProgramSegment(index: int, offset: int, size: int)

  predicate Holds(s: ProgramSegment, a: int, b: int) { s.offset <= a && s.offset + s.size >= b }

  /** A segment holds a stretch exactly when every byte of the stretch is one the segment loads from the file. */
  lemma HoldsEveryByte(s: ProgramSegment, a: int, b: int)
    requires a < b
    ensures Holds(s, a, b) <==> forall x :: a <= x < b ==> LoadsByte(s, x)
  {
    assert LoadsByte(s, a) && LoadsByte(s, b - 1) ==> Holds(s, a, b);
  }

  ghost predicate LoadsByte(s: ProgramSegment, x: int) { 0 <= x - s.offset < s.size }

  ghost predicate SomeHolds(segments: seq<ProgramSegment>, a: int, b: int) {
    exists i :: 0 <= i < |segments| && Holds(segments[i], a, b)
  }

  method FindSegment(segments: seq<ProgramSegment>, a: int, b: int) returns (found: Option<nat>)
    ensures found.Some? <==> SomeHolds(segments, a, b)
    ensures found.Some? ==> found.value < |segments| && Holds(segments[found.value], a, b)
    ensures found.Some? ==> forall i :: 0 <= i < found.value ==> !Holds(segments[i], a, b)
  {
    for i := 0 to |segments|
      invariant forall j :: 0 <= j < i ==> !Holds(segments[j], a, b)
    {
      if Holds(segments[i], a, b) { return Some(i); }
    }
    return None;
  }

  /** How far the first `k` parts reach. */
  function Reach(parts: seq<Part>, k: nat): int
    requires k <= |parts|
  {
    if k == 0 then 0
    else
      var before := Reach(parts, k - 1);
      if parts[k - 1].end > before then parts[k - 1].end else before
  }

  /** Where the stretch before part `k` ends: at that part, or at the end of the file. */
  function Next(parts: seq<Part>, k: nat, length: int): int
    requires k <= |parts|
  {
    if k < |parts| then parts[k].start else length
  }

  ghost predicate IsGap(parts: seq<Part>, k: nat, length: int)
    requires k <= |parts|
  {
    Reach(parts, k) < Next(parts, k, length)
  }

  /** The parts named after the segments that load the gaps before part `k`. */
  ghost function LoadedGaps(parts: seq<Part>, segments: seq<ProgramSegment>, length: int, k: nat): seq<Part>
    requires k <= |parts| + 1
  {
    if k == 0 then []
    else
      var a, b := Reach(parts, k - 1), Next(parts, k - 1, length);
      LoadedGaps(parts, segments, length, k - 1) + if a < b && SomeHolds(segments, a, b) then [Part(Loaded(a), a, b)]
        else []
  }

  method FillGaps(parts: seq<Part>, segments: seq<ProgramSegment>, length: int) returns (loaded: seq<Part>)
    ensures loaded == LoadedGaps(parts, segments, length, |parts| + 1)
  {
    loaded := [];
    var reach := 0;
    for k := 0 to |parts| + 1
      invariant loaded == LoadedGaps(parts, segments, length, k)
      invariant k <= |parts| ==> reach == Reach(parts, k)
    {
      var next := if k < |parts| then parts[k].start else length;
      if next > reach {
        var segment := FindSegment(segments, reach, next);
        if segment.Some? {
          loaded := loaded + [Part(Loaded(reach), reach, next)];
        }
      }
      if k < |parts| {
        reach := if parts[k].end > reach then parts[k].end else reach;
      }
    }
  }

  /** The loop that throws on a gap or an overlap. */
  ghost predicate Passes(parts: seq<Part>, end: int) {
    if parts == [] then end == 0
    else
      var n := |parts| - 1;
      parts[n].end == end && Passes(parts[..n], parts[n].start)
  }

  method CheckTiling(parts: seq<Part>, length: int) returns (ok: bool)
    ensures ok <==> Passes(parts, length)
  {
    var end := 0;
    for k := 0 to |parts|
      invariant Passes(parts[..k], end)
    {
      assert parts[..k + 1][..k] == parts[..k];
      if parts[k].start != end {
        NeverPasses(parts, k, end, length);
        return false;
      }
      end := parts[k].end;
    }
    assert parts[..|parts|] == parts;
    if end != length { PassesToOne(parts, end, length); }
    return end == length;
  }

  lemma {:induction false} PassesToOne(parts: seq<Part>, a: int, b: int)
    requires Passes(parts, a) && a != b
    ensures !Passes(parts, b)
  {
  }

  lemma {:induction false} NeverPasses(parts: seq<Part>, k: nat, end: int, length: int)
    requires k < |parts| && Passes(parts[..k], end) && parts[k].start != end
    ensures !Passes(parts, length)
    decreases |parts|
  {
    var n := |parts| - 1;
    if k == n {
      if Passes(parts[..n], parts[n].start) { PassesToOne(parts[..n], end, parts[n].start); }
    } else {
      assert parts[..n][..k] == parts[..k];
      NeverPasses(parts[..n], k, end, parts[n].start);
    }
  }

  /** Without a backward part, passing the check is tiling the file. */
  lemma {:induction false} PassesForwardIsTiling(parts: seq<Part>, end: int)
    ensures Tiles(parts, end) <==> Passes(parts, end) && Forward(parts)
  {
    if parts != [] {
      var n := |parts| - 1;
      PassesForwardIsTiling(parts[..n], parts[n].start);
      assert parts == parts[..n] + [parts[n]];
      assert Forward(parts) <==> Forward(parts[..n]) && parts[n].start <= parts[n].end;
    }
  }

  // ----- When naming every byte succeeds -----

  /** The parts after the gap fill, as they are checked. */
  ghost function Filled(initial: seq<Part>, segments: seq<ProgramSegment>, length: int): seq<Part> {
    var parts := SortByStart(initial);
    SortByStart(parts + LoadedGaps(parts, segments, length, |parts| + 1))
  }

  method NameEveryByte(initial: seq<Part>, segments: seq<ProgramSegment>, length: int) returns (r: Result<seq<Part>>)
    ensures r.Ok? <==> Passes(Filled(initial, segments, length), length)
    ensures r.Ok? ==> r.value == Filled(initial, segments, length)
  {
    var parts := SortByStart(initial);
    var loaded := FillGaps(parts, segments, length);
    parts := SortByStart(parts + loaded);
    var ok := CheckTiling(parts, length);
    if !ok { return Err; }
    return Ok(parts);
  }

  lemma {:induction false} ReachCovers(parts: seq<Part>, k: nat)
    requires k <= |parts|
    ensures Reach(parts, k) >= 0
    ensures forall j :: 0 <= j < k ==> parts[j].end <= Reach(parts, k)
    ensures Reach(parts, k) == 0 || exists j :: 0 <= j < k && parts[j].end == Reach(parts, k)
  {
    if k > 0 {
      ReachCovers(parts, k - 1);
    }
  }

  /** A loaded part fills the gap before some part. */
  lemma {:induction false} LoadedIsGap(parts: seq<Part>, segments: seq<ProgramSegment>, length: int, n: nat, p: Part)
    returns (k: nat)
    requires n <= |parts| + 1 && p in LoadedGaps(parts, segments, length, n)
    ensures k < n && IsGap(parts, k, length)
    ensures p == Part(Loaded(Reach(parts, k)), Reach(parts, k), Next(parts, k, length))
      && SomeHolds(segments, p.start, p.end)
  {
    if p in LoadedGaps(parts, segments, length, n - 1) {
      k := LoadedIsGap(parts, segments, length, n - 1, p);
    } else {
      k := n - 1;
    }
  }

  lemma {:induction false} FilledMembers(initial: seq<Part>, segments: seq<ProgramSegment>, length: int, p: Part)
    ensures var parts := SortByStart(initial);
      p in Filled(initial, segments, length) <==> p in initial || p in LoadedGaps(parts, segments, length, |parts| + 1)
  {
    var parts := SortByStart(initial);
    SortByStartSorts(initial);
    SortByStartSorts(parts + LoadedGaps(parts, segments, length, |parts| + 1));
  }

  lemma {:induction false} SortedNonEmpty(initial: seq<Part>)
    requires NonEmpty(initial)
    ensures NonEmpty(SortByStart(initial))
  {
    SortByStartSorts(initial);
    var parts := SortByStart(initial);
    forall i | 0 <= i < |parts| ensures parts[i].start < parts[i].end { assert parts[i] in initial; }
  }

  lemma {:induction false} FilledForward(initial: seq<Part>, segments: seq<ProgramSegment>, length: int)
    ensures Forward(Filled(initial, segments, length)) <==> Forward(initial)
    ensures NonEmpty(initial) ==> NonEmpty(Filled(initial, segments, length))
  {
    hide Filled;
    var parts, all := SortByStart(initial), Filled(initial, segments, length);
    forall i | 0 <= i < |all|
      ensures (Forward(initial) ==> all[i].start <= all[i].end) && (NonEmpty(initial) ==> all[i].start < all[i].end)
    {
      FilledMembers(initial, segments, length, all[i]);
      if all[i] !in initial {
        var k := LoadedIsGap(parts, segments, length, |parts| + 1, all[i]);
      }
    }
    if Forward(all) {
      forall i | 0 <= i < |initial| ensures initial[i].start <= initial[i].end {
        FilledMembers(initial, segments, length, initial[i]);
        assert initial[i] in all;
      }
    }
  }

  /** A returned list tiles the file exactly when no part it was built from runs backward. */
  lemma {:induction false} ReturnedIsTiling(initial: seq<Part>, segments: seq<ProgramSegment>, length: int)
    requires Passes(Filled(initial, segments, length), length)
    ensures Tiles(Filled(initial, segments, length), length) <==> Forward(initial)
  {
    FilledForward(initial, segments, length);
    PassesForwardIsTiling(Filled(initial, segments, length), length);
  }

  // What the parts must satisfy, in terms of the bytes they claim.

  ghost predicate Claimed(parts: seq<Part>, b: int) { exists i :: 0 <= i < |parts| && Covers(parts[i], b) }

  ghost predicate Unclaimed(parts: seq<Part>, a: int, b: int) { forall x :: a <= x < b ==> !Claimed(parts, x) }

  /** A stretch no part claims, that cannot be made longer. */
  ghost predicate MaximalHole(parts: seq<Part>, length: int, a: int, b: int) {
    && 0 <= a < b <= length && Unclaimed(parts, a, b)
    && (a == 0 || Claimed(parts, a - 1)) && (b == length || Claimed(parts, b))
  }

  ghost predicate HolesLoaded(parts: seq<Part>, segments: seq<ProgramSegment>, length: int) {
    forall a, b :: MaximalHole(parts, length, a, b) ==> SomeHolds(segments, a, b)
  }

  ghost predicate InRange(parts: seq<Part>, length: int) {
    forall i :: 0 <= i < |parts| ==> 0 <= parts[i].start && parts[i].end <= length
  }

  ghost predicate Disjoint(parts: seq<Part>) {
    forall i, j :: 0 <= i < j < |parts| ==> parts[i].end <= parts[j].start || parts[j].end <= parts[i].start
  }

  lemma {:induction false} SameClaims(p: seq<Part>, q: seq<Part>, b: int)
    requires forall x :: x in p <==> x in q
    ensures Claimed(p, b) <==> Claimed(q, b)
  {
    if Claimed(p, b) {
      var i :| 0 <= i < |p| && Covers(p[i], b);
      assert p[i] in q;
    }
    if Claimed(q, b) {
      var i :| 0 <= i < |q| && Covers(q[i], b);
      assert q[i] in p;
    }
  }

  /** Nobody claims a byte of a gap. */
  lemma {:induction false} GapUnclaimed(parts: seq<Part>, k: nat, length: int)
    requires ByStart(parts) && k <= |parts| && IsGap(parts, k, length)
    ensures Unclaimed(parts, Reach(parts, k), Next(parts, k, length))
  {
    ReachCovers(parts, k);
    forall x | Reach(parts, k) <= x < Next(parts, k, length) ensures !Claimed(parts, x) {
      forall i | 0 <= i < |parts| ensures !Covers(parts[i], x) {
        if i >= k { assert parts[k].start <= parts[i].start; }
      }
    }
  }

  // Failing: a tiling needs its parts disjoint, in range, and their holes loaded.

  lemma {:induction false} TilingIsDisjoint(initial: seq<Part>, segments: seq<ProgramSegment>, length: int)
    requires NonEmpty(initial) && Tiles(Filled(initial, segments, length), length)
    ensures InRange(initial, length) && Disjoint(initial)
  {
    hide Filled, Tiles;
    var all := Filled(initial, segments, length);
    FilledForward(initial, segments, length);
    TilesBounds(all, length);
    TilesStrict(all, length);
    FilledCounts(initial, segments, length);
    forall i | 0 <= i < |initial| ensures initial[i] in all { FilledMembers(initial, segments, length, initial[i]); }
    hide Strict, NonEmpty;
    forall i, j | 0 <= i < j < |initial|
      ensures initial[i].end <= initial[j].start || initial[j].end <= initial[i].start
    {
      StrictOnce(all, initial[i]);
      TwiceCounted(initial, i, j);
      var x :| 0 <= x < |all| && all[x] == initial[i];
      var y :| 0 <= y < |all| && all[y] == initial[j];
      assert x != y;
    }
  }

  lemma {:induction false} FilledCounts(initial: seq<Part>, segments: seq<ProgramSegment>, length: int)
    ensures multiset(initial) <= multiset(Filled(initial, segments, length))
  {
  }

  lemma {:induction false} TwiceCounted(s: seq<Part>, i: nat, j: nat)
    requires i < j < |s|
    ensures s[i] == s[j] ==> multiset(s)[s[i]] >= 2
  {
    assert s == s[..j] + s[j..];
    assert s[i] in s[..j] && s[j] in s[j..];
  }

  lemma {:induction false} StrictOnce(s: seq<Part>, p: Part)
    requires Strict(s)
    ensures multiset(s)[p] <= 1
  {
    assert Sorting.Distinct(s);
    Sorting.DistinctByCount(s);
  }

  lemma {:induction false} TilingLoadsHoles(initial: seq<Part>, segments: seq<ProgramSegment>, length: int, a: int,
      b: int)
    requires NonEmpty(initial) && Tiles(Filled(initial, segments, length), length)
    requires MaximalHole(initial, length, a, b)
    ensures SomeHolds(segments, a, b)
  {
    hide Filled;
    var parts, all := SortByStart(initial), Filled(initial, segments, length);
    SortByStartSorts(initial);
    forall x ensures Claimed(parts, x) <==> Claimed(initial, x) { SameClaims(parts, initial, x); }
    var i := PartOf(all, length, a);
    TilesBounds(all, length);
    var p := all[i];
    FilledMembers(initial, segments, length, p);
    UnclaimedIsOutside(initial, p, a);
    var k := LoadedIsGap(parts, segments, length, |parts| + 1, p);
    GapUnclaimed(parts, k, length);
    SortedNonEmpty(initial);
    assert k < |parts| ==> Covers(parts[k], p.end);
    GapMeetsHole(initial, length, a, b, p.start, p.end);
  }

  lemma {:induction false} UnclaimedIsOutside(parts: seq<Part>, p: Part, b: int)
    requires Covers(p, b) && !Claimed(parts, b)
    ensures p !in parts
  {
  }

  /** Two maximal holes with a byte in common are the same. */
  lemma {:induction false} GapMeetsHole(parts: seq<Part>, length: int, a: int, b: int, c: int, d: int)
    requires MaximalHole(parts, length, a, b) && Unclaimed(parts, c, d)
    requires 0 <= c <= a < d <= length && (d == length || Claimed(parts, d))
    ensures c == a && d == b
  {
  }

  // Succeeding: disjoint parts in range leave gaps that, all loaded, complete the tiling.

  /** Parts in order with no overlap. */
  ghost predicate Spaced(parts: seq<Part>, length: int) {
    && NonEmpty(parts) && InRange(parts, length)
    && forall i, j :: 0 <= i < j < |parts| ==> parts[i].end <= parts[j].start
  }

  /** Disjoint non-empty parts put in order by start are spaced. */
  lemma {:induction false} DisjointIsSpaced(initial: seq<Part>, parts: seq<Part>, length: int)
    requires NonEmpty(initial) && InRange(initial, length) && Disjoint(initial)
    requires ByStart(parts) && multiset(parts) == multiset(initial)
    ensures Spaced(parts, length)
  {
    assert Sorting.Distinct(initial);
    Sorting.DistinctByCount(initial);
    Sorting.DistinctByCount(parts);
    forall p ensures p in parts <==> p in initial { assert p in parts <==> p in multiset(parts); }
    forall i | 0 <= i < |parts| ensures 0 <= parts[i].start < parts[i].end <= length { assert parts[i] in initial; }
    forall i, j | 0 <= i < j < |parts| ensures parts[i].end <= parts[j].start {
      assert parts[i] in initial && parts[j] in initial && parts[i] != parts[j];
      var x :| 0 <= x < |initial| && initial[x] == parts[i];
      var y :| 0 <= y < |initial| && initial[y] == parts[j];
      assert x != y;
    }
  }

  lemma {:induction false} SpacedIsDisjoint(initial: seq<Part>, parts: seq<Part>, length: int)
    requires Spaced(parts, length) && multiset(parts) == multiset(initial)
    ensures NonEmpty(initial) && InRange(initial, length) && Disjoint(initial)
  {
    assert Strict(parts);
    forall p ensures p in parts <==> p in initial { assert p in parts <==> p in multiset(parts); }
    forall i | 0 <= i < |initial|
      ensures 0 <= initial[i].start < initial[i].end <= length { assert initial[i] in parts; }
    forall i, j | 0 <= i < j < |initial|
      ensures initial[i].end <= initial[j].start || initial[j].end <= initial[i].start
    {
      StrictOnce(parts, initial[i]);
      TwiceCounted(initial, i, j);
      assert initial[i] in parts && initial[j] in parts;
      var x :| 0 <= x < |parts| && parts[x] == initial[i];
      var y :| 0 <= y < |parts| && parts[y] == initial[j];
      assert x != y;
    }
  }

  lemma {:induction false} SpacedReach(parts: seq<Part>, length: int, k: nat)
    requires Spaced(parts, length) && k <= |parts|
    ensures Reach(parts, k) == if k == 0 then 0 else parts[k - 1].end
    ensures 0 <= length ==> Reach(parts, k) <= Next(parts, k, length)
  {
    if k > 0 { SpacedReach(parts, length, k - 1); }
  }

  /** A gap between spaced parts is a maximal hole. */
  lemma {:induction false} GapIsHole(parts: seq<Part>, length: int, k: nat)
    requires ByStart(parts) && Spaced(parts, length) && k <= |parts| && IsGap(parts, k, length)
    ensures MaximalHole(parts, length, Reach(parts, k), Next(parts, k, length))
  {
    SpacedReach(parts, length, k);
    GapUnclaimed(parts, k, length);
    ReachCovers(parts, k);
    if k > 0 { assert Covers(parts[k - 1], parts[k - 1].end - 1); }
    if k < |parts| { assert Covers(parts[k], parts[k].start); }
  }

  /** The gap before part `k`, as a list of at most one part. */
  ghost function GapPart(parts: seq<Part>, length: int, k: nat): seq<Part>
    requires k <= |parts|
  {
    var a, b := Reach(parts, k), Next(parts, k, length);
    if a < b then [Part(Loaded(a), a, b)] else []
  }

  /** The parts and the gaps between them, in order, up to part `k`. */
  ghost function Woven(parts: seq<Part>, length: int, k: nat): seq<Part>
    requires k <= |parts|
  {
    if k == 0 then [] else Woven(parts, length, k - 1) + GapPart(parts, length, k - 1) + [parts[k - 1]]
  }

  ghost predicate GapsLoaded(parts: seq<Part>, segments: seq<ProgramSegment>, length: int) {
    forall k :: 0 <= k <= |parts| && IsGap(parts, k, length) ==>
      SomeHolds(segments, Reach(parts, k), Next(parts, k, length))
  }

  lemma {:induction false} AddGap(parts: seq<Part>, length: int, k: nat, before: seq<Part>)
    requires Spaced(parts, length) && 0 <= length && k <= |parts|
    requires Tiles(before, Reach(parts, k)) && NonEmpty(before)
    ensures Tiles(before + GapPart(parts, length, k), Next(parts, k, length))
      && NonEmpty(before + GapPart(parts, length, k))
  {
    SpacedReach(parts, length, k);
    var a, b := Reach(parts, k), Next(parts, k, length);
    if a < b {
      TilesMore(before, a, Part(Loaded(a), a, b));
    } else {
      assert before + GapPart(parts, length, k) == before;
    }
  }

  lemma {:induction false} WovenTiles(parts: seq<Part>, length: int, k: nat)
    requires Spaced(parts, length) && 0 <= length && k <= |parts|
    ensures Tiles(Woven(parts, length, k), Reach(parts, k)) && NonEmpty(Woven(parts, length, k))
  {
    if k > 0 {
      WovenTiles(parts, length, k - 1);
      AddGap(parts, length, k - 1, Woven(parts, length, k - 1));
      SpacedReach(parts, length, k);
      TilesMore(Woven(parts, length, k - 1) + GapPart(parts, length, k - 1), parts[k - 1].start, parts[k - 1]);
    }
  }

  lemma {:induction false} LoadedStep(parts: seq<Part>, segments: seq<ProgramSegment>, length: int, k: nat)
    requires k <= |parts| && GapsLoaded(parts, segments, length)
    ensures LoadedGaps(parts, segments, length, k + 1) ==
      LoadedGaps(parts, segments, length, k) + GapPart(parts, length, k)
  {
    assert IsGap(parts, k, length) ==> SomeHolds(segments, Reach(parts, k), Next(parts, k, length));
    hide SomeHolds, Reach, Next;
  }

  lemma {:induction false} WovenCounts(parts: seq<Part>, segments: seq<ProgramSegment>, length: int, k: nat)
    requires k <= |parts| && GapsLoaded(parts, segments, length)
    ensures multiset(Woven(parts, length, k)) == multiset(parts[..k]) + multiset(LoadedGaps(parts, segments, length, k))
  {
    hide GapsLoaded, GapPart, LoadedGaps, Woven;
    if k == 0 {
      NothingWoven(parts, segments, length);
    } else {
      WovenCounts(parts, segments, length, k - 1);
      LoadedStep(parts, segments, length, k - 1);
      WovenStep(parts, length, k);
      assert parts[..k] == parts[..k - 1] + [parts[k - 1]];
      CountsStep(Woven(parts, length, k - 1), GapPart(parts, length, k - 1), parts[k - 1], parts[..k - 1],
        LoadedGaps(parts, segments, length, k - 1));
    }
  }

  lemma {:induction false} NothingWoven(parts: seq<Part>, segments: seq<ProgramSegment>, length: int)
    ensures Woven(parts, length, 0) == [] && LoadedGaps(parts, segments, length, 0) == []
  {
  }

  lemma {:induction false} WovenStep(parts: seq<Part>, length: int, k: nat)
    requires 0 < k <= |parts|
    ensures Woven(parts, length, k) == Woven(parts, length, k - 1) + GapPart(parts, length, k - 1) + [parts[k - 1]]
  {
  }

  lemma {:induction false} CountsStep(before: seq<Part>, gap: seq<Part>, x: Part, front: seq<Part>, loaded: seq<Part>)
    requires multiset(before) == multiset(front) + multiset(loaded)
    ensures multiset(before + gap + [x]) == multiset(front + [x]) + multiset(loaded + gap)
  {
  }

  lemma {:induction false} LoadedGapsComplete(initial: seq<Part>, segments: seq<ProgramSegment>, length: int)
    requires 0 <= length && Spaced(SortByStart(initial), length) && GapsLoaded(SortByStart(initial), segments, length)
    ensures Passes(Filled(initial, segments, length), length)
  {
    hide SortByStart, Spaced, GapsLoaded, GapPart, Woven, LoadedGaps, Passes, Tiles;
    var parts := SortByStart(initial);
    var n := |parts|;
    var before, gap := Woven(parts, length, n), GapPart(parts, length, n);
    WovenTiles(parts, length, n);
    AddGap(parts, length, n, before);
    WovenCounts(parts, segments, length, n);
    LoadedStep(parts, segments, length, n);
    assert parts[..n] == parts;
    var loaded := LoadedGaps(parts, segments, length, n + 1);
    assert multiset(before + gap) == multiset(parts + loaded);
    TilesStrict(before + gap, length);
    SortByStartSorts(parts + loaded);
    StrictUnique(before + gap, SortByStart(parts + loaded));
    PassesForwardIsTiling(before + gap, length);
  }

  /**
   For non-empty initial parts naming every byte succeeds exactly when they are disjoint, inside
   the file, and every maximal stretch none of them claims lies in one program segment.
   */
  lemma {:induction false} SucceedsExactlyWhen(initial: seq<Part>, segments: seq<ProgramSegment>, length: int)
    requires NonEmpty(initial) && 0 <= length
    ensures Passes(Filled(initial, segments, length), length) <==>
      InRange(initial, length) && Disjoint(initial) && HolesLoaded(initial, segments, length)
  {
    hide Filled;
    if Passes(Filled(initial, segments, length), length) {
      ReturnedIsTiling(initial, segments, length);
      TilingIsDisjoint(initial, segments, length);
      forall a, b | MaximalHole(initial, length, a, b) ensures SomeHolds(segments, a, b) {
        TilingLoadsHoles(initial, segments, length, a, b);
      }
    }
    if InRange(initial, length) && Disjoint(initial) && HolesLoaded(initial, segments, length) {
      SortByStartSorts(initial);
      DisjointIsSpaced(initial, SortByStart(initial), length);
      HolesCoverGaps(initial, segments, length);
      LoadedGapsComplete(initial, segments, length);
    }
  }

  lemma {:induction false} HolesCoverGaps(initial: seq<Part>, segments: seq<ProgramSegment>, length: int)
    requires HolesLoaded(initial, segments, length) && Spaced(SortByStart(initial), length)
    ensures GapsLoaded(SortByStart(initial), segments, length)
  {
    var parts := SortByStart(initial);
    SortByStartSorts(initial);
    hide SortByStart;
    forall x ensures Claimed(parts, x) <==> Claimed(initial, x) { SameClaims(parts, initial, x); }
    forall k | 0 <= k <= |parts| && IsGap(parts, k, length)
      ensures SomeHolds(segments, Reach(parts, k), Next(parts, k, length))
    {
      GapIsHole(parts, length, k);
      assert MaximalHole(initial, length, Reach(parts, k), Next(parts, k, length));
    }
  }

  // ----- The ELF layout -----

  /** The 19 fields of the ELF64 header. */
  const ELF64_HEADER: seq<(int, int)> := [
    (0, 4), (4, 5), (5, 6), (6, 7), (7, 8), (8, 16), (16, 18), (18, 20), (20, 24), (24, 32), (32, 40),
    (40, 48), (48, 52), (52, 54), (54, 56), (56, 58), (58, 60), (60, 62), (62, 64)]

  datatype SectionInfo = SectionInfo(index: int, fileOffset: Option<int>, fileSize: Option<int>)

  datatype Elf = Elf(elf64: bool, headerSize: int, phoff: int, phentsize: int, shoff: int, shentsize: int, shnum: int,
                     programHeaders: seq<ProgramSegment>, sections: seq<SectionInfo>, unassigned: seq<(int, int)>)

  function HeaderParts(fields: seq<(int, int)>): seq<Part> {
    if fields == [] then []
    else
      var n := |fields| - 1;
      HeaderParts(fields[..n]) + [Part(HeaderField(n), fields[n].0, fields[n].1)]
  }

  function ProgramHeaderParts(elf: Elf, k: nat): seq<Part>
    requires k <= |elf.programHeaders|
  {
    if k == 0 then []
    else
      var ph := elf.programHeaders[k - 1];
      var start := elf.phoff + ph.index * elf.phentsize;
      ProgramHeaderParts(elf, k - 1) + [Part(ProgramHeader(ph.index), start, start + elf.phentsize)]
  }

  /** A section with no bytes in the file names none. */
  function SectionParts(sections: seq<SectionInfo>): seq<Part> {
    if sections == [] then []
    else
      var n := |sections| - 1;
      var s := sections[n];
      SectionParts(sections[..n]) +
      if s.fileOffset == None || s.fileSize == None || s.fileSize.value == 0 then []
      else [Part(Section(s.index), s.fileOffset.value, s.fileOffset.value + s.fileSize.value)]
  }

  function PaddingParts(ranges: seq<(int, int)>): seq<Part> {
    if ranges == [] then []
    else
      var n := |ranges| - 1;
      PaddingParts(ranges[..n]) + [Part(Padding(ranges[n].0), ranges[n].0, ranges[n].1)]
  }

  function TablePart(elf: Elf): seq<Part> {
    var end := elf.shoff + elf.shnum * elf.shentsize;
    if end > elf.shoff then [Part(SectionTable, elf.shoff, end)] else []
  }

  function InitialParts(elf: Elf): seq<Part> {
    HeaderParts(ELF64_HEADER) + ProgramHeaderParts(elf, |elf.programHeaders|) + SectionParts(elf.sections)
    + PaddingParts(elf.unassigned) + TablePart(elf)
  }

  /** A file of 74 bytes: the header, one section past the end, and a padding range that runs back to the end. */
  const BACKWARD: Elf := Elf(true, 64, 64, 56, 0, 64, 0, [], [SectionInfo(1, Some(64), Some(20))], [(84, 74)])

  lemma {:induction false} PassesMore(parts: seq<Part>, end: int, p: Part)
    requires Passes(parts, end) && p.start == end
    ensures Passes(parts + [p], p.end)
  {
    assert (parts + [p])[..|parts|] == parts;
  }

  /** Fields that follow each other from byte 0. */
  ghost predicate Contiguous(fields: seq<(int, int)>, end: int) {
    if fields == [] then end == 0
    else
      var n := |fields| - 1;
      fields[n].0 < fields[n].1 == end && Contiguous(fields[..n], fields[n].0)
  }

  lemma {:induction false} LastField(fields: seq<(int, int)>)
    requires fields != []
    ensures var n := |fields| - 1;
      HeaderParts(fields) == HeaderParts(fields[..n]) + [Part(HeaderField(n), fields[n].0, fields[n].1)]
  {
  }

  lemma {:induction false} NoFields()
    ensures HeaderParts([]) == [] && Passes([], 0) && Strict([])
  {
  }

  ghost predicate StartBefore(parts: seq<Part>, end: int) { forall i :: 0 <= i < |parts| ==> parts[i].start < end }

  lemma {:induction false} StrictMore(parts: seq<Part>, p: Part, end: int)
    requires Strict(parts) && StartBefore(parts, p.start) && p.start < end
    ensures Strict(parts + [p]) && StartBefore(parts + [p], end)
  {
  }

  lemma {:induction false} FieldsPass(fields: seq<(int, int)>, end: int)
    requires Contiguous(fields, end)
    ensures Passes(HeaderParts(fields), end) && Strict(HeaderParts(fields)) && StartBefore(HeaderParts(fields), end)
  {
    hide HeaderParts, Passes, Strict, StartBefore;
    NoFields();
    if fields == [] {
      assert StartBefore([], 0) by { NothingStarts(); }
    } else {
      var n := |fields| - 1;
      var front, last := HeaderParts(fields[..n]), Part(HeaderField(n), fields[n].0, fields[n].1);
      LastField(fields);
      FieldsPass(fields[..n], fields[n].0);
      PassesMore(front, fields[n].0, last);
      StrictMore(front, last, end);
    }
  }

  lemma NothingStarts()
    ensures StartBefore([], 0)
  {
  }

  /** The header's own fields do, through byte 63. */
  lemma {:induction false} HeaderFieldsFollow(k: nat)
    requires 0 < k <= |ELF64_HEADER|
    ensures Contiguous(ELF64_HEADER[..k], ELF64_HEADER[k - 1].1)
  {
    assert ELF64_HEADER[..k][..k - 1] == ELF64_HEADER[..k - 1];
    if k > 1 { HeaderFieldsFollow(k - 1); }
    FieldAt(k - 1);
  }

  lemma {:induction false} FieldAt(k: nat)
    requires k < |ELF64_HEADER|
    ensures ELF64_HEADER[k].0 < ELF64_HEADER[k].1 && ELF64_HEADER[k].0 == if k == 0 then 0 else ELF64_HEADER[k - 1].1
  {
    assert k < 6 || 6 <= k < 12 || 12 <= k < 19;
  }

  lemma {:induction false} PassesAt(parts: seq<Part>, end: int, k: nat)
    requires Passes(parts, end) && k <= |parts|
    ensures Next(parts, k, end) == if k == 0 then 0 else parts[k - 1].end
    decreases |parts|
  {
    if k < |parts| {
      var n := |parts| - 1;
      PassesAt(parts[..n], parts[n].start, k);
    }
  }

  /** A list that passes the check already has no gap to fill, */
  lemma {:induction false} PassedHasNoGaps(parts: seq<Part>, segments: seq<ProgramSegment>, length: int, k: nat)
    requires Passes(parts, length) && k <= |parts| + 1
    ensures LoadedGaps(parts, segments, length, k) == []
  {
    if k > 0 {
      PassedHasNoGaps(parts, segments, length, k - 1);
      PassesAt(parts, length, k - 1);
      ReachCovers(parts, k - 1);
    }
  }

  /** so in strict order it is returned as it is. */
  lemma {:induction false} PassedIsFilled(parts: seq<Part>, segments: seq<ProgramSegment>, length: int)
    requires Passes(parts, length) && Strict(parts)
    ensures Filled(parts, segments, length) == parts
  {
    SortByStartSorts(parts);
    StrictUnique(parts, SortByStart(parts));
    PassedHasNoGaps(parts, segments, length, |parts| + 1);
    assert parts + [] == parts;
  }

  /** A padding range that runs backward gets through the check of `elfParts` without a tiling. */
  lemma BackwardPartSlipsThrough()
    ensures BACKWARD.elf64 && BACKWARD.headerSize == 64
    ensures var filled := Filled(InitialParts(BACKWARD), BACKWARD.programHeaders, 74);
      Passes(filled, 74) && !Tiles(filled, 74)
  {
    var header, section, padding := HeaderParts(ELF64_HEADER), Part(Section(1), 64, 84), Part(Padding(84), 84, 74);
    HeaderFieldsFollow(19);
    assert ELF64_HEADER[..19] == ELF64_HEADER;
    FieldsPass(ELF64_HEADER, 64);
    BackwardParts();
    PassesMore(header, 64, section);
    PassesMore(header + [section], 84, padding);
    var parts := InitialParts(BACKWARD);
    hide Filled, Passes, Tiles, HeaderParts, InitialParts;
    StrictMore(header, section, 84);
    StrictMore(header + [section], padding, 85);
    PassedIsFilled(parts, BACKWARD.programHeaders, 74);
    PassesForwardIsTiling(parts, 74);
    assert parts[|header| + 1] == padding;
  }

  lemma BackwardParts()
    ensures InitialParts(BACKWARD) ==
      HeaderParts(ELF64_HEADER) + [Part(Section(1), 64, 84)] + [Part(Padding(84), 84, 74)]
  {
    hide HeaderParts;
    assert BACKWARD.sections[..0] == [] && BACKWARD.unassigned[..0] == [];
    assert SectionParts(BACKWARD.sections) == [Part(Section(1), 64, 84)];
    assert PaddingParts(BACKWARD.unassigned) == [Part(Padding(84), 84, 74)];
    assert ProgramHeaderParts(BACKWARD, 0) == [] && TablePart(BACKWARD) == [];
  }

  // What the file's own headers name, told part by part.

  /** Where the header's fields begin, and where the last one ends. */
  ghost const FIELD_BOUNDS: seq<int> := [0, 4, 5, 6, 7, 8, 16, 18, 20, 24, 32, 40, 48, 52, 54, 56, 58, 60, 62, 64]

  ghost predicate NamesField(p: Part) {
    p.id.HeaderField? && p.id.field < 19 && p.start == FIELD_BOUNDS[p.id.field] && p.end == FIELD_BOUNDS[p.id.field + 1]
  }

  /** The n-th entry of the program header table, for the index the header has. */
  ghost predicate NamesProgramHeader(elf: Elf, p: Part) {
    exists ph :: ph in elf.programHeaders && p.id == ProgramHeader(ph.index)
      && p.start - elf.phoff == ph.index * elf.phentsize && p.end - p.start == elf.phentsize
  }

  ghost predicate NamesSection(elf: Elf, p: Part) {
    exists s :: s in elf.sections && p.id == Section(s.index)
      && s.fileOffset == Some(p.start) && s.fileSize == Some(p.end - p.start) && p.start != p.end
  }

  ghost predicate NamesPadding(elf: Elf, p: Part) {
    exists range :: range in elf.unassigned && p == Part(Padding(range.0), range.0, range.1)
  }

  ghost predicate NamesTable(elf: Elf, p: Part) {
    p.id == SectionTable && p.start == elf.shoff && p.end - p.start == elf.shnum * elf.shentsize > 0
  }

  ghost predicate Named(elf: Elf, p: Part) {
    NamesField(p) || NamesProgramHeader(elf, p) || NamesSection(elf, p) || NamesPadding(elf, p) || NamesTable(elf, p)
  }

  lemma {:induction false} HeaderPartsAre(fields: seq<(int, int)>, p: Part)
    ensures p in HeaderParts(fields) <==>
      p.id.HeaderField? && p.id.field < |fields| && fields[p.id.field] == (p.start, p.end)
  {
    if fields != [] { HeaderPartsAre(fields[..|fields| - 1], p); }
  }

  lemma FieldsAre(p: Part)
    ensures NamesField(p) <==> p in HeaderParts(ELF64_HEADER)
  {
    HeaderPartsAre(ELF64_HEADER, p);
  }

  ghost predicate FromFirst(elf: Elf, k: nat, p: Part)
    requires k <= |elf.programHeaders|
  {
    exists i :: 0 <= i < k && p.id == ProgramHeader(elf.programHeaders[i].index)
      && p.start - elf.phoff == elf.programHeaders[i].index * elf.phentsize && p.end - p.start == elf.phentsize
  }

  lemma {:induction false} ProgramHeaderPartsAre(elf: Elf, k: nat, p: Part)
    requires k <= |elf.programHeaders|
    ensures p in ProgramHeaderParts(elf, k) <==> FromFirst(elf, k, p)
  {
    if k > 0 { ProgramHeaderPartsAre(elf, k - 1, p); }
  }

  lemma {:induction false} SectionPartsAre(sections: seq<SectionInfo>, p: Part)
    ensures p in SectionParts(sections) <==>
      exists s :: s in sections && p.id == Section(s.index)
        && s.fileOffset == Some(p.start) && s.fileSize == Some(p.end - p.start) && p.start != p.end
  {
    if sections != [] { SectionPartsAre(sections[..|sections| - 1], p); }
  }

  lemma {:induction false} PaddingPartsAre(ranges: seq<(int, int)>, p: Part)
    ensures p in PaddingParts(ranges) <==>
      exists range :: range in ranges && p == Part(Padding(range.0), range.0, range.1)
  {
    if ranges != [] { PaddingPartsAre(ranges[..|ranges| - 1], p); }
  }

  /** The parts the layout starts from are exactly those the file's headers name. */
  lemma InitialIsNamed(elf: Elf, p: Part)
    ensures p in InitialParts(elf) <==> Named(elf, p)
  {
    hide NamesField, HeaderParts, ProgramHeaderParts, SectionParts, PaddingParts;
    FieldsAre(p);
    ProgramHeaderPartsAre(elf, |elf.programHeaders|, p);
    SectionPartsAre(elf.sections, p);
    PaddingPartsAre(elf.unassigned, p);
  }

  /** Bytes no header names, that one program segment loads. */
  ghost predicate LoadedOnly(elf: Elf, p: Part) {
    && p.id == Loaded(p.start) && p.start < p.end
    && (forall q :: Named(elf, q) ==> forall x :: p.start <= x < p.end ==> !Covers(q, x))
    && exists s :: s in elf.programHeaders && forall x :: p.start <= x < p.end ==> LoadsByte(s, x)
  }

  lemma {:induction false} OthersAreLoaded(elf: Elf, length: int, p: Part)
    requires p in Filled(InitialParts(elf), elf.programHeaders, length) && !Named(elf, p)
    ensures LoadedOnly(elf, p)
  {
    hide Named, InitialParts, Filled, LoadedGaps, Reach, Next;
    var initial := InitialParts(elf);
    var parts := SortByStart(initial);
    InitialIsNamed(elf, p);
    FilledMembers(initial, elf.programHeaders, length, p);
    SortByStartSorts(initial);
    var k := LoadedIsGap(parts, elf.programHeaders, length, |parts| + 1, p);
    GapUnclaimed(parts, k, length);
    forall q | Named(elf, q) ensures forall x :: p.start <= x < p.end ==> !Covers(q, x) {
      InitialIsNamed(elf, q);
      NobodyCovers(parts, p.start, p.end, q);
    }
    var i :| 0 <= i < |elf.programHeaders| && Holds(elf.programHeaders[i], p.start, p.end);
    var s := elf.programHeaders[i];
    HoldsEveryByte(s, p.start, p.end);
    assert s in elf.programHeaders && forall x :: p.start <= x < p.end ==> LoadsByte(s, x);
  }

  lemma NobodyCovers(parts: seq<Part>, a: int, b: int, q: Part)
    requires Unclaimed(parts, a, b) && q in parts
    ensures forall x :: a <= x < b ==> !Covers(q, x)
  {
    var i :| 0 <= i < |parts| && parts[i] == q;
    forall x | a <= x < b ensures !Covers(q, x) { assert !Claimed(parts, x); }
  }

  /** elfParts: what it returns tiles the file, unless a part it was given runs backward. */
  method ElfParts(elf: Elf, length: nat) returns (r: Result<seq<Part>>)
    ensures r.Ok? <==>
      && elf.elf64 && elf.headerSize == 64
      && Passes(Filled(InitialParts(elf), elf.programHeaders, length), length)
    ensures r.Ok? ==> r.value == Filled(InitialParts(elf), elf.programHeaders, length)
    ensures r.Ok? ==> (Tiles(r.value, length) <==> Forward(InitialParts(elf)))
    ensures r.Ok? ==> forall p :: Named(elf, p) ==> p in r.value
    ensures r.Ok? ==> forall p :: p in r.value ==> Named(elf, p) || LoadedOnly(elf, p)
    ensures NonEmpty(InitialParts(elf)) ==>
      (r.Ok? <==>
        && elf.elf64 && elf.headerSize == 64
        && InRange(InitialParts(elf), length) && Disjoint(InitialParts(elf))
        && HolesLoaded(InitialParts(elf), elf.programHeaders, length))
  {
    hide *;
    if !elf.elf64 || elf.headerSize != 64 { return Err; }
    var initial := InitialParts(elf);
    r := NameEveryByte(initial, elf.programHeaders, length);
    if r.Ok? {
      ReturnedIsTiling(initial, elf.programHeaders, length);
      forall p | Named(elf, p) ensures p in r.value {
        InitialIsNamed(elf, p);
        FilledMembers(initial, elf.programHeaders, length, p);
      }
      forall p | p in r.value && !Named(elf, p) ensures LoadedOnly(elf, p) { OthersAreLoaded(elf, length, p); }
    }
    if NonEmpty(initial) {
      SucceedsExactlyWhen(initial, elf.programHeaders, length);
    }
  }

  // ----- The binary map -----

  datatype RegionId = ElfHeader | ProgramHeaders | Single(part: PartId)

  datatype Region = Region(id: RegionId, start: int, end: int, partIds: seq<PartId>)

  /** The header's fields are one region, the program headers another; any other part is its own. */
  function RegionIdOf(id: PartId): RegionId {
    match id
    case HeaderField(_) => ElfHeader
    case ProgramHeader(_) => ProgramHeaders
    case _ => Single(id)
  }

  ghost function PartIds(regions: seq<Region>): seq<PartId> {
    if regions == [] then [] else PartIds(regions[..|regions| - 1]) + regions[|regions| - 1].partIds
  }

  ghost function Ids(parts: seq<Part>): (r: seq<PartId>)
    ensures |r| == |parts| && forall i :: 0 <= i < |parts| ==> r[i] == parts[i].id
  {
    seq(|parts|, i requires 0 <= i < |parts| => parts[i].id)
  }

  ghost predicate RegionsTile(regions: seq<Region>, end: int) {
    if regions == [] then end == 0
    else
      var n := |regions| - 1;
      regions[n].start <= regions[n].end == end && RegionsTile(regions[..n], regions[n].start)
  }

  /** Each region holds its own kind of parts, and neighbouring header regions are never split. */
  ghost predicate Grouped(regions: seq<Region>) {
    && (forall k :: 0 <= k < |regions| ==> regions[k].partIds != [])
    && (forall k, i :: 0 <= k < |regions| && 0 <= i < |regions[k].partIds| ==>
      RegionIdOf(regions[k].partIds[i]) == regions[k].id)
    && (forall k :: 0 <= k < |regions| ==> regions[k].id.Single? ==> |regions[k].partIds| == 1)
    && (forall k :: 0 <= k < |regions| - 1 ==> regions[k].id.Single? || regions[k].id != regions[k + 1].id)
  }

  lemma {:induction false} RegionAdded(regions: seq<Region>, x: Region)
    ensures PartIds(regions + [x]) == PartIds(regions) + x.partIds
    ensures forall end :: RegionsTile(regions, x.start) && x.start <= x.end == end ==> RegionsTile(regions + [x], end)
  {
    assert (regions + [x])[..|regions|] == regions;
  }

  lemma {:induction false} RegionLengthened(regions: seq<Region>, p: Part)
    requires regions != []
    ensures var n := |regions| - 1;
      var more := regions[n := regions[n].(end := p.end, partIds := regions[n].partIds + [p.id])];
      && PartIds(more) == PartIds(regions) + [p.id]
      && (RegionsTile(regions, p.start) && p.start <= p.end ==> RegionsTile(more, p.end))
  {
    var n := |regions| - 1;
    assert regions[n := regions[n].(end := p.end, partIds := regions[n].partIds + [p.id])][..n] == regions[..n];
  }

  lemma {:induction false} GroupedMore(regions: seq<Region>, p: Part)
    requires Grouped(regions)
    ensures var id := RegionIdOf(p.id);
      if !id.Single? && regions != [] && regions[|regions| - 1].id == id
      then Grouped(regions[|regions| - 1 :=
        regions[|regions| - 1].(end := p.end, partIds := regions[|regions| - 1].partIds + [p.id])])
      else Grouped(regions + [Region(id, p.start, p.end, [p.id])])
  {
  }

  /** Two neighbours the map shows as one: both fields of the header, or both program headers. */
  ghost predicate Together(a: Part, b: Part) {
    (a.id.HeaderField? && b.id.HeaderField?) || (a.id.ProgramHeader? && b.id.ProgramHeader?)
  }

  /** A region is the stretch of parts from `from` up to `to`, named by the first of them. */
  ghost predicate Shows(region: Region, parts: seq<Part>, from: int, to: int) {
    && 0 <= from < to <= |parts|
    && region.start == parts[from].start && region.end == parts[to - 1].end && region.partIds == Ids(parts[from..to])
    && (region.id == ElfHeader <==> parts[from].id.HeaderField?)
    && (region.id == ProgramHeaders <==> parts[from].id.ProgramHeader?)
    && (region.id.Single? ==> region.id.part == parts[from].id)
    && (forall i :: from < i < to ==> Together(parts[i - 1], parts[i]))
  }

  /** The regions show the first `k` parts, cut exactly where neighbours do not belong together. */
  ghost predicate CutAt(regions: seq<Region>, parts: seq<Part>, k: nat, cuts: seq<nat>) {
    && |cuts| == |regions| + 1 && cuts[0] == 0 && cuts[|regions|] == k <= |parts|
    && (forall j :: 0 <= j < |regions| ==> Shows(regions[j], parts, cuts[j], cuts[j + 1]))
    && (forall j :: 0 < j < |regions| ==> 0 < cuts[j] < |parts| && !Together(parts[cuts[j] - 1], parts[cuts[j]]))
  }

  lemma {:induction false} ShowsOneMore(region: Region, parts: seq<Part>, from: nat, k: nat)
    requires k < |parts| && Shows(region, parts, from, k)
    requires region.id == RegionIdOf(parts[k].id) && !region.id.Single?
    ensures Shows(region.(end := parts[k].end, partIds := region.partIds + [parts[k].id]), parts, from, k + 1)
  {
    assert parts[from..k + 1] == parts[from..k] + [parts[k]];
    assert Ids(parts[from..k + 1]) == Ids(parts[from..k]) + [parts[k].id];
    KindCarries(parts, from, k);
  }

  lemma {:induction false} CutLonger(regions: seq<Region>, parts: seq<Part>, k: nat, cuts: seq<nat>)
    requires CutAt(regions, parts, k, cuts) && k < |parts| && regions != []
    requires !RegionIdOf(parts[k].id).Single? && regions[|regions| - 1].id == RegionIdOf(parts[k].id)
    ensures var n, p := |regions| - 1, parts[k];
      CutAt(regions[n := regions[n].(end := p.end, partIds := regions[n].partIds + [p.id])], parts, k + 1,
        cuts[n + 1 := k + 1])
  {
    hide Shows, Together, RegionIdOf;
    var n := |regions| - 1;
    ShowsOneMore(regions[n], parts, cuts[n], k);
  }

  /** Parts that belong together one by one are all of the first one's kind. */
  lemma {:induction false} KindCarries(parts: seq<Part>, from: nat, upto: nat)
    requires from < upto <= |parts| && forall i :: from < i < upto ==> Together(parts[i - 1], parts[i])
    ensures parts[upto - 1].id.HeaderField? <==> parts[from].id.HeaderField?
    ensures parts[upto - 1].id.ProgramHeader? <==> parts[from].id.ProgramHeader?
    decreases upto
  {
    if from < upto - 1 {
      KindCarries(parts, from, upto - 1);
      assert Together(parts[upto - 2], parts[upto - 1]);
    }
  }

  lemma {:induction false} ShowsAlone(parts: seq<Part>, k: nat)
    requires k < |parts|
    ensures Shows(Region(RegionIdOf(parts[k].id), parts[k].start, parts[k].end, [parts[k].id]), parts, k, k + 1)
  {
    assert Ids(parts[k..k + 1]) == [parts[k].id];
  }

  lemma {:induction false} OtherKind(region: Region, parts: seq<Part>, from: nat, k: nat)
    requires k < |parts| && Shows(region, parts, from, k)
    requires RegionIdOf(parts[k].id).Single? || region.id != RegionIdOf(parts[k].id)
    ensures !Together(parts[k - 1], parts[k])
  {
    KindCarries(parts, from, k);
  }

  lemma {:induction false} CutAnew(regions: seq<Region>, parts: seq<Part>, k: nat, cuts: seq<nat>)
    requires CutAt(regions, parts, k, cuts) && k < |parts|
    requires RegionIdOf(parts[k].id).Single? || regions == [] || regions[|regions| - 1].id != RegionIdOf(parts[k].id)
    ensures var p := parts[k];
      CutAt(regions + [Region(RegionIdOf(p.id), p.start, p.end, [p.id])], parts, k + 1, cuts + [k + 1])
  {
    ShowsAlone(parts, k);
    if regions != [] {
      var n := |regions| - 1;
      assert Shows(regions[n], parts, cuts[n], k);
      OtherKind(regions[n], parts, cuts[n], k);
    }
    hide Shows, Together, RegionIdOf;
  }

  /** elfRegions: every part once, in order, and the tiling kept. */
  method ElfRegions(parts: seq<Part>, ghost end: int) returns (regions: seq<Region>, ghost cuts: seq<nat>)
    ensures CutAt(regions, parts, |parts|, cuts)
    ensures PartIds(regions) == Ids(parts)
    ensures Grouped(regions)
    ensures Tiles(parts, end) ==> RegionsTile(regions, end)
  {
    hide Tiles, PartIds, RegionsTile;
    regions, cuts := [], [0];
    NoRegions();
    assert CutAt(regions, parts, 0, cuts);
    hide Grouped, CutAt;
    ghost var reach := 0;
    ghost var tiling := Tiles(parts, end);
    for k := 0 to |parts|
      invariant PartIds(regions) == Ids(parts[..k])
      invariant Grouped(regions) && CutAt(regions, parts, k, cuts) && |cuts| == |regions| + 1
      invariant reach == if k == 0 then 0 else parts[k - 1].end
      invariant tiling ==> RegionsTile(regions, reach)
    {
      var part := parts[k];
      assert Ids(parts[..k + 1]) == Ids(parts[..k]) + [part.id];
      if tiling { TilesAt(parts, end, k); }
      var id := RegionIdOf(part.id);
      GroupedMore(regions, part);
      if !id.Single? && regions != [] && regions[|regions| - 1].id == id {
        RegionLengthened(regions, part);
        CutLonger(regions, parts, k, cuts);
        cuts := cuts[|regions| := k + 1];
        regions := regions[|regions| - 1 :=
          regions[|regions| - 1].(end := part.end, partIds := regions[|regions| - 1].partIds + [part.id])];
      } else {
        RegionAdded(regions, Region(id, part.start, part.end, [part.id]));
        CutAnew(regions, parts, k, cuts);
        cuts := cuts + [k + 1];
        regions := regions + [Region(id, part.start, part.end, [part.id])];
      }
      reach := part.end;
    }
    assert parts[..|parts|] == parts;
    if tiling {
      if parts != [] { TilesAt(parts, end, |parts| - 1); } else { TilesNothing(end); }
    }
  }

  lemma {:induction false} NoRegions()
    ensures PartIds([]) == [] && Grouped([]) && RegionsTile([], 0)
  {
  }

  lemma {:induction false} TilesNothing(end: int)
    requires Tiles([], end)
    ensures end == 0
  {
  }

  lemma {:induction false} TilesAt(parts: seq<Part>, end: int, k: nat)
    requires Tiles(parts, end) && k < |parts|
    ensures parts[k].start == (if k == 0 then 0 else parts[k - 1].end) && parts[k].start <= parts[k].end
    ensures k == |parts| - 1 ==> parts[k].end == end
  {
    var n := |parts| - 1;
    if k < n {
      TilesAt(parts[..n], parts[n].start, k);
    } else if n > 0 {
      TilesAt(parts[..n], parts[n].start, n - 1);
    }
  }

  // ----- The deterministic decode -----

  predicate BySpan(a: Part, b: Part) { a.start < b.start || (a.start == b.start && a.end <= b.end) }

  function SortBySpan(parts: seq<Part>): (r: seq<Part>)
    ensures |r| == |parts| && multiset(r) == multiset(parts)
  {
    Sorting.Sort(parts, (a: Part, b: Part) => BySpan(a, b))
  }

  lemma {:induction false} SortBySpanSorts(parts: seq<Part>)
    ensures ByStart(SortBySpan(parts))
    ensures forall p :: p in SortBySpan(parts) <==> p in parts
  {
    var le := (a: Part, b: Part) => BySpan(a, b);
    Sorting.SortSorted(parts, le);
    Sorting.SortMembers(parts, le);
    var r := SortBySpan(parts);
    forall i, j | 0 <= i < j < |r| ensures r[i].start <= r[j].start { assert le(r[i], r[j]); }
  }

  /** Parts so far: the first `k` segments, and the gaps before them. */
  ghost predicate DecodedTo(parts: seq<Part>, s: seq<Part>, k: nat, length: int)
    requires k <= |s|
  {
    && Tiles(parts, Reach(s, k)) && NonEmpty(parts)
    && (forall i :: 0 <= i < k ==> s[i] in parts)
    && (forall p :: p in parts ==> p in s[..k] || IsGapPart(p, s, length))
  }

  ghost predicate IsGapPart(p: Part, s: seq<Part>, length: int) {
    && p.id == Unclassified(p.start)
    && exists k :: 0 <= k <= |s| && IsGap(s, k, length) && p.start == Reach(s, k) && p.end == Next(s, k, length)
  }

  lemma {:induction false} AddDecoded(parts: seq<Part>, end: int, p: Part)
    requires Tiles(parts, end) && NonEmpty(parts) && p.start == end && p.start < p.end
    ensures Tiles(parts + [p], p.end) && NonEmpty(parts + [p])
  {
    TilesMore(parts, end, p);
  }

  ghost predicate Accepts(s: seq<Part>, k: nat, length: int)
    requires k <= |s|
  {
    forall i :: 0 <= i < k ==> Reach(s, i) <= s[i].start < s[i].end <= length
  }

  lemma {:induction false} AcceptedIsSpaced(s: seq<Part>, length: int)
    requires Accepts(s, |s|, length)
    ensures Spaced(s, length)
  {
    forall i | 0 <= i < |s| ensures 0 <= s[i].start { ReachCovers(s, i); }
    forall i, j | 0 <= i < j < |s| ensures s[i].end <= s[j].start { ReachCovers(s, j); }
  }

  lemma {:induction false} SpacedIsAccepted(s: seq<Part>, length: int, k: nat)
    requires Spaced(s, length) && k < |s|
    ensures Reach(s, k) <= s[k].start < s[k].end <= length
  {
    SpacedReach(s, length, k);
  }

  /** One step of the decode: the gap before the next segment, if there is one. */
  method DecodeGap(parts: seq<Part>, s: seq<Part>, k: nat, end: int, next: int, length: int) returns (r: seq<Part>)
    requires k <= |s| && DecodedTo(parts, s, k, length) && end == Reach(s, k) && next == Next(s, k, length)
      && end <= next
    ensures Tiles(r, next) && NonEmpty(r) && (forall i :: 0 <= i < k ==> s[i] in r)
    ensures forall p :: p in r ==> p in s[..k] || IsGapPart(p, s, length)
  {
    r := parts;
    if next > end {
      var p := Part(Unclassified(end), end, next);
      AddDecoded(parts, end, p);
      assert IsGap(s, k, length);
      assert IsGapPart(p, s, length);
      r := parts + [p];
    }
  }

  lemma {:induction false} DecodeSegment(r: seq<Part>, s: seq<Part>, k: nat, length: int)
    requires k < |s| && Reach(s, k) <= s[k].start < s[k].end
    requires Tiles(r, s[k].start) && NonEmpty(r) && (forall i :: 0 <= i < k ==> s[i] in r)
    requires forall p :: p in r ==> p in s[..k] || IsGapPart(p, s, length)
    ensures DecodedTo(r + [s[k]], s, k + 1, length) && Reach(s, k + 1) == s[k].end
  {
    AddDecoded(r, s[k].start, s[k]);
    assert s[..k + 1] == s[..k] + [s[k]];
  }

  /** A returned decode: all the segments, and one unclassified part for each maximal hole between them. */
  ghost predicate Decoded(parts: seq<Part>, segments: seq<Part>, length: int) {
    && Tiles(parts, length) && NonEmpty(parts)
    && (forall s :: s in segments ==> s in parts)
    && (forall p :: p in parts ==>
      p in segments || (p.id == Unclassified(p.start) && MaximalHole(segments, length, p.start, p.end)))
  }

  lemma {:induction false} DecodedAll(r: seq<Part>, s: seq<Part>, segments: seq<Part>, length: int)
    requires ByStart(s) && Spaced(s, length) && forall p :: p in s <==> p in segments
    requires Tiles(r, length) && NonEmpty(r) && (forall i :: 0 <= i < |s| ==> s[i] in r)
    requires forall p :: p in r ==> p in s[..|s|] || IsGapPart(p, s, length)
    ensures Decoded(r, segments, length)
  {
    assert s[..|s|] == s;
    forall x ensures Claimed(s, x) <==> Claimed(segments, x) { SameClaims(s, segments, x); }
    hide Tiles, Spaced, ByStart;
    forall p | p in r && p !in segments ensures MaximalHole(segments, length, p.start, p.end) {
      var k :| 0 <= k <= |s| && IsGap(s, k, length) && p.start == Reach(s, k) && p.end == Next(s, k, length);
      GapIsHole(s, length, k);
    }
  }

  /** decodedDataParts returns exactly for non-empty, disjoint segments inside the data. */
  method DecodedDataParts(segments: seq<Part>, length: nat) returns (r: Result<seq<Part>>)
    ensures r.Ok? <==> NonEmpty(segments) && InRange(segments, length) && Disjoint(segments)
    ensures r.Ok? ==> Decoded(r.value, segments, length)
  {
    var s := SortBySpan(segments);
    SortBySpanSorts(segments);
    hide SortBySpan, Tiles, Reach, IsGapPart, Disjoint, InRange, Spaced, ByStart, NonEmpty, MaximalHole, IsGap;
    var parts: seq<Part> := [];
    var end := 0;
    NothingDecoded(s, length);
    for k := 0 to |s|
      invariant end == Reach(s, k) && DecodedTo(parts, s, k, length) && Accepts(s, k, length)
    {
      if s[k].start < end || s[k].end <= s[k].start || s[k].end > length {
        if NonEmpty(segments) && InRange(segments, length) && Disjoint(segments) {
          DisjointIsSpaced(segments, s, length);
          SpacedIsAccepted(s, length, k);
        }
        return Err;
      }
      parts := DecodeGap(parts, s, k, end, s[k].start, length);
      DecodeSegment(parts, s, k, length);
      parts := parts + [s[k]];
      end := s[k].end;
    }
    AcceptedIsSpaced(s, length);
    SpacedIsDisjoint(segments, s, length);
    SpacedReach(s, length, |s|);
    parts := DecodeGap(parts, s, |s|, end, length, length);
    DecodedAll(parts, s, segments, length);
    return Ok(parts);
  }

  lemma {:induction false} NothingDecoded(s: seq<Part>, length: int)
    ensures Reach(s, 0) == 0 && DecodedTo([], s, 0, length)
  {
  }
}
