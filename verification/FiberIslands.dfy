/** The islands of the fiber graph's narrow layout, packed in rows under the main component. */
module FiberIslands {
  import opened Common
  import opened FiberFit
  import opened FiberSeparate
  import GraphLayout
  import Sorting

  const ISLAND_GAP: real := 16.0
  const PAIR_SPAN: real := 60.0
  const ISLAND_BOX_W: real := 120.0
  const ISLAND_BOX_H: real := 70.0

  // ----- Islands -----

  /** An island: its parties, busiest first, and the width it needs. */
  datatype Slot = Slot(members: seq<string>, ordered: seq<string>, maxR: real, w: real)

  function Radii(ids: seq<string>, radius: map<string, real>): (s: seq<real>)
    requires forall i :: 0 <= i < |ids| ==> ids[i] in radius
    ensures |s| == |ids| && forall i :: 0 <= i < |ids| ==> s[i] == radius[ids[i]]
  {
    seq(|ids|, i requires 0 <= i < |ids| => radius[ids[i]])
  }

  function Inner(n: nat): real { if n == 1 then 0.0 else if n == 2 then PAIR_SPAN else ISLAND_BOX_W }

  ghost predicate IsSlot(s: Slot, members: seq<string>, radius: map<string, real>) {
    && s.members == members && multiset(s.ordered) == multiset(members) && |s.ordered| > 0
    && (forall m :: m in members ==> m in radius && 5.0 <= radius[m] <= s.maxR)
    && (exists m :: m in members && radius[m] == s.maxR)
    && s.w == 2.0 * ReachX(s.maxR) + Inner(|s.ordered|)
  }

  function HasCount(channels: map<string, nat>, c: nat): string -> bool {
    (m: string) => m in channels && channels[m] == c
  }

  /** Busiest first; equal counts keep their order. */
  method BusiestFirst(members: seq<string>, channels: map<string, nat>) returns (ordered: seq<string>)
    ensures multiset(ordered) == multiset(members) && |ordered| == |members|
    ensures forall m :: m in ordered <==> m in members
    ensures forall i, j :: 0 <= i < j < |ordered| && ordered[i] in channels && ordered[j] in channels ==>
      channels[ordered[i]] >= channels[ordered[j]]
    ensures forall c: nat ::
      Sorting.Filter(ordered, HasCount(channels, c)) == Sorting.Filter(members, HasCount(channels, c))
  {
    var le := (a: string, b: string) => b !in channels || (a in channels && channels[a] >= channels[b]);
    ordered := Sorting.Sort(members, le);
    assert Sorting.Total(le) && Sorting.Transitive(le);
    Sorting.SortSorted(members, le);
    Sorting.SortMembers(members, le);
    forall i, j | 0 <= i < j < |ordered| && ordered[i] in channels && ordered[j] in channels
      ensures channels[ordered[i]] >= channels[ordered[j]]
    {
      assert le(ordered[i], ordered[j]);
    }
    forall c: nat ensures Sorting.Filter(ordered, HasCount(channels, c)) ==
      Sorting.Filter(members, HasCount(channels, c))
    {
      Sorting.SortStable(members, le, HasCount(channels, c));
    }
  }

  method MakeSlot(members: seq<string>, channels: map<string, nat>, radius: map<string, real>) returns (s: Slot)
    requires members != [] && forall m :: m in members ==> m in radius && radius[m] >= 5.0
    ensures IsSlot(s, members, radius)
    ensures forall i, j :: 0 <= i < j < |s.ordered| && s.ordered[i] in channels && s.ordered[j] in channels ==>
      channels[s.ordered[i]] >= channels[s.ordered[j]]
    ensures forall c: nat ::
      Sorting.Filter(s.ordered, HasCount(channels, c)) == Sorting.Filter(members, HasCount(channels, c))
  {
    var ordered := BusiestFirst(members, channels);
    assert forall i :: 0 <= i < |ordered| ==> ordered[i] in members;
    var radii := Radii(ordered, radius);
    var maxR := High(radii);
    s := Slot(members, ordered, maxR, 2.0 * ReachX(maxR) + Inner(|ordered|));
    forall m | m in members ensures radius[m] <= maxR {
      assert m in ordered;
      var i :| 0 <= i < |ordered| && ordered[i] == m;
      assert radii[i] <= maxR;
    }
    var k :| 0 <= k < |radii| && radii[k] == maxR;
    assert ordered[k] in members && radius[ordered[k]] == maxR;
  }

  /** How much of the width a row uses: its slots and the gaps between them. */
  function Used(row: seq<Slot>): real {
    if row == [] then -ISLAND_GAP else Used(row[..|row| - 1]) + ISLAND_GAP + row[|row| - 1].w
  }

  function Concat(rows: seq<seq<Slot>>): seq<Slot> {
    if rows == [] then [] else Concat(rows[..|rows| - 1]) + rows[|rows| - 1]
  }

  /** Rows that fit the width, each broken only where the next slot would not fit any more. */
  ghost predicate Packed(rows: seq<seq<Slot>>, width: real) {
    && (forall i :: 0 <= i < |rows| ==> rows[i] != [] && Used(rows[i]) <= width)
    && (forall i :: 0 <= i < |rows| - 1 ==> Used(rows[i]) + ISLAND_GAP + rows[i + 1][0].w > width)
  }

  method PackRows(slots: seq<Slot>, width: real) returns (rows: seq<seq<Slot>>)
    requires forall i :: 0 <= i < |slots| ==> slots[i].w <= width
    ensures Packed(rows, width) && Concat(rows) == slots
  {
    rows := [];
    var used := None;
    NoRowsPacked(slots, width);
    hide Packed, Concat, Used;
    for k := 0 to |slots|
      invariant Packed(rows, width) && Concat(rows) == slots[..k]
      invariant used == if rows == [] then None else Some(Used(rows[|rows| - 1]))
    {
      var slot := slots[k];
      assert slots[..k + 1] == slots[..k] + [slot];
      if used == None || used.value + ISLAND_GAP + slot.w > width {
        AddRow(rows, slot, width);
        rows := rows + [[slot]];
        used := Some(slot.w);
      } else {
        var n := |rows| - 1;
        LengthenRow(rows, slot, width);
        rows := rows[n := rows[n] + [slot]];
        used := Some(used.value + ISLAND_GAP + slot.w);
      }
    }
    assert slots[..|slots|] == slots;
  }

  lemma {:induction false} NoRowsPacked(slots: seq<Slot>, width: real)
    ensures Packed([], width) && Concat([]) == slots[..0]
  {
  }

  lemma {:induction false} UsedMore(row: seq<Slot>, slot: Slot)
    ensures Used(row + [slot]) == Used(row) + ISLAND_GAP + slot.w
  {
    assert (row + [slot])[..|row|] == row;
  }

  lemma {:induction false} AddRow(rows: seq<seq<Slot>>, slot: Slot, width: real)
    requires Packed(rows, width) && slot.w <= width
    requires rows != [] ==> Used(rows[|rows| - 1]) + ISLAND_GAP + slot.w > width
    ensures Packed(rows + [[slot]], width) && Concat(rows + [[slot]]) == Concat(rows) + [slot] && Used([slot]) == slot.w
  {
    UsedMore([], slot);
    assert [] + [slot] == [slot];
    var more := rows + [[slot]];
    assert more[..|rows|] == rows;
    assert Concat(more) == Concat(rows) + [slot];
    hide Used, Concat;
  }

  lemma {:induction false} LengthenRow(rows: seq<seq<Slot>>, slot: Slot, width: real)
    requires Packed(rows, width) && rows != []
    requires Used(rows[|rows| - 1]) + ISLAND_GAP + slot.w <= width
    ensures var n := |rows| - 1;
      var more := rows[n := rows[n] + [slot]];
      Packed(more, width) && Concat(more) == Concat(rows) + [slot]
        && Used(more[n]) == Used(rows[n]) + ISLAND_GAP + slot.w
  {
    var n := |rows| - 1;
    UsedMore(rows[n], slot);
    var more := rows[n := rows[n] + [slot]];
    assert more[..n] == rows[..n];
  }

  // ----- Placing -----

  type Layouter = (seq<string>, seq<seq<nat>>) -> map<string, Point>

  /** The spring layout's result, taken as any points for the members. */
  ghost predicate LaysOut(place: Layouter) {
    forall members, distances :: place(members, distances).Keys == GraphLayout.Elements(members)
  }

  /** The matrix the spring layout is given: of two or more members, their distances along their own links. */
  ghost predicate TrueDistances(members: seq<string>, links: seq<GraphLayout.Edge>, d: seq<seq<nat>>) {
    |members| >= 2 ==>
      && |d| == |members|
      && forall i :: 0 <= i < |members| ==>
           GraphLayout.IsDistanceRow(members, GraphLayout.LinksOf(GraphLayout.Elements(members), links), members[i],
             d[i])
  }

  /** Lay out one component with its own links: never an unknown end, never a graph in pieces. */
  method LayoutComponent(ids: seq<string>, links: seq<GraphLayout.Edge>, members: seq<string>, place: Layouter)
    returns (points: map<string, Point>)
    requires GraphLayout.KnownEnds(ids, links) && GraphLayout.IsComponent(ids, links, members) && LaysOut(place)
    ensures points.Keys == GraphLayout.Elements(members)
    ensures exists d :: TrueDistances(members, links, d) && points == place(members, d)
  {
    var d := GraphLayout.Distances(members, GraphLayout.LinksOf(GraphLayout.Elements(members), links));
    GraphLayout.ComponentIsLayoutable(ids, links, members);
    points := place(members, d.value);
    assert TrueDistances(members, links, d.value);
  }

  // ----- Where the islands stand, in pixels -----

  /** One or two parties side by side; more of them, their spring layout fitted into a box of 120 by 70. */
  ghost predicate SlotShown(links: seq<GraphLayout.Edge>, place: Layouter, slot: Slot, r: map<string, Point>, x: real,
      y: real) {
    var from := x + Wide(slot.maxR);
    if |slot.members| <= 2 then
      forall j :: 0 <= j < |slot.ordered| ==>
        slot.ordered[j] in r && r[slot.ordered[j]] == Point(from + 60.0 * j as real, y)
    else
      exists d :: TrueDistances(slot.members, links, d)
        && FittedTo(slot.members, place(slot.members, d), r, Rect(from, from + 120.0, y, y + 70.0))
  }

  /** The slots of a row follow each other from the left edge, 16 apart. */
  ghost function Offset(row: seq<Slot>, j: nat): real
    requires j <= |row|
  {
    if j == 0 then 0.0 else Offset(row, j - 1) + row[j - 1].w + 16.0
  }

  /** The first `n` slots of a row are on the line the row's biggest party leaves room above. */
  ghost predicate RowShown(links: seq<GraphLayout.Edge>, place: Layouter, row: seq<Slot>, n: nat,
      r: map<string, Point>, top: real, big: real)
    requires n <= |row|
  {
    forall j :: 0 <= j < n ==> SlotShown(links, place, row[j], r, Offset(row, j), top + big + 4.0)
  }

  ghost predicate IsBiggest(row: seq<Slot>, big: real) {
    (exists j :: 0 <= j < |row| && row[j].maxR == big) && forall j :: 0 <= j < |row| ==> row[j].maxR <= big
  }

  /** A row is as tall as its biggest party, and 70 more if an island in it needs a box. */
  ghost function RowTall(row: seq<Slot>, big: real): real {
    (big + 4.0) + (if exists j :: 0 <= j < |row| && |row[j].ordered| > 2 then 70.0 else 0.0) + (big + 18.0)
  }

  /** The first `n` rows, each 16 under the one before it. */
  ghost predicate RowsShown(links: seq<GraphLayout.Edge>, place: Layouter, rows: seq<seq<Slot>>, n: nat,
      r: map<string, Point>, from: real, tops: seq<real>, bigs: seq<real>)
    requires n <= |rows|
  {
    && |tops| == |bigs| == n
    && (n > 0 ==> tops[0] == from)
    && (forall i :: 0 <= i < n - 1 ==> tops[i + 1] == tops[i] + RowTall(rows[i], bigs[i]) + 16.0)
    && (forall i :: 0 <= i < n ==>
          IsBiggest(rows[i], bigs[i]) && RowShown(links, place, rows[i], |rows[i]|, r, tops[i], bigs[i]))
  }

  /** Rows fit the width, and each is broken only where the next slot would not fit any more. */
  ghost predicate RowsBreak(rows: seq<seq<Slot>>, width: real) {
    && (forall i :: 0 <= i < |rows| ==> rows[i] != [] && Offset(rows[i], |rows[i]|) - 16.0 <= width)
    && (forall i :: 0 <= i < |rows| - 1 ==> Offset(rows[i], |rows[i]|) + rows[i + 1][0].w > width)
  }

  lemma {:induction false} OffsetIs(row: seq<Slot>, j: nat)
    requires j <= |row|
    ensures Offset(row, j) == Used(row[..j]) + 16.0
  {
    if j > 0 {
      OffsetIs(row, j - 1);
      assert row[..j] == row[..j - 1] + [row[j - 1]];
      UsedMore(row[..j - 1], row[j - 1]);
    }
  }

  lemma {:induction false} PackedBreaks(rows: seq<seq<Slot>>, width: real)
    requires Packed(rows, width)
    ensures RowsBreak(rows, width)
  {
    hide Used;
    forall i | 0 <= i < |rows| ensures Offset(rows[i], |rows[i]|) == Used(rows[i]) + 16.0 {
      OffsetIs(rows[i], |rows[i]|);
      assert rows[i][..|rows[i]|] == rows[i];
    }
  }

  /** A slot is shown by its members' positions only. */
  lemma {:induction false} SlotStays(links: seq<GraphLayout.Edge>, place: Layouter, slot: Slot, r: map<string, Point>,
      s: map<string, Point>, x: real, y: real)
    requires SlotShown(links, place, slot, r, x, y) && multiset(slot.ordered) == multiset(slot.members)
    requires forall m :: m in slot.members && m in r ==> m in s && s[m] == r[m]
    ensures SlotShown(links, place, slot, s, x, y)
  {
    hide TrueDistances, FittedTo, Wide;
    SameElements(slot.ordered, slot.members);
    if |slot.members| <= 2 {
      forall j | 0 <= j < |slot.ordered| ensures slot.ordered[j] in s && s[slot.ordered[j]] == r[slot.ordered[j]] {
        assert slot.ordered[j] in GraphLayout.Elements(slot.members);
      }
    } else {
      var from := x + Wide(slot.maxR);
      var box := Rect(from, from + 120.0, y, y + 70.0);
      var d :| TrueDistances(slot.members, links, d) && FittedTo(slot.members, place(slot.members, d), r, box);
      FittedStays(slot.members, place(slot.members, d), r, s, box);
    }
  }

  ghost predicate InRect(b: Box, home: Rect) {
    home.x0 <= b.Left() && b.Right() <= home.x1 && home.y0 <= b.Top() && b.Bottom() <= home.y1
  }

  ghost predicate HousedAt(c: seq<string>, positions: map<string, Point>, radius: map<string, real>, home: Rect) {
    forall m :: m in c ==> m in positions && m in radius && InRect(Footprint(m, positions, radius), home)
  }

  ghost predicate RectsApart(a: Rect, b: Rect, gap: real) {
    a.x1 + gap <= b.x0 || b.x1 + gap <= a.x0 || a.y1 + gap <= b.y0 || b.y1 + gap <= a.y0
  }

  /** Centres of a slot's parties: in the strip its reach leaves, and no lower than its box. */
  ghost predicate InSlot(slot: Slot, positions: map<string, Point>, slotX: real, y0: real) {
    forall m :: m in slot.members ==>
      && m in positions
      && slotX + ReachX(slot.maxR) <= positions[m].x <= slotX + ReachX(slot.maxR) + Inner(|slot.ordered|)
      && y0 <= positions[m].y <= y0 + BoxHeight(slot)
  }

  function BoxHeight(slot: Slot): real { if |slot.ordered| > 2 then ISLAND_BOX_H else 0.0 }

  lemma {:induction false} SameElements(a: seq<string>, b: seq<string>)
    requires multiset(a) == multiset(b)
    ensures |a| == |b| && GraphLayout.Elements(a) == GraphLayout.Elements(b)
  {
    assert |a| == |multiset(a)| == |multiset(b)| == |b|;
    forall x ensures x in a <==> x in b { assert x in a <==> x in multiset(a); }
  }

  lemma {:induction false} DistinctMembers(ids: seq<string>, links: seq<GraphLayout.Edge>, members: seq<string>,
      ordered: seq<string>)
    requires GraphLayout.IsComponent(ids, links, members) && multiset(ordered) == multiset(members)
    ensures Sorting.Distinct(ordered)
  {
    assert Sorting.Distinct(members);
    Sorting.DistinctByCount(members);
    Sorting.DistinctByCount(ordered);
  }

  /** One island: alone, a pair side by side, or fitted into its box. */
  method PlaceSlot(ids: seq<string>, links: seq<GraphLayout.Edge>, place: Layouter, slot: Slot,
      ghost radius: map<string, real>, positions: map<string, Point>, slotX: real, y0: real)
    returns (r: map<string, Point>)
    requires GraphLayout.KnownEnds(ids, links) && GraphLayout.IsComponent(ids, links, slot.members) && LaysOut(place)
    requires IsSlot(slot, slot.members, radius)
    ensures r.Keys == positions.Keys + GraphLayout.Elements(slot.members)
    ensures forall id :: id in positions && id !in slot.members ==> r[id] == positions[id]
    ensures InSlot(slot, r, slotX, y0) && SlotShown(links, place, slot, r, slotX, y0)
  {
    hide GraphLayout.IsComponent, GraphLayout.KnownEnds, Sorting.Distinct, LaysOut, InSlot, TrueDistances, FittedTo,
      Wide;
    SameElements(slot.ordered, slot.members);
    DistinctMembers(ids, links, slot.members, slot.ordered);
    ReachIs(slot.maxR);
    if |slot.ordered| <= 2 {
      r := PlaceOneOrTwo(slot, positions, slotX, y0);
    } else {
      var points := LayoutComponent(ids, links, slot.members, place);
      r := PlaceInBox(slot, points, positions, slotX, y0);
    }
  }

  method PlaceInBox(slot: Slot, points: map<string, Point>, positions: map<string, Point>, slotX: real, y0: real)
    returns (r: map<string, Point>)
    requires |slot.ordered| > 2 && slot.members != [] && points.Keys == GraphLayout.Elements(slot.members)
    ensures r.Keys == positions.Keys + GraphLayout.Elements(slot.members)
    ensures forall id :: id in positions && id !in slot.members ==> r[id] == positions[id]
    ensures InSlot(slot, r, slotX, y0)
    ensures var from := slotX + ReachX(slot.maxR);
      FittedTo(slot.members, points, r, Rect(from, from + 120.0, y0, y0 + 70.0))
  {
    hide Fit, ReachX, FittedTo;
    var mx := ReachX(slot.maxR);
    var box := Rect(slotX + mx, slotX + mx + ISLAND_BOX_W, y0, y0 + ISLAND_BOX_H);
    var fitted := Fit(slot.members, points, box);
    forall m | m in points ensures box.x0 <= fitted[m].x <= box.x1 && box.y0 <= fitted[m].y <= box.y1 {
      FitStretches(slot.members, points, box, m, m);
    }
    r := positions + fitted;
    FitIsFitted(slot.members, points, box);
    FittedStays(slot.members, points, fitted, r, box);
  }

  method PlaceOneOrTwo(slot: Slot, positions: map<string, Point>, slotX: real, y0: real) returns (r: map<string, Point>)
    requires 0 < |slot.ordered| <= 2 && Sorting.Distinct(slot.ordered)
    requires GraphLayout.Elements(slot.ordered) == GraphLayout.Elements(slot.members)
    ensures r.Keys == positions.Keys + GraphLayout.Elements(slot.members)
    ensures forall id :: id in positions && id !in slot.members ==> r[id] == positions[id]
    ensures forall j :: 0 <= j < |slot.ordered| ==> slot.ordered[j] in r
    ensures forall j :: 0 <= j < |slot.ordered| ==>
      r[slot.ordered[j]] == Point(slotX + ReachX(slot.maxR) + j as real * PAIR_SPAN, y0)
    ensures InSlot(slot, r, slotX, y0)
  {
    var mx := ReachX(slot.maxR);
    r := positions;
    for j := 0 to |slot.ordered|
      invariant r.Keys == positions.Keys + GraphLayout.Elements(slot.ordered[..j])
      invariant forall id :: id in positions && id !in slot.ordered ==> r[id] == positions[id]
      invariant forall i :: 0 <= i < j ==> slot.ordered[i] in r
      invariant forall i :: 0 <= i < j ==> r[slot.ordered[i]] == Point(slotX + mx + i as real * PAIR_SPAN, y0)
    {
      assert slot.ordered[..j + 1] == slot.ordered[..j] + [slot.ordered[j]];
      r := r[slot.ordered[j] := Point(slotX + mx + j as real * PAIR_SPAN, y0)];
    }
    assert slot.ordered[..|slot.ordered|] == slot.ordered;
    OneOrTwoInSlot(slot, r, slotX, y0);
    assert forall m :: m in slot.members <==> m in GraphLayout.Elements(slot.ordered);
  }

  lemma {:induction false} ReachPositive(r: real)
    ensures ReachX(r) > 0.0
  {
  }

  /**
   Two parties of one island share a line, so their footprints are clear of each other exactly if their reaches fit the
   span.
   */
  lemma {:induction false} PairClear(slot: Slot, r: map<string, Point>, radius: map<string, real>, slotX: real,
      y0: real)
    requires |slot.ordered| == 2 && forall j :: 0 <= j < 2 ==> slot.ordered[j] in r && slot.ordered[j] in radius
    requires forall j :: 0 <= j < 2 ==>
      r[slot.ordered[j]] == Point(slotX + ReachX(slot.maxR) + j as real * PAIR_SPAN, y0)
    requires forall j :: 0 <= j < 2 ==> radius[slot.ordered[j]] >= 5.0
    ensures var a, b := slot.ordered[0], slot.ordered[1];
      Apart(Footprint(a, r, radius), Footprint(b, r, radius), 0.0) <==>
        ReachX(radius[a]) + ReachX(radius[b]) <= PAIR_SPAN
  {
    var a, b := slot.ordered[0], slot.ordered[1];
    assert r[a] == Point(slotX + ReachX(slot.maxR), y0) && r[b] == Point(slotX + ReachX(slot.maxR) + PAIR_SPAN, y0);
    ReachPositive(radius[a]);
    ReachPositive(radius[b]);
  }

  lemma {:induction false} OneOrTwoInSlot(slot: Slot, r: map<string, Point>, slotX: real, y0: real)
    requires 0 < |slot.ordered| <= 2
    requires GraphLayout.Elements(slot.ordered) == GraphLayout.Elements(slot.members)
    requires forall j :: 0 <= j < |slot.ordered| ==> slot.ordered[j] in r
    requires forall j :: 0 <= j < |slot.ordered| ==>
      r[slot.ordered[j]] == Point(slotX + ReachX(slot.maxR) + j as real * PAIR_SPAN, y0)
    ensures InSlot(slot, r, slotX, y0)
  {
    forall m | m in slot.members
      ensures m in r && slotX + ReachX(slot.maxR) <= r[m].x <= slotX + ReachX(slot.maxR) + Inner(|slot.ordered|)
        && r[m].y == y0
    {
      assert m in GraphLayout.Elements(slot.ordered);
      var j :| 0 <= j < |slot.ordered| && slot.ordered[j] == m;
    }
  }

  // ----- Homes: the room each component keeps to -----

  ghost predicate Housed(done: seq<seq<string>>, homes: seq<Rect>, positions: map<string, Point>,
      radius: map<string, real>) {
    |done| == |homes| && forall k :: 0 <= k < |done| ==> HousedAt(done[k], positions, radius, homes[k])
  }

  ghost predicate HomesApart(homes: seq<Rect>) {
    forall i, j :: 0 <= i < j < |homes| ==> RectsApart(homes[i], homes[j], ISLAND_GAP)
  }

  ghost predicate HomesWithin(homes: seq<Rect>, width: real, bottom: real) {
    forall k :: 0 <= k < |homes| ==>
      0.0 <= homes[k].x0 && homes[k].x1 <= width && 0.0 <= homes[k].y0 && homes[k].y1 <= bottom
  }

  /** What is placed so far leaves the room right of `slotX` below `rowTop` free. */
  ghost predicate LeavesFree(homes: seq<Rect>, rowTop: real, slotX: real) {
    forall k :: 0 <= k < |homes| ==> homes[k].y1 + ISLAND_GAP <= rowTop || homes[k].x1 + ISLAND_GAP <= slotX
  }

  ghost predicate DisjointFrom(done: seq<seq<string>>, members: seq<string>) {
    forall k, m :: 0 <= k < |done| && m in done[k] ==> m !in members
  }

  /** What was placed stays where it was. */
  ghost predicate KeepsPlaced(done: seq<seq<string>>, p: map<string, Point>, r: map<string, Point>) {
    forall k, m :: 0 <= k < |done| && m in done[k] && m in p ==> m in r && r[m] == p[m]
  }

  lemma {:induction false} KeepsThrough(done: seq<seq<string>>, more: seq<seq<string>>, p: map<string, Point>,
      q: map<string, Point>, r: map<string, Point>)
    requires KeepsPlaced(done, p, q) && KeepsPlaced(done + more, q, r)
    ensures KeepsPlaced(done, p, r)
  {
    assert forall k :: 0 <= k < |done| ==> (done + more)[k] == done[k];
  }

  lemma {:induction false} KeepsOthers(done: seq<seq<string>>, members: seq<string>, p: map<string, Point>,
      r: map<string, Point>)
    requires DisjointFrom(done, members) && p.Keys <= r.Keys && forall id :: id in p && id !in members ==>
      r[id] == p[id]
    ensures KeepsPlaced(done, p, r)
  {
  }

  lemma {:induction false} HouseOneMore(done: seq<seq<string>>, homes: seq<Rect>, positions: map<string, Point>,
      r: map<string, Point>, radius: map<string, real>, members: seq<string>, home: Rect)
    requires Housed(done, homes, positions, radius) && DisjointFrom(done, members)
    requires positions.Keys <= r.Keys && forall id :: id in positions && id !in members ==> r[id] == positions[id]
    requires HousedAt(members, r, radius, home)
    ensures Housed(done + [members], homes + [home], r, radius)
  {
    forall k | 0 <= k < |done| ensures HousedAt(done[k], r, radius, homes[k]) {
      assert HousedAt(done[k], positions, radius, homes[k]);
    }
  }

  lemma {:induction false} NewHomeApart(homes: seq<Rect>, home: Rect)
    requires HomesApart(homes) && LeavesFree(homes, home.y0, home.x0)
    ensures HomesApart(homes + [home])
  {
  }

  lemma {:induction false} ReachGrows(r: real, s: real)
    requires r <= s
    ensures ReachX(r) <= ReachX(s) && ReachUp(r) <= ReachUp(s) && ReachDown(r) <= ReachDown(s)
  {
  }

  /** Parties in their slot keep their footprints in the slot's part of the row. */
  lemma {:induction false} SlotHoused(slot: Slot, positions: map<string, Point>, radius: map<string, real>, slotX: real,
      rowTop: real, up: real, rowH: real)
    requires IsSlot(slot, slot.members, radius) && InSlot(slot, positions, slotX, rowTop + up)
    requires up >= ReachUp(slot.maxR) && rowH >= up + BoxHeight(slot) + ReachDown(slot.maxR)
    ensures HousedAt(slot.members, positions, radius, Rect(slotX, slotX + slot.w, rowTop, rowTop + rowH))
  {
    forall m | m in slot.members
      ensures m in positions && m in radius
        && InRect(Footprint(m, positions, radius), Rect(slotX, slotX + slot.w, rowTop, rowTop + rowH))
    {
      ReachGrows(radius[m], slot.maxR);
    }
  }

  // ----- Rows -----

  function RowUp(row: seq<Slot>): (up: real)
    requires row != []
    ensures forall i :: 0 <= i < |row| ==> ReachUp(row[i].maxR) <= up
  {
    var ups := seq(|row|, i requires 0 <= i < |row| => ReachUp(row[i].maxR));
    assert forall i :: 0 <= i < |row| ==> ups[i] == ReachUp(row[i].maxR);
    High(ups)
  }

  function RowDown(row: seq<Slot>): (down: real)
    requires row != []
    ensures forall i :: 0 <= i < |row| ==> ReachDown(row[i].maxR) <= down
  {
    var downs := seq(|row|, i requires 0 <= i < |row| => ReachDown(row[i].maxR));
    assert forall i :: 0 <= i < |row| ==> downs[i] == ReachDown(row[i].maxR);
    High(downs)
  }

  function RowBox(row: seq<Slot>): (h: real)
    ensures h >= 0.0 && forall i :: 0 <= i < |row| ==> BoxHeight(row[i]) <= h
  {
    if exists i :: 0 <= i < |row| && |row[i].ordered| > 2 then ISLAND_BOX_H else 0.0
  }

  function RowHeight(row: seq<Slot>): real
    requires row != []
  {
    RowUp(row) + RowBox(row) + RowDown(row)
  }

  /** A row's height, told from its biggest party. */
  lemma {:induction false} RowHeightIs(row: seq<Slot>) returns (big: real)
    requires row != []
    ensures IsBiggest(row, big) && RowUp(row) == big + 4.0 && RowHeight(row) == RowTall(row, big)
  {
    var ups := seq(|row|, i requires 0 <= i < |row| => ReachUp(row[i].maxR));
    var downs := seq(|row|, i requires 0 <= i < |row| => ReachDown(row[i].maxR));
    var k :| 0 <= k < |ups| && ups[k] == High(ups);
    var l :| 0 <= l < |downs| && downs[l] == High(downs);
    assert RowUp(row) == High(ups) && RowDown(row) == High(downs);
    big := row[k].maxR;
    forall j | 0 <= j < |row| ensures row[j].maxR <= big { assert ups[j] <= High(ups); }
    assert downs[k] <= High(downs);
  }

  lemma {:induction false} UsedGrows(row: seq<Slot>, k: nat)
    requires k <= |row| && forall i :: 0 <= i < |row| ==> row[i].w >= 0.0
    ensures Used(row[..k]) <= Used(row)
    decreases |row| - k
  {
    if k < |row| {
      assert row[..k + 1] == row[..k] + [row[k]];
      UsedMore(row[..k], row[k]);
      UsedGrows(row, k + 1);
    } else {
      assert row[..k] == row;
    }
  }

  /** The slots of a row: each a component, none meeting another or what was placed before. */
  ghost predicate Placeable(ids: seq<string>, links: seq<GraphLayout.Edge>, radius: map<string, real>,
      done: seq<seq<string>>, row: seq<Slot>) {
    && (forall k :: 0 <= k < |row| ==>
      IsSlot(row[k], row[k].members, radius) && GraphLayout.IsComponent(ids, links, row[k].members))
    && (forall k :: 0 <= k < |row| ==> DisjointFrom(done, row[k].members))
    && (forall j, k, m :: 0 <= j < k < |row| && m in row[j].members ==> m !in row[k].members)
  }

  function Members(row: seq<Slot>): (r: seq<seq<string>>)
    ensures |r| == |row| && forall k :: 0 <= k < |row| ==> r[k] == row[k].members
  {
    seq(|row|, k requires 0 <= k < |row| => row[k].members)
  }

  /** What placing keeps: every component in its home, the homes apart, on the canvas down to `bottom`. */
  ghost predicate Arranged(done: seq<seq<string>>, homes: seq<Rect>, positions: map<string, Point>,
      radius: map<string, real>, width: real, bottom: real) {
    Housed(done, homes, positions, radius) && HomesApart(homes) && HomesWithin(homes, width, bottom)
  }

  lemma {:induction false} ArrangeOneMore(done: seq<seq<string>>, homes: seq<Rect>, positions: map<string, Point>,
      r: map<string, Point>, radius: map<string, real>, width: real, bottom: real, members: seq<string>, home: Rect)
    requires Arranged(done, homes, positions, radius, width, bottom) && DisjointFrom(done, members)
    requires positions.Keys <= r.Keys && forall id :: id in positions && id !in members ==> r[id] == positions[id]
    requires HousedAt(members, r, radius, home) && LeavesFree(homes, home.y0, home.x0)
    requires 0.0 <= home.x0 && home.x1 <= width && 0.0 <= home.y0 && home.y1 <= bottom
    ensures Arranged(done + [members], homes + [home], r, radius, width, bottom)
  {
    HouseOneMore(done, homes, positions, r, radius, members, home);
    NewHomeApart(homes, home);
    hide Housed, HomesApart, HousedAt, LeavesFree, DisjointFrom;
  }

  lemma {:induction false} FreeRightOf(homes: seq<Rect>, home: Rect, slotX: real)
    requires LeavesFree(homes, home.y0, home.x0) && home.x0 <= slotX && home.x1 + ISLAND_GAP <= slotX
    ensures LeavesFree(homes + [home], home.y0, slotX)
  {
  }

  lemma {:induction false} FreeBelow(done: seq<seq<string>>, homes: seq<Rect>, positions: map<string, Point>,
      radius: map<string, real>, width: real, bottom: real, rowTop: real)
    requires Arranged(done, homes, positions, radius, width, bottom) && bottom + ISLAND_GAP <= rowTop
    ensures LeavesFree(homes, rowTop, 0.0)
  {
  }

  lemma {:induction false} WithinLower(done: seq<seq<string>>, homes: seq<Rect>, positions: map<string, Point>,
      radius: map<string, real>, width: real, bottom: real, lower: real)
    requires Arranged(done, homes, positions, radius, width, bottom) && bottom <= lower
    ensures Arranged(done, homes, positions, radius, width, lower)
  {
    hide Housed, HomesApart;
  }

  lemma {:induction false} DisjointAfter(ids: seq<string>, links: seq<GraphLayout.Edge>, radius: map<string, real>,
      done: seq<seq<string>>, row: seq<Slot>, j: nat)
    requires Placeable(ids, links, radius, done, row) && j < |row|
    ensures DisjointFrom(done + Members(row)[..j], row[j].members)
  {
    var before := done + Members(row)[..j];
    forall k, m | 0 <= k < |before| && m in before[k] ensures m !in row[j].members {
      if k < |done| { assert before[k] == done[k]; }
      else { assert before[k] == row[k - |done|].members; }
    }
  }

  lemma {:induction false} RowFits(row: seq<Slot>, radius: map<string, real>, j: nat)
    requires j < |row| && forall k :: 0 <= k < |row| ==> IsSlot(row[k], row[k].members, radius)
    ensures row[j].w >= 0.0
    ensures Used(row[..j]) + ISLAND_GAP >= 0.0
    ensures Used(row[..j + 1]) == Used(row[..j]) + ISLAND_GAP + row[j].w <= Used(row)
    ensures RowUp(row) >= ReachUp(row[j].maxR)
      && RowHeight(row) >= RowUp(row) + BoxHeight(row[j]) + ReachDown(row[j].maxR)
  {
    forall k | 0 <= k < |row| ensures row[k].w >= 0.0 {
      assert IsSlot(row[k], row[k].members, radius);
    }
    UsedGrows(row[..j], 0);
    assert row[..j][..0] == [];
    assert row[..j + 1] == row[..j] + [row[j]];
    UsedMore(row[..j], row[j]);
    UsedGrows(row, j + 1);
  }

  /** One row of islands, left to right on one centre line. */
  method PlaceRow(ids: seq<string>, links: seq<GraphLayout.Edge>, place: Layouter, row: seq<Slot>,
      ghost radius: map<string, real>, positions: map<string, Point>, rowTop: real, ghost width: real,
      ghost above: real, ghost done: seq<seq<string>>, ghost homes0: seq<Rect>)
    returns (r: map<string, Point>, ghost homes: seq<Rect>, ghost big: real)
    requires GraphLayout.KnownEnds(ids, links) && LaysOut(place)
    requires row != [] && Used(row) <= width && Placeable(ids, links, radius, done, row)
    requires Arranged(done, homes0, positions, radius, width, above) && 0.0 <= above && above + ISLAND_GAP <= rowTop
    ensures Arranged(done + Members(row), homes, r, radius, width, rowTop + RowHeight(row))
    ensures KeepsPlaced(done, positions, r)
    ensures RowHeight(row) == RowTall(row, big) && RowHeight(row) >= 0.0
    ensures IsBiggest(row, big) && RowShown(links, place, row, |row|, r, rowTop, big)
  {
    KeepsItself(done, positions);
    hide GraphLayout.KnownEnds, LaysOut, Arranged, LeavesFree, RowUp, RowDown, RowBox, Placeable, KeepsPlaced,
      SlotShown, IsBiggest, RowTall, Offset;
    var y0 := rowTop + RowUp(row);
    big := RowHeightIs(row);
    ghost var bottom := rowTop + RowHeight(row);
    r, homes := positions, homes0;
    var slotX := 0.0;
    RowNotNegative(ids, links, radius, done, row);
    FreeBelow(done, homes, r, radius, width, above, rowTop);
    WithinLower(done, homes, r, radius, width, above, bottom);
    assert done + Members(row)[..0] == done;
    for j := 0 to |row|
      invariant slotX == Used(row[..j]) + ISLAND_GAP
      invariant Arranged(done + Members(row)[..j], homes, r, radius, width, bottom)
      invariant LeavesFree(homes, rowTop, slotX)
      invariant KeepsPlaced(done, positions, r)
      invariant RowShown(links, place, row, j, r, rowTop, big)
    {
      ghost var was := r;
      r, homes, slotX := PlaceNext(ids, links, place, row, j, radius, r, rowTop, y0, slotX, width, bottom, done, homes);
      KeepsThrough(done, Members(row)[..j], positions, was, r);
      OffsetIs(row, j);
      SlotsStay(ids, links, place, radius, done, row, j, was, r, rowTop, big);
    }
    assert Members(row)[..|row|] == Members(row);
  }

  /** Placing what comes after leaves the slots before it where they are. */
  lemma {:induction false} SlotsStay(ids: seq<string>, links: seq<GraphLayout.Edge>, place: Layouter,
      radius: map<string, real>, done: seq<seq<string>>, row: seq<Slot>, n: nat, r: map<string, Point>,
      s: map<string, Point>, top: real, big: real)
    requires n <= |row| && Placeable(ids, links, radius, done, row) && RowShown(links, place, row, n, r, top, big)
    requires KeepsPlaced(done + Members(row)[..n], r, s)
    ensures RowShown(links, place, row, n, s, top, big)
  {
    hide SlotShown, GraphLayout.IsComponent, DisjointFrom, Offset;
    forall j | 0 <= j < n ensures SlotShown(links, place, row[j], s, Offset(row, j), top + big + 4.0) {
      var all := done + Members(row)[..n];
      assert all[|done| + j] == row[j].members;
      assert IsSlot(row[j], row[j].members, radius);
      SlotStays(links, place, row[j], r, s, Offset(row, j), top + big + 4.0);
    }
  }

  lemma {:induction false} RowNotNegative(ids: seq<string>, links: seq<GraphLayout.Edge>, radius: map<string, real>,
      done: seq<seq<string>>, row: seq<Slot>)
    requires row != [] && Placeable(ids, links, radius, done, row)
    ensures RowHeight(row) >= 0.0
  {
    assert row[0].members != [];
    var m := row[0].members[0];
    assert m in row[0].members && row[0].maxR >= 5.0;
  }

  method PlaceNext(ids: seq<string>, links: seq<GraphLayout.Edge>, place: Layouter, row: seq<Slot>, j: nat,
      ghost radius: map<string, real>, positions: map<string, Point>, ghost rowTop: real, y0: real, slotX: real,
      ghost width: real, ghost bottom: real, ghost done: seq<seq<string>>, ghost homes0: seq<Rect>)
    returns (r: map<string, Point>, ghost homes: seq<Rect>, next: real)
    requires GraphLayout.KnownEnds(ids, links) && LaysOut(place)
    requires j < |row| && Used(row) <= width && Placeable(ids, links, radius, done, row)
    requires rowTop >= 0.0 && y0 == rowTop + RowUp(row) && bottom == rowTop + RowHeight(row)
    requires slotX == Used(row[..j]) + ISLAND_GAP
    requires Arranged(done + Members(row)[..j], homes0, positions, radius, width, bottom)
      && LeavesFree(homes0, rowTop, slotX)
    ensures next == Used(row[..j + 1]) + ISLAND_GAP
    ensures Arranged(done + Members(row)[..j + 1], homes, r, radius, width, bottom) && LeavesFree(homes, rowTop, next)
    ensures KeepsPlaced(done + Members(row)[..j], positions, r)
    ensures SlotShown(links, place, row[j], r, slotX, y0)
  {
    hide GraphLayout.KnownEnds, GraphLayout.IsComponent, LaysOut, Arranged, LeavesFree, HousedAt, Placeable, InSlot,
      DisjointFrom, IsSlot, Used, RowUp, RowDown, RowBox, BoxHeight, ReachX, KeepsPlaced, SlotShown;
    var slot := row[j];
    SlotOfRow(ids, links, radius, done, row, j);
    DisjointAfter(ids, links, radius, done, row, j);
    r := PlaceSlot(ids, links, place, slot, radius, positions, slotX, y0);
    KeepsOthers(done + Members(row)[..j], slot.members, positions, r);
    SlotHoused(slot, r, radius, slotX, rowTop, RowUp(row), RowHeight(row));
    ghost var home := Rect(slotX, slotX + slot.w, rowTop, bottom);
    ArrangeOneMore(done + Members(row)[..j], homes0, positions, r, radius, width, bottom, slot.members, home);
    next := slotX + slot.w + ISLAND_GAP;
    homes := homes0 + [home];
    FreeRightOf(homes0, home, next);
    assert done + Members(row)[..j + 1] == done + Members(row)[..j] + [slot.members];
  }

  lemma {:induction false} SlotOfRow(ids: seq<string>, links: seq<GraphLayout.Edge>, radius: map<string, real>,
      done: seq<seq<string>>, row: seq<Slot>, j: nat)
    requires Placeable(ids, links, radius, done, row) && j < |row|
    ensures IsSlot(row[j], row[j].members, radius) && GraphLayout.IsComponent(ids, links, row[j].members)
    ensures row[j].w >= 0.0 && Used(row[..j]) + ISLAND_GAP >= 0.0
    ensures Used(row[..j + 1]) == Used(row[..j]) + ISLAND_GAP + row[j].w <= Used(row)
    ensures RowUp(row) >= ReachUp(row[j].maxR)
      && RowHeight(row) >= RowUp(row) + BoxHeight(row[j]) + ReachDown(row[j].maxR)
  {
    hide GraphLayout.IsComponent, IsSlot, DisjointFrom;
    RowFits(row, radius, j);
  }

  lemma {:induction false} ConcatPrefix(rows: seq<seq<Slot>>, i: nat)
    requires i < |rows|
    ensures Concat(rows[..i + 1]) == Concat(rows[..i]) + rows[i]
    ensures Concat(rows[..i + 1]) <= Concat(rows)
    decreases |rows| - i
  {
    assert rows[..i + 1][..i] == rows[..i];
    if i + 1 < |rows| {
      ConcatPrefix(rows, i + 1);
    } else {
      assert rows[..i + 1] == rows;
    }
  }

  /** The next row is placeable after the rows before it. */
  lemma {:induction false} PlaceableRow(ids: seq<string>, links: seq<GraphLayout.Edge>, radius: map<string, real>,
      done: seq<seq<string>>, all: seq<Slot>, before: seq<Slot>, row: seq<Slot>)
    requires Placeable(ids, links, radius, done, all) && before + row <= all
    ensures Placeable(ids, links, radius, done + Members(before), row)
  {
    hide IsSlot, GraphLayout.IsComponent, DisjointFrom;
    var n := |before|;
    assert forall k :: 0 <= k < |row| ==> row[k] == (before + row)[n + k] == all[n + k];
    assert forall k :: 0 <= k < n ==> before[k] == (before + row)[k] == all[k];
    forall k | 0 <= k < |row| ensures DisjointFrom(done + Members(before), row[k].members) {
      assert DisjointFrom(done, all[n + k].members);
      DisjointFromMore(done, before, row[k].members);
    }
  }

  lemma {:induction false} DisjointFromMore(done: seq<seq<string>>, before: seq<Slot>, members: seq<string>)
    requires DisjointFrom(done, members)
    requires forall k, m :: 0 <= k < |before| && m in before[k].members ==> m !in members
    ensures DisjointFrom(done + Members(before), members)
  {
    var seen := done + Members(before);
    forall i, m | 0 <= i < |seen| && m in seen[i] ensures m !in members {
      if i >= |done| { assert seen[i] == before[i - |done|].members; }
    }
  }

  /** All rows, each under the one before it. */
  method PlaceRows(ids: seq<string>, links: seq<GraphLayout.Edge>, place: Layouter, rows: seq<seq<Slot>>,
      ghost radius: map<string, real>, positions: map<string, Point>, top: real, width: real, ghost above: real,
      ghost done: seq<seq<string>>, ghost homes0: seq<Rect>)
    returns (r: map<string, Point>, bottom: real, ghost homes: seq<Rect>, ghost tops: seq<real>, ghost bigs: seq<real>)
    requires GraphLayout.KnownEnds(ids, links) && LaysOut(place)
    requires rows != [] && Packed(rows, width) && Placeable(ids, links, radius, done, Concat(rows))
    requires Arranged(done, homes0, positions, radius, width, above) && 0.0 <= above && above + ISLAND_GAP <= top
    ensures Arranged(done + Members(Concat(rows)), homes, r, radius, width, bottom)
    ensures bottom >= top && KeepsPlaced(done, positions, r)
    ensures RowsShown(links, place, rows, |rows|, r, top, tops, bigs)
    ensures bottom == tops[|rows| - 1] + RowTall(rows[|rows| - 1], bigs[|rows| - 1])
  {
    KeepsItself(done, positions);
    hide GraphLayout.KnownEnds, LaysOut, Arranged, Placeable, Used, Concat, RowHeight, KeepsPlaced, RowShown, IsBiggest,
      RowTall;
    r, homes, tops, bigs := positions, homes0, [], [];
    var rowTop, rowH := top, 0.0;
    ghost var low := above;
    NoRowsYet(rows);
    assert done + Members([]) == done;
    for i := 0 to |rows|
      invariant Arranged(done + Members(Concat(rows[..i])), homes, r, radius, width, low)
      invariant 0.0 <= low && rowTop >= top && rowH >= 0.0
      invariant if i == 0 then rowTop == top && low == above else low == rowTop + rowH
      invariant KeepsPlaced(done, positions, r)
      invariant RowsShown(links, place, rows, i, r, top, tops, bigs)
      invariant i > 0 ==> tops[i - 1] == rowTop && rowH == RowTall(rows[i - 1], bigs[i - 1])
    {
      ghost var was := r;
      ghost var big;
      if i > 0 { rowTop := rowTop + rowH + ISLAND_GAP; }
      ConcatPrefix(rows, i);
      PlaceableRow(ids, links, radius, done, Concat(rows), Concat(rows[..i]), rows[i]);
      r, homes, big := PlaceRow(ids, links, place, rows[i], radius, r, rowTop, width, low,
        done + Members(Concat(rows[..i])), homes);
      RowsStay(ids, links, place, radius, done, rows, i, was, r, top, tops, bigs);
      tops, bigs := tops + [rowTop], bigs + [big];
      KeepsThrough(done, Members(Concat(rows[..i])), positions, was, r);
      rowH := RowHeight(rows[i]);
      low := rowTop + rowH;
      assert done + Members(Concat(rows[..i])) + Members(rows[i]) == done + Members(Concat(rows[..i + 1]));
    }
    assert rows[..|rows|] == rows;
    bottom := rowTop + rowH;
  }

  /** Keeping all of the first rows keeps one of them and those before it. */
  lemma {:induction false} KeepsRow(done: seq<seq<string>>, rows: seq<seq<Slot>>, i: nat, n: nat,
      r: map<string, Point>, s: map<string, Point>)
    requires i < n <= |rows| && KeepsPlaced(done + Members(Concat(rows[..n])), r, s)
    ensures KeepsPlaced(done + Members(Concat(rows[..i])) + Members(rows[i])[..|rows[i]|], r, s)
  {
    hide KeepsPlaced, Concat;
    ConcatPrefix(rows, i);
    ConcatWithin(rows, i + 1, n);
    var before, row := Concat(rows[..i]), rows[i];
    var rest := Concat(rows[..n])[|before + row|..];
    assert Concat(rows[..n]) == before + row + rest;
    assert Members(row)[..|row|] == Members(row);
    assert done + Members(before + row + rest) == done + Members(before) + Members(row) + Members(rest);
    KeepsFirst(done + Members(before) + Members(row), Members(rest), r, s);
  }

  /** The rows before it stay where they are, too. */
  lemma {:induction false} RowsStay(ids: seq<string>, links: seq<GraphLayout.Edge>, place: Layouter,
      radius: map<string, real>, done: seq<seq<string>>, rows: seq<seq<Slot>>, n: nat, r: map<string, Point>,
      s: map<string, Point>, from: real, tops: seq<real>, bigs: seq<real>)
    requires n <= |rows| && Placeable(ids, links, radius, done, Concat(rows))
    requires RowsShown(links, place, rows, n, r, from, tops, bigs)
    requires KeepsPlaced(done + Members(Concat(rows[..n])), r, s)
    ensures RowsShown(links, place, rows, n, s, from, tops, bigs)
  {
    hide Placeable, KeepsPlaced, RowShown, Concat, RowTall, IsBiggest, Members;
    forall i | 0 <= i < n ensures RowShown(links, place, rows[i], |rows[i]|, s, tops[i], bigs[i]) {
      ConcatPrefix(rows, i);
      PlaceableRow(ids, links, radius, done, Concat(rows), Concat(rows[..i]), rows[i]);
      KeepsRow(done, rows, i, n, r, s);
      SlotsStay(ids, links, place, radius, done + Members(Concat(rows[..i])), rows[i], |rows[i]|, r, s, tops[i],
        bigs[i]);
    }
  }

  lemma {:induction false} ConcatWithin(rows: seq<seq<Slot>>, i: nat, n: nat)
    requires i <= n <= |rows|
    ensures Concat(rows[..i]) <= Concat(rows[..n])
    decreases n - i
  {
    if i < n {
      ConcatWithin(rows, i, n - 1);
      assert rows[..n][..n - 1] == rows[..n - 1];
    }
  }

  lemma {:induction false} KeepsFirst(done: seq<seq<string>>, more: seq<seq<string>>, p: map<string, Point>,
      r: map<string, Point>)
    requires KeepsPlaced(done + more, p, r)
    ensures KeepsPlaced(done, p, r)
  {
    assert forall k :: 0 <= k < |done| ==> (done + more)[k] == done[k];
  }

  lemma {:induction false} KeepsItself(done: seq<seq<string>>, p: map<string, Point>)
    ensures KeepsPlaced(done, p, p)
  {
  }

  lemma {:induction false} NoRowsYet(rows: seq<seq<Slot>>)
    ensures Concat(rows[..0]) == []
  {
  }
}
