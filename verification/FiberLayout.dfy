/** The narrow layout of fiber-network-model.ts: the main component, and its islands under it. */
module FiberLayout {
  import opened Common
  import opened FiberFit
  import opened FiberIslands
  import opened FiberSeparate
  import GraphLayout
  import Sorting

  const MIN_HEIGHT: real := 560.0
  const PAD: real := 48.0
  const SIDE_FROM: real := 720.0

  /** A party; its circle has radius 5 + 2.2 times the square root of its channels. */
  datatype Party = Party(id: string, channels: nat, radius: real)

  ghost predicate HasItsRadius(p: Party) {
    p.radius >= 5.0 && (p.radius - 5.0) * (p.radius - 5.0) == 4.84 * p.channels as real
  }

  /** Two hubs of 100 channels each do not fit it. */
  lemma {:induction false} HubsOverlap()
    ensures HasItsRadius(Party("a", 100, 27.0)) && ReachX(27.0) + ReachX(27.0) > PAIR_SPAN
  {
  }

  // ----- The main component -----

  function Round(x: real): int { (x + 0.5).Floor }

  function Ceil(x: real): (c: int)
    ensures x <= c as real < x + 1.0
  {
    -((-x).Floor)
  }

  function Reaches(ids: seq<string>, radius: map<string, real>): (s: seq<real>)
    requires forall i :: 0 <= i < |ids| ==> ids[i] in radius
    ensures |s| == |ids| && forall i :: 0 <= i < |ids| ==> s[i] == ReachX(radius[ids[i]])
  {
    seq(|ids|, i requires 0 <= i < |ids| => ReachX(radius[ids[i]]))
  }

  function ReachesUp(ids: seq<string>, radius: map<string, real>): (s: seq<real>)
    requires forall i :: 0 <= i < |ids| ==> ids[i] in radius
    ensures |s| == |ids| && forall i :: 0 <= i < |ids| ==> s[i] == ReachUp(radius[ids[i]])
  {
    seq(|ids|, i requires 0 <= i < |ids| => ReachUp(radius[ids[i]]))
  }

  function Bottoms(ids: seq<string>, positions: map<string, Point>, radius: map<string, real>): (s: seq<real>)
    requires forall i :: 0 <= i < |ids| ==> ids[i] in radius && ids[i] in positions
    ensures |s| == |ids| && forall i :: 0 <= i < |ids| ==> s[i] == Footprint(ids[i], positions, radius).Bottom()
  {
    seq(|ids|, i requires 0 <= i < |ids| => positions[ids[i]].y + ReachDown(radius[ids[i]]))
  }

  ghost predicate Sizeable(members: seq<string>, radius: map<string, real>, width: real) {
    forall i :: 0 <= i < |members| ==>
      members[i] in radius && radius[members[i]] >= 5.0 && 2.0 * ReachX(radius[members[i]]) <= width
  }

  /** The box of the main component: inside every reach, a little taller than wide. */
  function MainBox(main: seq<string>, radius: map<string, real>, width: real): Rect
    requires main != [] && forall i :: 0 <= i < |main| ==> main[i] in radius
  {
    var mx, top := High(Reaches(main, radius)), High(ReachesUp(main, radius));
    var boxW := width - 2.0 * mx;
    var boxH := Round(Min(MIN_HEIGHT - 2.0 * PAD, Max(280.0, boxW * 1.2))) as real;
    Rect(mx, width - mx, top, top + boxH)
  }

  /**
   The main component's box: as far from both sides as its widest party reaches, as far from the top as its biggest, and
   a whole number of pixels tall: 1.2 times its width rounded, but no less than 280 and no more than 464.
   */
  ghost predicate IsMainBox(box: Rect, main: seq<string>, radius: map<string, real>, width: real)
    requires forall i :: 0 <= i < |main| ==> main[i] in radius
  {
    && (exists i :: 0 <= i < |main| && box.x0 == Wide(radius[main[i]]) && box.y0 == radius[main[i]] + 4.0)
    && (forall i :: 0 <= i < |main| ==> Wide(radius[main[i]]) <= box.x0 && radius[main[i]] + 4.0 <= box.y0)
    && box.x1 == width - box.x0
    && IsBoxHeight(box.y1 - box.y0, 1.2 * (box.x1 - box.x0))
  }

  ghost predicate IsBoxHeight(tall: real, wanted: real) {
    && tall == tall.Floor as real
    && if wanted <= 280.0 then tall == 280.0 else if wanted >= 464.0 then tall == 464.0 else -0.5 < tall - wanted <= 0.5
  }

  lemma {:induction false} BoxHeightIs(wanted: real)
    ensures IsBoxHeight(Round(Min(464.0, Max(280.0, wanted))) as real, wanted)
  {
  }

  /** The party with the biggest circle reaches furthest, to the sides and up. */
  lemma {:induction false} BiggestReaches(main: seq<string>, radius: map<string, real>) returns (i: nat)
    requires main != [] && forall i :: 0 <= i < |main| ==> main[i] in radius
    ensures i < |main| && High(Reaches(main, radius)) == Wide(radius[main[i]])
      && High(ReachesUp(main, radius)) == radius[main[i]] + 4.0
    ensures forall k :: 0 <= k < |main| ==>
      Wide(radius[main[k]]) <= Wide(radius[main[i]]) && radius[main[k]] <= radius[main[i]]
  {
    hide High, ReachX, ReachUp, ReachDown, Wide;
    var reaches, ups := Reaches(main, radius), ReachesUp(main, radius);
    i :| 0 <= i < |ups| && ups[i] == High(ups);
    ReachIs(radius[main[i]]);
    forall k | 0 <= k < |main|
      ensures Wide(radius[main[k]]) == reaches[k] <= reaches[i] && radius[main[k]] <= radius[main[i]]
    {
      assert ups[k] <= High(ups);
      ReachIs(radius[main[k]]);
      ReachGrows(radius[main[k]], radius[main[i]]);
    }
    var j :| 0 <= j < |reaches| && reaches[j] == High(reaches);
    assert reaches[i] <= High(reaches);
  }

  lemma {:induction false} MainBoxIs(main: seq<string>, radius: map<string, real>, width: real)
    requires main != [] && forall i :: 0 <= i < |main| ==> main[i] in radius
    ensures IsMainBox(MainBox(main, radius, width), main, radius, width)
  {
    hide IsBoxHeight, Round, High, Reaches, ReachesUp, Wide, Min, Max;
    var i := BiggestReaches(main, radius);
    var wanted := (width - 2.0 * High(Reaches(main, radius))) * 1.2;
    assert MIN_HEIGHT - 2.0 * PAD == 464.0;
    BoxHeightIs(wanted);
    var box := MainBox(main, radius, width);
    assert box.y1 - box.y0 == Round(Min(464.0, Max(280.0, wanted))) as real && 1.2 * (box.x1 - box.x0) == wanted;
  }

  lemma {:induction false} MainBoxFits(main: seq<string>, radius: map<string, real>, width: real)
    requires main != [] && Sizeable(main, radius, width)
    ensures var box := MainBox(main, radius, width);
      && box.x0 <= box.x1 == width - box.x0 && box.y0 <= box.y1
      && forall i :: 0 <= i < |main| ==> ReachX(radius[main[i]]) <= box.x0 && ReachUp(radius[main[i]]) <= box.y0
  {
    var reaches, ups := Reaches(main, radius), ReachesUp(main, radius);
    var box := MainBox(main, radius, width);
    assert box.x0 == High(reaches) && box.y0 == High(ups);
    var i :| 0 <= i < |reaches| && reaches[i] == High(reaches);
    forall k | 0 <= k < |main| ensures ReachX(radius[main[k]]) <= box.x0 && ReachUp(radius[main[k]]) <= box.y0 {
      assert reaches[k] <= box.x0 && ups[k] <= box.y0;
    }
  }

  /** The spring layout stretched over that box leaves every footprint on the canvas. */
  method FitMain(main: seq<string>, points: map<string, Point>, radius: map<string, real>, width: real)
    returns (r: map<string, Point>)
    requires main != [] && points.Keys == GraphLayout.Elements(main) && Sizeable(main, radius, width)
    ensures r.Keys == GraphLayout.Elements(main) && Placed(main, r, radius)
    ensures AcrossCanvas(Footprints(main, r, radius), width) && BelowTop(Footprints(main, r, radius), 0.0)
    ensures exists box :: IsMainBox(box, main, radius, width) && FittedTo(main, points, r, box)
  {
    hide MainBox, Fit, ReachX, IsMainBox, FittedTo;
    MainBoxFits(main, radius, width);
    MainBoxIs(main, radius, width);
    var box := MainBox(main, radius, width);
    FitIsFitted(main, points, box);
    r := Fit(main, points, box);
    ghost var s := Footprints(main, r, radius);
    forall k | 0 <= k < |main|
      ensures s[k].Proper() && 2.0 * s[k].x <= width && s[k].WithinX(width) && s[k].Top() >= 0.0
    {
      assert main[k] in points;
      FitStretches(main, points, box, main[k], main[k]);
      ReachPositive(radius[main[k]]);
    }
  }

  /** `fitted` is the main component's spring layout, stretched over its box. */
  ghost predicate IsMainFit(links: seq<GraphLayout.Edge>, place: Layouter, main: seq<string>,
      radius: map<string, real>, width: real, fitted: map<string, Point>) {
    && Placed(main, fitted, radius)
    && exists d, box ::
         TrueDistances(main, links, d) && IsMainBox(box, main, radius, width)
           && FittedTo(main, place(main, d), fitted, box)
  }

  /** The fitted layout leaves the footprints apart as they are. */
  ghost predicate FitsApart(links: seq<GraphLayout.Edge>, place: Layouter, main: seq<string>, radius: map<string, real>,
      width: real) {
    forall fitted :: IsMainFit(links, place, main, radius, width, fitted) ==>
      AllApart(Footprints(main, fitted, radius), 2.999999)
  }

  /** The main component is its fitted layout after the passes it takes to have its footprints apart. */
  ghost predicate MainPlaced(links: seq<GraphLayout.Edge>, place: Layouter, main: seq<string>,
      radius: map<string, real>, width: real, positions: map<string, Point>, fitted: map<string, Point>, passes: nat) {
    && IsMainFit(links, place, main, radius, width, fitted) && Placed(main, positions, radius)
    && var start := Footprints(main, fitted, radius);
    && passes < 2000 && ApartAfter(start, passes, width, 0.0)
    && (forall k :: 0 <= k < passes ==> !ApartAfter(start, k, width, 0.0))
    && Footprints(main, positions, radius) == AfterPasses(start, passes, width, 0.0)
  }

  /** No number of passes tried sets its fitted layout's footprints apart. */
  ghost predicate NeverSettles(links: seq<GraphLayout.Edge>, place: Layouter, main: seq<string>,
      radius: map<string, real>, width: real) {
    exists fitted :: IsMainFit(links, place, main, radius, width, fitted)
      && forall k :: 0 <= k < 2000 ==> !ApartAfter(Footprints(main, fitted, radius), k, width, 0.0)
  }

  /** The lowest a component's footprints reach. */
  ghost predicate IsLowest(main: seq<string>, positions: map<string, Point>, radius: map<string, real>, low: real) {
    && Placed(main, positions, radius)
    && (exists i :: 0 <= i < |main| && positions[main[i]].y + radius[main[i]] + 18.0 == low)
    && (forall i :: 0 <= i < |main| ==> positions[main[i]].y + radius[main[i]] + 18.0 <= low)
  }

  method PlaceMain(ids: seq<string>, links: seq<GraphLayout.Edge>, place: Layouter, main: seq<string>,
      radius: map<string, real>, width: real)
    returns (r: Result<(map<string, Point>, real)>)
    requires GraphLayout.KnownEnds(ids, links) && GraphLayout.IsComponent(ids, links, main) && LaysOut(place)
    requires Sizeable(main, radius, width)
    ensures r.Ok? ==> var (positions, bottom) := r.value;
      && bottom >= 0.0 && Placed(main, positions, radius) && IsLowest(main, positions, radius, bottom)
      && Arranged([main], [Rect(0.0, width, 0.0, bottom)], positions, radius, width, bottom)
      && AllApart(Footprints(main, positions, radius), 2.999999)
      && exists fitted, passes :: MainPlaced(links, place, main, radius, width, positions, fitted, passes)
    ensures r.Err? ==> NeverSettles(links, place, main, radius, width)
    ensures |main| <= 2 && width < SIDE_FROM ==> r.Ok?
    ensures FitsApart(links, place, main, radius, width) ==> r.Ok?
  {
    hide GraphLayout.KnownEnds, GraphLayout.IsComponent, LaysOut, AllApart, AcrossCanvas, BelowTop, Arranged,
      AllLowered, Sorting.Distinct, TrueDistances, SurePair, IsMainBox, FittedTo, AfterPasses, Sizeable;
    SomeMember(ids, links, main);
    var points := LayoutComponent(ids, links, main, place);
    var fitted := FitMain(main, points, radius, width);
    DistinctMembers(ids, links, main, main);
    ghost var start := Footprints(main, fitted, radius);
    assert IsMainFit(links, place, main, radius, width, fitted);
    SettlesSoon(links, place, main, fitted, radius, width);
    var separated, passes := Separate(main, fitted, radius, width, 0.0);
    if separated.Err? { return Err; }
    var positions := separated.value;
    PassesStayBelow(start, passes, width, 0.0);
    assert MainPlaced(links, place, main, radius, width, positions, fitted, passes);
    var bottoms := Bottoms(main, positions, radius);
    var bottom := High(bottoms);
    MainHoused(main, positions, radius, width, bottom, bottoms);
    LowestIs(main, positions, radius, bottoms);
    return Ok((positions, bottom));
  }

  lemma {:induction false} SomeMember(ids: seq<string>, links: seq<GraphLayout.Edge>, main: seq<string>)
    requires GraphLayout.IsComponent(ids, links, main)
    ensures main != []
  {
  }

  /** Two parties at most, or footprints already apart: some pass finds them apart. */
  lemma {:induction false} SettlesSoon(links: seq<GraphLayout.Edge>, place: Layouter, main: seq<string>,
      fitted: map<string, Point>, radius: map<string, real>, width: real)
    requires main != [] && IsMainFit(links, place, main, radius, width, fitted) && Sizeable(main, radius, width)
    requires AcrossCanvas(Footprints(main, fitted, radius), width) && BelowTop(Footprints(main, fitted, radius), 0.0)
    ensures (|main| <= 2 && width < SIDE_FROM) || FitsApart(links, place, main, radius, width) ==>
      exists k :: 0 <= k < 2000 && ApartAfter(Footprints(main, fitted, radius), k, width, 0.0)
  {
    hide AllApart, AcrossCanvas, BelowTop, SurePair, AfterPasses, Sizeable;
    var start := Footprints(main, fitted, radius);
    AfterMore(start, 0, width, 0.0);
    if |main| == 1 { OneIsApart(start); }
    if |main| == 1 || FitsApart(links, place, main, radius, width) {
      assert ApartAfter(start, 0, width, 0.0);
    } else if |main| == 2 && width < SIDE_FROM {
      TwoAreSure(main, fitted, radius, width);
      var k := TwoSettle(start, width, 0.0);
    }
  }

  /** Footprints that start below the top are below it after every pass, so lowering them again changes nothing. */
  lemma {:induction false} PassesStayBelow(start: seq<Box>, n: nat, width: real, top: real)
    requires BelowTop(start, top)
    ensures AllLowered(AfterPasses(start, n, width, top), top) == AfterPasses(start, n, width, top)
  {
    hide BelowTop, AllLowered, PassOf, AfterPasses;
    AfterMore(start, 0, width, top);
    if n > 0 {
      AfterMore(start, n - 1, width, top);
      LoweredBoxes(PassOf(AfterPasses(start, n - 1, width, top), width), width, top);
    }
    LoweredBoxes(AfterPasses(start, n, width, top), width, top);
  }

  lemma {:induction false} LowestIs(main: seq<string>, positions: map<string, Point>, radius: map<string, real>,
      bottoms: seq<real>)
    requires main != [] && Placed(main, positions, radius) && bottoms == Bottoms(main, positions, radius)
    ensures IsLowest(main, positions, radius, High(bottoms))
  {
    hide High;
    forall i | 0 <= i < |main| ensures positions[main[i]].y + radius[main[i]] + 18.0 == bottoms[i] <= High(bottoms) {
      ReachIs(radius[main[i]]);
    }
    var k :| 0 <= k < |bottoms| && bottoms[k] == High(bottoms);
  }

  /** Where the fitted footprints are apart, every main party stands exactly where its fitted point is. */
  lemma {:induction false} UnmovedWhereApart(links: seq<GraphLayout.Edge>, place: Layouter, main: seq<string>,
      radius: map<string, real>, width: real, positions: map<string, Point>, fitted: map<string, Point>, passes: nat,
      i: nat)
    requires MainPlaced(links, place, main, radius, width, positions, fitted, passes) && i < |main|
    requires FitsApart(links, place, main, radius, width)
    ensures positions[main[i]] == fitted[main[i]]
  {
    hide AllApart, TrueDistances, FittedTo, IsMainBox;
    var start := Footprints(main, fitted, radius);
    AfterMore(start, 0, width, 0.0);
    assert ApartAfter(start, 0, width, 0.0) && passes == 0;
    assert Footprints(main, positions, radius)[i] == start[i];
  }

  /** Two parties on a narrow canvas are always separated. */
  lemma {:induction false} TwoAreSure(main: seq<string>, fitted: map<string, Point>, radius: map<string, real>,
      width: real)
    requires |main| == 2 && Placed(main, fitted, radius) && Sizeable(main, radius, width) && width < SIDE_FROM
    requires AcrossCanvas(Footprints(main, fitted, radius), width) && BelowTop(Footprints(main, fitted, radius), 0.0)
    ensures SurePair(Footprints(main, fitted, radius), width, 0.0)
  {
    var s := Footprints(main, fitted, radius);
    assert s[0] == Footprint(main[0], fitted, radius) && s[1] == Footprint(main[1], fitted, radius);
    assert s[0].WithinX(width) && s[1].WithinX(width) && s[0].Top() >= 0.0 && s[1].Top() >= 0.0;
  }

  lemma {:induction false} OneIsApart(s: seq<Box>)
    requires |s| == 1
    ensures AllApart(s, 2.999999)
  {
  }

  lemma {:induction false} MainHoused(main: seq<string>, positions: map<string, Point>, radius: map<string, real>,
      width: real, bottom: real, bottoms: seq<real>)
    requires main != [] && Placed(main, positions, radius) && Sizeable(main, radius, width)
    requires AcrossCanvas(Footprints(main, positions, radius), width)
      && BelowTop(Footprints(main, positions, radius), 0.0)
    requires bottoms == Bottoms(main, positions, radius) && bottom == High(bottoms)
    ensures bottom >= 0.0 && Arranged([main], [Rect(0.0, width, 0.0, bottom)], positions, radius, width, bottom)
  {
    var s := Footprints(main, positions, radius);
    assert s[0].Top() >= 0.0 && s[0].Proper() && bottoms[0] <= bottom;
    forall m | m in main
      ensures m in positions && m in radius && InRect(Footprint(m, positions, radius), Rect(0.0, width, 0.0, bottom))
    {
      var i :| 0 <= i < |main| && main[i] == m;
      assert s[i] == Footprint(m, positions, radius) && bottoms[i] <= bottom;
    }
    assert HousedAt(main, positions, radius, Rect(0.0, width, 0.0, bottom));
  }

  // ----- The whole narrow picture -----

  datatype Data = Data(parties: seq<Party>, links: seq<GraphLayout.Edge>, components: seq<seq<string>>)

  datatype Picture = Picture(height: int, positions: map<string, Point>)

  function Ids(parties: seq<Party>): (ids: seq<string>)
    ensures |ids| == |parties| && forall i :: 0 <= i < |parties| ==> ids[i] == parties[i].id
  {
    seq(|parties|, i requires 0 <= i < |parties| => parties[i].id)
  }

  ghost predicate WellFormed(data: Data) {
    var ids := Ids(data.parties);
    && Sorting.Distinct(ids) && GraphLayout.KnownEnds(ids, data.links)
    && GraphLayout.AreComponents(ids, data.links, data.components)
    && forall i :: 0 <= i < |data.parties| ==> HasItsRadius(data.parties[i])
  }

  lemma {:induction false} IdsOfFront(parties: seq<Party>)
    requires parties != []
    ensures var n := |parties| - 1;
      && GraphLayout.Elements(Ids(parties)) == GraphLayout.Elements(Ids(parties[..n])) + {parties[n].id}
      && (Sorting.Distinct(Ids(parties)) ==>
            Sorting.Distinct(Ids(parties[..n])) && forall i :: 0 <= i < n ==> parties[i].id != parties[n].id)
  {
    var n := |parties| - 1;
    var ids := Ids(parties);
    assert ids == Ids(parties[..n]) + [parties[n].id];
    assert forall i :: 0 <= i < n ==> Ids(parties[..n])[i] == ids[i] == parties[i].id;
  }

  ghost predicate RadiiOf(m: map<string, real>, parties: seq<Party>) {
    && m.Keys == GraphLayout.Elements(Ids(parties))
    && (Sorting.Distinct(Ids(parties)) ==>
          forall i :: 0 <= i < |parties| ==> parties[i].id in m && m[parties[i].id] == parties[i].radius)
  }

  lemma {:induction false} RadiiOfMore(m: map<string, real>, parties: seq<Party>)
    requires parties != [] && RadiiOf(m, parties[..|parties| - 1])
    ensures var last := parties[|parties| - 1]; RadiiOf(m[last.id := last.radius], parties)
  {
    IdsOfFront(parties);
    hide Sorting.Distinct, GraphLayout.Elements;
    var n := |parties| - 1;
    assert forall i :: 0 <= i < n ==> parties[..n][i] == parties[i];
  }

  function RadiusById(parties: seq<Party>): (m: map<string, real>)
    ensures RadiiOf(m, parties)
  {
    if parties == [] then map[]
    else
      var n := |parties| - 1;
      RadiiOfMore(RadiusById(parties[..n]), parties);
      RadiusById(parties[..n])[parties[n].id := parties[n].radius]
  }

  ghost predicate ChannelsOf(m: map<string, nat>, parties: seq<Party>) {
    && m.Keys == GraphLayout.Elements(Ids(parties))
    && (Sorting.Distinct(Ids(parties)) ==>
          forall i :: 0 <= i < |parties| ==> parties[i].id in m && m[parties[i].id] == parties[i].channels)
  }

  lemma {:induction false} ChannelsOfMore(m: map<string, nat>, parties: seq<Party>)
    requires parties != [] && ChannelsOf(m, parties[..|parties| - 1])
    ensures var last := parties[|parties| - 1]; ChannelsOf(m[last.id := last.channels], parties)
  {
    IdsOfFront(parties);
    hide Sorting.Distinct, GraphLayout.Elements;
    var n := |parties| - 1;
    assert forall i :: 0 <= i < n ==> parties[..n][i] == parties[i];
  }

  function ChannelsById(parties: seq<Party>): (m: map<string, nat>)
    ensures ChannelsOf(m, parties)
  {
    if parties == [] then map[]
    else
      var n := |parties| - 1;
      ChannelsOfMore(ChannelsById(parties[..n]), parties);
      ChannelsById(parties[..n])[parties[n].id := parties[n].channels]
  }

  ghost predicate AllSizeable(parties: seq<Party>, width: real) {
    forall i :: 0 <= i < |parties| ==> 2.0 * ReachX(parties[i].radius) <= width
  }

  /** Every footprint on the canvas. */
  ghost predicate OnCanvas(ids: seq<string>, pic: Picture, radius: map<string, real>, width: real) {
    && Placed(ids, pic.positions, radius)
    && forall i :: 0 <= i < |ids| ==>
      InRect(Footprint(ids[i], pic.positions, radius), Rect(0.0, width, 0.0, pic.height as real))
  }

  /** Footprints of different components keep the island gap on some axis. */
  ghost predicate ComponentsApart(comps: seq<seq<string>>, positions: map<string, Point>, radius: map<string, real>) {
    forall i, j, u, v :: 0 <= i < |comps| && 0 <= j < |comps| && i != j && u in comps[i] && v in comps[j] ==>
      && u in positions && u in radius && v in positions && v in radius
      && Apart(Footprint(u, positions, radius), Footprint(v, positions, radius), ISLAND_GAP)
  }

  /** Homes apart, so what lives in them is. */
  lemma {:induction false} HomesKeepApart(comps: seq<seq<string>>, homes: seq<Rect>, positions: map<string, Point>,
      radius: map<string, real>)
    requires Housed(comps, homes, positions, radius) && HomesApart(homes)
    ensures ComponentsApart(comps, positions, radius)
  {
    forall i, j, u, v | 0 <= i < |comps| && 0 <= j < |comps| && i != j && u in comps[i] && v in comps[j]
      ensures && u in positions && u in radius && v in positions && v in radius
              && Apart(Footprint(u, positions, radius), Footprint(v, positions, radius), ISLAND_GAP)
    {
      assert HousedAt(comps[i], positions, radius, homes[i]) && HousedAt(comps[j], positions, radius, homes[j]);
      if i < j { assert RectsApart(homes[i], homes[j], ISLAND_GAP); }
        else { assert RectsApart(homes[j], homes[i], ISLAND_GAP); }
    }
  }

  lemma {:induction false} HomesKeepOnCanvas(ids: seq<string>, comps: seq<seq<string>>, homes: seq<Rect>,
      positions: map<string, Point>, radius: map<string, real>, width: real, bottom: real)
    requires Arranged(comps, homes, positions, radius, width, bottom)
    requires forall id :: id in ids ==> GraphLayout.InSome(comps, id)
    requires forall id :: id in ids ==> id in radius && radius[id] >= 0.0
    ensures OnCanvas(ids, Picture(Ceil(bottom), positions), radius, width)
  {
    forall i | 0 <= i < |ids|
      ensures ids[i] in positions
        && InRect(Footprint(ids[i], positions, radius), Rect(0.0, width, 0.0, Ceil(bottom) as real))
    {
      assert GraphLayout.InSome(comps, ids[i]);
      var k :| 0 <= k < |comps| && ids[i] in comps[k];
      assert HousedAt(comps[k], positions, radius, homes[k]);
    }
  }

  /** The width an island needs: its widest party's reach on both sides, and its inner span. */
  function IslandWidth(members: seq<string>, radius: map<string, real>): real
    requires members != [] && forall i :: 0 <= i < |members| ==> members[i] in radius
  {
    2.0 * ReachX(High(Radii(members, radius))) + Inner(|members|)
  }

  lemma {:induction false} SlotWidth(s: Slot, members: seq<string>, radius: map<string, real>)
    requires members != [] && IsSlot(s, members, radius)
    ensures s.w == IslandWidth(members, radius)
  {
    SameElements(s.ordered, members);
    var radii := Radii(members, radius);
    var m :| m in members && radius[m] == s.maxR;
    var i :| 0 <= i < |members| && members[i] == m;
    assert radii[i] == s.maxR;
    var j :| 0 <= j < |radii| && radii[j] == High(radii);
    assert members[j] in members;
  }

  ghost predicate IslandsFit(islands: seq<seq<string>>, radius: map<string, real>, width: real) {
    forall k :: 0 <= k < |islands| ==>
      && islands[k] != [] && (forall m :: m in islands[k] ==> m in radius)
      && IslandWidth(islands[k], radius) <= width
  }

  /**
   An island's slot: its parties busiest first, equal counts in the order they had, and as wide as its biggest party's
   reach on both sides and the span between the outer ones.
   */
  ghost predicate IsIsland(s: Slot, members: seq<string>, channels: map<string, nat>, radius: map<string, real>) {
    && s.members == members && multiset(s.ordered) == multiset(members)
    && (forall i, j :: 0 <= i < j < |s.ordered| ==>
          && s.ordered[i] in channels && s.ordered[j] in channels
          && channels[s.ordered[i]] >= channels[s.ordered[j]])
    && (forall c: nat ::
          Sorting.Filter(s.ordered, HasCount(channels, c)) == Sorting.Filter(members, HasCount(channels, c)))
    && (exists m :: m in members && m in radius && radius[m] == s.maxR)
    && (forall m :: m in members ==> m in radius && radius[m] <= s.maxR)
    && s.w == 2.0 * Wide(s.maxR) + if |members| == 1 then 0.0 else if |members| == 2 then 60.0 else 120.0
  }

  lemma {:induction false} SlotIsIsland(s: Slot, members: seq<string>, channels: map<string, nat>,
      radius: map<string, real>)
    requires members != [] && IsSlot(s, members, radius) && forall m :: m in members ==> m in channels
    requires forall i, j :: 0 <= i < j < |s.ordered| && s.ordered[i] in channels && s.ordered[j] in channels ==>
      channels[s.ordered[i]] >= channels[s.ordered[j]]
    requires forall c: nat ::
      Sorting.Filter(s.ordered, HasCount(channels, c)) == Sorting.Filter(members, HasCount(channels, c))
    ensures IsIsland(s, members, channels, radius)
  {
    hide Sorting.Filter, HasCount;
    SameElements(s.ordered, members);
    ReachIs(s.maxR);
    forall i | 0 <= i < |s.ordered| ensures s.ordered[i] in channels {
      assert s.ordered[i] in GraphLayout.Elements(members);
    }
  }

  method MakeSlots(islands: seq<seq<string>>, channels: map<string, nat>, radius: map<string, real>, width: real)
    returns (r: Result<seq<Slot>>)
    requires forall k :: 0 <= k < |islands| ==> islands[k] != [] && forall m :: m in islands[k] ==>
      m in radius && radius[m] >= 5.0 && m in channels
    ensures r.Ok? <==> IslandsFit(islands, radius, width)
    ensures r.Ok? ==> |r.value| == |islands|
    ensures r.Ok? ==> forall k :: 0 <= k < |islands| ==> IsSlot(r.value[k], islands[k], radius) && r.value[k].w <= width
    ensures r.Ok? ==> forall k :: 0 <= k < |islands| ==> IsIsland(r.value[k], islands[k], channels, radius)
  {
    hide IsSlot, IslandWidth, IsIsland;
    var slots: seq<Slot> := [];
    for k := 0 to |islands|
      invariant |slots| == k
      invariant forall i :: 0 <= i < k ==>
        IsSlot(slots[i], islands[i], radius) && slots[i].w == IslandWidth(islands[i], radius) <= width
      invariant forall i :: 0 <= i < k ==> IsIsland(slots[i], islands[i], channels, radius)
    {
      var slot := MakeSlot(islands[k], channels, radius);
      SlotWidth(slot, islands[k], radius);
      SlotIsIsland(slot, islands[k], channels, radius);
      if slot.w > width { return Err; }
      slots := slots + [slot];
    }
    return Ok(slots);
  }

  /** What a returned picture promises. */
  ghost predicate Drawn(data: Data, pic: Picture, width: real) {
    var ids, radius := Ids(data.parties), RadiusById(data.parties);
    && OnCanvas(ids, pic, radius, width)
    && ComponentsApart(data.components, pic.positions, radius)
    && (data.components != [] ==>
          && Placed(data.components[0], pic.positions, radius)
          && AllApart(Footprints(data.components[0], pic.positions, radius), 2.999999))
  }

  lemma {:induction false} RadiusKnown(parties: seq<Party>, width: real, m: string)
    requires Sorting.Distinct(Ids(parties)) && m in Ids(parties)
    requires forall i :: 0 <= i < |parties| ==> HasItsRadius(parties[i])
    ensures var radius := RadiusById(parties);
      && m in radius && radius[m] >= 5.0 && (AllSizeable(parties, width) ==> 2.0 * ReachX(radius[m]) <= width)
  {
    hide RadiusById, Sorting.Distinct, ReachX;
    var i :| 0 <= i < |parties| && Ids(parties)[i] == m;
    assert HasItsRadius(parties[i]);
  }

  lemma {:induction false} PartiesKnown(data: Data, width: real, k: nat)
    requires WellFormed(data) && k < |data.components|
    ensures var c := data.components[k];
      var radius := RadiusById(data.parties);
      && GraphLayout.IsComponent(Ids(data.parties), data.links, c) && c != []
      && (forall m :: m in c ==> m in radius && radius[m] >= 5.0)
      && (AllSizeable(data.parties, width) ==> Sizeable(c, radius, width))
  {
    hide GraphLayout.AreComponents, GraphLayout.IsComponent, GraphLayout.KnownEnds, Sorting.Distinct, RadiusById,
      HasItsRadius, AllSizeable, ReachX;
    var c := data.components[k];
    GraphLayout.ComponentAt(Ids(data.parties), data.links, data.components, k);
    forall m | m in c ensures m in RadiusById(data.parties) && RadiusById(data.parties)[m] >= 5.0
      && (AllSizeable(data.parties, width) ==> 2.0 * ReachX(RadiusById(data.parties)[m]) <= width)
    {
      RadiusKnown(data.parties, width, m);
    }
  }

  lemma {:induction false} ComponentsDisjoint(data: Data, i: nat, j: nat)
    requires WellFormed(data) && i < j < |data.components|
    ensures forall u :: u in data.components[i] ==> u !in data.components[j]
  {
    hide GraphLayout.AreComponents, GraphLayout.KnownEnds, Sorting.Distinct, HasItsRadius;
    forall u | u in data.components[i] ensures u !in data.components[j] {
      GraphLayout.InOneComponent(Ids(data.parties), data.links, data.components, u, i, j);
    }
  }

  lemma {:induction false} IslandsPlaceable(data: Data, slots: seq<Slot>)
    requires WellFormed(data) && data.components != [] && |slots| == |data.components| - 1
    requires forall k :: 0 <= k < |slots| ==> IsSlot(slots[k], data.components[k + 1], RadiusById(data.parties))
    ensures Placeable(Ids(data.parties), data.links, RadiusById(data.parties), [data.components[0]], slots)
    ensures [data.components[0]] + Members(slots) == data.components
  {
    hide GraphLayout.IsComponent, WellFormed, RadiusById;
    var ids, comps := Ids(data.parties), data.components;
    forall k | 0 <= k < |slots| ensures slots[k].members == comps[k + 1] {
      assert IsSlot(slots[k], comps[k + 1], RadiusById(data.parties));
    }
    hide IsSlot;
    forall k | 0 <= k < |slots|
      ensures GraphLayout.IsComponent(ids, data.links, slots[k].members) && DisjointFrom([comps[0]], slots[k].members)
    {
      PartiesKnown(data, 0.0, k + 1);
      ComponentsDisjoint(data, 0, k + 1);
    }
    forall j, k, m | 0 <= j < k < |slots| && m in slots[j].members ensures m !in slots[k].members {
      ComponentsDisjoint(data, j + 1, k + 1);
    }
  }

  /**
   A canvas every party and island fits is always drawn if the main component has two parties at most, or nothing to
   push apart.
   */
  ghost predicate SurelyDrawn(data: Data, width: real, place: Layouter) {
    && width > 0.0 && AllSizeable(data.parties, width)
    && (data.components != [] ==>
          && (|data.components[0]| <= 2
            || FitsApart(data.links, place, data.components[0], RadiusById(data.parties), width))
          && IslandsFit(data.components[1..], RadiusById(data.parties), width))
  }

  /** The least whole number of pixels that holds `x`. */
  ghost predicate IsCeil(h: int, x: real) { h as real - 1.0 < x <= h as real }

  /** How the islands stand: their slots, the slots in rows, each row's top and its biggest party. */
  datatype Plan = Plan(slots: seq<Slot>, rows: seq<seq<Slot>>, tops: seq<real>, bigs: seq<real>)

  ghost predicate Follows(data: Data, pic: Picture, width: real, place: Layouter, low: real, plan: Plan)
    requires data.components != []
  {
    var radius, channels := RadiusById(data.parties), ChannelsById(data.parties);
    && |plan.slots| == |data.components| - 1
    && (forall k :: 0 <= k < |plan.slots| ==> IsIsland(plan.slots[k], data.components[k + 1], channels, radius))
    && plan.rows != [] && Concat(plan.rows) == plan.slots && RowsBreak(plan.rows, width)
    && RowsShown(data.links, place, plan.rows, |plan.rows|, pic.positions, low + 35.0, plan.tops, plan.bigs)
    && var n := |plan.rows| - 1;
    IsCeil(pic.height, plan.tops[n] + RowTall(plan.rows[n], plan.bigs[n]))
  }

  /**
   The whole picture: the main component placed, and the islands in rows from 35 under its lowest footprint. It is as
   tall as the last row needs, or the main component where there are no islands.
   */
  ghost predicate Composed(data: Data, pic: Picture, width: real, place: Layouter)
    requires data.components != []
  {
    var main, radius := data.components[0], RadiusById(data.parties);
    && (exists fitted, passes :: MainPlaced(data.links, place, main, radius, width, pic.positions, fitted, passes))
    && exists low ::
         IsLowest(main, pic.positions, radius, low) &&
         if |data.components| == 1 then IsCeil(pic.height, low)
         else exists plan :: Follows(data, pic, width, place, low, plan)
  }

  lemma {:induction false} MainKept(data: Data, separated: map<string, Point>, positions: map<string, Point>,
      width: real, place: Layouter, low: real)
    requires data.components != [] && KeepsPlaced([data.components[0]], separated, positions)
    requires var main, radius := data.components[0], RadiusById(data.parties);
      && IsLowest(main, separated, radius, low)
      && exists fitted, passes :: MainPlaced(data.links, place, main, radius, width, separated, fitted, passes)
    ensures var main, radius := data.components[0], RadiusById(data.parties);
      && IsLowest(main, positions, radius, low)
      && exists fitted, passes :: MainPlaced(data.links, place, main, radius, width, positions, fitted, passes)
  {
    hide RadiusById, IsMainFit, ApartAfter, AfterPasses;
    var main, radius := data.components[0], RadiusById(data.parties);
    MainStays(main, separated, positions, radius);
    forall i | 0 <= i < |main| ensures positions[main[i]] == separated[main[i]] {
      assert Footprints(main, positions, radius)[i] == Footprints(main, separated, radius)[i];
    }
    var fitted, passes :| MainPlaced(data.links, place, main, radius, width, separated, fitted, passes);
    assert MainPlaced(data.links, place, main, radius, width, positions, fitted, passes);
  }

  lemma {:induction false} CeilIs(x: real)
    ensures IsCeil(Ceil(x), x)
  {
  }

  lemma {:induction false} ComposedAlone(data: Data, positions: map<string, Point>, width: real, place: Layouter,
      low: real)
    requires |data.components| == 1
    requires var main, radius := data.components[0], RadiusById(data.parties);
      && IsLowest(main, positions, radius, low)
      && exists fitted, passes :: MainPlaced(data.links, place, main, radius, width, positions, fitted, passes)
    ensures Composed(data, Picture(Ceil(low), positions), width, place)
  {
    hide RadiusById, MainPlaced, IsLowest, Ceil;
    CeilIs(low);
  }

  lemma {:induction false} ComposedWithIslands(data: Data, positions: map<string, Point>, width: real, place: Layouter,
      low: real, plan: Plan, bottom: real)
    requires |data.components| > 1 && Follows(data, Picture(Ceil(bottom), positions), width, place, low, plan)
    requires var main, radius := data.components[0], RadiusById(data.parties);
      && IsLowest(main, positions, radius, low)
      && exists fitted, passes :: MainPlaced(data.links, place, main, radius, width, positions, fitted, passes)
    ensures Composed(data, Picture(Ceil(bottom), positions), width, place)
  {
    hide RadiusById, MainPlaced, IsLowest, Follows, Ceil;
  }

  lemma {:induction false} ChannelsKnown(data: Data, k: nat)
    requires WellFormed(data) && k < |data.components|
    ensures forall m :: m in data.components[k] ==> m in ChannelsById(data.parties)
  {
    hide GraphLayout.AreComponents, GraphLayout.IsComponent, GraphLayout.KnownEnds, RadiusById, ChannelsById,
      HasItsRadius;
    PartiesKnown(data, 0.0, k);
    forall m | m in data.components[k] ensures m in ChannelsById(data.parties) {
      assert m in RadiusById(data.parties);
    }
  }

  /** The islands, placed under a main component that reaches down to `bottom`. */
  method PlaceIslands(data: Data, width: real, place: Layouter, positions: map<string, Point>, bottom: real,
      ghost homes: seq<Rect>)
    returns (r: Result<Picture>, ghost low: real, ghost homes': seq<Rect>, ghost plan: Plan)
    requires WellFormed(data) && LaysOut(place) && |data.components| > 1 && bottom >= 0.0
    requires Arranged([data.components[0]], homes, positions, RadiusById(data.parties), width, bottom)
    ensures r.Ok? <==> IslandsFit(data.components[1..], RadiusById(data.parties), width)
    ensures r.Ok? ==> r.value.height == Ceil(low)
    ensures r.Ok? ==> KeepsPlaced([data.components[0]], positions, r.value.positions)
    ensures r.Ok? ==> Arranged(data.components, homes', r.value.positions, RadiusById(data.parties), width, low)
    ensures r.Ok? ==> Follows(data, r.value, width, place, bottom, plan)
  {
    hide GraphLayout.AreComponents, GraphLayout.IsComponent, GraphLayout.KnownEnds, Sorting.Distinct, LaysOut, Arranged,
      Placeable, IslandsFit, IsIsland, RowsBreak, RowsShown, RadiusById, ChannelsById, HasItsRadius, KeepsPlaced,
        Packed,
      RowTall, IsSlot, Ceil, IsCeil, Concat;
    low, homes', plan := 0.0, [], Plan([], [], [], []);
    var ids, radius, channels := Ids(data.parties), RadiusById(data.parties), ChannelsById(data.parties);
    var comps := data.components;
    forall k | 0 <= k < |comps|
      ensures comps[k] != [] && forall m :: m in comps[k] ==> m in radius && radius[m] >= 5.0 && m in channels
    {
      PartiesKnown(data, width, k);
      ChannelsKnown(data, k);
    }
    var slots := MakeSlots(comps[1..], channels, radius, width);
    if slots.Err? { r := Err; return; }
    IslandsPlaceable(data, slots.value);
    var rows := PackRows(slots.value, width);
    PackedBreaks(rows, width);
    SomeRow(rows, slots.value);
    var noteY := bottom + 14.0 + 11.0;
    var all, last;
    ghost var tops, bigs;
    all, last, homes', tops, bigs := PlaceRows(ids, data.links, place, rows, radius, positions, noteY + 10.0, width,
      bottom, [comps[0]], homes);
    CeilIs(last);
    low, plan := last, Plan(slots.value, rows, tops, bigs);
    r := Ok(Picture(Ceil(last), all));
  }

  method CompactLayout(data: Data, width: real, place: Layouter) returns (r: Result<Picture>)
    requires WellFormed(data) && LaysOut(place) && width < SIDE_FROM
    ensures r.Ok? ==> width > 0.0 && AllSizeable(data.parties, width)
    ensures r.Ok? ==> Drawn(data, r.value, width)
    ensures r.Ok? && data.components != [] ==> IslandsFit(data.components[1..], RadiusById(data.parties), width)
    ensures r.Ok? && data.components == [] ==> r.value == Picture(0, map[])
    ensures r.Ok? && data.components != [] ==> Composed(data, r.value, width, place)
    ensures r.Err? && width > 0.0 && AllSizeable(data.parties, width) ==>
      && data.components != []
      && (IslandsFit(data.components[1..], RadiusById(data.parties), width) ==>
        NeverSettles(data.links, place, data.components[0], RadiusById(data.parties), width))
    ensures SurelyDrawn(data, width, place) ==> r.Ok?
  {
    hide GraphLayout.AreComponents, GraphLayout.IsComponent, GraphLayout.KnownEnds, Sorting.Distinct, LaysOut, Arranged,
      Placeable, AllApart, Sizeable, FitsApart, IslandsFit, RadiusById, HasItsRadius, KeepsPlaced, MainPlaced, IsLowest,
      Composed, Drawn, Ceil, NeverSettles, Follows;
    if width <= 0.0 { return Err; }
    var sizeable := CheckSizes(data.parties, width);
    if !sizeable { return Err; }
    var comps := data.components;
    if comps == [] {
      NoParties(data, width);
      return Ok(Picture(0, map[]));
    }
    PartiesKnown(data, width, 0);
    var main := PlaceMain(Ids(data.parties), data.links, place, comps[0], RadiusById(data.parties), width);
    if main.Err? { return Err; }
    var (positions, bottom) := main.value;
    ghost var homes := [Rect(0.0, width, 0.0, bottom)];
    KeepsItself([comps[0]], positions);
    if |comps| == 1 {
      assert comps == [comps[0]];
      NoIslands(RadiusById(data.parties), width);
      assert comps[1..] == [];
      Finish(data, positions, positions, homes, width, bottom);
      ComposedAlone(data, positions, width, place, bottom);
      return Ok(Picture(Ceil(bottom), positions));
    }
    ghost var low, plan;
    r, low, homes, plan := PlaceIslands(data, width, place, positions, bottom, homes);
    if r.Ok? {
      Finish(data, positions, r.value.positions, homes, width, low);
      MainKept(data, positions, r.value.positions, width, place, bottom);
      ComposedWithIslands(data, r.value.positions, width, place, bottom, plan, low);
    }
  }

  method CheckSizes(parties: seq<Party>, width: real) returns (ok: bool)
    ensures ok <==> AllSizeable(parties, width)
  {
    for i := 0 to |parties|
      invariant AllSizeable(parties[..i], width)
    {
      if 2.0 * ReachX(parties[i].radius) > width { return false; }
      assert parties[..i + 1] == parties[..i] + [parties[i]];
    }
    assert parties[..|parties|] == parties;
    return true;
  }

  lemma {:induction false} NoIslands(radius: map<string, real>, width: real)
    ensures IslandsFit([], radius, width)
  {
  }

  lemma {:induction false} SomeRow(rows: seq<seq<Slot>>, slots: seq<Slot>)
    requires Concat(rows) == slots && slots != []
    ensures rows != []
  {
  }

  lemma {:induction false} NoParties(data: Data, width: real)
    requires WellFormed(data) && data.components == []
    ensures Drawn(data, Picture(0, map[]), width)
  {
    assert data.parties == [] by {
      if data.parties != [] { EveryPartyInSome(data, Ids(data.parties)[0]); }
    }
  }

  lemma {:induction false} EveryPartyInSome(data: Data, id: string)
    requires WellFormed(data) && id in Ids(data.parties)
    ensures GraphLayout.InSome(data.components, id)
  {
    hide GraphLayout.IsComponent, GraphLayout.InSome;
  }

  lemma {:induction false} MainStays(main: seq<string>, separated: map<string, Point>, positions: map<string, Point>,
      radius: map<string, real>)
    requires Placed(main, separated, radius) && KeepsPlaced([main], separated, positions)
    ensures Placed(main, positions, radius)
      && Footprints(main, positions, radius) == Footprints(main, separated, radius)
  {
    forall i | 0 <= i < |main| ensures main[i] in positions && positions[main[i]] == separated[main[i]] {
      assert [main][0] == main && main[i] in main;
    }
  }

  /** Everything placed, the main component where it was separated: the picture keeps its promises. */
  lemma {:induction false} Finish(data: Data, separated: map<string, Point>, positions: map<string, Point>,
      homes: seq<Rect>, width: real, bottom: real)
    requires WellFormed(data) && data.components != []
    requires Placed(data.components[0], separated, RadiusById(data.parties))
    requires AllApart(Footprints(data.components[0], separated, RadiusById(data.parties)), 2.999999)
    requires KeepsPlaced([data.components[0]], separated, positions)
    requires Arranged(data.components, homes, positions, RadiusById(data.parties), width, bottom)
    ensures Drawn(data, Picture(Ceil(bottom), positions), width)
  {
    hide GraphLayout.AreComponents, GraphLayout.KnownEnds, Sorting.Distinct, GraphLayout.InSome, Housed, HomesApart,
      HomesWithin,
         ComponentsApart, OnCanvas, KeepsPlaced, AllApart, RadiusById, HasItsRadius;
    var ids, radius, comps := Ids(data.parties), RadiusById(data.parties), data.components;
    HomesKeepApart(comps, homes, positions, radius);
    forall id | id in ids ensures GraphLayout.InSome(comps, id) && id in radius && radius[id] >= 0.0 {
      EveryPartyInSome(data, id);
      RadiusKnown(data.parties, width, id);
    }
    HomesKeepOnCanvas(ids, comps, homes, positions, radius, width, bottom);
    MainStays(comps[0], separated, positions, radius);
  }

  // ----- From the API's network to the picture -----

  /** Two parties that opened channels together. */
  datatype Pair = Pair(first: string, second: string, channels: nat)

  datatype Network = Network(parties: seq<Party>, pairs: seq<Pair>, observedParties: int, observedPairs: int,
    totalChannels: int)

  function Links(pairs: seq<Pair>): (r: seq<GraphLayout.Edge>)
    ensures |r| == |pairs| && forall i :: 0 <= i < |pairs| ==> r[i] == (pairs[i].first, pairs[i].second)
  {
    seq(|pairs|, i requires 0 <= i < |pairs| => (pairs[i].first, pairs[i].second))
  }

  function Represented(pairs: seq<Pair>): nat {
    if pairs == [] then 0 else Represented(pairs[..|pairs| - 1]) + pairs[|pairs| - 1].channels
  }

  /** The channels of the pairs, added up from the first on. */
  lemma {:induction false} RepresentedAdds(first: Pair, rest: seq<Pair>)
    ensures Represented([]) == 0 && Represented([first] + rest) == first.channels + Represented(rest)
  {
    var pairs := [first] + rest;
    if rest == [] {
      assert pairs[..0] == [];
    } else {
      var n := |rest| - 1;
      RepresentedAdds(first, rest[..n]);
      assert pairs[..|rest|] == [first] + rest[..n];
    }
  }

  method CountChannels(pairs: seq<Pair>) returns (total: nat)
    ensures total == Represented(pairs)
  {
    total := 0;
    for i := 0 to |pairs|
      invariant total == Represented(pairs[..i])
    {
      assert pairs[..i + 1][..i] == pairs[..i];
      total := total + pairs[i].channels;
    }
    assert pairs[..|pairs|] == pairs;
  }

  ghost predicate Consistent(n: Network) {
    && |n.parties| == n.observedParties && |n.pairs| == n.observedPairs
    && GraphLayout.KnownEnds(Ids(n.parties), Links(n.pairs)) && Sorting.Distinct(Ids(n.parties))
    && Represented(n.pairs) <= n.totalChannels
  }

  /** For every party, the parties it shares a pair with. */
  ghost predicate AreNeighbours(neighbours: map<string, set<string>>, ids: seq<string>, links: seq<GraphLayout.Edge>) {
    && neighbours.Keys == GraphLayout.Elements(ids)
    && forall u, v :: u in neighbours ==> (v in neighbours[u] <==> (u, v) in links || (v, u) in links)
  }

  /** The parties by their lock hash. */
  ghost predicate IsIndex(byId: map<string, Party>, parties: seq<Party>) {
    && byId.Keys == GraphLayout.Elements(Ids(parties))
    && forall i :: 0 <= i < |parties| ==> parties[i].id in byId && byId[parties[i].id] == parties[i]
  }

  method Neighbours(ids: seq<string>, links: seq<GraphLayout.Edge>) returns (neighbours: map<string, set<string>>)
    requires GraphLayout.KnownEnds(ids, links)
    ensures AreNeighbours(neighbours, ids, links)
  {
    neighbours := map id | id in ids :: {};
    assert links[..0] == [];
    assert AreNeighbours(neighbours, ids, links[..0]);
    hide AreNeighbours;
    for k := 0 to |links|
      invariant AreNeighbours(neighbours, ids, links[..k])
    {
      var (a, b) := links[k];
      assert links[..k + 1] == links[..k] + [(a, b)];
      assert links[k].0 in ids && links[k].1 in ids;
      NeighboursOneMore(neighbours, ids, links[..k], a, b);
      neighbours := neighbours[a := neighbours[a] + {b}];
      neighbours := neighbours[b := neighbours[b] + {a}];
    }
    assert links[..|links|] == links;
  }

  lemma {:induction false} NeighboursOneMore(before: map<string, set<string>>, ids: seq<string>,
      links: seq<GraphLayout.Edge>, a: string, b: string)
    requires AreNeighbours(before, ids, links) && a in ids && b in ids
    ensures a in before && b in before
    ensures var one := before[a := before[a] + {b}]; AreNeighbours(one[b := one[b] + {a}], ids, links + [(a, b)])
  {
    assert forall e :: e in links + [(a, b)] <==> e in links || e == (a, b);
  }

  method Index(parties: seq<Party>) returns (byId: map<string, Party>)
    ensures byId.Keys == GraphLayout.Elements(Ids(parties))
    ensures Sorting.Distinct(Ids(parties)) ==> IsIndex(byId, parties)
  {
    byId := map[];
    for k := 0 to |parties|
      invariant byId.Keys == GraphLayout.Elements(Ids(parties)[..k])
      invariant Sorting.Distinct(Ids(parties)) ==> forall i :: 0 <= i < k ==>
        parties[i].id in byId && byId[parties[i].id] == parties[i]
    {
      assert Ids(parties)[..k + 1] == Ids(parties)[..k] + [parties[k].id];
      if Sorting.Distinct(Ids(parties)) {
        assert forall i :: 0 <= i < k ==> Ids(parties)[i] != Ids(parties)[k];
      }
      byId := byId[parties[k].id := parties[k]];
    }
    assert Ids(parties)[..|parties|] == Ids(parties);
  }

  /** fiberGraphData: the network checked against its own summary, its parties by id, its components and neighbours. */
  method GraphData(n: Network)
    returns (r: Result<Data>, byId: map<string, Party>, neighbours: map<string, set<string>>, unpaired: nat)
    requires forall i :: 0 <= i < |n.parties| ==> HasItsRadius(n.parties[i])
    ensures r.Ok? <==> Consistent(n)
    ensures r.Ok? ==> r.value.parties == n.parties && r.value.links == Links(n.pairs) && WellFormed(r.value)
    ensures r.Ok? ==> IsIndex(byId, n.parties) && AreNeighbours(neighbours, Ids(n.parties), Links(n.pairs))
    ensures r.Ok? ==> unpaired + Represented(n.pairs) == n.totalChannels
  {
    hide GraphLayout.AreComponents, Sorting.Distinct, HasItsRadius, AreNeighbours, IsIndex;
    byId, neighbours, unpaired := map[], map[], 0;
    if |n.parties| != n.observedParties || |n.pairs| != n.observedPairs { r := Err; return; }
    var ids, links := Ids(n.parties), Links(n.pairs);
    byId := Index(n.parties);
    for i := 0 to |n.pairs|
      invariant forall j :: 0 <= j < i ==> n.pairs[j].first in ids && n.pairs[j].second in ids
    {
      if n.pairs[i].first !in byId || n.pairs[i].second !in byId {
        assert links[i] == (n.pairs[i].first, n.pairs[i].second);
        r := Err;
        return;
      }
    }
    assert GraphLayout.KnownEnds(ids, links);
    hide GraphLayout.KnownEnds;
    var represented := CountChannels(n.pairs);
    if represented > n.totalChannels { r := Err; return; }
    neighbours := Neighbours(ids, links);
    var comps := GraphLayout.ConnectedComponents(ids, links);
    if comps.Err? { r := Err; return; }
    r, unpaired := Ok(Data(n.parties, links, comps.value)), n.totalChannels - represented;
  }

  /** fiberGraphModel on a narrow canvas: whatever is drawn is drawn inside it and apart. */
  method GraphModel(n: Network, width: real, place: Layouter) returns (r: Result<(Data, Picture)>)
    requires forall i :: 0 <= i < |n.parties| ==> HasItsRadius(n.parties[i])
    requires LaysOut(place) && width < SIDE_FROM
    ensures r.Ok? ==> Consistent(n) && width > 0.0
    ensures r.Ok? ==> r.value.0.parties == n.parties && r.value.0.links == Links(n.pairs) && WellFormed(r.value.0)
    ensures r.Ok? ==> Drawn(r.value.0, r.value.1, width)
    ensures r.Ok? && r.value.0.components != [] ==> Composed(r.value.0, r.value.1, width, place)
  {
    hide WellFormed, Drawn, AreNeighbours, IsIndex, Composed, Consistent, HasItsRadius, LaysOut, AllSizeable,
      IslandsFit,
      SurelyDrawn, NeverSettles;
    var data, byId, neighbours, unpaired := GraphData(n);
    if data.Err? { return Err; }
    var picture := CompactLayout(data.value, width, place);
    if picture.Err? { return Err; }
    return Ok((data.value, picture.value));
  }

  // ----- What the strip can pass to the collision removal -----

  /** The parties behind `STRIP_BOXES`, and their heights in the spring layout, all in one column. */
  const STRIP_PARTIES: seq<Party> := [Party("a", 625, 60.0), Party("b", 1, 7.2), Party("c", 1, 7.2)]

  const STRIP_HEIGHTS: seq<real> := [0.0, 93.0, 464.0]

  /** The boxes of `LoweringCanOverlap` are parties fitted to the strip's box of a 720 px canvas with no islands. */
  lemma {:induction false} StripPassesThem(i: nat)
    requires i < 3
    ensures HasItsRadius(STRIP_PARTIES[i])
    ensures var p, y := STRIP_PARTIES[i], STRIP_HEIGHTS[i];
      STRIP_BOXES[i] == BoxOf(p.id,
        Point(Scale(0.5, 0.5, 0.5, PAD, SIDE_FROM - PAD), Scale(y, 0.0, 464.0, PAD, MIN_HEIGHT - PAD)), p.radius)
  {
    assert i == 0 || i == 1 || i == 2;
    ColumnScales(STRIP_HEIGHTS[i]);
  }

  lemma {:induction false} ColumnScales(y: real)
    ensures Scale(y, 0.0, 464.0, PAD, MIN_HEIGHT - PAD) == 48.0 + y
  {
    ShareTimes(y, 0.0, 464.0);
  }
}
