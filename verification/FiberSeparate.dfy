/** The collision removal of fiber-network-model.ts: footprints pushed apart in place. */
module FiberSeparate {
  import opened Common
  import Sorting

  datatype Point = Point(x: real, y: real)

  const LABEL_HALF: real := 23.0
  const LABEL_DROP: real := 14.0
  const RING: real := 4.0
  /** Space kept between two footprints. */
  const FOOTPRINT_GAP: real := 3.0
  const SLACK: real := 0.000001
  const MAX_PASSES: nat := 2000

  function ReachX(r: real): real { Max(r + RING, LABEL_HALF) }

  function ReachUp(r: real): real { r + RING }

  function ReachDown(r: real): real { r + LABEL_DROP + 4.0 }

  /** To either side a party reaches as far as its ring or half its label, whichever is more. */
  ghost function Wide(r: real): real { if r <= 19.0 then 23.0 else r + 4.0 }

  lemma {:induction false} ReachIs(r: real)
    ensures ReachX(r) == Wide(r) && ReachUp(r) == r + 4.0 && ReachDown(r) == r + 18.0
  {
  }

  /** What a party covers on the canvas: ring and label, measured from the centre. */
  datatype Box = Box(id: string, p: Point, x: real, up: real, down: real)
  {
    function Left(): real { p.x - x }
    function Right(): real { p.x + x }
    function Top(): real { p.y - up }
    function Bottom(): real { p.y + down }

    predicate Proper() { x > 0.0 && up > 0.0 && down > 0.0 }

    predicate WithinX(width: real) { 0.0 <= Left() && Right() <= width }

    function ClampX(width: real): (b: Box)
      ensures b == this.(p := p.(x := b.p.x)) && (2.0 * x <= width ==> b.WithinX(width))
    {
      this.(p := p.(x := Min(width - x, Max(x, p.x))))
    }
  }

  function BoxOf(id: string, p: Point, r: real): Box { Box(id, p, ReachX(r), ReachUp(r), ReachDown(r)) }

  /** How far two footprints overlap across, and down. */
  function OverlapX(a: Box, b: Box): real { Min(a.Right(), b.Right()) - Max(a.Left(), b.Left()) }

  function OverlapY(a: Box, b: Box): real { Min(a.Bottom(), b.Bottom()) - Max(a.Top(), b.Top()) }

  predicate PassesCheck(a: Box, b: Box) {
    OverlapX(a, b) + FOOTPRINT_GAP <= SLACK || OverlapY(a, b) + FOOTPRINT_GAP <= SLACK
  }

  /** On one of the axes, one footprint ends at least `gap` before the other begins. */
  ghost predicate Apart(a: Box, b: Box, gap: real) {
    || a.Right() + gap <= b.Left() || b.Right() + gap <= a.Left()
    || a.Bottom() + gap <= b.Top() || b.Bottom() + gap <= a.Top()
  }

  /** Passing the overlap check means a real gap on one axis. */
  lemma {:induction false} CheckedIsApart(a: Box, b: Box)
    requires a.Proper() && b.Proper()
    ensures PassesCheck(a, b) <==> Apart(a, b, FOOTPRINT_GAP - SLACK)
  {
  }

  ghost predicate SameShape(a: Box, b: Box) { a.id == b.id && a.x == b.x && a.up == b.up && a.down == b.down }

  ghost predicate SameShapes(s: seq<Box>, t: seq<Box>) {
    |s| == |t| && forall k :: 0 <= k < |s| ==> SameShape(s[k], t[k])
  }

  ghost predicate AcrossCanvas(s: seq<Box>, width: real) {
    forall k :: 0 <= k < |s| ==> s[k].Proper() && 2.0 * s[k].x <= width && s[k].WithinX(width)
  }

  ghost predicate BelowTop(s: seq<Box>, top: real) {
    forall k :: 0 <= k < |s| ==> s[k].Top() >= top
  }

  /** Boxes that were across the canvas still are. */
  ghost predicate StaysAcross(before: seq<Box>, after: seq<Box>, width: real) {
    SameShapes(after, before) && (AcrossCanvas(before, width) ==> AcrossCanvas(after, width))
  }

  /** Box `k` moved; a box that fits is kept across the canvas. */
  method Put(boxes: array<Box>, k: nat, b: Box, ghost width: real)
    requires k < boxes.Length && SameShape(b, boxes[k])
    requires 2.0 * b.x <= width && boxes[k].WithinX(width) ==> b.WithinX(width)
    modifies boxes
    ensures boxes[..] == old(boxes[..])[k := b]
    ensures StaysAcross(old(boxes[..]), boxes[..], width)
  {
    assert boxes[k] == boxes[..][k];
    boxes[k] := b;
    assert boxes[..] == old(boxes[..])[k := b];
  }

  /** The two boxes after a push across: half the overlap and gap each, as far as the walls let them. */
  function ShovedX(l: Box, r: Box, push: real, width: real): (Box, Box)
  {
    (MoveX(l, -push / 2.0).ClampX(width), MoveX(r, push / 2.0).ClampX(width))
  }

  predicate Stopped(l: Box, r: Box, push: real, width: real)
  {
    var (l', r') := ShovedX(l, r, push, width);
    r'.p.x - l'.p.x - (r.p.x - l.p.x) < push - SLACK
  }

  /** Where a push takes two overlapping footprints. */
  function Pushed(a: Box, b: Box, width: real): (Box, Box)
  {
    var across, down := OverlapX(a, b) + FOOTPRINT_GAP, OverlapY(a, b) + FOOTPRINT_GAP;
    if across < down then
      var aLeft := b.p.x >= a.p.x;
      var stopped := if aLeft then Stopped(a, b, across, width) else Stopped(b, a, across, width);
      var (a', b') := if aLeft then ShovedX(a, b, across, width)
                      else var (l, r) := ShovedX(b, a, across, width); (r, l);
      if !stopped then (a', b')
      else if b.p.y >= a.p.y then (a', MoveY(b', down))
      else (MoveY(a', down), b')
    else if b.p.y >= a.p.y then (MoveY(a, -down / 2.0), MoveY(b, down / 2.0))
    else (MoveY(a, down / 2.0), MoveY(b, -down / 2.0))
  }

  method PushAcross(boxes: array<Box>, left: nat, right: nat, lower: nat, ox: real, oy: real, width: real)
    requires left < boxes.Length && right < boxes.Length && left != right && lower < boxes.Length
    modifies boxes
    ensures StaysAcross(old(boxes[..]), boxes[..], width)
    ensures var (l, r) := ShovedX(old(boxes[left]), old(boxes[right]), ox + FOOTPRINT_GAP, width);
      var shoved := old(boxes[..])[left := l][right := r];
      boxes[..] == if Stopped(old(boxes[left]), old(boxes[right]), ox + FOOTPRINT_GAP, width)
                   then shoved[lower := MoveY(shoved[lower], oy + FOOTPRINT_GAP)] else shoved
  {
    hide StaysAcross;
    var before := boxes[right].p.x - boxes[left].p.x;
    Put(boxes, left, MoveX(boxes[left], -(ox + FOOTPRINT_GAP) / 2.0).ClampX(width), width);
    ghost var one := boxes[..];
    Put(boxes, right, MoveX(boxes[right], (ox + FOOTPRINT_GAP) / 2.0).ClampX(width), width);
    AcrossThrough(old(boxes[..]), one, boxes[..], width);
    // The canvas edge took some of the shove, so the lower box makes way downwards.
    if boxes[right].p.x - boxes[left].p.x - before < ox + FOOTPRINT_GAP - SLACK {
      ghost var two := boxes[..];
      Put(boxes, lower, MoveY(boxes[lower], oy + FOOTPRINT_GAP), width);
      AcrossThrough(old(boxes[..]), two, boxes[..], width);
    }
  }

  method PushDown(boxes: array<Box>, upper: nat, lower: nat, oy: real, ghost width: real)
    requires upper < boxes.Length && lower < boxes.Length && upper != lower
    modifies boxes
    ensures StaysAcross(old(boxes[..]), boxes[..], width)
    ensures boxes[..] == old(boxes[..])[upper := MoveY(old(boxes[upper]), -(oy + FOOTPRINT_GAP) / 2.0)]
                                       [lower := MoveY(old(boxes[lower]), (oy + FOOTPRINT_GAP) / 2.0)]
  {
    hide StaysAcross;
    Put(boxes, upper, MoveY(boxes[upper], -(oy + FOOTPRINT_GAP) / 2.0), width);
    ghost var one := boxes[..];
    Put(boxes, lower, MoveY(boxes[lower], (oy + FOOTPRINT_GAP) / 2.0), width);
    AcrossThrough(old(boxes[..]), one, boxes[..], width);
  }

  lemma {:induction false} AcrossItself(s: seq<Box>, width: real)
    ensures StaysAcross(s, s, width)
  {
  }

  lemma {:induction false} AcrossThrough(s: seq<Box>, t: seq<Box>, u: seq<Box>, width: real)
    requires StaysAcross(s, t, width) && StaysAcross(t, u, width)
    ensures StaysAcross(s, u, width)
  {
  }

  /** Two boxes: left alone if they are apart, else pushed along the axis on which they overlap less. */
  method PushApart(boxes: array<Box>, i: nat, j: nat, width: real) returns (moved: bool)
    requires i < j < boxes.Length
    modifies boxes
    ensures StaysAcross(old(boxes[..]), boxes[..], width)
    ensures moved <==> !old(PassesCheck(boxes[i], boxes[j]))
    ensures !moved ==> boxes[..] == old(boxes[..])
    ensures moved ==>
      var (a, b) := Pushed(old(boxes[i]), old(boxes[j]), width);
      boxes[..] == old(boxes[..])[i := a][j := b]
  {
    hide StaysAcross;
    var a, b := boxes[i], boxes[j];
    var ox, oy := OverlapX(a, b), OverlapY(a, b);
    if ox + FOOTPRINT_GAP <= SLACK || oy + FOOTPRINT_GAP <= SLACK {
      AcrossItself(boxes[..], width);
      return false;
    }
    var left, right := i, j;
    if b.p.x < a.p.x { left, right := j, i; }
    var upper, lower := i, j;
    if b.p.y < a.p.y { upper, lower := j, i; }
    if ox < oy {
      PushAcross(boxes, left, right, lower, ox, oy, width);
    } else {
      PushDown(boxes, upper, lower, oy, width);
    }
    return true;
  }

  function MoveX(b: Box, d: real): Box { b.(p := b.p.(x := b.p.x + d)) }

  function MoveY(b: Box, d: real): Box { b.(p := b.p.(y := b.p.y + d)) }

  /** How far, across, the left footprint's right side and the right one's left side lie beyond their partner's. */
  function NestedX(a: Box, b: Box): real {
    var (l, r) := if b.p.x >= a.p.x then (a, b) else (b, a);
    Max(0.0, l.Right() - r.Right()) + Max(0.0, l.Left() - r.Left())
  }

  function NestedY(a: Box, b: Box): real {
    var (u, d) := if b.p.y >= a.p.y then (a, b) else (b, a);
    Max(0.0, u.Bottom() - d.Bottom()) + Max(0.0, u.Top() - d.Top())
  }

  /** What the walls take off a push across. */
  function Lost(a: Box, b: Box, width: real): real {
    var push := OverlapX(a, b) + FOOTPRINT_GAP;
    var (l, r) := if b.p.x >= a.p.x then (a, b) else (b, a);
    var (l', r') := ShovedX(l, r, push, width);
    push - (r'.p.x - l'.p.x - (r.p.x - l.p.x))
  }

  /** Walls far enough inside the boxes can throw them past each other: the left one ends up right of the right one. */
  predicate ThrownPast(a: Box, b: Box, width: real) {
    var (l, r) := if b.p.x >= a.p.x then (a, b) else (b, a);
    r.p.x - l.p.x + OverlapX(a, b) + FOOTPRINT_GAP - Lost(a, b, width) + l.x + r.x + FOOTPRINT_GAP <= SLACK
  }

  /**
   On an axis the push takes, the footprints are nested by no more than the slack leaves, or they are thrown past each
   other.
   */
  predicate Freeable(a: Box, b: Box, width: real) {
    var across := OverlapX(a, b) < OverlapY(a, b);
    || (across && (NestedX(a, b) + Lost(a, b, width) <= SLACK || ThrownPast(a, b, width)))
    || ((!across || Lost(a, b, width) > SLACK) && NestedY(a, b) <= SLACK)
  }

  /**
   Two overlapping footprints: what one would have to move to clear the other is their overlap and how far they are
   nested.
   */
  lemma {:induction false} ToClear(a: Box, b: Box)
    ensures (if b.p.x >= a.p.x then a.Right() - b.Left() else b.Right() - a.Left()) == OverlapX(a, b) + NestedX(a, b)
    ensures (if b.p.y >= a.p.y then a.Bottom() - b.Top() else b.Bottom() - a.Top()) == OverlapY(a, b) + NestedY(a, b)
  {
  }

  ghost predicate ApartX(a: Box, b: Box, gap: real) { a.Right() + gap <= b.Left() || b.Right() + gap <= a.Left() }

  ghost predicate ApartY(a: Box, b: Box, gap: real) { a.Bottom() + gap <= b.Top() || b.Bottom() + gap <= a.Top() }

  /**
   Moving the right footprint on by `d`, relative to the left one, clears them exactly if `d` is enough one way or the
   other.
   */
  lemma {:induction false} ClearedX(a: Box, b: Box, a': Box, b': Box, d: real)
    requires a'.x == a.x && b'.x == b.x
    requires b'.p.x - a'.p.x == b.p.x - a.p.x + if b.p.x >= a.p.x then d else -d
    ensures ApartX(a', b', FOOTPRINT_GAP - SLACK) <==>
      || OverlapX(a, b) + NestedX(a, b) + FOOTPRINT_GAP - SLACK <= d
      || (if b.p.x >= a.p.x then b.p.x - a.p.x else a.p.x - b.p.x) + d + a.x + b.x + FOOTPRINT_GAP <= SLACK
  {
    ToClear(a, b);
    hide OverlapX, OverlapY, NestedX;
  }

  lemma {:induction false} ClearedY(a: Box, b: Box, a': Box, b': Box, d: real)
    requires a.Proper() && b.Proper() && !PassesCheck(a, b) && d >= 0.0
    requires a'.up == a.up && b'.up == b.up && a'.down == a.down && b'.down == b.down
    requires b'.p.y - a'.p.y == b.p.y - a.p.y + if b.p.y >= a.p.y then d else -d
    ensures ApartY(a', b', FOOTPRINT_GAP - SLACK) <==> OverlapY(a, b) + NestedY(a, b) + FOOTPRINT_GAP - SLACK <= d
  {
    ToClear(a, b);
    hide OverlapX, OverlapY, NestedY;
    assert if b.p.y >= a.p.y then b.Bottom() > a.Top() else a.Bottom() > b.Top();
  }

  /** What a push does to the two centres' distances. */
  lemma {:induction false} PushedBy(a: Box, b: Box, width: real) returns (dx: real, dy: real)
    requires !PassesCheck(a, b)
    ensures var (a', b') := Pushed(a, b, width);
      && SameShape(a', a) && SameShape(b', b)
      && b'.p.x - a'.p.x == b.p.x - a.p.x + (if b.p.x >= a.p.x then dx else -dx)
      && b'.p.y - a'.p.y == b.p.y - a.p.y + (if b.p.y >= a.p.y then dy else -dy)
    ensures var across, down := OverlapX(a, b) + FOOTPRINT_GAP, OverlapY(a, b) + FOOTPRINT_GAP;
      && dx == (if across < down then across - Lost(a, b, width) else 0.0)
      && dy == (if across < down && Lost(a, b, width) <= SLACK then 0.0 else down)
  {
    hide OverlapX, OverlapY, ShovedX;
    var across, down := OverlapX(a, b) + FOOTPRINT_GAP, OverlapY(a, b) + FOOTPRINT_GAP;
    dx := if across < down then across - Lost(a, b, width) else 0.0;
    dy := if across < down && Lost(a, b, width) <= SLACK then 0.0 else down;
    if b.p.x >= a.p.x { ShoveKeepsShape(a, b, across, width); } else { ShoveKeepsShape(b, a, across, width); }
  }

  /** A push away by `d`, or as much of it as the canvas has left on that side. */
  ghost predicate MovesOff(was: real, now: real, d: real, room: real) {
    0.0 <= now - was <= d && (now - was == d || now - was == room)
  }

  /** Parting across: half of the overlap and gap each, up to the canvas edges. */
  ghost predicate PartsAcross(l: Box, r: Box, l': Box, r': Box, push: real, width: real) {
    && MovesOff(-l.p.x, -l'.p.x, push / 2.0, l.Left())
    && MovesOff(r.p.x, r'.p.x, push / 2.0, width - r.Right())
  }

  /** The edges took some of it. */
  ghost predicate FallsShort(l: Box, r: Box, l': Box, r': Box, push: real) {
    (r'.p.x - r.p.x) + (l.p.x - l'.p.x) < push - 0.000001
  }

  /** The upper one moves up by `up`, the lower one down by `down`. */
  ghost predicate PartsDown(a: Box, b: Box, a': Box, b': Box, up: real, down: real) {
    if b.p.y >= a.p.y then a'.p.y == a.p.y - up && b'.p.y == b.p.y + down
    else b'.p.y == b.p.y - up && a'.p.y == a.p.y + down
  }

  lemma {:induction false} PushedDown(a: Box, b: Box, width: real)
    requires OverlapX(a, b) >= OverlapY(a, b)
    ensures var (a', b') := Pushed(a, b, width);
      var down := OverlapY(a, b) + 3.0;
      a'.p.x == a.p.x && b'.p.x == b.p.x && PartsDown(a, b, a', b', down / 2.0, down / 2.0)
  {
    hide OverlapX, OverlapY, ShovedX, Stopped;
  }

  lemma {:induction false} PushedRight(a: Box, b: Box, width: real)
    requires !PassesCheck(a, b) && a.WithinX(width) && b.WithinX(width)
    requires OverlapX(a, b) < OverlapY(a, b) && b.p.x >= a.p.x
    ensures var (a', b') := Pushed(a, b, width);
      var across, down := OverlapX(a, b) + 3.0, OverlapY(a, b) + 3.0;
      && PartsAcross(a, b, a', b', across, width)
      && PartsDown(a, b, a', b', 0.0, if FallsShort(a, b, a', b', across) then down else 0.0)
  {
    hide OverlapX, OverlapY, ShovedX, PassesCheck;
    Overlapping(a, b);
    ShoveMovesOff(a, b, OverlapX(a, b) + 3.0, width);
  }

  lemma {:induction false} PushedLeft(a: Box, b: Box, width: real)
    requires !PassesCheck(a, b) && a.WithinX(width) && b.WithinX(width)
    requires OverlapX(a, b) < OverlapY(a, b) && b.p.x < a.p.x
    ensures var (a', b') := Pushed(a, b, width);
      var across, down := OverlapX(a, b) + 3.0, OverlapY(a, b) + 3.0;
      && PartsAcross(b, a, b', a', across, width)
      && PartsDown(a, b, a', b', 0.0, if FallsShort(b, a, b', a', across) then down else 0.0)
  {
    hide OverlapX, OverlapY, ShovedX, PassesCheck;
    Overlapping(a, b);
    ShoveMovesOff(b, a, OverlapX(a, b) + 3.0, width);
  }

  /**
   Two overlapping footprints on the canvas part along the axis they overlap less on, half of the overlap and gap each.
   Across, a footprint that meets the canvas edge stops there, and then the lower one makes all the way downwards too.
   */
  lemma {:induction false} PushIsShared(a: Box, b: Box, width: real)
    requires !PassesCheck(a, b) && a.WithinX(width) && b.WithinX(width)
    ensures var (a', b') := Pushed(a, b, width);
      var across, down := OverlapX(a, b) + 3.0, OverlapY(a, b) + 3.0;
      if across >= down then
        a'.p.x == a.p.x && b'.p.x == b.p.x && PartsDown(a, b, a', b', down / 2.0, down / 2.0)
      else if b.p.x >= a.p.x then
        && PartsAcross(a, b, a', b', across, width)
        && PartsDown(a, b, a', b', 0.0, if FallsShort(a, b, a', b', across) then down else 0.0)
      else
        && PartsAcross(b, a, b', a', across, width)
        && PartsDown(a, b, a', b', 0.0, if FallsShort(b, a, b', a', across) then down else 0.0)
  {
    hide Pushed, OverlapX, OverlapY, PassesCheck, PartsAcross, PartsDown, FallsShort;
    if OverlapX(a, b) >= OverlapY(a, b) {
      PushedDown(a, b, width);
    } else if b.p.x >= a.p.x {
      PushedRight(a, b, width);
    } else {
      PushedLeft(a, b, width);
    }
  }

  lemma {:induction false} ShoveMovesOff(l: Box, r: Box, push: real, width: real)
    requires push > 0.0 && l.WithinX(width) && r.WithinX(width)
    ensures var (l', r') := ShovedX(l, r, push, width);
      PartsAcross(l, r, l', r', push, width) && l'.p.y == l.p.y && r'.p.y == r.p.y
  {
  }

  lemma {:induction false} ShoveKeepsShape(l: Box, r: Box, push: real, width: real)
    ensures var (l', r') := ShovedX(l, r, push, width);
      SameShape(l', l) && SameShape(r', r) && l'.p.y == l.p.y && r'.p.y == r.p.y
  {
  }

  lemma {:induction false} Overlapping(a: Box, b: Box)
    requires !PassesCheck(a, b)
    ensures OverlapX(a, b) + FOOTPRINT_GAP > 0.0 && OverlapY(a, b) + FOOTPRINT_GAP > 0.0
  {
    hide OverlapX, OverlapY;
  }

  /**
   Between boxes on the canvas the walls take none of a push, or some of it; they never add to it or turn it round.
   */
  lemma {:induction false} WallsTake(a: Box, b: Box, width: real)
    requires !PassesCheck(a, b)
    requires 2.0 * a.x <= width && 2.0 * b.x <= width && a.WithinX(width) && b.WithinX(width)
    ensures 0.0 <= Lost(a, b, width) <= OverlapX(a, b) + FOOTPRINT_GAP
  {
    Overlapping(a, b);
    hide OverlapX, OverlapY;
  }

  /** One push frees two footprints if and only if they are `Freeable`, wherever they stand. */
  lemma {:induction false} PushFreesExactlyWhen(a: Box, b: Box, width: real)
    requires a.Proper() && b.Proper() && !PassesCheck(a, b)
    ensures var (a', b') := Pushed(a, b, width); Apart(a', b', FOOTPRINT_GAP - SLACK) <==> Freeable(a, b, width)
  {
    hide Pushed, OverlapX, OverlapY, NestedX, NestedY, Lost, Apart, ApartX, ApartY;
    var (a', b') := Pushed(a, b, width);
    var dx, dy := PushedBy(a, b, width);
    Overlapping(a, b);
    ClearedX(a, b, a', b', dx);
    ClearedY(a, b, a', b', dy);
    NestedNotNegative(a, b);
    EitherAxis(a', b', FOOTPRINT_GAP - SLACK);
  }

  lemma {:induction false} EitherAxis(a: Box, b: Box, gap: real)
    ensures Apart(a, b, gap) <==> ApartX(a, b, gap) || ApartY(a, b, gap)
  {
  }

  lemma {:induction false} NestedNotNegative(a: Box, b: Box)
    ensures NestedX(a, b) >= 0.0 && NestedY(a, b) >= 0.0
  {
  }

  /** On each axis, neither footprint reaches past the other on both sides. */
  ghost predicate Crossing(a: Box, b: Box) {
    && (if b.p.x >= a.p.x then a.Left() <= b.Left() && a.Right() <= b.Right()
      else b.Left() <= a.Left() && b.Right() <= a.Right())
    && (if b.p.y >= a.p.y then a.Top() <= b.Top() && a.Bottom() <= b.Bottom()
      else b.Top() <= a.Top() && b.Bottom() <= a.Bottom())
  }

  /** So it frees any two that cross, whichever axis it takes. */
  lemma {:induction false} PushFrees(a: Box, b: Box, width: real)
    requires a.Proper() && b.Proper() && 2.0 * a.x <= width && 2.0 * b.x <= width
    requires a.WithinX(width) && b.WithinX(width)
    requires !PassesCheck(a, b) && Crossing(a, b)
    ensures var (a', b') := Pushed(a, b, width); Apart(a', b', FOOTPRINT_GAP - SLACK)
  {
    PushFreesExactlyWhen(a, b, width);
    WallsTake(a, b, width);
    CrossingIsNotNested(a, b);
    hide Pushed, OverlapX, OverlapY, NestedX, NestedY, Lost, Apart, Crossing;
  }

  lemma {:induction false} CrossingIsNotNested(a: Box, b: Box)
    requires Crossing(a, b)
    ensures NestedX(a, b) == 0.0 && NestedY(a, b) == 0.0
  {
  }

  ghost predicate AllPass(s: seq<Box>) {
    forall i, j :: 0 <= i < j < |s| ==> PassesCheck(s[i], s[j])
  }

  ghost predicate PassBefore(s: seq<Box>, i: nat, j: nat) {
    && (forall a, b :: 0 <= a < i && a < b < |s| ==> PassesCheck(s[a], s[b]))
    && (forall b :: i < b < j && b < |s| && i < |s| ==> PassesCheck(s[i], s[b]))
  }

  lemma {:induction false} PassOneMore(s: seq<Box>, i: nat, j: nat)
    requires i < j < |s| && PassBefore(s, i, j) && PassesCheck(s[i], s[j])
    ensures PassBefore(s, i, j + 1)
  {
  }

  lemma {:induction false} PassRow(s: seq<Box>, i: nat)
    requires i < |s|
    ensures PassBefore(s, i, i + 1) <==> PassBefore(s, i, 0)
    ensures PassBefore(s, i, |s|) ==> PassBefore(s, i + 1, 0)
    ensures AllPass(s) ==> PassBefore(s, i, |s|)
  {
  }

  lemma {:induction false} PassEnds(s: seq<Box>)
    ensures PassBefore(s, 0, 0) && (PassBefore(s, |s|, 0) <==> AllPass(s))
  {
  }

  ghost function PushedPair(s: seq<Box>, width: real): seq<Box>
    requires |s| == 2
  {
    var (a, b) := Pushed(s[0], s[1], width);
    [a, b]
  }

  // ----- One pass: every pair once, in order, each pair as the pairs before it left it -----

  function PushOnce(s: seq<Box>, i: nat, j: nat, width: real): (t: seq<Box>)
    requires i < j < |s|
    ensures |t| == |s|
  {
    if PassesCheck(s[i], s[j]) then s
    else
      var (a, b) := Pushed(s[i], s[j], width);
      s[i := a][j := b]
  }

  ghost function RowPushed(s: seq<Box>, i: nat, j: nat, width: real): (t: seq<Box>)
    requires i < j <= |s|
    ensures |t| == |s|
  {
    if j == i + 1 then s else PushOnce(RowPushed(s, i, j - 1, width), i, j - 1, width)
  }

  ghost function RowsPushed(s: seq<Box>, i: nat, width: real): (t: seq<Box>)
    requires i <= |s|
    ensures |t| == |s|
  {
    if i == 0 then s else RowPushed(RowsPushed(s, i - 1, width), i - 1, |s|, width)
  }

  ghost function PassOf(s: seq<Box>, width: real): (t: seq<Box>)
    ensures |t| == |s|
  {
    RowsPushed(s, |s|, width)
  }

  lemma {:induction false} PairPass(s: seq<Box>, width: real)
    requires |s| == 2 && !AllPass(s)
    ensures PassOf(s, width) == PushedPair(s, width)
  {
    hide Pushed, PassesCheck;
    assert RowsPushed(s, 0, width) == s;
    assert RowPushed(s, 0, 2, width) == PushOnce(RowPushed(s, 0, 1, width), 0, 1, width);
    assert RowsPushed(s, 1, width) == PushedPair(s, width);
  }

  /** A pass over the boxes; quiet only if every pair already passes. */
  method PushAll(boxes: array<Box>, width: real) returns (moved: bool)
    modifies boxes
    ensures StaysAcross(old(boxes[..]), boxes[..], width)
    ensures boxes[..] == PassOf(old(boxes[..]), width)
    ensures !moved ==> boxes[..] == old(boxes[..])
    ensures !moved <==> AllPass(old(boxes[..]))
  {
    hide StaysAcross, PassBefore, PassesCheck, Pushed;
    ghost var start := boxes[..];
    moved := false;
    AcrossItself(start, width);
    PassEnds(start);
    for i := 0 to boxes.Length
      invariant StaysAcross(start, boxes[..], width) && boxes[..] == RowsPushed(start, i, width)
      invariant moved ==> !AllPass(start)
      invariant !moved ==> boxes[..] == start && PassBefore(start, i, 0)
    {
      PassRow(start, i);
      ghost var row := boxes[..];
      for j := i + 1 to boxes.Length
        invariant StaysAcross(start, boxes[..], width) && boxes[..] == RowPushed(row, i, j, width)
        invariant moved ==> !AllPass(start)
        invariant !moved ==> boxes[..] == start && PassBefore(start, i, j)
      {
        ghost var now := boxes[..];
        var pushed := PushApart(boxes, i, j, width);
        AcrossThrough(start, now, boxes[..], width);
        assert boxes[..] == PushOnce(now, i, j, width);
        if !moved {
          assert now[i] == start[i] && now[j] == start[j];
          if !pushed { PassOneMore(start, i, j); }
        }
        if pushed { moved := true; }
      }
    }
  }

  function Lowered(b: Box, top: real): Box { b.(p := b.p.(y := Max(top + b.up, b.p.y))) }

  ghost function AllLowered(s: seq<Box>, top: real): (t: seq<Box>)
    ensures |t| == |s| && forall k :: 0 <= k < |s| ==> t[k] == Lowered(s[k], top)
  {
    seq(|s|, k requires 0 <= k < |s| => Lowered(s[k], top))
  }

  /** Nothing stays above `top`. */
  method ClampAll(boxes: array<Box>, top: real)
    modifies boxes
    ensures boxes[..] == AllLowered(old(boxes[..]), top)
  {
    ghost var start := boxes[..];
    for k := 0 to boxes.Length
      invariant forall i :: 0 <= i < k ==> boxes[i] == Lowered(start[i], top)
      invariant forall i :: k <= i < boxes.Length ==> boxes[i] == start[i]
    {
      boxes[k] := Lowered(boxes[k], top);
    }
  }

  lemma {:induction false} LoweredBoxes(s: seq<Box>, width: real, top: real)
    ensures StaysAcross(s, AllLowered(s, top), width) && BelowTop(AllLowered(s, top), top)
    ensures BelowTop(s, top) ==> AllLowered(s, top) == s
  {
  }

  // ----- Two parties are always separated -----

  /** A party's footprint: room for a label, and more below the centre than above it. */
  ghost predicate Solid(b: Box) { b.x >= LABEL_HALF && b.up >= 9.0 && b.down == b.up + LABEL_DROP }

  /** Two footprints on the canvas, below `top`. */
  ghost predicate PairOnCanvas(a: Box, b: Box, width: real, top: real) {
    && Solid(a) && Solid(b) && a.WithinX(width) && b.WithinX(width)
    && 2.0 * a.x <= width && 2.0 * b.x <= width && a.Top() >= top && b.Top() >= top
  }

  /** How far the two would still have to move to clear each other, the gap included. */
  function ClearX(a: Box, b: Box): real { OverlapX(a, b) + NestedX(a, b) + FOOTPRINT_GAP }

  function ClearY(a: Box, b: Box): real { OverlapY(a, b) + NestedY(a, b) + FOOTPRINT_GAP }

  /** What is nested overlaps by the whole of the smaller footprint. */
  lemma {:induction false} NestedIsDeep(a: Box, b: Box)
    requires Solid(a) && Solid(b)
    ensures NestedX(a, b) > 0.0 ==> OverlapX(a, b) >= 46.0
    ensures NestedY(a, b) > 0.0 ==> OverlapY(a, b) >= 32.0
  {
  }

  /** The most that `n` pushes down can clear: the slack, doubled up to 25 times, then 15 px each. */
  ghost function Reserve(n: nat): real {
    if n == 0 then SLACK else if n <= 25 then 2.0 * Reserve(n - 1) else Reserve(n - 1) + 15.0
  }

  lemma {:induction false} ReserveGrows(n: nat)
    ensures Reserve(n) >= SLACK
    ensures n <= 25 ==> Reserve(n) <= 33.6
    ensures n >= 25 ==> Reserve(n) >= 33.5 + 15.0 * (n - 25) as real
  {
    ReserveAt25();
    if n > 25 {
      ReserveGrows(n - 1);
    } else {
      ReserveUpTo25(n);
    }
  }

  lemma ReserveAt25()
    ensures 33.5 <= Reserve(25) <= 33.6
  {
    assert Reserve(5) == 32.0 * SLACK;
    assert Reserve(10) == 32.0 * Reserve(5);
    assert Reserve(15) == 32.0 * Reserve(10);
    assert Reserve(20) == 32.0 * Reserve(15);
    assert Reserve(25) == 32.0 * Reserve(20);
  }

  lemma {:induction false} ReserveUpTo25(n: nat)
    requires n <= 25
    ensures SLACK <= Reserve(n) <= Reserve(25)
    decreases 25 - n
  {
    ReservePositive(n);
    if n < 25 { ReserveUpTo25(n + 1); }
  }

  lemma {:induction false} ReservePositive(n: nat)
    requires n <= 25
    ensures Reserve(n) >= SLACK
  {
    if n > 0 { ReservePositive(n - 1); }
  }

  /** A push down that clears at least half of what overlaps spends one from the reserve. */
  lemma {:induction false} SpendDown(before: real, after: real, down: real, nested: real, n: nat)
    requires before == down + nested && nested >= 0.0 && (nested > 0.0 ==> down >= 35.0)
    requires SLACK < down && before <= Reserve(n) && after <= before - down / 2.0
    ensures n > 0 && after <= Reserve(n - 1)
  {
    ReserveGrows(n);
    if n > 25 { ReserveGrows(n - 1); }
  }

  /** `m` pushes across and `n` pushes down are enough. */
  ghost predicate Budgeted(a: Box, b: Box, m: nat, n: nat) {
    ClearX(a, b) <= 48.0 * m as real + SLACK && ClearY(a, b) <= Reserve(n)
  }

  lemma {:induction false} SpentPasses(a: Box, b: Box, m: nat, n: nat)
    requires Budgeted(a, b, m, n) && (m == 0 || n == 0)
    ensures PassesCheck(a, b)
  {
    NestedNotNegative(a, b);
    hide OverlapX, OverlapY, NestedX, NestedY;
  }

  /** The distance of two centres, across and down. */
  function ApartBy(u: real, v: real): real { if v >= u then v - u else u - v }

  lemma {:induction false} ClearByDistance(a: Box, b: Box)
    ensures ClearX(a, b) == a.x + b.x + FOOTPRINT_GAP - ApartBy(a.p.x, b.p.x)
    ensures ClearY(a, b) ==
      (if b.p.y >= a.p.y then a.down + b.up else b.down + a.up) + FOOTPRINT_GAP - ApartBy(a.p.y, b.p.y)
  {
    ToClear(a, b);
    hide OverlapX, OverlapY, NestedX, NestedY;
  }

  /** Where a push takes the two centres up and down, given where they were. */
  lemma {:induction false} PushedY(a: Box, b: Box, width: real)
    ensures var (p, q) := Pushed(a, b, width);
      var down := OverlapY(a, b) + FOOTPRINT_GAP;
      var (u, v) := if b.p.y >= a.p.y then (p.p.y - a.p.y, q.p.y - b.p.y) else (q.p.y - b.p.y, p.p.y - a.p.y);
      if OverlapX(a, b) >= OverlapY(a, b) then u == -down / 2.0 && v == down / 2.0
      else if Lost(a, b, width) <= SLACK then u == v == 0.0
      else u == 0.0 && v == down
  {
    hide OverlapX, OverlapY, ShovedX;
    var across := OverlapX(a, b) + FOOTPRINT_GAP;
    if b.p.x >= a.p.x { ShoveKeepsShape(a, b, across, width); } else { ShoveKeepsShape(b, a, across, width); }
  }

  /** Lowering the upper of two boxes gives back no more than the push took it up. */
  lemma {:induction false} LoweredY(y: real, up: real, top: real, d: real)
    requires y - up >= top
    ensures d <= 0.0 ==> y + d <= Max(top + up, y + d) <= y
    ensures d >= 0.0 ==> Max(top + up, y + d) == y + d
  {
  }

  lemma {:induction false} PassClearsY(a: Box, b: Box, a': Box, b': Box, width: real, top: real)
    requires a.Top() >= top && b.Top() >= top && !PassesCheck(a, b)
    requires var (p, q) := Pushed(a, b, width); a' == Lowered(p, top) && b' == Lowered(q, top)
    ensures b.p.y >= a.p.y ==> b'.p.y >= a'.p.y
    ensures b.p.y < a.p.y ==> b'.p.y < a'.p.y
    ensures a'.Top() >= top && b'.Top() >= top
    ensures var moved := ApartBy(a'.p.y, b'.p.y) - ApartBy(a.p.y, b.p.y);
      if OverlapX(a, b) < OverlapY(a, b) && Lost(a, b, width) <= SLACK then moved == 0.0
      else moved >= (OverlapY(a, b) + FOOTPRINT_GAP) / 2.0
  {
    Overlapping(a, b);
    PushedY(a, b, width);
    var dx, dy := PushedBy(a, b, width);
    hide Pushed, OverlapX, OverlapY, Lost;
    var (p, q) := Pushed(a, b, width);
    LoweredY(a.p.y, a.up, top, p.p.y - a.p.y);
    LoweredY(b.p.y, b.up, top, q.p.y - b.p.y);
  }

  lemma {:induction false} PassClearsX(a: Box, b: Box, a': Box, b': Box, width: real, top: real)
    requires PairOnCanvas(a, b, width, top) && !PassesCheck(a, b)
    requires var (p, q) := Pushed(a, b, width); a' == Lowered(p, top) && b' == Lowered(q, top)
    ensures SameShape(a', a) && SameShape(b', b)
    ensures var moved := ApartBy(a'.p.x, b'.p.x) - ApartBy(a.p.x, b.p.x);
      moved == if OverlapX(a, b) < OverlapY(a, b) then OverlapX(a, b) + FOOTPRINT_GAP - Lost(a, b, width) else 0.0
    ensures 0.0 <= Lost(a, b, width) <= OverlapX(a, b) + FOOTPRINT_GAP
  {
    WallsTake(a, b, width);
    var dx, dy := PushedBy(a, b, width);
    hide Pushed, OverlapX, OverlapY, Lost;
  }

  lemma {:induction false} PushStaysWithin(a: Box, b: Box, width: real)
    requires a.WithinX(width) && b.WithinX(width) && 2.0 * a.x <= width && 2.0 * b.x <= width
    ensures var (p, q) := Pushed(a, b, width); p.WithinX(width) && q.WithinX(width)
  {
    hide OverlapX, OverlapY;
  }

  /** One pass over two footprints: how much nearer to clear they get on each axis. */
  lemma {:induction false} PassClears(a: Box, b: Box, a': Box, b': Box, width: real, top: real)
    requires PairOnCanvas(a, b, width, top) && !PassesCheck(a, b)
    requires var (p, q) := Pushed(a, b, width); a' == Lowered(p, top) && b' == Lowered(q, top)
    ensures PairOnCanvas(a', b', width, top)
    ensures if OverlapX(a, b) < OverlapY(a, b) && Lost(a, b, width) <= SLACK
      then ClearX(a', b') <= NestedX(a, b) + SLACK && ClearY(a', b') == ClearY(a, b)
      else ClearX(a', b') <= ClearX(a, b) && ClearY(a', b') <= ClearY(a, b) - (OverlapY(a, b) + FOOTPRINT_GAP) / 2.0
  {
    hide Pushed, OverlapX, OverlapY, NestedX, NestedY, Lost, PassesCheck, PairOnCanvas;
    PassStaysOnCanvas(a, b, a', b', width, top);
    PassClearsX(a, b, a', b', width, top);
    ClearByDistance(a, b);
    ClearByDistance(a', b');
    PairTops(a, b, width, top);
    PassClearsY(a, b, a', b', width, top);
  }

  lemma {:induction false} PairTops(a: Box, b: Box, width: real, top: real)
    requires PairOnCanvas(a, b, width, top)
    ensures a.Top() >= top && b.Top() >= top
  {
  }

  lemma {:induction false} PassStaysOnCanvas(a: Box, b: Box, a': Box, b': Box, width: real, top: real)
    requires PairOnCanvas(a, b, width, top) && !PassesCheck(a, b)
    requires var (p, q) := Pushed(a, b, width); a' == Lowered(p, top) && b' == Lowered(q, top)
    ensures PairOnCanvas(a', b', width, top)
  {
    hide Pushed, OverlapX, OverlapY, PassesCheck;
    PushStaysWithin(a, b, width);
    var dx, dy := PushedBy(a, b, width);
  }

  /** So every pass that is not quiet spends from the budget. */
  lemma {:induction false} PassSpends(a: Box, b: Box, a': Box, b': Box, width: real, top: real, m: nat, n: nat)
    returns (m': nat, n': nat)
    requires PairOnCanvas(a, b, width, top) && !PassesCheck(a, b) && Budgeted(a, b, m, n)
    requires var (p, q) := Pushed(a, b, width); a' == Lowered(p, top) && b' == Lowered(q, top)
    ensures PairOnCanvas(a', b', width, top) && Budgeted(a', b', m', n') && m' + n' + 1 == m + n
  {
    PassClears(a, b, a', b', width, top);
    NestedIsDeep(a, b);
    NestedNotNegative(a, b);
    Overlapping(a, b);
    if m == 0 || n == 0 { SpentPasses(a, b, m, n); }
    hide OverlapX, OverlapY, NestedX, NestedY, Lost, Pushed, PairOnCanvas, Reserve;
    if OverlapX(a, b) < OverlapY(a, b) && Lost(a, b, width) <= SLACK {
      m', n' := m - 1, n;
    } else {
      SpendDown(ClearY(a, b), ClearY(a', b'), OverlapY(a, b) + FOOTPRINT_GAP, NestedY(a, b), n);
      m', n' := m, n - 1;
    }
  }

  /** On any canvas up to 20000 px wide the passes are enough. */
  lemma {:induction false} EnoughPasses(a: Box, b: Box, width: real, top: real)
    requires PairOnCanvas(a, b, width, top) && a.up <= a.x && b.up <= b.x && width <= 20000.0
    ensures Budgeted(a, b, 420, 1400)
  {
    ReserveGrows(1400);
    ToClear(a, b);
    hide OverlapX, OverlapY, NestedX, NestedY, Reserve;
  }

  /** The footprint of a placed party. */
  function Footprint(id: string, positions: map<string, Point>, radius: map<string, real>): Box
    requires id in positions && id in radius
  {
    BoxOf(id, positions[id], radius[id])
  }

  ghost predicate Placed(ids: seq<string>, positions: map<string, Point>, radius: map<string, real>) {
    forall i :: 0 <= i < |ids| ==> ids[i] in positions && ids[i] in radius && radius[ids[i]] >= 0.0
  }

  ghost function Footprints(ids: seq<string>, positions: map<string, Point>, radius: map<string, real>): (s: seq<Box>)
    requires Placed(ids, positions, radius)
    ensures |s| == |ids| && forall k :: 0 <= k < |ids| ==> s[k] == Footprint(ids[k], positions, radius)
  {
    seq(|ids|, k requires 0 <= k < |ids| => Footprint(ids[k], positions, radius))
  }

  ghost predicate AllApart(s: seq<Box>, gap: real) {
    forall i, j :: 0 <= i < j < |s| ==> Apart(s[i], s[j], gap)
  }

  /** The positions written back. */
  method WriteBack(ids: seq<string>, positions: map<string, Point>, ghost radius: map<string, real>, boxes: array<Box>,
      ghost start: seq<Box>)
    returns (r: map<string, Point>)
    requires Sorting.Distinct(ids) && Placed(ids, positions, radius)
    requires start == Footprints(ids, positions, radius) && SameShapes(boxes[..], start)
    ensures r.Keys == positions.Keys && Placed(ids, r, radius)
    ensures Footprints(ids, r, radius) == boxes[..]
    ensures forall id :: id in positions && id !in ids ==> r[id] == positions[id]
  {
    assert boxes.Length == |ids|;
    forall k | 0 <= k < |ids| ensures SameShape(boxes[k], Footprint(ids[k], positions, radius)) {
      assert boxes[..][k] == boxes[k];
    }
    r := positions;
    for k := 0 to boxes.Length
      invariant r.Keys == positions.Keys
      invariant forall i :: 0 <= i < k ==> r[ids[i]] == boxes[i].p
      invariant forall id :: id in positions && id !in ids ==> r[id] == positions[id]
    {
      r := r[boxes[k].id := boxes[k].p];
    }
    assert forall k :: 0 <= k < |ids| ==> Footprint(ids[k], r, radius) == boxes[k];
  }

  ghost predicate AllProper(s: seq<Box>) { forall k :: 0 <= k < |s| ==> s[k].Proper() }

  /** The footprints after `n` passes, each followed by lowering below `top`. */
  ghost function AfterPasses(start: seq<Box>, n: nat, width: real, top: real): (t: seq<Box>)
    ensures |t| == |start|
  {
    if n == 0 then start else AllLowered(PassOf(AfterPasses(start, n - 1, width, top), width), top)
  }

  ghost predicate ApartAfter(start: seq<Box>, n: nat, width: real, top: real) {
    AllApart(AfterPasses(start, n, width, top), 2.999999)
  }

  lemma {:induction false} AfterMore(start: seq<Box>, n: nat, width: real, top: real)
    ensures AfterPasses(start, 0, width, top) == start
    ensures AfterPasses(start, n + 1, width, top) == AllLowered(PassOf(AfterPasses(start, n, width, top), width), top)
  {
  }

  /**
   Where the first quiet pass finds the footprints after `n` passes,
     all are apart in the end if and only if somebody had
   to be pushed or those already apart still are once lowered below `top`.
   */
  lemma {:induction false} SettledApart(start: seq<Box>, n: nat, width: real, top: real)
    requires ApartAfter(start, n, width, top) && forall k :: 0 <= k < n ==> !ApartAfter(start, k, width, top)
    ensures AllApart(AllLowered(AfterPasses(start, n, width, top), top), 2.999999) <==>
      !AllApart(start, 2.999999) || AllApart(AllLowered(start, top), 2.999999)
  {
    hide AllApart, PassOf;
    AfterMore(start, 0, width, top);
    if n > 0 {
      assert !ApartAfter(start, 0, width, top);
      AfterMore(start, n - 1, width, top);
      LoweredBoxes(PassOf(AfterPasses(start, n - 1, width, top), width), width, top);
      LoweredBoxes(AfterPasses(start, n, width, top), width, top);
    }
  }

  /**
   Push until a pass moves nothing: after the first number of passes, below two thousand, that leaves all of them apart;
   never, if there is no such number. What is returned is lowered below `top` once more.
   */
  method Separate(ids: seq<string>, positions: map<string, Point>, radius: map<string, real>, width: real, top: real)
    returns (r: Result<map<string, Point>>, ghost passes: nat)
    requires Sorting.Distinct(ids) && Placed(ids, positions, radius)
    ensures r.Ok? <==> passes < 2000
    ensures forall k :: 0 <= k < passes ==> !ApartAfter(Footprints(ids, positions, radius), k, width, top)
    ensures r.Ok? ==> ApartAfter(Footprints(ids, positions, radius), passes, width, top)
    ensures r.Ok? ==> r.value.Keys == positions.Keys && Placed(ids, r.value, radius)
    ensures r.Ok? ==> forall id :: id in positions && id !in ids ==> r.value[id] == positions[id]
    ensures r.Ok? ==> var start, s := Footprints(ids, positions, radius), Footprints(ids, r.value, radius);
      && s == AllLowered(AfterPasses(start, passes, width, top), top)
      && BelowTop(s, top) && (AcrossCanvas(start, width) ==> AcrossCanvas(s, width))
  {
    hide StaysAcross, AcrossCanvas, BelowTop, AllApart, PassOf, AfterPasses, Footprint, Footprints, Placed, AllProper,
      SameShapes, AllLowered, Sorting.Distinct;
    var boxes := BoxesOf(ids, positions, radius);
    ghost var start := boxes[..];
    AcrossItself(start, width);
    AfterMore(start, 0, width, top);
    for pass := 0 to MAX_PASSES
      invariant StaysAcross(start, boxes[..], width) && boxes[..] == AfterPasses(start, pass, width, top)
      invariant forall k :: 0 <= k < pass ==> !ApartAfter(start, k, width, top)
    {
      AfterMore(start, pass, width, top);
      var moved := Pass(boxes, start, width, top);
      if !moved {
        ShapesKept(start, boxes[..], width);
        var p := WriteBack(ids, positions, radius, boxes, start);
        return Ok(p), pass;
      }
    }
    return Err, 2000;
  }

  method BoxesOf(ids: seq<string>, positions: map<string, Point>, radius: map<string, real>) returns (boxes: array<Box>)
    requires Placed(ids, positions, radius)
    ensures fresh(boxes) && boxes[..] == Footprints(ids, positions, radius) && AllProper(boxes[..])
  {
    boxes := new Box[|ids|](k requires 0 <= k < |ids| => Footprint(ids[k], positions, radius));
  }

  /** One round: a pass, then everything lowered below `top`; quiet exactly if all were apart before it. */
  method Pass(boxes: array<Box>, ghost start: seq<Box>, width: real, top: real) returns (moved: bool)
    requires AllProper(start) && StaysAcross(start, boxes[..], width)
    modifies boxes
    ensures boxes[..] == AllLowered(PassOf(old(boxes[..]), width), top)
    ensures !moved ==> boxes[..] == AllLowered(old(boxes[..]), top)
    ensures !moved <==> AllApart(old(boxes[..]), 2.999999)
    ensures StaysAcross(start, boxes[..], width) && BelowTop(boxes[..], top)
  {
    hide StaysAcross, AcrossCanvas, BelowTop, AllPass, AllApart, PassesCheck, PassOf;
    ShapesKept(start, boxes[..], width);
    CheckedAllApart(boxes[..]);
    ghost var before := boxes[..];
    moved := PushAll(boxes, width);
    ghost var pushed := boxes[..];
    AcrossThrough(start, before, pushed, width);
    ClampAll(boxes, top);
    LoweredBoxes(pushed, width, top);
    AcrossThrough(start, pushed, boxes[..], width);
  }

  /** Two parties on the canvas and below the top: they are always separated. */
  ghost predicate SurePair(s: seq<Box>, width: real, top: real) {
    |s| == 2 && PairOnCanvas(s[0], s[1], width, top) && s[0].up <= s[0].x && s[1].up <= s[1].x && width <= 20000.0
  }

  lemma {:induction false} PairPassSpends(s: seq<Box>, t: seq<Box>, width: real, top: real, m: nat, n: nat)
    returns (m': nat, n': nat)
    requires |s| == 2 && !AllPass(s) && t == AllLowered(PushedPair(s, width), top)
    requires PairOnCanvas(s[0], s[1], width, top) && Budgeted(s[0], s[1], m, n)
    ensures |t| == 2 && PairOnCanvas(t[0], t[1], width, top) && Budgeted(t[0], t[1], m', n') && m' + n' + 1 == m + n
  {
    hide Budgeted, PairOnCanvas, Pushed;
    m', n' := PassSpends(s[0], s[1], t[0], t[1], width, top, m, n);
  }

  /** The passes left to two such parties are spent one by one, so one of the first two thousand finds them apart. */
  lemma {:induction false} PairSettles(start: seq<Box>, width: real, top: real, k: nat, m: nat, n: nat)
    returns (passes: nat)
    requires |start| == 2 && AllProper(start) && k + m + n == 1820
    requires var s := AfterPasses(start, k, width, top);
      AllProper(s) && PairOnCanvas(s[0], s[1], width, top) && Budgeted(s[0], s[1], m, n)
    ensures passes < 2000 && ApartAfter(start, passes, width, top)
    decreases m + n
  {
    hide AllApart, PairOnCanvas, Budgeted, PassOf, PushedPair, AllPass, AfterPasses;
    var s := AfterPasses(start, k, width, top);
    CheckedAllApart(s);
    if AllPass(s) {
      passes := k;
    } else {
      AfterMore(start, k, width, top);
      PairPass(s, width);
      var t := AfterPasses(start, k + 1, width, top);
      var m', n' := PairPassSpends(s, t, width, top, m, n);
      OnCanvasIsProper(t, width, top);
      passes := PairSettles(start, width, top, k + 1, m', n');
    }
  }

  lemma {:induction false} OnCanvasIsProper(s: seq<Box>, width: real, top: real)
    requires |s| == 2 && PairOnCanvas(s[0], s[1], width, top)
    ensures AllProper(s)
  {
  }

  /** Two parties on the canvas are always separated. */
  lemma {:induction false} TwoSettle(start: seq<Box>, width: real, top: real) returns (passes: nat)
    requires SurePair(start, width, top)
    ensures passes < 2000 && ApartAfter(start, passes, width, top)
  {
    hide AllApart, PairOnCanvas, Budgeted, PassOf;
    OnCanvasIsProper(start, width, top);
    EnoughPasses(start[0], start[1], width, top);
    AfterMore(start, 0, width, top);
    passes := PairSettles(start, width, top, 0, 420, 1400);
  }

  lemma {:induction false} ShapesKept(start: seq<Box>, s: seq<Box>, width: real)
    requires StaysAcross(start, s, width)
    ensures SameShapes(s, start) && (AllProper(start) ==> AllProper(s))
      && (AcrossCanvas(start, width) ==> AcrossCanvas(s, width))
  {
  }

  /**
   Where nobody starts above `top`, as `fiberGraphLayout` places them on a narrow canvas, separation always separates.
   */
  lemma {:induction false} SeparatesFromBelow(start: seq<Box>, top: real)
    requires BelowTop(start, top)
    ensures !AllApart(start, FOOTPRINT_GAP - SLACK) || AllApart(AllLowered(start, top), FOOTPRINT_GAP - SLACK)
  {
    LoweredBoxes(start, 0.0, top);
  }

  /**
   One very large party and two small ones, as the strip of a 720 px canvas fits them: they are apart, so nobody is
   pushed, and lowering the large one to the top puts it over its neighbour.
   */
  const STRIP_BOXES: seq<Box> := [
    BoxOf("a", Point(360.0, 48.0), 60.0), BoxOf("b", Point(360.0, 141.0), 7.2), BoxOf("c", Point(360.0, 512.0), 7.2)]

  lemma {:induction false} LoweringCanOverlap()
    ensures AcrossCanvas(STRIP_BOXES, 720.0) && AllApart(STRIP_BOXES, FOOTPRINT_GAP - SLACK)
    ensures !AllApart(AllLowered(STRIP_BOXES, 0.0), FOOTPRINT_GAP - SLACK)
  {
    var low := AllLowered(STRIP_BOXES, 0.0);
    assert !Apart(low[0], low[1], FOOTPRINT_GAP - SLACK);
  }

  lemma {:induction false} CheckedAllApart(s: seq<Box>)
    requires AllProper(s)
    ensures AllPass(s) <==> AllApart(s, FOOTPRINT_GAP - SLACK)
  {
    forall i, j | 0 <= i < j < |s| ensures Apart(s[i], s[j], FOOTPRINT_GAP - SLACK) <==> PassesCheck(s[i], s[j]) {
      CheckedIsApart(s[i], s[j]);
    }
  }
}
