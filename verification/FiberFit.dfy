/** Stretching a component's points over a box of the fiber graph's canvas. */
module FiberFit {
  import opened Common
  import opened FiberSeparate
  import GraphLayout

  datatype Rect = Rect(x0: real, x1: real, y0: real, y1: real)

  // ----- Fitting points into a box -----

  function Low(vals: seq<real>): (m: real)
    requires vals != []
    ensures m in vals && forall i :: 0 <= i < |vals| ==> m <= vals[i]
  {
    if |vals| == 1 then vals[0]
    else
      var rest := Low(vals[1..]);
      assert vals == [vals[0]] + vals[1..];
      Min(vals[0], rest)
  }

  function High(vals: seq<real>): (m: real)
    requires vals != []
    ensures m in vals && forall i :: 0 <= i < |vals| ==> vals[i] <= m
  {
    if |vals| == 1 then vals[0]
    else
      var rest := High(vals[1..]);
      assert vals == [vals[0]] + vals[1..];
      Max(vals[0], rest)
  }

  /** How far along `[lo, hi]` a value is, from 0 to 1. */
  function Share(v: real, lo: real, hi: real): real
    requires lo < hi
  {
    (v - lo) / (hi - lo)
  }

  function Along(q: real, a: real, b: real): real { a + q * (b - a) }

  function Scale(v: real, lo: real, hi: real, a: real, b: real): real {
    if hi - lo < 0.000000001 then (a + b) / 2.0 else Along(Share(v, lo, hi), a, b)
  }

  lemma {:induction false} NegativeTimes(q: real, d: real)
    requires q < 0.0 && d > 0.0
    ensures q * d < 0.0
  {
  }

  lemma {:induction false} ShareTimes(v: real, lo: real, hi: real)
    requires lo < hi
    ensures Share(v, lo, hi) * (hi - lo) == v - lo
  {
  }

  lemma {:induction false} ShareOrdered(u: real, v: real, lo: real, hi: real)
    requires u <= v && lo < hi
    ensures Share(u, lo, hi) <= Share(v, lo, hi)
  {
    var p, q, d := Share(u, lo, hi), Share(v, lo, hi), hi - lo;
    ShareTimes(u, lo, hi);
    ShareTimes(v, lo, hi);
    assert (q - p) * d == q * d - p * d;
    if p > q { NegativeTimes(q - p, d); }
  }

  lemma {:induction false} ShareEnds(lo: real, hi: real)
    requires lo < hi
    ensures Share(lo, lo, hi) == 0.0 && Share(hi, lo, hi) == 1.0
  {
    var d := hi - lo;
    assert 0.0 / d == 0.0;
    DivideBySelf(d);
    calc { Share(hi, lo, hi); (hi - lo) / (hi - lo); d / d; 1.0; }
  }

  lemma {:induction false} DivideBySelf(d: real)
    requires d > 0.0
    ensures d / d == 1.0
  {
  }

  lemma {:induction false} AlongOrdered(p: real, q: real, a: real, b: real)
    requires p <= q && a <= b
    ensures Along(p, a, b) <= Along(q, a, b)
  {
    var w := b - a;
    assert (q - p) * w >= 0.0;
    assert q * w - p * w == (q - p) * w;
  }

  /** Scaling takes `[lo, hi]` into `[a, b]`, its ends to the ends, and keeps the order. */
  lemma {:induction false} ScaleFits(u: real, v: real, lo: real, hi: real, a: real, b: real)
    requires lo <= u <= v <= hi && a <= b
    ensures a <= Scale(u, lo, hi, a, b) <= Scale(v, lo, hi, a, b) <= b
    ensures hi - lo >= 0.000000001 ==> Scale(lo, lo, hi, a, b) == a && Scale(hi, lo, hi, a, b) == b
  {
    if hi - lo >= 0.000000001 {
      ShareEnds(lo, hi);
      assert Along(0.0, a, b) == a && Along(1.0, a, b) == b;
      hide Share, Along;
      ShareOrdered(lo, u, lo, hi);
      ShareOrdered(u, v, lo, hi);
      ShareOrdered(v, hi, lo, hi);
      AlongOrdered(0.0, Share(u, lo, hi), a, b);
      AlongOrdered(Share(u, lo, hi), Share(v, lo, hi), a, b);
      AlongOrdered(Share(v, lo, hi), 1.0, a, b);
    }
  }

  function Xs(members: seq<string>, points: map<string, Point>): (s: seq<real>)
    requires forall i :: 0 <= i < |members| ==> members[i] in points
    ensures |s| == |members| && forall i :: 0 <= i < |members| ==> s[i] == points[members[i]].x
  {
    seq(|members|, i requires 0 <= i < |members| => points[members[i]].x)
  }

  function Ys(members: seq<string>, points: map<string, Point>): (s: seq<real>)
    requires forall i :: 0 <= i < |members| ==> members[i] in points
    ensures |s| == |members| && forall i :: 0 <= i < |members| ==> s[i] == points[members[i]].y
  {
    seq(|members|, i requires 0 <= i < |members| => points[members[i]].y)
  }

  /** The points of a component, stretched over a box. */
  function Fit(members: seq<string>, points: map<string, Point>, box: Rect): (r: map<string, Point>)
    requires members != [] && points.Keys == GraphLayout.Elements(members)
    ensures r.Keys == points.Keys
  {
    var xs, ys := Xs(members, points), Ys(members, points);
    map m | m in points ::
      Point(Scale(points[m].x, Low(xs), High(xs), box.x0, box.x1),
        Scale(points[m].y, Low(ys), High(ys), box.y0, box.y1))
  }

  /** Fitted points lie in the box, in the order they had on each axis. */
  lemma {:induction false} FitStretches(members: seq<string>, points: map<string, Point>, box: Rect, m: string,
      n: string)
    requires members != [] && points.Keys == GraphLayout.Elements(members)
    requires box.x0 <= box.x1 && box.y0 <= box.y1
    requires m in points && n in points
    ensures var r := Fit(members, points, box);
      && box.x0 <= r[m].x <= box.x1 && box.y0 <= r[m].y <= box.y1
      && (points[m].x <= points[n].x ==> r[m].x <= r[n].x)
      && (points[m].y <= points[n].y ==> r[m].y <= r[n].y)
  {
    var xs, ys := Xs(members, points), Ys(members, points);
    var i :| 0 <= i < |members| && members[i] == m;
    var j :| 0 <= j < |members| && members[j] == n;
    assert Low(xs) <= xs[i] <= High(xs) && Low(xs) <= xs[j] <= High(xs);
    assert Low(ys) <= ys[i] <= High(ys) && Low(ys) <= ys[j] <= High(ys);
    hide Scale;
    ScaleFits(points[m].x, points[m].x, Low(xs), High(xs), box.x0, box.x1);
    ScaleFits(points[m].y, points[m].y, Low(ys), High(ys), box.y0, box.y1);
    if points[m].x <= points[n].x { ScaleFits(points[m].x, points[n].x, Low(xs), High(xs), box.x0, box.x1); }
    if points[m].y <= points[n].y { ScaleFits(points[m].y, points[n].y, Low(ys), High(ys), box.y0, box.y1); }
  }

  // ----- What a fit is, without dividing -----

  /** The least and the greatest of some numbers. */
  ghost predicate Range(vals: seq<real>, lo: real, hi: real) {
    lo in vals && hi in vals && forall v :: v in vals ==> lo <= v <= hi
  }

  /** `x` is as far between `a` and `b` as `v` is between `lo` and `hi`; half way where those are one. */
  ghost predicate Stretched(v: real, lo: real, hi: real, x: real, a: real, b: real) {
    if hi - lo < 0.000000001 then x + x == a + b else (x - a) * (hi - lo) == (v - lo) * (b - a)
  }

  /** Every member stands in the box where its point stood among the component's points. */
  ghost predicate FittedTo(members: seq<string>, points: map<string, Point>, r: map<string, Point>, box: Rect) {
    && (forall i :: 0 <= i < |members| ==> members[i] in points && members[i] in r)
    && exists left, right, top, bottom ::
      && Range(Xs(members, points), left, right) && Range(Ys(members, points), top, bottom)
      && forall i :: 0 <= i < |members| ==>
        && Stretched(points[members[i]].x, left, right, r[members[i]].x, box.x0, box.x1)
        && Stretched(points[members[i]].y, top, bottom, r[members[i]].y, box.y0, box.y1)
  }

  lemma {:induction false} ScaleStretches(v: real, lo: real, hi: real, a: real, b: real)
    ensures Stretched(v, lo, hi, Scale(v, lo, hi, a, b), a, b)
  {
    if hi - lo >= 0.000000001 {
      var q := Share(v, lo, hi);
      ShareTimes(v, lo, hi);
      ThreeFactors(q, b - a, hi - lo);
      hide Share;
    }
  }

  lemma {:induction false} ThreeFactors(q: real, w: real, d: real)
    ensures (q * w) * d == (q * d) * w
  {
  }

  lemma {:induction false} LowToHigh(vals: seq<real>)
    requires vals != []
    ensures Range(vals, Low(vals), High(vals))
  {
  }

  lemma {:induction false} FitIsFitted(members: seq<string>, points: map<string, Point>, box: Rect)
    requires members != [] && points.Keys == GraphLayout.Elements(members)
    ensures FittedTo(members, points, Fit(members, points, box), box)
  {
    hide Scale, Stretched, Range, Low, High;
    var xs, ys := Xs(members, points), Ys(members, points);
    var r := Fit(members, points, box);
    LowToHigh(xs);
    LowToHigh(ys);
    forall i | 0 <= i < |members|
      ensures members[i] in r
        && Stretched(points[members[i]].x, Low(xs), High(xs), r[members[i]].x, box.x0, box.x1)
        && Stretched(points[members[i]].y, Low(ys), High(ys), r[members[i]].y, box.y0, box.y1)
    {
      ScaleStretches(points[members[i]].x, Low(xs), High(xs), box.x0, box.x1);
      ScaleStretches(points[members[i]].y, Low(ys), High(ys), box.y0, box.y1);
    }
  }

  /** A fit speaks of the members' positions only. */
  lemma {:induction false} FittedStays(members: seq<string>, points: map<string, Point>, r: map<string, Point>,
      s: map<string, Point>, box: Rect)
    requires FittedTo(members, points, r, box) && forall m :: m in members && m in r ==> m in s && s[m] == r[m]
    ensures FittedTo(members, points, s, box)
  {
    hide Range, Stretched;
    assert forall i :: 0 <= i < |members| ==> members[i] in members;
  }
}
