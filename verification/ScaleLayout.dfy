/** scaleLayout of byte-map.ts: parts of a byte map shared out across a width. */
module ScaleLayout {
  import opened Common

  /** A range `[start, end)` with the width its label wants, if it has one. */
  datatype Span = Span(start: int, end: int, min: Option<real>)

  datatype Options = Options(gap: real, floor: real, sliver: real)

  const SCALE_DEFAULTS: Options := Options(2.0, 3.0, 4.0)

  datatype Placed = Placed(x: real, w: real)

  predicate WellFormed(spans: seq<Span>) {
    forall i :: 0 <= i < |spans| ==> spans[i].start <= spans[i].end
  }

  // ----- Sums over chosen positions -----

  function Sum(vals: seq<real>, sel: set<nat>): real {
    if vals == [] then 0.0
    else
      var n := |vals| - 1;
      Sum(vals[..n], sel) + if n in sel then vals[n] else 0.0
  }

  lemma {:induction false} SumSplit(vals: seq<real>, a: set<nat>, b: set<nat>)
    requires a !! b
    ensures Sum(vals, a + b) == Sum(vals, a) + Sum(vals, b)
  {
    if vals != [] { SumSplit(vals[..|vals| - 1], a, b); }
  }

  lemma {:induction false} SumNone(vals: seq<real>)
    ensures Sum(vals, {}) == 0.0
  {
    if vals != [] { SumNone(vals[..|vals| - 1]); }
  }

  /** Pointwise at most, so at most in all; and strictly less when it is somewhere strictly less. */
  lemma {:induction false} SumMonotone(f: seq<real>, g: seq<real>, sel: set<nat>)
    requires |f| == |g|
    requires forall i :: 0 <= i < |f| && i in sel ==> f[i] <= g[i]
    ensures Sum(f, sel) <= Sum(g, sel)
    ensures (exists i :: 0 <= i < |f| && i in sel && f[i] < g[i]) ==> Sum(f, sel) < Sum(g, sel)
  {
    if f != [] {
      var n := |f| - 1;
      SumMonotone(f[..n], g[..n], sel);
      if i :| 0 <= i < |f| && i in sel && f[i] < g[i] {
        if i < n { assert f[..n][i] < g[..n][i]; }
      }
    }
  }

  lemma {:induction false} Distribute(k: real, a: real, b: real)
    ensures k * (a + b) == k * a + k * b
  {
  }

  lemma {:induction false} SumScale(f: seq<real>, g: seq<real>, k: real, sel: set<nat>)
    requires |f| == |g|
    requires forall i :: 0 <= i < |f| && i in sel ==> g[i] == k * f[i]
    ensures Sum(g, sel) == k * Sum(f, sel)
  {
    if f != [] {
      var n := |f| - 1;
      SumScale(f[..n], g[..n], k, sel);
      if n in sel {
        Distribute(k, Sum(f[..n], sel), f[n]);
      }
    }
  }

  lemma {:induction false} SumSame(f: seq<real>, g: seq<real>, a: set<nat>, b: set<nat>)
    requires |f| == |g|
    requires forall i :: 0 <= i < |f| ==> (i in a <==> i in b)
    requires forall i :: 0 <= i < |f| && i in a ==> f[i] == g[i]
    ensures Sum(f, a) == Sum(g, b)
  {
    if f != [] { SumSame(f[..|f| - 1], g[..|f| - 1], a, b); }
  }

  function Zeros(n: nat): (z: seq<real>)
    ensures |z| == n && forall i :: 0 <= i < n ==> z[i] == 0.0
  {
    seq(n, _ => 0.0)
  }

  lemma {:induction false} SumPositive(f: seq<real>, sel: set<nat>)
    requires forall i :: 0 <= i < |f| && i in sel ==> f[i] >= 0.0
    ensures Sum(f, sel) >= 0.0
    ensures (exists i :: 0 <= i < |f| && i in sel && f[i] > 0.0) ==> Sum(f, sel) > 0.0
  {
    var z := Zeros(|f|);
    SumMonotone(z, f, sel);
    SumScale(z, z, 0.0, sel);
    if i :| 0 <= i < |f| && i in sel && f[i] > 0.0 { assert z[i] < f[i]; }
  }

  // ----- The measures the layout shares out -----

  /** The byte counts, as numbers to divide. */
  function Bytes(spans: seq<Span>): (b: seq<real>)
    ensures |b| == |spans|
    ensures forall i :: 0 <= i < |spans| ==> b[i] == (spans[i].end - spans[i].start) as real
  {
    seq(|spans|, i requires 0 <= i < |spans| => (spans[i].end - spans[i].start) as real)
  }

  function Sized(spans: seq<Span>): (s: set<nat>)
    ensures forall i :: i in s <==> 0 <= i < |spans| && spans[i].end > spans[i].start
  {
    set i: nat | i < |spans| && spans[i].end > spans[i].start
  }

  function Empties(spans: seq<Span>): (s: set<nat>)
    ensures forall i :: i in s <==> 0 <= i < |spans| && spans[i].end <= spans[i].start
  {
    set i: nat | i < |spans| && spans[i].end <= spans[i].start
  }

  function SizedCount(spans: seq<Span>): (c: nat)
    ensures c <= |spans|
    ensures c > 0 <==> exists i :: 0 <= i < |spans| && spans[i].end > spans[i].start
  {
    if spans == [] then 0
    else
      var n := |spans| - 1;
      assert forall i :: 0 <= i < n ==> spans[..n][i] == spans[i];
      SizedCount(spans[..n]) + if spans[n].end > spans[n].start then 1 else 0
  }

  function Available(width: real, spans: seq<Span>, o: Options): real {
    width - o.gap * (|spans| - 1) as real - o.sliver * (|spans| - SizedCount(spans)) as real
  }

  /** What a part asks for: the width its label wants, and never less than the floor. */
  function Own(s: Span, o: Options): real {
    Max(o.floor, match s.min case Some(m) => m case None => o.floor)
  }

  function OwnSum(spans: seq<Span>, o: Options): real {
    if spans == [] then 0.0
    else
      var n := |spans| - 1;
      OwnSum(spans[..n], o) + if spans[n].end > spans[n].start then Own(spans[n], o) else 0.0
  }

  /** The narrowest part `i` is drawn: its own minimum if they all fit, else what there is of the floor. */
  function Minimum(width: real, spans: seq<Span>, o: Options, i: nat): real
    requires i < |spans| && SizedCount(spans) > 0
  {
    var available := Available(width, spans, o);
    if OwnSum(spans, o) <= available then Own(spans[i], o)
    else Min(o.floor, Max(0.0, available) / SizedCount(spans) as real)
  }

  function Minimums(width: real, spans: seq<Span>, o: Options): (m: seq<real>)
    ensures |m| == |spans|
    ensures forall i :: 0 <= i < |spans| && SizedCount(spans) > 0 ==> m[i] == Minimum(width, spans, o, i)
  {
    seq(|spans|, i requires 0 <= i < |spans| => if SizedCount(spans) > 0 then Minimum(width, spans, o, i) else 0.0)
  }

  /** `n` times `k`, added up. */
  ghost function Times(k: real, n: nat): real {
    if n == 0 then 0.0 else Times(k, n - 1) + k
  }

  lemma {:induction false} ProductStep(k: real, m: real, n: real)
    requires n == m + 1.0
    ensures k * n == k * m + k
  {
  }

  lemma {:induction false} TimesIsProduct(k: real, n: nat)
    ensures Times(k, n) == k * n as real
  {
    if n > 0 {
      TimesIsProduct(k, n - 1);
      ProductStep(k, (n - 1) as real, n as real);
    }
  }

  lemma {:induction false} SumOfEqual(vals: seq<real>, spans: seq<Span>, k: real)
    requires |vals| == |spans|
    requires forall i :: 0 <= i < |vals| && spans[i].end > spans[i].start ==> vals[i] == k
    ensures Sum(vals, Sized(spans)) == Times(k, SizedCount(spans))
  {
    if vals != [] {
      var n := |vals| - 1;
      SumOfEqual(vals[..n], spans[..n], k);
      SumSame(vals[..n], vals[..n], Sized(spans), Sized(spans[..n]));
    }
  }

  lemma {:induction false} SumOfEmpty(vals: seq<real>, spans: seq<Span>, k: real)
    requires |vals| == |spans|
    requires forall i :: 0 <= i < |vals| && spans[i].end <= spans[i].start ==> vals[i] == k
    ensures Sum(vals, Empties(spans)) == Times(k, |spans| - SizedCount(spans))
  {
    if vals != [] {
      var n := |vals| - 1;
      SumOfEmpty(vals[..n], spans[..n], k);
      SumSame(vals[..n], vals[..n], Empties(spans), Empties(spans[..n]));
    }
  }

  lemma {:induction false} SumOfOwn(vals: seq<real>, spans: seq<Span>, o: Options)
    requires |vals| == |spans|
    requires forall i :: 0 <= i < |vals| ==> vals[i] == Own(spans[i], o)
    ensures Sum(vals, Sized(spans)) == OwnSum(spans, o)
  {
    if vals != [] {
      var n := |vals| - 1;
      SumOfOwn(vals[..n], spans[..n], o);
      SumSame(vals[..n], vals[..n], Sized(spans), Sized(spans[..n]));
    }
  }

  /** The minimums fit what is available exactly when there is anything available. */
  lemma {:induction false} MinimumsFit(width: real, spans: seq<Span>, o: Options)
    requires o.floor >= 0.0 && SizedCount(spans) > 0
    ensures var available := Available(width, spans, o);
      var mins := Minimums(width, spans, o);
      && (available >= 0.0 ==> Sum(mins, Sized(spans)) <= available)
      && (available < 0.0 ==> forall i :: 0 <= i < |mins| ==> mins[i] == 0.0)
      && (forall i :: 0 <= i < |mins| ==> mins[i] >= 0.0)
  {
    var available, mins := Available(width, spans, o), Minimums(width, spans, o);
    if OwnSum(spans, o) <= available {
      SumOfOwn(mins, spans, o);
      SumPositive(mins, Sized(spans));
    } else {
      FloorsFit(available, spans, o.floor, mins);
    }
  }

  /** What a part would like: the width its label wants where that is more than the floor. */
  ghost predicate Likes(spans: seq<Span>, o: Options, wants: seq<real>) {
    && |wants| == |spans|
    && forall i :: 0 <= i < |spans| ==>
      wants[i] == if spans[i].min.Some? && spans[i].min.value > o.floor then spans[i].min.value else o.floor
  }

  /**
   Where everything the parts like fits, that is their minimum. Otherwise they all get the same: the floor or,
     where that
   does not fit either, an equal part of the room.
   */
  lemma {:induction false} MinimumsChosen(width: real, spans: seq<Span>, o: Options, wants: seq<real>, i: nat)
    requires i < |spans| && SizedCount(spans) > 0 && Likes(spans, o, wants)
    ensures var room, n, least := Available(width, spans, o), SizedCount(spans) as real, Minimum(width, spans, o, i);
      if Sum(wants, Sized(spans)) <= room then least == wants[i]
      else
        && least <= o.floor
        && (least == o.floor || least * n == if room > 0.0 then room else 0.0)
        && (least == o.floor ==> least * n <= if room > 0.0 then room else 0.0)
  {
    hide Sum, OwnSum, SizedCount;
    assert forall k :: 0 <= k < |spans| ==> wants[k] == Own(spans[k], o);
    SumOfOwn(wants, spans, o);
    var room, n := Max(0.0, Available(width, spans, o)), SizedCount(spans) as real;
    DivMul(room, n);
    if o.floor <= room / n { Quotient(room, n, o.floor); }
  }

  lemma {:induction false} FloorsFit(available: real, spans: seq<Span>, floor: real, mins: seq<real>)
    requires floor >= 0.0 && SizedCount(spans) > 0 && |mins| == |spans|
    requires forall i :: 0 <= i < |mins| ==> mins[i] == Min(floor, Max(0.0, available) / SizedCount(spans) as real)
    ensures available >= 0.0 ==> Sum(mins, Sized(spans)) <= available
    ensures available < 0.0 ==> forall i :: 0 <= i < |mins| ==> mins[i] == 0.0
    ensures forall i :: 0 <= i < |mins| ==> mins[i] >= 0.0
  {
    hide Sum, Times, SizedCount;
    var n := SizedCount(spans) as real;
    var k := Min(floor, Max(0.0, available) / n);
    FloorShare(floor, available, n);
    SumOfEqual(mins, spans, k);
    TimesIsProduct(k, SizedCount(spans));
  }

  lemma {:induction false} FloorShare(floor: real, available: real, n: real)
    requires floor >= 0.0 && n > 0.0
    ensures var k := Min(floor, Max(0.0, available) / n);
      && k >= 0.0
      && (available >= 0.0 ==> k * n <= available)
      && (available < 0.0 ==> k == 0.0)
  {
    var q := Max(0.0, available) / n;
    assert q >= 0.0;
    if available >= 0.0 {
      Quotient(available, n, Min(floor, q));
    } else {
      assert q == 0.0;
    }
  }

  lemma {:induction false} Quotient(a: real, n: real, k: real)
    requires n > 0.0 && k <= a / n
    ensures k * n <= a
  {
    assert a / n * n == a;
    assert k * n <= a / n * n;
  }

  // ----- Water-filling -----

  /** Every part at its minimum or at `level` per byte, whichever is wider. */
  ghost predicate WaterFilled(bytes: seq<real>, mins: seq<real>, w: seq<real>, sized: set<nat>, level: real)
    requires |bytes| == |mins| == |w|
  {
    forall i :: 0 <= i < |w| && i in sized ==> w[i] == Max(mins[i], level * bytes[i])
  }

  /** The share of one byte, once the fixed parts have their minimums. */
  ghost function Level(bytes: seq<real>, mins: seq<real>, sized: set<nat>, fixed: set<nat>, available: real): real {
    var total := Sum(bytes, sized - fixed);
    if total == 0.0 then 0.0 else (available - Sum(mins, fixed)) / total
  }

  /** What the fixing loop keeps: shared among the free parts, no fixed part would get more than its minimum. */
  ghost predicate Fixing(bytes: seq<real>, mins: seq<real>, sized: set<nat>, fixed: set<nat>, available: real)
    requires |bytes| == |mins|
  {
    && fixed <= sized
    && (sized != {} && Sum(mins, sized) <= available ==> fixed < sized)
    && (fixed < sized ==>
          forall i :: i in fixed && i < |bytes| ==> Level(bytes, mins, sized, fixed, available) * bytes[i] <= mins[i])
  }

  ghost predicate Measured(bytes: seq<real>, mins: seq<real>, sized: set<nat>) {
    && |bytes| == |mins|
    && (forall i :: i in sized ==> i < |bytes| && bytes[i] > 0.0)
  }

  lemma {:induction false} FreeBytesPositive(bytes: seq<real>, free: set<nat>)
    requires free != {} && forall i :: i in free ==> i < |bytes| && bytes[i] > 0.0
    ensures Sum(bytes, free) > 0.0
  {
    SumPositive(bytes, free);
    var i :| i in free;
    assert bytes[i] > 0.0;
  }

  /** Fixing the parts below their share lowers the level, so what was fixed stays rightly fixed. */
  lemma {:induction false} LevelFalls(room: real, bytes: real, lessRoom: real, lessBytes: real, level: real)
    requires bytes > 0.0 && 0.0 < lessBytes < bytes
    requires level == room / bytes
    requires level * lessBytes <= lessRoom
    ensures (room - lessRoom) / (bytes - lessBytes) <= level
  {
    assert level * bytes == room;
    assert level * (bytes - lessBytes) == room - level * lessBytes;
    assert room - lessRoom <= level * (bytes - lessBytes);
    DivideBy(room - lessRoom, bytes - lessBytes, level);
  }

  lemma {:induction false} GreaterProduct(q: real, r: real, d: real)
    requires q < r && d > 0.0
    ensures q * d < r * d
  {
  }

  lemma {:induction false} DivideBy(a: real, d: real, q: real)
    requires d > 0.0 && a <= q * d
    ensures a / d <= q
  {
    var r := a / d;
    assert r * d == a;
    if r > q { GreaterProduct(q, r, d); }
  }

  lemma {:induction false} ScaledAtMost(a: real, b: real, x: real, m: real)
    requires a <= b && x >= 0.0 && b * x <= m
    ensures a * x <= m
  {
    assert a * x <= b * x;
  }

  ghost function Scaled(f: seq<real>, k: real): (g: seq<real>)
    ensures |g| == |f| && forall i :: 0 <= i < |f| ==> g[i] == k * f[i]
  {
    seq(|f|, i requires 0 <= i < |f| => k * f[i])
  }

  /** Parts all below their minimums take up less than those minimums. */
  lemma {:induction false} BelowInAll(bytes: seq<real>, mins: seq<real>, below: set<nat>, level: real)
    requires |bytes| == |mins| && below != {}
    requires forall i :: i in below ==> i < |bytes| && level * bytes[i] < mins[i]
    ensures level * Sum(bytes, below) < Sum(mins, below)
  {
    var shares := Scaled(bytes, level);
    SumScale(bytes, shares, level, below);
    SumMonotone(shares, mins, below);
    var i :| i in below;
    assert shares[i] < mins[i];
  }

  lemma {:induction false} DivMul(a: real, d: real)
    requires d != 0.0
    ensures a / d * d == a
  {
  }

  lemma {:induction false} LevelFillsRoom(bytes: seq<real>, mins: seq<real>, sized: set<nat>, fixed: set<nat>,
      available: real)
    requires Measured(bytes, mins, sized) && fixed < sized
    ensures Sum(bytes, sized - fixed) > 0.0
    ensures Level(bytes, mins, sized, fixed, available) * Sum(bytes, sized - fixed) == available - Sum(mins, fixed)
  {
    if sized - fixed == {} {
      forall i | i in sized ensures i in fixed { assert i !in sized - fixed; }
    }
    FreeBytesPositive(bytes, sized - fixed);
    DivMul(available - Sum(mins, fixed), Sum(bytes, sized - fixed));
  }

  /** Where the minimums fit, somebody gets at least its minimum: never are all free parts fixed. */
  lemma {:induction false} NotAllBelow(bytes: seq<real>, mins: seq<real>, sized: set<nat>, fixed: set<nat>,
      below: set<nat>, available: real)
    requires Measured(bytes, mins, sized) && fixed <= sized
    requires Sum(mins, sized) <= available
    requires below != {} && below <= sized - fixed
    requires forall i :: i in below ==> Level(bytes, mins, sized, fixed, available) * bytes[i] < mins[i]
    ensures fixed + below < sized
  {
    if below == sized - fixed {
      var level := Level(bytes, mins, sized, fixed, available);
      FreeBytesPositive(bytes, below);
      BelowInAll(bytes, mins, below, level);
      SumSplit(mins, fixed, below);
      assert fixed + below == sized;
      LevelFillsRoom(bytes, mins, sized, fixed, available);
    }
  }

  lemma {:induction false} LevelOnlyFalls(bytes: seq<real>, mins: seq<real>, sized: set<nat>, fixed: set<nat>,
      below: set<nat>, available: real)
    requires Measured(bytes, mins, sized) && fixed <= sized
    requires below != {} && below < sized - fixed
    requires forall i :: i in below ==> Level(bytes, mins, sized, fixed, available) * bytes[i] < mins[i]
    ensures Level(bytes, mins, sized, fixed + below, available) <= Level(bytes, mins, sized, fixed, available)
  {
    var free := sized - fixed;
    var left := free - below;
    assert sized - (fixed + below) == left;
    assert free == below + left;
    FreeBytesPositive(bytes, free);
    FreeBytesPositive(bytes, below);
    FreeBytesPositive(bytes, left);
    SumSplit(bytes, below, left);
    SumSplit(mins, fixed, below);
    var level := Level(bytes, mins, sized, fixed, available);
    BelowInAll(bytes, mins, below, level);
    LevelFalls(available - Sum(mins, fixed), Sum(bytes, free), Sum(mins, below), Sum(bytes, below), level);
  }

  lemma {:induction false} FixingStep(bytes: seq<real>, mins: seq<real>, sized: set<nat>, fixed: set<nat>,
      below: set<nat>, available: real)
    requires Measured(bytes, mins, sized) && Fixing(bytes, mins, sized, fixed, available)
    requires below != {} && below <= sized - fixed
    requires forall i :: i in below ==> Level(bytes, mins, sized, fixed, available) * bytes[i] < mins[i]
    ensures Fixing(bytes, mins, sized, fixed + below, available)
  {
    if Sum(mins, sized) <= available {
      NotAllBelow(bytes, mins, sized, fixed, below, available);
    }
    if fixed + below < sized {
      LevelOnlyFalls(bytes, mins, sized, fixed, below, available);
      forall i | i in fixed + below && i < |bytes|
        ensures Level(bytes, mins, sized, fixed + below, available) * bytes[i] <= mins[i]
      {
        ScaledAtMost(Level(bytes, mins, sized, fixed + below, available), Level(bytes, mins, sized, fixed, available),
          bytes[i], mins[i]);
      }
    }
  }

  lemma {:induction false} ShareIsLevel(room: real, total: real, b: real)
    requires total != 0.0
    ensures room * b / total == room / total * b
  {
    var q := room / total;
    DivMul(room, total);
    assert room * b == q * b * total;
    DivMul(room * b, total);
  }

  ghost function Shares(bytes: seq<real>, mins: seq<real>, sized: set<nat>, fixed: set<nat>,
      available: real): (s: seq<real>)
    requires |bytes| == |mins|
    ensures |s| == |bytes|
    ensures forall i :: 0 <= i < |s| ==>
      s[i] == if i in fixed then mins[i] else Level(bytes, mins, sized, fixed, available) * bytes[i]
  {
    seq(|bytes|, i requires 0 <= i < |bytes| =>
      if i in fixed then mins[i] else Level(bytes, mins, sized, fixed, available) * bytes[i])
  }

  /** Once no free part is below its minimum, the parts use up exactly what is available. */
  lemma {:induction false} SharesAddUp(bytes: seq<real>, mins: seq<real>, sized: set<nat>, fixed: set<nat>,
      available: real)
    requires Measured(bytes, mins, sized) && fixed < sized
    ensures Sum(Shares(bytes, mins, sized, fixed, available), sized) == available
  {
    var w := Shares(bytes, mins, sized, fixed, available);
    var level := Level(bytes, mins, sized, fixed, available);
    assert sized == fixed + (sized - fixed);
    SumSplit(w, fixed, sized - fixed);
    SumSame(w, mins, fixed, fixed);
    SumScale(bytes, w, level, sized - fixed);
    LevelFillsRoom(bytes, mins, sized, fixed, available);
  }

  lemma {:induction false} SharesAreWaterFilled(bytes: seq<real>, mins: seq<real>, sized: set<nat>, fixed: set<nat>,
      available: real)
    requires Measured(bytes, mins, sized) && Fixing(bytes, mins, sized, fixed, available) && fixed < sized
    requires forall i :: i in sized - fixed ==> Level(bytes, mins, sized, fixed, available) * bytes[i] >= mins[i]
    ensures WaterFilled(bytes, mins, Shares(bytes, mins, sized, fixed, available), sized,
      Level(bytes, mins, sized, fixed, available))
    ensures NotNegative(mins, sized) ==> Level(bytes, mins, sized, fixed, available) >= 0.0
  {
    hide Sum, Level, Fixing, Shares, WaterFilled;
    var level := Level(bytes, mins, sized, fixed, available);
    FixedAreLow(bytes, mins, sized, fixed, available);
    FilledAt(bytes, mins, Shares(bytes, mins, sized, fixed, available), sized, fixed, level);
    LevelSign(bytes, mins, sized, fixed, level);
  }

  lemma {:induction false} FilledAt(
      bytes: seq<real>, mins: seq<real>, w: seq<real>, sized: set<nat>, fixed: set<nat>, level: real)
    requires |bytes| == |mins| == |w| && forall i :: i in sized ==> i < |w|
    requires forall i :: 0 <= i < |w| ==> w[i] == if i in fixed then mins[i] else level * bytes[i]
    requires forall i :: i in fixed && i < |bytes| ==> level * bytes[i] <= mins[i]
    requires forall i :: i in sized - fixed ==> level * bytes[i] >= mins[i]
    ensures WaterFilled(bytes, mins, w, sized, level)
  {
    forall i | 0 <= i < |w| && i in sized ensures w[i] == Max(mins[i], level * bytes[i]) {
      assert i in fixed || i in sized - fixed;
    }
  }

  lemma {:induction false} LevelSign(bytes: seq<real>, mins: seq<real>, sized: set<nat>, fixed: set<nat>, level: real)
    requires Measured(bytes, mins, sized) && fixed < sized
    requires forall i :: i in sized - fixed ==> level * bytes[i] >= mins[i]
    ensures NotNegative(mins, sized) ==> level >= 0.0
  {
    var i :| i in sized - fixed;
    if level < 0.0 { GreaterProduct(level, 0.0, bytes[i]); }
  }

  lemma {:induction false} FixedAreLow(bytes: seq<real>, mins: seq<real>, sized: set<nat>, fixed: set<nat>,
      available: real)
    requires |bytes| == |mins| && Fixing(bytes, mins, sized, fixed, available) && fixed < sized
    ensures forall i :: i in fixed && i < |bytes| ==> Level(bytes, mins, sized, fixed, available) * bytes[i] <= mins[i]
  {
    hide Sum, Level;
  }

  ghost predicate NotNegative(mins: seq<real>, sized: set<nat>) {
    forall i :: i in sized && i < |mins| ==> mins[i] >= 0.0
  }

  /**
   What sharing out promises of the widths `w`: the water-filling at `level`, which uses up what is available if the
   minimums fit in it and otherwise leaves every part at its minimum.
   */
  ghost predicate SharedOut(bytes: seq<real>, mins: seq<real>, sized: set<nat>, available: real, w: seq<real>,
      level: real) {
    && |w| == |bytes| == |mins|
    && WaterFilled(bytes, mins, w, sized, level) && (NotNegative(mins, sized) ==> level >= 0.0)
    && (sized != {} && Sum(mins, sized) <= available ==> Sum(w, sized) == available)
    && (Sum(mins, sized) > available ==> forall i :: i in sized && i < |w| ==> w[i] == mins[i])
  }

  /** A level at which no part gets more than its minimum. */
  lemma {:induction false} LowLevel(bytes: seq<real>, mins: seq<real>, sized: set<nat>) returns (level: real)
    requires Measured(bytes, mins, sized)
    ensures level <= 0.0 && forall i :: i in sized ==> level * bytes[i] <= mins[i]
    ensures NotNegative(mins, sized) ==> level == 0.0
    decreases sized
  {
    level := 0.0;
    if sized != {} {
      var k :| k in sized;
      var low := LowLevel(bytes, mins, sized - {k});
      level := LowerLevel(low, mins[k], bytes[k]);
      LowerForAll(bytes, mins, sized - {k}, low, level);
    }
  }

  lemma {:induction false} LowerForAll(bytes: seq<real>, mins: seq<real>, sized: set<nat>, low: real, level: real)
    requires Measured(bytes, mins, sized) && level <= low && forall i :: i in sized ==> low * bytes[i] <= mins[i]
    ensures forall i :: i in sized ==> level * bytes[i] <= mins[i]
  {
    forall i | i in sized ensures level * bytes[i] <= mins[i] { ScaledAtMost(level, low, bytes[i], mins[i]); }
  }

  lemma {:induction false} LowerLevel(low: real, m: real, b: real) returns (level: real)
    requires b > 0.0 && low <= 0.0
    ensures level <= low && level * b <= m && (m >= 0.0 && low == 0.0 ==> level == 0.0)
  {
    if low * b <= m {
      level := low;
    } else {
      level := m / b;
      DivMul(m, b);
      DivideBy(m, b, low);
    }
  }

  /** When no free part is below its minimum, the shares are the water-filling. */
  lemma {:induction false} Settled(bytes: seq<real>, mins: seq<real>, sized: set<nat>, fixed: set<nat>, available: real,
      w: seq<real>) returns (level: real)
    requires Measured(bytes, mins, sized) && Fixing(bytes, mins, sized, fixed, available)
    requires w == Shares(bytes, mins, sized, fixed, available)
    requires forall i :: i in sized - fixed ==> w[i] >= mins[i]
    ensures SharedOut(bytes, mins, sized, available, w, level)
  {
    if fixed == sized {
      level := LowLevel(bytes, mins, sized);
    } else {
      level := Level(bytes, mins, sized, fixed, available);
      SharesAddUp(bytes, mins, sized, fixed, available);
      SharesAreWaterFilled(bytes, mins, sized, fixed, available);
      SumMonotone(mins, w, sized);
    }
  }

  /** One round of sharing: what the fixed parts leave, by bytes. */
  method ShareRest(bytes: seq<real>, mins: seq<real>, sized: set<nat>, fixed: set<nat>, available: real)
    returns (w: seq<real>)
    requires Measured(bytes, mins, sized) && fixed <= sized
    ensures w == Shares(bytes, mins, sized, fixed, available)
  {
    var room := available - Sum(mins, fixed);
    var total := Sum(bytes, sized - fixed);
    if total != 0.0 {
      forall i: nat | i < |bytes|
        ensures room * bytes[i] / total == Level(bytes, mins, sized, fixed, available) * bytes[i]
      {
        ShareIsLevel(room, total, bytes[i]);
      }
    }
    w := seq(|bytes|, i requires 0 <= i < |bytes| =>
      if i in fixed then mins[i] else if total == 0.0 then 0.0 else room * bytes[i] / total);
    ghost var s := Shares(bytes, mins, sized, fixed, available);
    assert forall i :: 0 <= i < |w| ==> w[i] == s[i];
  }

  /**
   The loop: whoever is given less than its minimum gets the minimum instead, and the others divide what then remains.
   */
  method ShareOut(bytes: seq<real>, mins: seq<real>, sized: set<nat>, available: real)
    returns (w: seq<real>, ghost level: real)
    requires Measured(bytes, mins, sized)
    ensures SharedOut(bytes, mins, sized, available, w, level)
    ensures exists l: real :: SharedOut(bytes, mins, sized, available, w, l)
  {
    var fixed: set<nat> := {};
    SumNone(mins);
    while true
      invariant Fixing(bytes, mins, sized, fixed, available)
      decreases sized - fixed
    {
      w := ShareRest(bytes, mins, sized, fixed, available);
      var below := set i | i in sized - fixed && w[i] < mins[i];
      if below == {} {
        assert forall i :: i in sized - fixed && w[i] < mins[i] ==> i in below;
        break;
      }
      FixingStep(bytes, mins, sized, fixed, below, available);
      fixed := fixed + below;
    }
    level := Settled(bytes, mins, sized, fixed, available, w);
  }

  // ----- The layout -----

  /** Whether the layout comes out at the width: the minimums fit, or there is nothing to stretch and nothing left. */
  predicate Fills(width: real, spans: seq<Span>, o: Options) {
    if SizedCount(spans) > 0 then Sum(Minimums(width, spans, o), Sized(spans)) <= Available(width, spans, o)
    else Available(width, spans, o) == 0.0
  }

  /** With a floor that is not negative the minimums fit exactly when the gaps and slivers do. */
  lemma {:induction false} FillsWhenRoom(width: real, spans: seq<Span>, o: Options)
    requires o.floor >= 0.0 && SizedCount(spans) > 0
    ensures Fills(width, spans, o) <==> Available(width, spans, o) >= 0.0
  {
    MinimumsFit(width, spans, o);
    var mins := Minimums(width, spans, o);
    if Available(width, spans, o) < 0.0 { SumScale(mins, mins, 0.0, Sized(spans)); }
  }

  ghost predicate Laid(width: real, spans: seq<Span>, o: Options, parts: seq<Placed>) {
    && |parts| == |spans|
    && (|parts| > 0 ==> parts[0].x == 0.0)
    && (forall i :: 0 <= i < |parts| - 1 ==> parts[i + 1].x == parts[i].x + parts[i].w + o.gap)
    && (forall i :: 0 <= i < |parts| && spans[i].end == spans[i].start ==> parts[i].w == o.sliver)
  }

  ghost predicate SharedAt(width: real, spans: seq<Span>, o: Options, parts: seq<Placed>, level: real)
    requires |parts| == |spans|
  {
    forall i :: 0 <= i < |parts| && spans[i].end > spans[i].start ==>
      parts[i].w == Max(Minimum(width, spans, o, i), level * Bytes(spans)[i])
  }

  function Widths(parts: seq<Placed>): (w: seq<real>)
    ensures |w| == |parts| && forall i :: 0 <= i < |parts| ==> w[i] == parts[i].w
  {
    seq(|parts|, i requires 0 <= i < |parts| => parts[i].w)
  }

  lemma {:induction false} AvailableAddedUp(width: real, spans: seq<Span>, o: Options)
    requires |spans| > 0
    ensures Available(width, spans, o) ==
      width - Times(o.gap, |spans| - 1) - Times(o.sliver, |spans| - SizedCount(spans))
  {
    hide SizedCount, Times;
    var n, empty := |spans| - 1, |spans| - SizedCount(spans);
    TimesIsProduct(o.gap, n);
    TimesIsProduct(o.sliver, empty);
  }

  /** Where the last of the widths `w` ends, set against the width. */
  lemma {:induction false} EndOfLayout(width: real, spans: seq<Span>, gap: real, sliver: real, available: real,
      least: real, w: seq<real>)
    requires WellFormed(spans) && |w| == |spans| > 0
    requires available == width - Times(gap, |spans| - 1) - Times(sliver, |spans| - SizedCount(spans))
    requires forall i :: 0 <= i < |w| && spans[i].end == spans[i].start ==> w[i] == sliver
    requires SizedCount(spans) > 0 ==> Sum(w, Sized(spans)) == if least <= available then available else least
    ensures Sum(w, Sized(spans) + Empties(spans)) + Times(gap, |w| - 1) == width <==>
      if SizedCount(spans) > 0 then least <= available else available == 0.0
  {
    SumSplit(w, Sized(spans), Empties(spans));
    SumOfEmpty(w, spans, sliver);
    if SizedCount(spans) == 0 {
      assert Sized(spans) == {};
      SumNone(w);
    }
  }

  /** A part as it comes back; None stands for a width that is undefined and for a sum that is not a number. */
  datatype Drawn = Drawn(x: Option<real>, w: Option<real>)

  /** Each part a gap after the one before it, while there are numbers to add. */
  ghost predicate Chain(parts: seq<Drawn>, gap: real) {
    && (|parts| > 0 ==> parts[0].x == Some(0.0))
    && forall i :: 0 <= i < |parts| - 1 ==> parts[i + 1].x == After(parts[i], gap)
  }

  function After(part: Drawn, gap: real): Option<real> {
    if part.x.Some? && part.w.Some? then Some(part.x.value + part.w.value + gap) else None
  }

  ghost predicate Whole(parts: seq<Drawn>) {
    forall i :: 0 <= i < |parts| ==> parts[i].x.Some? && parts[i].w.Some?
  }

  ghost function Numbers(parts: seq<Drawn>): (p: seq<Placed>)
    requires Whole(parts)
    ensures |p| == |parts| && forall i :: 0 <= i < |p| ==> p[i] == Placed(parts[i].x.value, parts[i].w.value)
  {
    seq(|parts|, i requires 0 <= i < |parts| => Placed(parts[i].x.value, parts[i].w.value))
  }

  /** A part has no place exactly if one before it has no width. */
  lemma {:induction false} LostAfter(parts: seq<Drawn>, gap: real, i: nat)
    requires Chain(parts, gap) && i < |parts|
    ensures parts[i].x.None? <==> exists j :: 0 <= j < i && parts[j].w.None?
  {
    if i > 0 {
      LostAfter(parts, gap, i - 1);
      assert parts[i - 1 + 1].x == After(parts[i - 1], gap);
      if parts[i].x.None? && parts[i - 1].w.Some? {
        var j :| 0 <= j < i - 1 && parts[j].w.None?;
      }
    }
  }

  lemma {:induction false} WholeFromWidths(parts: seq<Drawn>, gap: real)
    requires Chain(parts, gap) && forall i :: 0 <= i < |parts| ==> parts[i].w.Some?
    ensures Whole(parts)
  {
    forall i | 0 <= i < |parts| ensures parts[i].x.Some? { LostAfter(parts, gap, i); }
  }

  lemma {:induction false} ChainOfNumbers(parts: seq<Drawn>, gap: real)
    requires Chain(parts, gap) && Whole(parts)
    ensures |parts| > 0 ==> Numbers(parts)[0].x == 0.0
    ensures var p := Numbers(parts); forall i :: 0 <= i < |p| - 1 ==> p[i + 1].x == p[i].x + p[i].w + gap
  {
    var p := Numbers(parts);
    forall i | 0 <= i < |p| - 1 ensures p[i + 1].x == p[i].x + p[i].w + gap {
      assert parts[i + 1].x == After(parts[i], gap);
    }
  }

  /** The parts side by side, `gap` between them. */
  method PlaceSideBySide(w: seq<Option<real>>, gap: real, ghost every: set<nat>) returns (parts: seq<Drawn>)
    requires forall i :: 0 <= i < |w| ==> i in every
    ensures |parts| == |w| && forall i :: 0 <= i < |w| ==> parts[i].w == w[i]
    ensures Chain(parts, gap)
    ensures |w| > 0 && Whole(parts) ==>
      EndOf(Numbers(parts)) == Sum(Widths(Numbers(parts)), every) + Times(gap, |w| - 1)
  {
    var x := Some(0.0);
    parts := [];
    for k := 0 to |w|
      invariant |parts| == k && Chain(parts, gap)
      invariant forall i :: 0 <= i < k ==> parts[i].w == w[i]
      invariant x == if k == 0 then Some(0.0) else After(parts[k - 1], gap)
    {
      var part := Drawn(x, w[k]);
      x := After(part, gap);
      parts := parts + [part];
    }
    if |w| > 0 && Whole(parts) {
      ChainOfNumbers(parts, gap);
      EndAddsUp(Numbers(parts), gap, every);
    }
  }

  /** The widths of all parts: the empty ones slivers, the rest shared out. */
  method PartWidths(width: real, spans: seq<Span>, o: Options) returns (w: seq<real>, ghost level: real)
    requires |spans| > 0
    ensures |w| == |spans|
    ensures forall i :: 0 <= i < |w| && spans[i].end == spans[i].start ==> w[i] == o.sliver
    ensures WaterFilled(Bytes(spans), Minimums(width, spans, o), w, Sized(spans), level)
    ensures o.floor >= 0.0 ==> level >= 0.0
    ensures var least, available := Sum(Minimums(width, spans, o), Sized(spans)), Available(width, spans, o);
      && (SizedCount(spans) > 0 ==> Sum(w, Sized(spans)) == if least <= available then available else least)
      && (least > available ==> forall i :: i in Sized(spans) ==> w[i] == Minimums(width, spans, o)[i])
  {
    hide Minimum, Minimums, Sum, Available, SizedCount;
    var sized, bytes, mins, available := Sized(spans), Bytes(spans), Minimums(width, spans, o),
      Available(width, spans, o);
    MinimumsNotNegative(width, spans, o);
    var shares;
    shares, level := ShareOut(bytes, mins, sized, available);
    w := seq(|spans|, i requires 0 <= i < |spans| => if spans[i].end == spans[i].start then o.sliver else shares[i]);
    assert forall i :: i in sized ==> w[i] == shares[i];
    SumSame(w, shares, sized, sized);
    if Sum(mins, sized) > available { SumSame(w, mins, sized, sized); }
    SomeSized(spans);
  }

  lemma {:induction false} MinimumsNotNegative(width: real, spans: seq<Span>, o: Options)
    ensures o.floor >= 0.0 ==> NotNegative(Minimums(width, spans, o), Sized(spans))
  {
    if SizedCount(spans) > 0 && o.floor >= 0.0 { MinimumsFit(width, spans, o); }
  }

  lemma {:induction false} SomeSized(spans: seq<Span>)
    ensures SizedCount(spans) > 0 ==> Sized(spans) != {}
  {
    if i :| 0 <= i < |spans| && spans[i].end > spans[i].start { assert i in Sized(spans); }
  }

  predicate Backward(s: Span) { s.end < s.start }

  /**
   What becomes of the parts' widths: none for a backward range, a sliver for an empty one, the water-filling else.
   */
  ghost predicate WidthsAt(width: real, spans: seq<Span>, o: Options, parts: seq<Drawn>, level: real) {
    && |parts| == |spans|
    && forall i :: 0 <= i < |parts| ==>
         if Backward(spans[i]) then parts[i].w == None
         else if spans[i].end == spans[i].start then parts[i].w == Some(o.sliver)
         else parts[i].w == Some(Max(Minimum(width, spans, o, i), level * Bytes(spans)[i]))
  }

  method Layout(width: real, spans: seq<Span>, o: Options) returns (r: Result<seq<Drawn>>)
    ensures r.Ok? <==> width > 0.0
    ensures r.Ok? ==> Chain(r.value, o.gap)
    ensures r.Ok? ==>
      exists level: real :: (o.floor >= 0.0 ==> level >= 0.0) && WidthsAt(width, spans, o, r.value, level)
    ensures r.Ok? && WellFormed(spans) ==>
      && Whole(r.value) && Laid(width, spans, o, Numbers(r.value))
      && (exists level: real :: SharedAt(width, spans, o, Numbers(r.value), level))
      && (|spans| > 0 ==> (EndOf(Numbers(r.value)) == width <==> Fills(width, spans, o)))
  {
    if width <= 0.0 { return Err; }
    if |spans| == 0 {
      assert WidthsAt(width, spans, o, [], 0.0);
      ForwardWidths(width, spans, o, [], 0.0);
      return Ok([]);
    }
    var w; ghost var level;
    w, level := PartWidths(width, spans, o);
    var widths := seq(|spans|, i requires 0 <= i < |spans| => if Backward(spans[i]) then None else Some(w[i]));
    var parts := PlaceSideBySide(widths, o.gap, Sized(spans) + Empties(spans));
    WidthsAtLevel(width, spans, o, w, parts, level);
    if WellFormed(spans) {
      ForwardLayout(width, spans, o, w, parts);
      ForwardWidths(width, spans, o, parts, level);
    }
    return Ok(parts);
  }

  lemma {:induction false} WidthsAtLevel(
      width: real, spans: seq<Span>, o: Options, w: seq<real>, parts: seq<Drawn>, level: real)
    requires |parts| == |w| == |spans|
    requires forall i :: 0 <= i < |w| && spans[i].end == spans[i].start ==> w[i] == o.sliver
    requires WaterFilled(Bytes(spans), Minimums(width, spans, o), w, Sized(spans), level)
    requires forall i :: 0 <= i < |w| ==> parts[i].w == if Backward(spans[i]) then None else Some(w[i])
    ensures WidthsAt(width, spans, o, parts, level)
  {
    hide Minimum;
    forall i | 0 <= i < |parts| && spans[i].end > spans[i].start
      ensures w[i] == Max(Minimum(width, spans, o, i), level * Bytes(spans)[i])
    {
      assert i in Sized(spans);
    }
  }

  /** Without a backward range every part has its place and width. */
  lemma {:induction false} ForwardLayout(width: real, spans: seq<Span>, o: Options, w: seq<real>, parts: seq<Drawn>)
    requires WellFormed(spans) && |parts| == |w| == |spans| > 0 && Chain(parts, o.gap)
    requires forall i :: 0 <= i < |w| && spans[i].end == spans[i].start ==> w[i] == o.sliver
    requires forall i :: 0 <= i < |w| ==> parts[i].w == Some(w[i])
    requires var least, available := Sum(Minimums(width, spans, o), Sized(spans)), Available(width, spans, o);
      SizedCount(spans) > 0 ==> Sum(w, Sized(spans)) == if least <= available then available else least
    requires Whole(parts) ==>
      EndOf(Numbers(parts)) == Sum(Widths(Numbers(parts)), Sized(spans) + Empties(spans)) + Times(o.gap, |w| - 1)
    ensures Whole(parts) && Laid(width, spans, o, Numbers(parts))
    ensures EndOf(Numbers(parts)) == width <==> Fills(width, spans, o)
  {
    hide Minimums, Sum, Available, Times, SizedCount;
    WholeFromWidths(parts, o.gap);
    ChainOfNumbers(parts, o.gap);
    assert Widths(Numbers(parts)) == w;
    AvailableAddedUp(width, spans, o);
    EndOfLayout(
      width, spans, o.gap, o.sliver, Available(width, spans, o), Sum(Minimums(width, spans, o), Sized(spans)), w);
  }

  /** Where every range runs forward, the widths are those `SharedAt` speaks of. */
  lemma {:induction false} ForwardWidths(
      width: real, spans: seq<Span>, o: Options, parts: seq<Drawn>, level: real)
    requires WidthsAt(width, spans, o, parts, level) && Whole(parts)
    ensures SharedAt(width, spans, o, Numbers(parts), level)
  {
    hide Minimum;
  }

  function EndOf(parts: seq<Placed>): real
    requires parts != []
  {
    parts[|parts| - 1].x + parts[|parts| - 1].w
  }

  /** Too narrow a canvas: two bytes as two parts on one pixel, by the default gaps, never end at its edge. */
  lemma {:induction false} LastPartOverruns(parts: seq<Placed>, level: real)
    requires var spans := [Span(0, 1, None), Span(1, 2, None)];
      Laid(1.0, spans, SCALE_DEFAULTS, parts) && SharedAt(1.0, spans, SCALE_DEFAULTS, parts, level)
    ensures !Fills(1.0, [Span(0, 1, None), Span(1, 2, None)], SCALE_DEFAULTS)
    ensures EndOf(parts) > 1.0
  {
    var spans := [Span(0, 1, None), Span(1, 2, None)];
    TwoParts(spans);
    FillsWhenRoom(1.0, spans, SCALE_DEFAULTS);
    MinimumsFit(1.0, spans, SCALE_DEFAULTS);
    assert Available(1.0, spans, SCALE_DEFAULTS) == -1.0;
    assert Minimum(1.0, spans, SCALE_DEFAULTS, 0) == Minimums(1.0, spans, SCALE_DEFAULTS)[0] == 0.0;
    assert Minimum(1.0, spans, SCALE_DEFAULTS, 1) == Minimums(1.0, spans, SCALE_DEFAULTS)[1] == 0.0;
    assert parts[1].x == parts[0].x + parts[0].w + 2.0;
  }

  lemma TwoParts(spans: seq<Span>)
    requires spans == [Span(0, 1, None), Span(1, 2, None)]
    ensures SizedCount(spans) == 2
  {
    assert spans[..1] == [Span(0, 1, None)] && spans[..1][..0] == [];
    assert SizedCount(spans[..1]) == 1;
  }

  /**
   There is only one water-filling: two levels that use the same room give every part the same
   width, so the widths do not depend on the order in which parts were fixed.
   */
  lemma {:induction false} WaterFillingIsUnique(bytes: seq<real>, mins: seq<real>, sized: set<nat>, v: seq<real>,
      w: seq<real>, a: real, b: real)
    requires Measured(bytes, mins, sized) && |v| == |w| == |bytes|
    requires WaterFilled(bytes, mins, v, sized, a) && WaterFilled(bytes, mins, w, sized, b)
    requires Sum(v, sized) == Sum(w, sized)
    ensures forall i :: i in sized ==> v[i] == w[i]
  {
    if a <= b {
      WaterRises(bytes, mins, sized, v, w, a, b);
    } else {
      WaterRises(bytes, mins, sized, w, v, b, a);
    }
  }

  lemma {:induction false} WaterRises(bytes: seq<real>, mins: seq<real>, sized: set<nat>, v: seq<real>, w: seq<real>,
      a: real, b: real)
    requires Measured(bytes, mins, sized) && |v| == |w| == |bytes| && a <= b
    requires WaterFilled(bytes, mins, v, sized, a) && WaterFilled(bytes, mins, w, sized, b)
    ensures forall i :: i in sized ==> v[i] <= w[i]
    ensures Sum(v, sized) == Sum(w, sized) ==> forall i :: i in sized ==> v[i] == w[i]
  {
    forall i | i in sized ensures v[i] <= w[i] {
      ScaledAtMost(a, b, bytes[i], b * bytes[i]);
    }
    SumMonotone(v, w, sized);
  }

  lemma {:induction false} EndAddsUp(parts: seq<Placed>, gap: real, every: set<nat>)
    requires parts != [] && parts[0].x == 0.0 && forall i :: 0 <= i < |parts| ==> i in every
    requires forall i :: 0 <= i < |parts| - 1 ==> parts[i + 1].x == parts[i].x + parts[i].w + gap
    ensures EndOf(parts) == Sum(Widths(parts), every) + Times(gap, |parts| - 1)
  {
    var n := |parts| - 1;
    assert Widths(parts)[..n] == Widths(parts[..n]);
    if n == 0 {
      assert Widths(parts[..0]) == [];
    } else {
      EndAddsUp(parts[..n], gap, every);
    }
  }

  lemma {:induction false} SameWidthsSamePlaces(width: real, spans: seq<Span>, o: Options, p: seq<Placed>,
      q: seq<Placed>, k: nat)
    requires Laid(width, spans, o, p) && Laid(width, spans, o, q) && k < |p|
    requires forall i :: 0 <= i < |p| ==> p[i].w == q[i].w
    ensures p[k] == q[k]
  {
    if k > 0 {
      SameWidthsSamePlaces(width, spans, o, p, q, k - 1);
      assert p[k - 1 + 1].x == p[k - 1].x + p[k - 1].w + o.gap && q[k - 1 + 1].x == q[k - 1].x + q[k - 1].w + o.gap;
    }
  }

  /**
   What `Layout` returns is the only such layout: parts side by side, empty ones slivers, the others water-filled
   at any level, that end where it ends.
   */
  lemma {:induction false} LayoutIsUnique(width: real, spans: seq<Span>, o: Options, p: seq<Placed>, q: seq<Placed>,
      a: real, b: real)
    requires WellFormed(spans) && Laid(width, spans, o, p) && Laid(width, spans, o, q)
    requires SharedAt(width, spans, o, p, a) && SharedAt(width, spans, o, q, b)
    requires |spans| > 0 ==> EndOf(p) == EndOf(q)
    ensures p == q
  {
    hide Minimum, Minimums, Sum;
    if |spans| > 0 {
      var sized, empties, v, w := Sized(spans), Empties(spans), Widths(p), Widths(q);
      EndAddsUp(p, o.gap, sized + empties);
      EndAddsUp(q, o.gap, sized + empties);
      SumSplit(v, sized, empties);
      SumSplit(w, sized, empties);
      SumSame(v, w, empties, empties);
      WaterFilledAt(width, spans, o, p, a);
      WaterFilledAt(width, spans, o, q, b);
      WaterFillingIsUnique(Bytes(spans), Minimums(width, spans, o), sized, v, w, a, b);
      forall k | 0 <= k < |p| ensures p[k].w == q[k].w {
        assert k in sized ==> v[k] == w[k];
      }
      forall k | 0 <= k < |p| ensures p[k] == q[k] { SameWidthsSamePlaces(width, spans, o, p, q, k); }
    }
  }

  lemma {:induction false} WaterFilledAt(width: real, spans: seq<Span>, o: Options, parts: seq<Placed>, level: real)
    requires |parts| == |spans| && SharedAt(width, spans, o, parts, level)
    ensures WaterFilled(Bytes(spans), Minimums(width, spans, o), Widths(parts), Sized(spans), level)
  {
    hide Minimum;
  }

  /** The sizes used by default: gaps of 2, parts of 3 at least, slivers of 4. */
  lemma {:induction false} DefaultsShown(parts: seq<Placed>, level: real)
    requires var spans := [Span(0, 1000, None), Span(1000, 1001, None), Span(1001, 1001, None)];
      && Laid(102.0, spans, SCALE_DEFAULTS, parts) && SharedAt(102.0, spans, SCALE_DEFAULTS, parts, level)
    requires EndOf(parts) == 102.0
    ensures parts == [Placed(0.0, 91.0), Placed(93.0, 3.0), Placed(98.0, 4.0)]
  {
    var spans := [Span(0, 1000, None), Span(1000, 1001, None), Span(1001, 1001, None)];
    ThreeSpans(spans);
    assert parts[1].x == parts[0].x + parts[0].w + 2.0;
    assert parts[2].x == parts[1].x + parts[1].w + 2.0;
  }

  lemma ThreeSpans(spans: seq<Span>)
    requires spans == [Span(0, 1000, None), Span(1000, 1001, None), Span(1001, 1001, None)]
    ensures SizedCount(spans) == 2
    ensures Minimum(102.0, spans, SCALE_DEFAULTS, 0) == Minimum(102.0, spans, SCALE_DEFAULTS, 1) == 3.0
  {
    assert spans[..2] == [Span(0, 1000, None), Span(1000, 1001, None)];
    assert spans[..2][..1] == [Span(0, 1000, None)] && spans[..2][..1][..0] == [];
    assert SizedCount(spans[..2][..1]) == 1 && SizedCount(spans[..2]) == 2;
    assert OwnSum(spans[..2][..1], SCALE_DEFAULTS) == 3.0 && OwnSum(spans[..2], SCALE_DEFAULTS) == 6.0;
  }
}
