/** bytePieces of byte-map.ts: the bytes of a cell cut wherever a described field starts or ends. */
module BytePieces {
  import opened Common
  import Sorting

  datatype IdSpan = IdSpan(id: string, start: int, end: int)

  datatype Piece = Piece(start: int, end: int, ids: seq<string>)

  predicate InBytes(s: IdSpan, total: int) {
    IsSafeInteger(s.start) && IsSafeInteger(s.end) && 0 <= s.start <= s.end <= total
  }

  /** `ids.join('\u0000')`. */
  function Join(ids: seq<string>): string {
    if ids == [] then ""
    else if |ids| == 1 then ids[0]
    else ids[0] + ['\0'] + Join(ids[1..])
  }

  /** The non-empty fields that read all of `[start, end)`, in input order. */
  function Reading(spans: seq<IdSpan>, start: int, end: int): seq<string> {
    if spans == [] then []
    else
      var s := spans[0];
      (if s.end > s.start && s.start <= start && s.end >= end then [s.id] else []) + Reading(spans[1..], start, end)
  }

  /** The fields that cover byte `b`. */
  function At(spans: seq<IdSpan>, b: int): seq<string> {
    Reading(spans, b, b + 1)
  }

  // ----- The cuts -----

  function Ends(spans: seq<IdSpan>): seq<int> {
    if spans == [] then [] else [spans[0].start, spans[0].end] + Ends(spans[1..])
  }

  /** `[...new Set(s)]`: each value once, at its first appearance. */
  function Deduplicated(s: seq<int>): (r: seq<int>)
    ensures forall x :: x in r <==> x in s
    ensures forall i, j :: 0 <= i < j < |r| ==> r[i] != r[j]
  {
    if s == [] then []
    else
      var n := |s| - 1;
      var front := Deduplicated(s[..n]);
      assert s == s[..n] + [s[n]];
      if s[n] in s[..n] then front else front + [s[n]]
  }

  function Edges(total: int, spans: seq<IdSpan>): seq<int> {
    Sorting.Sort(Deduplicated([0, total] + Ends(spans)), (a: int, b: int) => a <= b)
  }

  lemma {:induction false} EndsOfSpans(spans: seq<IdSpan>)
    ensures forall i :: 0 <= i < |spans| ==> spans[i].start in Ends(spans) && spans[i].end in Ends(spans)
    ensures forall x :: x in Ends(spans) ==> exists i :: 0 <= i < |spans| && (x == spans[i].start || x == spans[i].end)
  {
    if spans != [] {
      EndsOfSpans(spans[1..]);
      forall x | x in Ends(spans) ensures exists i :: 0 <= i < |spans| && (x == spans[i].start || x == spans[i].end) {
        if x != spans[0].start && x != spans[0].end {
          var i :| 0 <= i < |spans[1..]| && (x == spans[1..][i].start || x == spans[1..][i].end);
          assert spans[i + 1] == spans[1..][i];
        }
      }
    }
  }

  ghost predicate Increasing(s: seq<int>) {
    forall i, j :: 0 <= i < j < |s| ==> s[i] < s[j]
  }

  lemma {:induction false} StrictlySorted(s: seq<int>)
    requires Sorting.Distinct(s)
    ensures Increasing(Sorting.Sort(s, (a: int, b: int) => a <= b))
  {
    var le := (a: int, b: int) => a <= b;
    Sorting.SortSorted(s, le);
    Sorting.SortKeepsDistinct(s, le);
    var r := Sorting.Sort(s, le);
    forall i, j | 0 <= i < j < |r| ensures r[i] < r[j] { assert le(r[i], r[j]); }
  }

  lemma {:induction false} FirstAndLast(e: seq<int>, lo: int, hi: int)
    requires Increasing(e) && lo in e && hi in e
    requires forall x :: x in e ==> lo <= x <= hi
    ensures e[0] == lo && e[|e| - 1] == hi
  {
    var i :| 0 <= i < |e| && e[i] == lo;
    var j :| 0 <= j < |e| && e[j] == hi;
    assert e[0] in e && e[|e| - 1] in e;
    assert e[0] <= e[i] && e[j] <= e[|e| - 1];
  }

  /** The cuts run from 0 to the total, strictly upwards, through every field's ends. */
  lemma {:induction false} EdgesAreCuts(total: int, spans: seq<IdSpan>)
    requires 0 <= total && forall i :: 0 <= i < |spans| ==> InBytes(spans[i], total)
    ensures var e := Edges(total, spans);
      && Increasing(e) && |e| > 0 && e[0] == 0 && e[|e| - 1] == total
      && (forall i :: 0 <= i < |spans| ==> spans[i].start in e && spans[i].end in e)
  {
    hide Ends, Sorting.Sort, Sorting.Insert, Deduplicated;
    var ends := Ends(spans);
    var all := [0, total] + ends;
    var distinct := Deduplicated(all);
    var e := Edges(total, spans);
    assert Increasing(e) by { StrictlySorted(distinct); }
    assert forall x :: x in e <==> x in all by {
      Sorting.SortMembers(distinct, (a: int, b: int) => a <= b);
    }
    EndsOfSpans(spans);
    assert forall x :: x in all <==> x == 0 || x == total || x in ends;
    FirstAndLast(e, 0, total);
  }

  lemma {:induction false} CutOutside(e: seq<int>, k: nat, x: int)
    requires k + 1 < |e| && Increasing(e) && x in e
    ensures x <= e[k] || x >= e[k + 1]
  {
    var i :| 0 <= i < |e| && e[i] == x;
    assert i < k ==> e[i] < e[k];
    assert i > k + 1 ==> e[k + 1] < e[i];
  }

  /** No field starts or ends between two neighbouring cuts, so one list describes every byte there. */
  lemma {:induction false} SameBetweenCuts(spans: seq<IdSpan>, e: seq<int>, k: nat, b: int)
    requires k + 1 < |e| && Increasing(e) && e[k] <= b < e[k + 1]
    requires forall i :: 0 <= i < |spans| ==> spans[i].start in e && spans[i].end in e
    ensures Reading(spans, e[k], e[k + 1]) == At(spans, b)
  {
    if spans != [] {
      assert forall i :: 0 <= i < |spans[1..]| ==> spans[1..][i] == spans[i + 1];
      SameBetweenCuts(spans[1..], e, k, b);
      CutOutside(e, k, spans[0].start);
      CutOutside(e, k, spans[0].end);
    }
  }

  // ----- Runs -----

  /** Whether a new run starts at byte `o`: the field lists on its two sides read differently. */
  predicate StartsRun(total: int, spans: seq<IdSpan>, o: int) {
    0 <= o < total && (o == 0 || Join(At(spans, o - 1)) != Join(At(spans, o)))
  }

  /** A run: bytes whose fields read like those of its first byte. */
  ghost predicate IsRun(run: Piece, spans: seq<IdSpan>) {
    && run.start < run.end && run.ids == At(spans, run.start)
    && forall b :: run.start <= b < run.end ==> Join(At(spans, b)) == Join(run.ids)
  }

  ghost predicate RunsTo(runs: seq<Piece>, end: int, spans: seq<IdSpan>) {
    && (if runs == [] then end == 0 else runs[0].start == 0 && runs[|runs| - 1].end == end)
    && (forall k :: 0 <= k < |runs| ==> 0 <= runs[k].start && runs[k].end <= end && IsRun(runs[k], spans))
    && (forall k :: 0 <= k < |runs| - 1 ==>
      runs[k].end == runs[k + 1].start && Join(runs[k].ids) != Join(runs[k + 1].ids))
  }

  lemma {:induction false} LengthenRun(runs: seq<Piece>, from: int, to: int, spans: seq<IdSpan>, ids: seq<string>)
    requires RunsTo(runs, from, spans) && from < to && runs != []
    requires forall b :: from <= b < to ==> At(spans, b) == ids
    requires Join(runs[|runs| - 1].ids) == Join(ids)
    ensures RunsTo(runs[|runs| - 1 := runs[|runs| - 1].(end := to)], to, spans)
  {
    var last := runs[|runs| - 1].(end := to);
    assert IsRun(last, spans);
  }

  lemma {:induction false} AddRun(runs: seq<Piece>, from: int, to: int, spans: seq<IdSpan>, ids: seq<string>)
    requires RunsTo(runs, from, spans) && 0 <= from < to
    requires forall b :: from <= b < to ==> At(spans, b) == ids
    requires runs != [] ==> Join(runs[|runs| - 1].ids) != Join(ids)
    ensures RunsTo(runs + [Piece(from, to, ids)], to, spans)
  {
    hide Join, At;
    assert At(spans, from) == ids;
    assert IsRun(Piece(from, to, ids), spans);
  }

  lemma {:induction false} NoRunsYet(spans: seq<IdSpan>)
    ensures RunsTo([], 0, spans)
  {
  }

  /** The loop over the cuts: a stretch read like the last run lengthens it, any other starts a run. */
  method Runs(total: int, spans: seq<IdSpan>) returns (runs: seq<Piece>)
    requires 0 <= total && forall i :: 0 <= i < |spans| ==> InBytes(spans[i], total)
    ensures RunsTo(runs, total, spans)
  {
    hide Edges, RunsTo, IsRun, Join, At, Reading, InBytes;
    var e := Edges(total, spans);
    EdgesAreCuts(total, spans);
    runs := [];
    NoRunsYet(spans);
    var i := 0;
    while i + 1 < |e|
      invariant 0 <= i < |e|
      invariant RunsTo(runs, e[i], spans)
    {
      var start, end := e[i], e[i + 1];
      var ids := Reading(spans, start, end);
      forall b | start <= b < end ensures At(spans, b) == ids {
        SameBetweenCuts(spans, e, i, b);
      }
      assert 0 <= start < end;
      if runs != [] && Join(runs[|runs| - 1].ids) == Join(ids) {
        LengthenRun(runs, start, end, spans, ids);
        runs := runs[|runs| - 1 := runs[|runs| - 1].(end := end)];
      } else {
        AddRun(runs, start, end, spans, ids);
        runs := runs + [Piece(start, end, ids)];
      }
      i := i + 1;
    }
  }

  /** Runs are maximal, so a run starts at a byte exactly when its neighbours read differently. */
  lemma {:induction false} RunStarts(runs: seq<Piece>, total: int, spans: seq<IdSpan>, o: int)
    requires 0 <= total && RunsTo(runs, total, spans)
    ensures (exists k :: 0 <= k < |runs| && runs[k].start == o) <==> StartsRun(total, spans, o)
  {
    if k :| 0 <= k < |runs| && runs[k].start == o {
      if k > 0 {
        assert runs[k - 1].end == o && IsRun(runs[k - 1], spans) && IsRun(runs[k], spans);
        assert Join(At(spans, o - 1)) == Join(runs[k - 1].ids);
      }
    }
    if StartsRun(total, spans, o) {
      var k := RunOf(runs, total, spans, o);
      var run := runs[k];
      assert IsRun(run, spans);
      RunReads(run, spans, o - 1);
    }
  }

  lemma {:induction false} RunReads(run: Piece, spans: seq<IdSpan>, b: int)
    requires IsRun(run, spans)
    ensures run.start <= b < run.end ==> Join(At(spans, b)) == Join(run.ids)
  {
    if run.start <= b < run.end {
      assert Join(At(spans, b)) == Join(run.ids);
    }
  }

  lemma {:induction false} RunOf(runs: seq<Piece>, end: int, spans: seq<IdSpan>, b: int) returns (k: nat)
    requires 0 <= b < end && RunsTo(runs, end, spans)
    ensures k < |runs| && runs[k].start <= b < runs[k].end
  {
    k := 0;
    while b >= runs[k].end
      invariant k < |runs| && runs[k].start <= b
      decreases |runs| - k
    {
      k := k + 1;
    }
  }

  // ----- Pieces -----

  function Empty(spans: seq<IdSpan>): (r: seq<IdSpan>)
    ensures forall i :: 0 <= i < |r| ==> r[i].start == r[i].end
  {
    if spans == [] then []
    else
      var n := |spans| - 1;
      Empty(spans[..n]) + if spans[n].end == spans[n].start then [spans[n]] else []
  }

  /** The zero-length pieces at offset `o`, as listed. */
  function ZeroAt(pieces: seq<Piece>, o: int): seq<Piece> {
    if pieces == [] then []
    else
      var n := |pieces| - 1;
      ZeroAt(pieces[..n], o) + if pieces[n].start == o == pieces[n].end then [pieces[n]] else []
  }

  /** One zero-length piece for each field of `empties` at offset `o`. */
  function SliversAt(empties: seq<IdSpan>, o: int): seq<Piece> {
    if empties == [] then []
    else
      var n := |empties| - 1;
      SliversAt(empties[..n], o) + if empties[n].start == o then [Piece(o, o, [empties[n].id])] else []
  }

  function NonEmpty(pieces: seq<Piece>): seq<Piece> {
    if pieces == [] then []
    else
      var n := |pieces| - 1;
      NonEmpty(pieces[..n]) + if pieces[n].start < pieces[n].end then [pieces[n]] else []
  }

  /** From 0 to `end`, each piece beginning where the one before it ended. */
  ghost predicate Chained(pieces: seq<Piece>, end: int) {
    if pieces == [] then end == 0
    else
      var n := |pieces| - 1;
      pieces[n].start <= pieces[n].end == end && Chained(pieces[..n], pieces[n].start)
  }

  /**
   What the pieces are: from 0 to the total without a gap or an overlap; the non-empty ones are the
   maximal runs; an empty field has its piece exactly where a run starts or at the very end.
   */
  ghost predicate Cover(pieces: seq<Piece>, total: int, spans: seq<IdSpan>) {
    && Chained(pieces, total)
    && RunsTo(NonEmpty(pieces), total, spans)
    && forall o :: ZeroAt(pieces, o) ==
         if o == total || StartsRun(total, spans, o) then SliversAt(Empty(spans), o) else []
  }

  lemma {:induction false} AddPiece(pieces: seq<Piece>, p: Piece)
    requires Chained(pieces, p.start) && p.start <= p.end
    ensures Chained(pieces + [p], p.end)
    ensures NonEmpty(pieces + [p]) == NonEmpty(pieces) + if p.start < p.end then [p] else []
    ensures p.start < p.end ==> forall o :: ZeroAt(pieces + [p], o) == ZeroAt(pieces, o)
    ensures forall o :: o != p.start ==> ZeroAt(pieces + [p], o) == ZeroAt(pieces, o)
    ensures p.start == p.end ==> ZeroAt(pieces + [p], p.start) == ZeroAt(pieces, p.start) + [p]
  {
    assert (pieces + [p])[..|pieces|] == pieces;
  }

  ghost predicate SameElsewhere(pieces: seq<Piece>, before: seq<Piece>, o: int) {
    && NonEmpty(pieces) == NonEmpty(before)
    && forall q :: q != o ==> ZeroAt(pieces, q) == ZeroAt(before, q)
  }

  /** The empty fields at `o`, put after `before`, which ends there. */
  method AddSlivers(before: seq<Piece>, empties: seq<IdSpan>, o: int) returns (pieces: seq<Piece>)
    requires Chained(before, o)
    ensures Chained(pieces, o) && SameElsewhere(pieces, before, o)
    ensures ZeroAt(pieces, o) == ZeroAt(before, o) + SliversAt(empties, o)
  {
    pieces := before;
    for k := 0 to |empties|
      invariant Chained(pieces, o) && SameElsewhere(pieces, before, o)
      invariant ZeroAt(pieces, o) == ZeroAt(before, o) + SliversAt(empties[..k], o)
    {
      SliversStep(empties, k, o);
      if empties[k].start == o {
        var p := Piece(empties[k].start, empties[k].start, [empties[k].id]);
        AddPiece(pieces, p);
        pieces := pieces + [p];
      }
    }
    assert empties[..|empties|] == empties;
  }

  lemma {:induction false} SliversStep(empties: seq<IdSpan>, k: nat, o: int)
    requires k < |empties|
    ensures SliversAt(empties[..k + 1], o) ==
      SliversAt(empties[..k], o) + if empties[k].start == o then [Piece(o, o, [empties[k].id])] else []
  {
    assert empties[..k + 1][..k] == empties[..k];
  }

  ghost predicate StartOf(runs: seq<Piece>, o: int) {
    exists k :: 0 <= k < |runs| && runs[k].start == o
  }

  /** The first `k` runs, each after the empty fields at its start. */
  ghost predicate Interleaved(pieces: seq<Piece>, runs: seq<Piece>, empties: seq<IdSpan>) {
    && NonEmpty(pieces) == runs
    && forall o :: ZeroAt(pieces, o) == if StartOf(runs, o) then SliversAt(empties, o) else []
  }

  lemma {:induction false} InterleaveStep(pieces: seq<Piece>, with: seq<Piece>, runs: seq<Piece>, empties: seq<IdSpan>,
      run: Piece)
    requires Interleaved(pieces, runs, empties) && !StartOf(runs, run.start) && run.start < run.end
    requires SameElsewhere(with, pieces, run.start)
    requires ZeroAt(with, run.start) == ZeroAt(pieces, run.start) + SliversAt(empties, run.start)
    requires NonEmpty(with + [run]) == NonEmpty(with) + [run]
    requires forall o :: ZeroAt(with + [run], o) == ZeroAt(with, o)
    ensures Interleaved(with + [run], runs + [run], empties)
  {
    hide ZeroAt, SliversAt, NonEmpty, StartOf;
    forall o ensures ZeroAt(with + [run], o) == if StartOf(runs + [run], o) then SliversAt(empties, o) else [] {
      StartOfMore(runs, run, o);
      assert [] + SliversAt(empties, o) == SliversAt(empties, o);
    }
  }

  lemma {:induction false} StartOfMore(runs: seq<Piece>, run: Piece, o: int)
    ensures StartOf(runs + [run], o) <==> StartOf(runs, o) || o == run.start
  {
    if StartOf(runs, o) {
      var j :| 0 <= j < |runs| && runs[j].start == o;
      assert (runs + [run])[j].start == o;
    }
    assert (runs + [run])[|runs|] == run;
  }

  function EndBefore(runs: seq<Piece>, k: nat): int
    requires k <= |runs|
  {
    if k == 0 then 0 else runs[k - 1].end
  }

  /** A run starts where the one before it ends, after every earlier start. */
  lemma {:induction false} RunAt(runs: seq<Piece>, total: int, spans: seq<IdSpan>, k: nat)
    requires RunsTo(runs, total, spans) && k < |runs|
    ensures runs[k].start == EndBefore(runs, k) && runs[k].start < runs[k].end
    ensures !StartOf(runs[..k], runs[k].start)
  {
    assert IsRun(runs[k], spans);
    StartsBefore(runs, total, spans, k);
  }

  method Interleave(runs: seq<Piece>, empties: seq<IdSpan>, total: int, ghost spans: seq<IdSpan>)
    returns (pieces: seq<Piece>)
    requires RunsTo(runs, total, spans)
    ensures Chained(pieces, total) && Interleaved(pieces, runs, empties)
  {
    hide RunsTo, Chained, Interleaved;
    pieces := [];
    NoPiecesYet(runs, empties);
    for k := 0 to |runs|
      invariant Chained(pieces, EndBefore(runs, k)) && Interleaved(pieces, runs[..k], empties)
    {
      RunAt(runs, total, spans, k);
      pieces := AddRunPieces(pieces, runs[..k], empties, runs[k]);
      assert runs[..k + 1] == runs[..k] + [runs[k]];
    }
    assert runs[..|runs|] == runs;
    RunsEnd(runs, total, spans);
  }

  lemma {:induction false} NoPiecesYet(runs: seq<Piece>, empties: seq<IdSpan>)
    ensures Chained([], 0) && Interleaved([], runs[..0], empties)
  {
  }

  lemma {:induction false} RunsEnd(runs: seq<Piece>, total: int, spans: seq<IdSpan>)
    requires RunsTo(runs, total, spans)
    ensures EndBefore(runs, |runs|) == total
  {
  }

  method AddRunPieces(before: seq<Piece>, ghost runs: seq<Piece>, empties: seq<IdSpan>, run: Piece)
    returns (pieces: seq<Piece>)
    requires Chained(before, run.start) && Interleaved(before, runs, empties)
    requires run.start < run.end && !StartOf(runs, run.start)
    ensures Chained(pieces, run.end) && Interleaved(pieces, runs + [run], empties)
  {
    var with := AddSlivers(before, empties, run.start);
    AddPiece(with, run);
    InterleaveStep(before, with, runs, empties, run);
    pieces := with + [run];
  }

  lemma {:induction false} CoverOf(total: int, spans: seq<IdSpan>, runs: seq<Piece>, pieces: seq<Piece>,
      all: seq<Piece>)
    requires 0 <= total && RunsTo(runs, total, spans) && Interleaved(pieces, runs, Empty(spans))
    requires Chained(all, total) && SameElsewhere(all, pieces, total)
    requires ZeroAt(all, total) == ZeroAt(pieces, total) + SliversAt(Empty(spans), total)
    ensures Cover(all, total, spans)
  {
    RunStarts(runs, total, spans, total);
    forall o ensures ZeroAt(all, o) ==
      if o == total || StartsRun(total, spans, o) then SliversAt(Empty(spans), o) else []
    {
      RunStarts(runs, total, spans, o);
    }
  }

  method Pieces(total: int, spans: seq<IdSpan>) returns (r: Result<seq<Piece>>)
    ensures r.Ok? <==> IsSafeInteger(total) && 0 <= total && forall i :: 0 <= i < |spans| ==> InBytes(spans[i], total)
    ensures r.Ok? ==> Cover(r.value, total, spans)
  {
    if !IsSafeInteger(total) || total < 0 { return Err; }
    for i := 0 to |spans|
      invariant forall j :: 0 <= j < i ==> InBytes(spans[j], total)
    {
      if !InBytes(spans[i], total) { return Err; }
    }
    var runs := Runs(total, spans);
    var empties := Empty(spans);
    var pieces := Interleave(runs, empties, total, spans);
    var all := AddSlivers(pieces, empties, total);
    CoverOf(total, spans, runs, pieces, all);
    return Ok(all);
  }

  lemma {:induction false} StartsBefore(runs: seq<Piece>, total: int, spans: seq<IdSpan>, k: nat)
    requires RunsTo(runs, total, spans) && k < |runs|
    ensures forall j :: 0 <= j < k ==> runs[j].start < runs[k].start
  {
    if k > 0 {
      StartsBefore(runs, total, spans, k - 1);
      assert IsRun(runs[k - 1], spans) && runs[k - 1].end == runs[k].start;
    }
  }

  // ----- What the description promises, and when the code keeps it -----

  /** Ids that joining cannot confuse: none empty, none with the separator in it. */
  ghost predicate CleanIds(ids: seq<string>) {
    forall i :: 0 <= i < |ids| ==> ids[i] != "" && '\0' !in ids[i]
  }

  lemma {:induction false} FirstSeparator(a: string, b: string, s: string, t: string)
    requires '\0' !in a && '\0' !in b
    requires a + ['\0'] + s == b + ['\0'] + t
    ensures a == b && s == t
  {
    var x, y := a + ['\0'] + s, b + ['\0'] + t;
    assert x[|a|] == '\0' && y[|b|] == '\0';
    assert a == x[..|a|] && b == y[..|b|];
    assert s == x[|a| + 1..] && t == y[|b| + 1..];
  }

  lemma {:induction false} JoinHasNoSeparator(ids: seq<string>)
    requires CleanIds(ids)
    ensures '\0' in Join(ids) <==> |ids| > 1
    ensures Join(ids) == "" <==> ids == []
  {
    if |ids| > 1 {
      assert Join(ids)[|ids[0]|] == '\0';
    }
  }

  /** Joining tells clean id lists apart. */
  lemma {:induction false} JoinInjective(a: seq<string>, b: seq<string>)
    requires CleanIds(a) && CleanIds(b) && Join(a) == Join(b)
    ensures a == b
    decreases |a|
  {
    JoinHasNoSeparator(a);
    JoinHasNoSeparator(b);
    if |a| > 1 {
      FirstSeparator(a[0], b[0], Join(a[1..]), Join(b[1..]));
      JoinInjective(a[1..], b[1..]);
      assert a == [a[0]] + a[1..] && b == [b[0]] + b[1..];
    }
  }

  lemma {:induction false} ReadingIsClean(spans: seq<IdSpan>, start: int, end: int)
    requires forall i :: 0 <= i < |spans| ==> spans[i].id != "" && '\0' !in spans[i].id
    ensures CleanIds(Reading(spans, start, end))
  {
    if spans != [] { ReadingIsClean(spans[1..], start, end); }
  }

  /** Every non-empty piece lists exactly the fields that cover each of its bytes. */
  ghost predicate ListsExactly(runs: seq<Piece>, spans: seq<IdSpan>) {
    forall k, b :: 0 <= k < |runs| && runs[k].start <= b < runs[k].end ==> runs[k].ids == At(spans, b)
  }

  /** No two neighbouring bytes have different fields that join to the same text. */
  ghost predicate NeverConfused(total: int, spans: seq<IdSpan>) {
    forall b :: 0 < b < total && Join(At(spans, b - 1)) == Join(At(spans, b)) ==> At(spans, b - 1) == At(spans, b)
  }

  lemma {:induction false} SameAlongRun(total: int, spans: seq<IdSpan>, run: Piece, b: int)
    requires NeverConfused(total, spans) && IsRun(run, spans) && 0 <= run.start <= b < run.end <= total
    ensures run.ids == At(spans, b)
    decreases b
  {
    if run.start < b {
      SameAlongRun(total, spans, run, b - 1);
      assert Join(At(spans, b - 1)) == Join(run.ids) == Join(At(spans, b));
    }
  }

  /** The pieces list exactly their bytes' fields if and only if joining confuses no two neighbouring bytes. */
  lemma {:induction false} ListsExactlyIff(pieces: seq<Piece>, total: int, spans: seq<IdSpan>)
    requires 0 <= total && Cover(pieces, total, spans)
    ensures ListsExactly(NonEmpty(pieces), spans) <==> NeverConfused(total, spans)
  {
    var runs := NonEmpty(pieces);
    if NeverConfused(total, spans) {
      forall k, b | 0 <= k < |runs| && runs[k].start <= b < runs[k].end ensures runs[k].ids == At(spans, b) {
        SameAlongRun(total, spans, runs[k], b);
      }
    }
    if ListsExactly(runs, spans) {
      forall b | 0 < b < total && Join(At(spans, b - 1)) == Join(At(spans, b)) ensures At(spans, b - 1) == At(spans, b)
      {
        var k := RunOf(runs, total, spans, b);
        RunStarts(runs, total, spans, b);
        assert runs[k].start != b;
      }
    }
  }

  /** Ids that are never empty and never hold the separator are never confused. */
  lemma {:induction false} CleanIdsAreNeverConfused(total: int, spans: seq<IdSpan>)
    requires forall i :: 0 <= i < |spans| ==> spans[i].id != "" && '\0' !in spans[i].id
    ensures NeverConfused(total, spans)
  {
    forall b | 0 < b < total && Join(At(spans, b - 1)) == Join(At(spans, b)) ensures At(spans, b - 1) == At(spans, b) {
      ReadingIsClean(spans, b - 1, b);
      ReadingIsClean(spans, b, b + 1);
      JoinInjective(At(spans, b - 1), At(spans, b));
    }
  }

  lemma {:induction false} ZeroAtMembers(pieces: seq<Piece>, p: Piece)
    requires p.start == p.end
    ensures p in ZeroAt(pieces, p.start) <==> p in pieces
  {
    if pieces != [] {
      var n := |pieces| - 1;
      ZeroAtMembers(pieces[..n], p);
      assert pieces == pieces[..n] + [pieces[n]];
    }
  }

  lemma {:induction false} SliverListed(spans: seq<IdSpan>, i: nat)
    requires i < |spans| && spans[i].start == spans[i].end
    ensures Piece(spans[i].start, spans[i].start, [spans[i].id]) in SliversAt(Empty(spans), spans[i].start)
  {
    var n := |spans| - 1;
    var front := Empty(spans[..n]);
    var o := spans[i].start;
    if i < n { SliverListed(spans[..n], i); }
    if spans[n].end == spans[n].start {
      assert (front + [spans[n]])[..|front|] == front;
      assert SliversAt(Empty(spans), o) == SliversAt(front, o) + if spans[n].start == o
        then [Piece(o, o, [spans[n].id])] else [];
    } else {
      assert Empty(spans) == front;
    }
  }

  /** An empty field has its own zero-length piece if and only if a run starts at its offset, or the bytes end there. */
  lemma {:induction false} EmptyFieldListed(pieces: seq<Piece>, total: int, spans: seq<IdSpan>, i: nat)
    requires Cover(pieces, total, spans) && i < |spans| && spans[i].start == spans[i].end
    ensures var o := spans[i].start;
      Piece(o, o, [spans[i].id]) in pieces <==> o == total || StartsRun(total, spans, o)
  {
    var o := spans[i].start;
    ZeroAtMembers(pieces, Piece(o, o, [spans[i].id]));
    SliverListed(spans, i);
  }

  /** An empty id reads like no field at all, so a piece claims a byte its field does not cover. */
  lemma EmptyIdIsConfused(pieces: seq<Piece>)
    requires Cover(pieces, 2, [IdSpan("", 0, 1)])
    ensures !ListsExactly(NonEmpty(pieces), [IdSpan("", 0, 1)])
  {
    var spans := [IdSpan("", 0, 1)];
    assert spans[1..] == [];
    assert At(spans, 0) == [""] && At(spans, 1) == [];
    assert Join(At(spans, 1 - 1)) == Join(At(spans, 1));
    ListsExactlyIff(pieces, 2, spans);
  }

  /** An empty field in the middle of another one has no piece, though every empty field is promised one. */
  lemma EmptyFieldInsideIsLost(pieces: seq<Piece>)
    requires Cover(pieces, 2, [IdSpan("a", 0, 2), IdSpan("e", 1, 1)])
    ensures ZeroAt(pieces, 1) == []
  {
    var spans := [IdSpan("a", 0, 2), IdSpan("e", 1, 1)];
    assert spans[1..] == [IdSpan("e", 1, 1)] && spans[1..][1..] == [];
    assert At(spans, 0) == At(spans, 1);
    assert !StartsRun(2, spans, 1);
  }

  /** The ids of the fields a byte lies in, in input order. */
  ghost function CoveringIds(spans: seq<IdSpan>, b: int): seq<string> {
    if spans == [] then []
    else
      var n := |spans| - 1;
      CoveringIds(spans[..n], b) + if spans[n].start <= b < spans[n].end then [spans[n].id] else []
  }

  lemma {:induction false} ReadingMore(spans: seq<IdSpan>, s: IdSpan, b: int)
    ensures At(spans + [s], b) == At(spans, b) + if s.start <= b < s.end then [s.id] else []
  {
    if spans == [] {
      assert spans + [s] == [s] && [s][1..] == [];
    } else {
      assert (spans + [s])[1..] == spans[1..] + [s];
      ReadingMore(spans[1..], s, b);
    }
  }

  lemma {:induction false} AtIsCovering(spans: seq<IdSpan>, b: int)
    ensures At(spans, b) == CoveringIds(spans, b)
  {
    if spans != [] {
      var n := |spans| - 1;
      AtIsCovering(spans[..n], b);
      ReadingMore(spans[..n], spans[n], b);
      assert spans[..n] + [spans[n]] == spans;
    }
  }
}
