/** script-newest-cells.ts: one newest-first list out of one ordered page per reference. */
module NewestCells {
  import opened Common
  import Sorting
  import Text

  datatype Kind = Lock | Type

  datatype Cell = Cell(txHash: string, outputIndex: int, createdAtBlock: int, matched: Option<Kind>)

  /**
   Negative when `a` comes first: the higher block, and within a block the greater hash, and within that the higher
   index.
   */
  function Compare(a: Cell, b: Cell): int {
    if a.createdAtBlock != b.createdAtBlock then b.createdAtBlock - a.createdAtBlock
    else if a.txHash != b.txHash then (if Text.Less(a.txHash, b.txHash) then 1 else -1)
    else b.outputIndex - a.outputIndex
  }

  predicate Newer(a: Cell, b: Cell) { Compare(a, b) < 0 }

  predicate NoOlder(a: Cell, b: Cell) { Compare(a, b) <= 0 }

  predicate SameOutpoint(a: Cell, b: Cell) { a.txHash == b.txHash && a.outputIndex == b.outputIndex }

  lemma {:induction false} CompareOpposite(a: Cell, b: Cell)
    ensures Compare(a, b) < 0 <==> Compare(b, a) > 0
    ensures Compare(a, b) == 0 <==> a.createdAtBlock == b.createdAtBlock && SameOutpoint(a, b)
  {
    Text.LessTotal(a.txHash, b.txHash);
  }

  /** What comes first: the later block, in a block the greater hash, in a transaction the later output. */
  lemma {:induction false} NewerExactlyWhen(a: Cell, b: Cell)
    ensures Newer(a, b) <==>
      || a.createdAtBlock > b.createdAtBlock
      || (a.createdAtBlock == b.createdAtBlock && exists k: nat :: Text.FirstAt(b.txHash, a.txHash, k))
      || (a.createdAtBlock == b.createdAtBlock && a.txHash == b.txHash && a.outputIndex > b.outputIndex)
  {
    hide Text.Less;
    Text.LessExactlyWhen(b.txHash, a.txHash);
    Text.LessTotal(a.txHash, b.txHash);
  }

  lemma {:induction false} NoOlderTransitive(a: Cell, b: Cell, c: Cell)
    requires NoOlder(a, b) && NoOlder(b, c)
    ensures NoOlder(a, c)
    ensures Newer(a, b) || Newer(b, c) ==> Newer(a, c)
  {
    Text.LessTotal(a.txHash, b.txHash);
    Text.LessTotal(b.txHash, c.txHash);
    Text.LessTotal(a.txHash, c.txHash);
    hide Text.Less;
    if Text.Less(c.txHash, b.txHash)
      && Text.Less(b.txHash, a.txHash) { Text.LessTransitive(c.txHash, b.txHash, a.txHash); }
  }

  lemma {:induction false} NoOlderIsOrder()
    ensures Sorting.Total((a: Cell, b: Cell) => NoOlder(a, b))
      && Sorting.Transitive((a: Cell, b: Cell) => NoOlder(a, b))
  {
    forall a, b ensures NoOlder(a, b) || NoOlder(b, a) { CompareOpposite(a, b); }
    forall a, b, c | NoOlder(a, b) && NoOlder(b, c) ensures NoOlder(a, c) { NoOlderTransitive(a, b, c); }
  }

  // ----- Lists of cells -----

  function Sorted(s: seq<Cell>): (r: seq<Cell>)
    ensures |r| == |s| && multiset(r) == multiset(s)
  {
    Sorting.Sort(s, (a: Cell, b: Cell) => NoOlder(a, b))
  }

  /** The first `limit` of the newest-first sort. */
  function Newest(s: seq<Cell>, limit: int): seq<Cell> {
    if limit <= 0 then [] else if limit <= |s| then Sorted(s)[..limit] else Sorted(s)
  }

  ghost predicate StrictlyNewestFirst(s: seq<Cell>) {
    forall i, j :: 0 <= i < j < |s| ==> Newer(s[i], s[j])
  }

  ghost predicate DistinctOutpoints(s: seq<Cell>) {
    forall i, j :: 0 <= i < j < |s| ==> !SameOutpoint(s[i], s[j])
  }

  lemma {:induction false} SortedIsStrict(s: seq<Cell>)
    requires DistinctOutpoints(s)
    ensures StrictlyNewestFirst(Sorted(s))
    ensures forall c :: c in Sorted(s) <==> c in s
  {
    var le := (a: Cell, b: Cell) => NoOlder(a, b);
    var r := Sorted(s);
    NoOlderIsOrder();
    Sorting.SortSorted(s, le);
    Sorting.SortMembers(s, le);
    assert Sorting.Distinct(s);
    Sorting.SortKeepsDistinct(s, le);
    forall i, j | 0 <= i < j < |r| ensures Newer(r[i], r[j]) {
      assert le(r[i], r[j]) && r[i] in s && r[j] in s && r[i] != r[j];
      var x :| 0 <= x < |s| && s[x] == r[i];
      var y :| 0 <= y < |s| && s[y] == r[j];
      CompareOpposite(r[i], r[j]);
      assert x != y;
      assert !SameOutpoint(r[i], r[j]);
    }
  }

  /** There is one strictly newest-first list of given cells, and sorting gives it. */
  lemma {:induction false} StrictIsSorted(s: seq<Cell>, t: seq<Cell>)
    requires StrictlyNewestFirst(t) && multiset(t) == multiset(s) && DistinctOutpoints(s)
    ensures t == Sorted(s)
  {
    SortedIsStrict(s);
    StrictUnique(t, Sorted(s));
  }

  lemma {:induction false} StrictUnique(s: seq<Cell>, t: seq<Cell>)
    requires StrictlyNewestFirst(s) && StrictlyNewestFirst(t) && multiset(s) == multiset(t)
    ensures s == t
  {
    var le := (a: Cell, b: Cell) => NoOlder(a, b);
    forall a, b | a in s && b in s && le(a, b) && le(b, a) ensures a == b {
      var i :| 0 <= i < |s| && s[i] == a;
      var j :| 0 <= j < |s| && s[j] == b;
      OnlyItselfTies(s, i, j);
    }
    Sorting.SortedUnique(s, t, le);
  }

  lemma {:induction false} OnlyItselfTies(s: seq<Cell>, i: nat, j: nat)
    requires StrictlyNewestFirst(s) && i < |s| && j < |s|
    ensures NoOlder(s[i], s[j]) && NoOlder(s[j], s[i]) ==> i == j
  {
    CompareOpposite(s[i], s[j]);
  }

  // ----- Pages -----

  function Flatten(pages: seq<seq<Cell>>): seq<Cell> {
    if pages == [] then [] else Flatten(pages[..|pages| - 1]) + pages[|pages| - 1]
  }

  lemma {:induction false} FlattenPrefix(pages: seq<seq<Cell>>, p: nat, i: nat)
    requires p < |pages| && i <= |pages[p]|
    ensures Flatten(pages[..p]) + pages[p][..i] <= Flatten(pages)
    ensures Flatten(pages[..p + 1]) == Flatten(pages[..p]) + pages[p]
    decreases |pages| - p
  {
    assert pages[..p + 1][..p] == pages[..p];
    if p + 1 == |pages| {
      assert pages[..p + 1] == pages;
    } else {
      FlattenPrefix(pages, p + 1, 0);
      assert Flatten(pages[..p + 1]) + pages[p + 1][..0] == Flatten(pages[..p + 1]);
    }
  }

  ghost predicate AllOfKind(kind: Kind, page: seq<Cell>) {
    forall i :: 0 <= i < |page| ==> page[i].matched == Some(kind)
  }

  /** Rows of the one index, each page newest first, no cell listed twice. */
  ghost predicate Acceptable(kind: Kind, pages: seq<seq<Cell>>) {
    && (forall p :: 0 <= p < |pages| ==> AllOfKind(kind, pages[p]) && StrictlyNewestFirst(pages[p]))
    && DistinctOutpoints(Flatten(pages))
  }

  ghost predicate Lists(listed: set<(string, int)>, s: seq<Cell>) {
    && (forall i :: 0 <= i < |s| ==> (s[i].txHash, s[i].outputIndex) in listed)
    && (forall o :: o in listed ==> exists i :: 0 <= i < |s| && o == (s[i].txHash, s[i].outputIndex))
  }

  lemma {:induction false} ListsOneMore(listed: set<(string, int)>, s: seq<Cell>, c: Cell)
    requires Lists(listed, s) && DistinctOutpoints(s)
    ensures DistinctOutpoints(s + [c]) <==> (c.txHash, c.outputIndex) !in listed
    ensures Lists(listed + {(c.txHash, c.outputIndex)}, s + [c])
  {
    var more := s + [c];
    var o := (c.txHash, c.outputIndex);
    if o in listed {
      var i :| 0 <= i < |s| && o == (s[i].txHash, s[i].outputIndex);
      assert SameOutpoint(more[i], more[|s|]);
    }
    forall q | q in listed + {o} ensures exists i :: 0 <= i < |more| && q == (more[i].txHash, more[i].outputIndex) {
      if q in listed {
        var i :| 0 <= i < |s| && q == (s[i].txHash, s[i].outputIndex);
        assert more[i] == s[i];
      } else {
        assert more[|s|] == c;
      }
    }
  }

  lemma {:induction false} PrefixDistinct(s: seq<Cell>, t: seq<Cell>)
    requires s <= t && DistinctOutpoints(t)
    ensures DistinctOutpoints(s)
  {
  }

  lemma {:induction false} StrictOneMore(s: seq<Cell>, c: Cell)
    requires StrictlyNewestFirst(s)
    ensures StrictlyNewestFirst(s + [c]) <==> s == [] || Newer(s[|s| - 1], c)
  {
    var more := s + [c];
    if s != [] && StrictlyNewestFirst(more) { assert Newer(more[|s| - 1], more[|s|]); }
    if s != [] && Newer(s[|s| - 1], c) {
      forall i | 0 <= i < |s| ensures Newer(s[i], c) {
        if i < |s| - 1 { NoOlderTransitive(s[i], s[|s| - 1], c); }
      }
    }
  }

  /** The checks of one page, after the cells `before` of the pages already checked. */
  method CheckPage(kind: Kind, page: seq<Cell>, ghost before: seq<Cell>, listed0: set<(string, int)>)
    returns (ok: bool, listed: set<(string, int)>)
    requires Lists(listed0, before) && DistinctOutpoints(before)
    ensures ok <==> AllOfKind(kind, page) && StrictlyNewestFirst(page) && DistinctOutpoints(before + page)
    ensures ok ==> Lists(listed, before + page)
  {
    hide Lists, DistinctOutpoints, StrictlyNewestFirst;
    listed := listed0;
    assert before + page[..0] == before;
    NothingStrict(page);
    for i := 0 to |page|
      invariant AllOfKind(kind, page[..i]) && StrictlyNewestFirst(page[..i])
      invariant DistinctOutpoints(before + page[..i]) && Lists(listed, before + page[..i])
    {
      var cell := page[i];
      assert page[..i + 1] == page[..i] + [cell];
      assert before + page[..i + 1] == before + page[..i] + [cell];
      ListsOneMore(listed, before + page[..i], cell);
      StrictOneMore(page[..i], cell);
      if cell.matched != Some(kind) || (cell.txHash, cell.outputIndex) in listed
        || (i > 0 && Compare(page[i - 1], cell) >= 0) {
        Rejected(kind, page, before, i);
        return false, listed;
      }
      listed := listed + {(cell.txHash, cell.outputIndex)};
    }
    assert page[..|page|] == page;
    return true, listed;
  }

  lemma {:induction false} NothingStrict(page: seq<Cell>)
    ensures StrictlyNewestFirst(page[..0])
  {
  }

  lemma {:induction false} Rejected(kind: Kind, page: seq<Cell>, before: seq<Cell>, i: nat)
    requires i < |page|
    requires page[i].matched != Some(kind) || !StrictlyNewestFirst(page[..i + 1])
      || !DistinctOutpoints(before + page[..i + 1])
    ensures !(AllOfKind(kind, page) && StrictlyNewestFirst(page) && DistinctOutpoints(before + page))
  {
    if DistinctOutpoints(before + page) {
      assert before + page[..i + 1] <= before + page;
      PrefixDistinct(before + page[..i + 1], before + page);
    }
  }

  method CheckPages(kind: Kind, pages: seq<seq<Cell>>) returns (ok: bool)
    ensures ok <==> Acceptable(kind, pages)
  {
    hide StrictlyNewestFirst, AllOfKind, DistinctOutpoints, Lists, Flatten;
    NothingListed();
    var listed: set<(string, int)> := {};
    for p := 0 to |pages|
      invariant forall q :: 0 <= q < p ==> AllOfKind(kind, pages[q]) && StrictlyNewestFirst(pages[q])
      invariant DistinctOutpoints(Flatten(pages[..p])) && Lists(listed, Flatten(pages[..p]))
    {
      var good;
      good, listed := CheckPage(kind, pages[p], Flatten(pages[..p]), listed);
      FlattenPrefix(pages, p, |pages[p]|);
      assert pages[p][..|pages[p]|] == pages[p];
      if !good {
        if DistinctOutpoints(Flatten(pages)) { PrefixDistinct(Flatten(pages[..p]) + pages[p], Flatten(pages)); }
        return false;
      }
    }
    assert pages[..|pages|] == pages;
    return true;
  }

  lemma {:induction false} NothingListed()
    ensures Flatten([]) == [] && DistinctOutpoints([]) && Lists({}, [])
  {
  }

  // ----- The merge -----

  ghost predicate HeadsWithin(pages: seq<seq<Cell>>, heads: seq<nat>) {
    |heads| == |pages| && forall p :: 0 <= p < |pages| ==> heads[p] <= |pages[p]|
  }

  /** What each page still has to give. */
  ghost function Tails(pages: seq<seq<Cell>>, heads: seq<nat>): (r: seq<seq<Cell>>)
    requires HeadsWithin(pages, heads)
    ensures |r| == |pages| && forall p :: 0 <= p < |pages| ==> r[p] == pages[p][heads[p]..]
  {
    seq(|pages|, p requires 0 <= p < |pages| => pages[p][heads[p]..])
  }

  lemma {:induction false} FlattenReplace(ts: seq<seq<Cell>>, b: nat, u: seq<Cell>)
    requires b < |ts|
    ensures multiset(Flatten(ts[b := u])) + multiset(ts[b]) == multiset(Flatten(ts)) + multiset(u)
  {
    var n := |ts| - 1;
    if b == n {
      assert ts[b := u][..n] == ts[..n];
    } else {
      FlattenReplace(ts[..n], b, u);
      assert ts[b := u][..n] == ts[..n][b := u];
      var before, after := Flatten(ts[..n]), Flatten(ts[..n][b := u]);
      assert Flatten(ts) == before + ts[n] && Flatten(ts[b := u]) == after + ts[n];
      assert ts[..n][b] == ts[b];
      hide Flatten;
      assert multiset(before + ts[n]) == multiset(before) + multiset(ts[n]);
      assert multiset(after + ts[n]) == multiset(after) + multiset(ts[n]);
      Regroup(multiset(after), multiset(ts[b]), multiset(before), multiset(u), multiset(ts[n]));
    }
  }

  lemma {:induction false} Regroup(a: multiset<Cell>, v: multiset<Cell>, b: multiset<Cell>, u: multiset<Cell>,
      n: multiset<Cell>)
    requires a + v == b + u
    ensures a + n + v == b + n + u
  {
    forall c: Cell ensures (a + n + v)[c] == (b + n + u)[c] {
      assert (a + v)[c] == (b + u)[c];
    }
  }

  lemma {:induction false} Cancel(a: multiset<Cell>, b: multiset<Cell>, r: multiset<Cell>, x: multiset<Cell>)
    requires a + (x + r) == b + r
    ensures b == a + x
  {
    forall c: Cell ensures b[c] == (a + x)[c] {
      assert (a + (x + r))[c] == a[c] + x[c] + r[c] && (b + r)[c] == b[c] + r[c];
    }
  }

  lemma {:induction false} InFlatten(ts: seq<seq<Cell>>, c: Cell)
    ensures c in Flatten(ts) <==> exists p :: 0 <= p < |ts| && c in ts[p]
  {
    if ts != [] {
      var n := |ts| - 1;
      InFlatten(ts[..n], c);
      if c in Flatten(ts[..n]) {
        var p :| 0 <= p < n && c in ts[..n][p];
        assert c in ts[p];
      }
      if p :| 0 <= p < |ts| && c in ts[p] {
        if p < n { assert c in ts[..n][p]; }
      }
    }
  }

  /** The page whose head comes first. */
  method PickBest(pages: seq<seq<Cell>>, heads: seq<nat>) returns (best: Option<nat>)
    requires HeadsWithin(pages, heads)
    ensures best == None ==> forall p :: 0 <= p < |pages| ==> heads[p] == |pages[p]|
    ensures best.Some? ==> best.value < |pages| && heads[best.value] < |pages[best.value]|
    ensures best.Some? ==> forall p :: 0 <= p < |pages| && heads[p] < |pages[p]| ==>
      NoOlder(pages[best.value][heads[best.value]], pages[p][heads[p]])
  {
    best := None;
    for p := 0 to |pages|
      invariant best == None ==> forall q :: 0 <= q < p ==> heads[q] == |pages[q]|
      invariant best.Some? ==> best.value < p && heads[best.value] < |pages[best.value]|
      invariant best.Some? ==> forall q :: 0 <= q < p && heads[q] < |pages[q]| ==>
        NoOlder(pages[best.value][heads[best.value]], pages[q][heads[q]])
    {
      if heads[p] < |pages[p]| {
        if best == None {
          best := Some(p);
        } else if Compare(pages[p][heads[p]], pages[best.value][heads[best.value]]) < 0 {
          forall q | 0 <= q < p && heads[q] < |pages[q]| ensures NoOlder(pages[p][heads[p]], pages[q][heads[q]]) {
            NoOlderTransitive(pages[p][heads[p]], pages[best.value][heads[best.value]], pages[q][heads[q]]);
          }
          best := Some(p);
        } else {
          CompareOpposite(pages[p][heads[p]], pages[best.value][heads[best.value]]);
        }
      }
    }
  }

  /** The merged cells come in order, before everything still in the pages. */
  ghost predicate Merging(pages: seq<seq<Cell>>, heads: seq<nat>, merged: seq<Cell>) {
    && HeadsWithin(pages, heads)
    && multiset(merged) + multiset(Flatten(Tails(pages, heads))) == multiset(Flatten(pages))
    && (forall i, j :: 0 <= i < j < |merged| ==> NoOlder(merged[i], merged[j]))
    && (forall i, r :: 0 <= i < |merged| && r in Flatten(Tails(pages, heads)) ==> NoOlder(merged[i], r))
  }

  lemma {:induction false} TakeHead(pages: seq<seq<Cell>>, heads: seq<nat>, b: nat)
    requires HeadsWithin(pages, heads) && b < |pages| && heads[b] < |pages[b]|
    ensures var next := heads[b := heads[b] + 1];
      && HeadsWithin(pages, next)
      && multiset(Flatten(Tails(pages, heads))) == multiset(Flatten(Tails(pages, next))) + multiset{pages[b][heads[b]]}
  {
    var next := heads[b := heads[b] + 1];
    var ts := Tails(pages, heads);
    var rest := pages[b][heads[b] + 1..];
    assert Tails(pages, next) == ts[b := rest];
    FlattenReplace(ts, b, rest);
    var x := pages[b][heads[b]];
    assert ts[b] == [x] + rest;
    hide Flatten;
    assert multiset(ts[b]) == multiset{x} + multiset(rest);
    Cancel(multiset(Flatten(ts[b := rest])), multiset(Flatten(ts)), multiset(rest), multiset{x});
  }

  lemma {:induction false} SplitMembers(now: seq<Cell>, later: seq<Cell>, x: Cell)
    requires multiset(now) == multiset(later) + multiset{x}
    ensures forall r :: r in now <==> r in later || r == x
  {
    forall r ensures r in now <==> r in later || r == x {
      assert r in now <==> r in multiset(now);
      assert r in later <==> r in multiset(later);
    }
  }

  /** The best head comes before everything still in the pages. */
  lemma {:induction false} BestIsFirst(pages: seq<seq<Cell>>, heads: seq<nat>, b: nat, r: Cell)
    requires HeadsWithin(pages, heads) && b < |pages| && heads[b] < |pages[b]|
    requires forall p :: 0 <= p < |pages| ==> StrictlyNewestFirst(pages[p])
    requires forall p :: 0 <= p < |pages| && heads[p] < |pages[p]| ==> NoOlder(pages[b][heads[b]], pages[p][heads[p]])
    requires r in Flatten(Tails(pages, heads))
    ensures NoOlder(pages[b][heads[b]], r)
  {
    hide Flatten;
    InFlatten(Tails(pages, heads), r);
    var p :| 0 <= p < |pages| && r in Tails(pages, heads)[p];
    var k :| 0 <= k < |pages[p][heads[p]..]| && pages[p][heads[p]..][k] == r;
    assert r == pages[p][heads[p] + k];
    if k > 0 { NoOlderTransitive(pages[b][heads[b]], pages[p][heads[p]], r); }
  }

  lemma {:induction false} MergeStep(pages: seq<seq<Cell>>, heads: seq<nat>, merged: seq<Cell>, b: nat)
    requires Merging(pages, heads, merged) && b < |pages| && heads[b] < |pages[b]|
    requires forall p :: 0 <= p < |pages| ==> StrictlyNewestFirst(pages[p])
    requires forall p :: 0 <= p < |pages| && heads[p] < |pages[p]| ==> NoOlder(pages[b][heads[b]], pages[p][heads[p]])
    ensures Merging(pages, heads[b := heads[b] + 1], merged + [pages[b][heads[b]]])
  {
    var x, next := pages[b][heads[b]], heads[b := heads[b] + 1];
    hide Flatten, StrictlyNewestFirst, NoOlder, Tails, HeadsWithin;
    MergingHeads(pages, heads, merged);
    TakeHead(pages, heads, b);
    var now, later := Flatten(Tails(pages, heads)), Flatten(Tails(pages, next));
    SplitMembers(now, later, x);
    forall r | r in now ensures NoOlder(x, r) { BestIsFirst(pages, heads, b, r); }
    assert x in now;
    OrderedWithNext(merged, now, later, x);
    assert multiset(merged + [x]) == multiset(merged) + multiset{x};
  }

  lemma {:induction false} OrderedWithNext(merged: seq<Cell>, now: seq<Cell>, later: seq<Cell>, x: Cell)
    requires forall i, j :: 0 <= i < j < |merged| ==> NoOlder(merged[i], merged[j])
    requires forall i, r :: 0 <= i < |merged| && r in now ==> NoOlder(merged[i], r)
    requires forall r :: r in now ==> NoOlder(x, r)
    requires x in now && forall r :: r in later ==> r in now
    ensures forall i, j :: 0 <= i < j < |merged + [x]| ==> NoOlder((merged + [x])[i], (merged + [x])[j])
    ensures forall i, r :: 0 <= i < |merged + [x]| && r in later ==> NoOlder((merged + [x])[i], r)
  {
    hide NoOlder;
  }

  /** Cells with distinct outpoints have them in any order. */
  lemma {:induction false} DistinctPermuted(s: seq<Cell>, t: seq<Cell>)
    requires DistinctOutpoints(s) && multiset(s) == multiset(t)
    ensures DistinctOutpoints(t)
  {
    assert Sorting.Distinct(s);
    Sorting.DistinctByCount(s);
    Sorting.DistinctByCount(t);
    forall i, j | 0 <= i < j < |t| ensures !SameOutpoint(t[i], t[j]) {
      assert t[i] in multiset(s) && t[j] in multiset(s) && t[i] != t[j];
      var x :| 0 <= x < |s| && s[x] == t[i];
      var y :| 0 <= y < |s| && s[y] == t[j];
      assert x != y;
    }
  }

  lemma {:induction false} OrderedIsStrict(s: seq<Cell>)
    requires DistinctOutpoints(s) && forall i, j :: 0 <= i < j < |s| ==> NoOlder(s[i], s[j])
    ensures StrictlyNewestFirst(s)
  {
    forall i, j | 0 <= i < j < |s| ensures Newer(s[i], s[j]) { CompareOpposite(s[i], s[j]); }
  }

  /** A list in order, all of it before the rest, is the beginning of the sort of both. */
  lemma {:induction false} BeginsTheSort(all: seq<Cell>, merged: seq<Cell>, rest: seq<Cell>)
    requires DistinctOutpoints(all) && multiset(merged) + multiset(rest) == multiset(all)
    requires forall i, j :: 0 <= i < j < |merged| ==> NoOlder(merged[i], merged[j])
    requires forall i, r :: 0 <= i < |merged| && r in rest ==> NoOlder(merged[i], r)
    ensures |merged| + |rest| == |all| && Sorted(all)[..|merged|] == merged
  {
    var tail := Sorted(rest);
    var w := merged + tail;
    assert multiset(w) == multiset(all);
    assert |w| == |multiset(w)| == |multiset(all)| == |all|;
    DistinctPermuted(all, w);
    assert DistinctOutpoints(tail) by { assert forall i :: 0 <= i < |tail| ==> tail[i] == w[|merged| + i]; }
    DistinctPermuted(tail, rest);
    SortedIsStrict(rest);
    hide Sorted, DistinctOutpoints, NoOlder;
    forall i, j | 0 <= i < j < |w| ensures NoOlder(w[i], w[j]) {
      if i < |merged| <= j { assert w[j] == tail[j - |merged|] && w[j] in tail; }
      if |merged| <= i { StrictNoOlder(tail, i - |merged|, j - |merged|); }
    }
    OrderedIsStrict(w);
    StrictIsSorted(all, w);
    assert w[..|merged|] == merged;
  }

  lemma {:induction false} StrictNoOlder(s: seq<Cell>, i: nat, j: nat)
    requires StrictlyNewestFirst(s) && i < j < |s|
    ensures NoOlder(s[i], s[j])
  {
  }

  /** What comes back is the top of the newest-first sort of every page's rows. */
  method MergeNewestFirst(kind: Kind, pages: seq<seq<Cell>>, limit: int) returns (r: Result<seq<Cell>>)
    ensures r.Ok? <==> Acceptable(kind, pages)
    ensures r.Ok? ==> r.value == Newest(Flatten(pages), limit)
  {
    var ok := CheckPages(kind, pages);
    if !ok { return Err; }
    var heads := seq(|pages|, _ => 0);
    var merged: seq<Cell> := [];
    StartMerging(pages, heads);
    hide Flatten, StrictlyNewestFirst, Merging, NoOlder, DistinctOutpoints;
    while |merged| < limit
      invariant Merging(pages, heads, merged) && |merged| <= if limit > 0 then limit else 0
      decreases limit - |merged|
    {
      MergingHeads(pages, heads, merged);
      var best := PickBest(pages, heads);
      if best == None { break; }
      MergeStep(pages, heads, merged, best.value);
      merged := merged + [pages[best.value][heads[best.value]]];
      heads := heads[best.value := heads[best.value] + 1];
    }
    MergeDone(kind, pages, heads, merged, limit);
    return Ok(merged);
  }

  lemma {:induction false} StartMerging(pages: seq<seq<Cell>>, heads: seq<nat>)
    requires |heads| == |pages| && forall p :: 0 <= p < |pages| ==> heads[p] == 0
    ensures Merging(pages, heads, [])
  {
    assert Tails(pages, heads) == pages;
  }

  lemma {:induction false} MergingHeads(pages: seq<seq<Cell>>, heads: seq<nat>, merged: seq<Cell>)
    requires Merging(pages, heads, merged)
    ensures HeadsWithin(pages, heads)
  {
  }

  lemma {:induction false} NothingLeft(ts: seq<seq<Cell>>)
    requires forall p :: 0 <= p < |ts| ==> ts[p] == []
    ensures Flatten(ts) == []
  {
    if ts != [] { NothingLeft(ts[..|ts| - 1]); }
  }

  lemma {:induction false} MergeDone(kind: Kind, pages: seq<seq<Cell>>, heads: seq<nat>, merged: seq<Cell>, limit: int)
    requires Acceptable(kind, pages) && Merging(pages, heads, merged)
    requires |merged| <= if limit > 0 then limit else 0
    requires |merged| >= limit || forall p :: 0 <= p < |pages| ==> heads[p] == |pages[p]|
    ensures merged == Newest(Flatten(pages), limit)
  {
    hide Sorted, Flatten, DistinctOutpoints, StrictlyNewestFirst, NoOlder;
    var all, rest := Flatten(pages), Flatten(Tails(pages, heads));
    BeginsTheSort(all, merged, rest);
    if |merged| < limit {
      NothingLeft(Tails(pages, heads));
      assert Sorted(all)[..|merged|] == Sorted(all);
    }
  }

  // ----- Pages of longer indexes -----

  /** Each page is its whole index, or the index's beginning with at least `limit` rows. */
  ghost predicate PagesOf(pages: seq<seq<Cell>>, indexes: seq<seq<Cell>>, limit: int) {
    && |pages| == |indexes|
    && forall p :: 0 <= p < |pages| ==> pages[p] <= indexes[p] && (pages[p] == indexes[p] || |pages[p]| >= limit)
  }

  function Cells(s: seq<Cell>): (r: set<Cell>)
    ensures forall c :: c in r <==> c in s
  {
    set c | c in s
  }

  lemma {:induction false} CellsOfStrict(s: seq<Cell>)
    requires Sorting.Distinct(s)
    ensures |Cells(s)| == |s|
  {
    if s != [] {
      var n := |s| - 1;
      CellsOfStrict(s[..n]);
      assert s == s[..n] + [s[n]];
      assert Cells(s) == Cells(s[..n]) + {s[n]};
      assert s[n] !in s[..n];
    }
  }

  lemma {:induction false} SubsetSize(a: set<Cell>, b: set<Cell>)
    requires a <= b
    ensures |a| <= |b|
  {
    assert b == a + (b - a);
  }

  lemma {:induction false} StrictIsDistinct(s: seq<Cell>)
    requires StrictlyNewestFirst(s)
    ensures Sorting.Distinct(s)
  {
    forall i, j | 0 <= i < j < |s| ensures s[i] != s[j] { assert Newer(s[i], s[j]); CompareOpposite(s[i], s[j]); }
  }

  /** A row behind `i` others of its own index is behind at least `i` others in all. */
  lemma {:induction false} RankAtLeast(index: seq<Cell>, all: seq<Cell>, i: nat, k: nat)
    requires StrictlyNewestFirst(index) && StrictlyNewestFirst(all) && i < |index| && k < |all| && all[k] == index[i]
    requires forall c :: c in index ==> c in all
    ensures i <= k
  {
    var ahead, top := index[..i], all[..k];
    forall c | c in ahead ensures c in top {
      var x :| 0 <= x < i && index[x] == c;
      assert Newer(c, index[i]) && c in index;
      var y :| 0 <= y < |all| && all[y] == c;
      if y > k { CompareOpposite(all[k], all[y]); }
      CompareOpposite(c, c);
      assert y < k && top[y] == c;
    }
    StrictIsDistinct(index);
    StrictIsDistinct(all);
    assert Sorting.Distinct(ahead) && Sorting.Distinct(top);
    CellsOfStrict(ahead);
    CellsOfStrict(top);
    SubsetSize(Cells(ahead), Cells(top));
  }

  /** The newest `limit` rows of the full indexes are all on the pages. */
  lemma {:induction false} TopIsOnPages(pages: seq<seq<Cell>>, indexes: seq<seq<Cell>>, limit: int, k: nat)
    requires PagesOf(pages, indexes, limit) && DistinctOutpoints(Flatten(indexes))
    requires forall p :: 0 <= p < |indexes| ==> StrictlyNewestFirst(indexes[p])
    requires k < limit && k < |Flatten(indexes)|
    ensures Sorted(Flatten(indexes))[k] in Flatten(pages)
  {
    var all := Sorted(Flatten(indexes));
    SortedIsStrict(Flatten(indexes));
    var c := all[k];
    assert c in all;
    InFlatten(indexes, c);
    hide Flatten, Sorted, DistinctOutpoints;
    var p :| 0 <= p < |indexes| && c in indexes[p];
    var i :| 0 <= i < |indexes[p]| && indexes[p][i] == c;
    forall d | d in indexes[p] ensures d in all { InFlatten(indexes, d); }
    RankAtLeast(indexes[p], all, i, k);
    assert i < |pages[p]| && pages[p][i] == c;
    InFlatten(pages, c);
  }

  /** The pages hold no row the indexes do not. */
  lemma {:induction false} FlattenWithin(pages: seq<seq<Cell>>, indexes: seq<seq<Cell>>)
    requires |pages| == |indexes| && forall p :: 0 <= p < |pages| ==> pages[p] <= indexes[p]
    ensures multiset(Flatten(pages)) <= multiset(Flatten(indexes))
  {
    if pages != [] {
      var n := |pages| - 1;
      FlattenWithin(pages[..n], indexes[..n]);
      assert indexes[n] == pages[n] + indexes[n][|pages[n]|..];
      var a, b := Flatten(pages[..n]), Flatten(indexes[..n]);
      assert Flatten(pages) == a + pages[n] && Flatten(indexes) == b + indexes[n];
      hide Flatten;
      assert multiset(indexes[n]) == multiset(pages[n]) + multiset(indexes[n][|pages[n]|..]);
    }
  }

  /**
   Nothing beyond the pages can make the list: merging pages of at least `limit` rows gives the
   newest `limit` of the whole indexes.
   */
  lemma {:induction false} PagesSuffice(kind: Kind, pages: seq<seq<Cell>>, indexes: seq<seq<Cell>>, limit: int)
    requires Acceptable(kind, indexes) && PagesOf(pages, indexes, limit)
    ensures Newest(Flatten(pages), limit) == Newest(Flatten(indexes), limit)
  {
    if limit > 0 {
      var all, some := Flatten(indexes), Flatten(pages);
      var top := Newest(all, limit);
      FlattenWithin(pages, indexes);
      SortedIsStrict(all);
      forall k | 0 <= k < |top| ensures top[k] in some { TopIsOnPages(pages, indexes, limit, k); }
      hide Flatten;
      TopOfSome(all, some, limit);
    }
  }

  /** Beginnings of acceptable indexes are acceptable pages, so the merge returns. */
  lemma {:induction false} PagesAcceptable(kind: Kind, pages: seq<seq<Cell>>, indexes: seq<seq<Cell>>, limit: int)
    requires Acceptable(kind, indexes) && PagesOf(pages, indexes, limit)
    ensures Acceptable(kind, pages)
  {
    FlattenWithin(pages, indexes);
    DistinctPart(Flatten(indexes), Flatten(pages));
    hide Flatten;
    forall p | 0 <= p < |pages| ensures AllOfKind(kind, pages[p]) && StrictlyNewestFirst(pages[p]) {
      assert AllOfKind(kind, indexes[p]) && StrictlyNewestFirst(indexes[p]);
    }
  }

  /** A part of the cells that keeps the newest `limit` has the same newest `limit`. */
  lemma {:induction false} TopOfSome(all: seq<Cell>, some: seq<Cell>, limit: int)
    requires limit > 0 && DistinctOutpoints(all) && multiset(some) <= multiset(all)
    requires forall k :: 0 <= k < |Newest(all, limit)| ==> Newest(all, limit)[k] in some
    ensures Newest(some, limit) == Newest(all, limit)
  {
    hide Sorted, Newest, DistinctOutpoints, StrictlyNewestFirst, NoOlder;
    var sorted, top := Sorted(all), Newest(all, limit);
    SortedIsStrict(all);
    DistinctPart(all, some);
    NewestIs(some, limit);
    NewestIs(all, limit);
    TopWithin(sorted, top, some);
    var rest := Rest(some, top);
    forall i, r | 0 <= i < |top| && r in rest ensures NoOlder(top[i], r) {
      RestIsAfter(sorted, top, some, rest, i, r);
    }
    forall i, j | 0 <= i < j < |top| ensures NoOlder(top[i], top[j]) { StrictNoOlder(sorted, i, j); }
    BeginsTheSort(some, top, rest);
    NoLonger(all, some);
  }

  lemma {:induction false} NoLonger(all: seq<Cell>, some: seq<Cell>)
    requires multiset(some) <= multiset(all)
    ensures |some| <= |all|
  {
    var rest := Rest(all, some);
    assert |all| == |multiset(all)| == |multiset(some) + multiset(rest)| == |some| + |rest|;
  }

  lemma {:induction false} NewestIs(s: seq<Cell>, limit: int)
    requires limit > 0
    ensures |Newest(s, limit)| == (if limit <= |s| then limit else |s|)
      && Newest(s, limit) == Sorted(s)[..|Newest(s, limit)|]
  {
  }

  ghost function Rest(some: seq<Cell>, top: seq<Cell>): (r: seq<Cell>)
    requires multiset(top) <= multiset(some)
    ensures multiset(top) + multiset(r) == multiset(some)
  {
    ListOf(multiset(some) - multiset(top))
  }

  ghost function ListOf(m: multiset<Cell>): (r: seq<Cell>)
    ensures multiset(r) == m
  {
    if m == multiset{} then []
    else
      var c :| c in m;
      ListOf(m - multiset{c}) + [c]
  }

  lemma {:induction false} DistinctPart(all: seq<Cell>, some: seq<Cell>)
    requires DistinctOutpoints(all) && multiset(some) <= multiset(all)
    ensures DistinctOutpoints(some)
  {
    var other := ListOf(multiset(all) - multiset(some));
    assert multiset(some + other) == multiset(all);
    DistinctPermuted(all, some + other);
    PrefixDistinct(some, some + other);
  }

  lemma {:induction false} TopWithin(sorted: seq<Cell>, top: seq<Cell>, some: seq<Cell>)
    requires StrictlyNewestFirst(sorted) && top <= sorted && forall k :: 0 <= k < |top| ==> top[k] in some
    ensures multiset(top) <= multiset(some)
  {
    StrictIsDistinct(sorted);
    assert Sorting.Distinct(top);
    Sorting.DistinctByCount(top);
    forall c ensures multiset(top)[c] <= multiset(some)[c] {
      if c in multiset(top) { assert c in top; }
    }
  }

  lemma {:induction false} RestIsAfter(sorted: seq<Cell>, top: seq<Cell>, some: seq<Cell>, rest: seq<Cell>, i: nat,
      r: Cell)
    requires StrictlyNewestFirst(sorted) && top <= sorted && multiset(some) <= multiset(sorted)
    requires multiset(top) + multiset(rest) == multiset(some) && i < |top| && r in rest
    ensures NoOlder(top[i], r)
  {
    assert r in multiset(rest);
    assert multiset(sorted)[r] >= multiset(some)[r] == multiset(top)[r] + multiset(rest)[r];
    StrictIsDistinct(sorted);
    Sorting.DistinctByCount(sorted);
    assert multiset(sorted)[r] <= 1;
    assert r !in multiset(top) && r in multiset(sorted);
    var k :| 0 <= k < |sorted| && sorted[k] == r;
    assert k >= |top| by {
      assert forall x :: 0 <= x < |top| ==> sorted[x] == top[x] && top[x] in multiset(top);
    }
    StrictNoOlder(sorted, i, k);
  }
}
