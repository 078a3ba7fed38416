/** useRecentBlocksStore.ts: a day of blocks kept in a pruned list, and the sums read off it. */
module RecentBlocks {
  import Sorting

  const HOUR_MS: int := 60 * 60 * 1000
  const DAY_MS: int := 24 * HOUR_MS

  datatype Item = Item(timestamp: int, transactionsCount: int)

  // ----- What the store's actions do to the list -----

  predicate HasTime(blocks: seq<Item>, t: int) { exists i :: 0 <= i < |blocks| && blocks[i].timestamp == t }

  function Added(blocks: seq<Item>, b: Item): seq<Item> {
    if HasTime(blocks, b.timestamp) then blocks
    else Sorting.Sort(blocks + [b], (x: Item, y: Item) => x.timestamp <= y.timestamp)
  }

  function After(blocks: seq<Item>, cutoff: int): seq<Item> {
    if blocks == [] then []
    else
      var n := |blocks| - 1;
      After(blocks[..n], cutoff) + if blocks[n].timestamp > cutoff then [blocks[n]] else []
  }

  function Pruned(blocks: seq<Item>, reference: int): seq<Item> { After(blocks, reference - DAY_MS) }

  /** The effect of one new block: added, then the list pruned by that block's own time. */
  function Arrived(blocks: seq<Item>, b: Item): seq<Item> { Pruned(Added(blocks, b), b.timestamp) }

  /** The transactions of the blocks after a cutoff. */
  function Total(blocks: seq<Item>): int {
    if blocks == [] then 0 else Total(blocks[..|blocks| - 1]) + blocks[|blocks| - 1].transactionsCount
  }

  function Latest(blocks: seq<Item>): int
    requires blocks != []
  {
    blocks[|blocks| - 1].timestamp
  }

  /** The sums shown: the last hour's and the last day's, both back from the latest block. */
  function HourSum(blocks: seq<Item>): int {
    if blocks == [] then 0 else Total(After(blocks, Latest(blocks) - HOUR_MS))
  }

  function DaySum(blocks: seq<Item>): int { if blocks == [] then 0 else Total(After(blocks, Latest(blocks) - DAY_MS)) }

  // ----- Ordered lists -----

  ghost predicate Increasing(s: seq<Item>) {
    forall i, j :: 0 <= i < j < |s| ==> s[i].timestamp < s[j].timestamp
  }

  lemma {:induction false} AddedKeepsOrder(s: seq<Item>, b: Item)
    requires Increasing(s)
    ensures Increasing(Added(s, b)) && Added(s, b) != []
    ensures forall x :: x in Added(s, b) <==> x in s || (x == b && !HasTime(s, b.timestamp))
  {
    if !HasTime(s, b.timestamp) {
      var le := (x: Item, y: Item) => x.timestamp <= y.timestamp;
      var all := s + [b];
      var r := Added(s, b);
      Sorting.SortSorted(all, le);
      Sorting.SortMembers(all, le);
      assert forall i :: 0 <= i < |s| ==> s[i].timestamp != b.timestamp;
      assert Sorting.Distinct(all);
      Sorting.SortKeepsDistinct(all, le);
      forall i, j | 0 <= i < j < |r| ensures r[i].timestamp < r[j].timestamp {
        assert le(r[i], r[j]) && r[i] in all && r[j] in all && r[i] != r[j];
      }
    }
  }

  ghost predicate NeverEarlier(s: seq<Item>) {
    forall i, j :: 0 <= i < j < |s| ==> s[i].timestamp <= s[j].timestamp
  }

  /** What adding does to any list, ordered or not. */
  lemma {:induction false} AddedMembers(s: seq<Item>, b: Item)
    ensures forall x :: x in Added(s, b) <==> x in s || (x == b && !HasTime(s, b.timestamp))
    ensures !HasTime(s, b.timestamp) ==> NeverEarlier(Added(s, b)) && multiset(Added(s, b)) == multiset(s) + multiset{b}
  {
    if !HasTime(s, b.timestamp) {
      var le := (x: Item, y: Item) => x.timestamp <= y.timestamp;
      var r := Added(s, b);
      Sorting.SortSorted(s + [b], le);
      Sorting.SortMembers(s + [b], le);
      forall i, j | 0 <= i < j < |r| ensures r[i].timestamp <= r[j].timestamp { assert le(r[i], r[j]); }
    }
  }

  /** What pruning keeps: every block after the cutoff, as often as it was there. */
  lemma {:induction false} AfterCounts(s: seq<Item>, cutoff: int)
    ensures forall x :: multiset(After(s, cutoff))[x] == if x.timestamp > cutoff then multiset(s)[x] else 0
  {
    if s != [] {
      var n := |s| - 1;
      AfterCounts(s[..n], cutoff);
      assert s == s[..n] + [s[n]];
    }
  }

  lemma {:induction false} AfterKeepsTimes(s: seq<Item>, cutoff: int)
    requires NeverEarlier(s)
    ensures NeverEarlier(After(s, cutoff))
  {
    if s != [] {
      var n := |s| - 1;
      AfterKeepsTimes(s[..n], cutoff);
      var front := After(s[..n], cutoff);
      forall i | 0 <= i < |front| ensures front[i].timestamp <= s[n].timestamp {
        AfterMembers(s[..n], cutoff, front[i]);
        assert front[i] in s[..n];
      }
    }
  }

  lemma {:induction false} AfterMembers(s: seq<Item>, cutoff: int, x: Item)
    ensures x in After(s, cutoff) <==> x in s && x.timestamp > cutoff
  {
    if s != [] {
      var n := |s| - 1;
      AfterMembers(s[..n], cutoff, x);
      assert s == s[..n] + [s[n]];
    }
  }

  lemma {:induction false} AfterKeepsOrder(s: seq<Item>, cutoff: int)
    requires Increasing(s)
    ensures Increasing(After(s, cutoff))
  {
    if s != [] {
      var n := |s| - 1;
      AfterKeepsOrder(s[..n], cutoff);
      var front := After(s[..n], cutoff);
      forall i | 0 <= i < |front| ensures front[i].timestamp < s[n].timestamp {
        AfterMembers(s[..n], cutoff, front[i]);
        assert front[i] in s[..n];
      }
    }
  }

  /** Lists in strict time order with the same items are the same list. */
  lemma {:induction false} SameItemsSameList(s: seq<Item>, t: seq<Item>)
    requires Increasing(s) && Increasing(t) && forall x :: x in s <==> x in t
    ensures s == t
  {
    var le := (x: Item, y: Item) => x.timestamp <= y.timestamp;
    Sorting.DistinctByCount(s);
    Sorting.DistinctByCount(t);
    forall x ensures multiset(s)[x] == multiset(t)[x] {
      assert x in s <==> x in multiset(s);
      assert x in t <==> x in multiset(t);
    }
    Sorting.SortedUnique(s, t, le);
  }

  // ----- The cache against the log that is never pruned -----

  /** After any arrivals: the cache, and the log of every block at its first arrival. */
  function Cache(initial: seq<Item>, arrivals: seq<Item>): seq<Item> {
    if arrivals == [] then initial
    else Arrived(Cache(initial, arrivals[..|arrivals| - 1]), arrivals[|arrivals| - 1])
  }

  function Log(initial: seq<Item>, arrivals: seq<Item>): seq<Item> {
    if arrivals == [] then initial
    else Added(Log(initial, arrivals[..|arrivals| - 1]), arrivals[|arrivals| - 1])
  }

  /** The two lists hold the same blocks after the cutoff. */
  ghost predicate Agree(cache: seq<Item>, log: seq<Item>, cutoff: int) {
    forall x: Item :: x.timestamp > cutoff ==> (x in cache <==> x in log)
  }

  ghost predicate TimesWithin(cache: seq<Item>, log: seq<Item>) {
    forall x :: x in cache ==> HasTime(log, x.timestamp)
  }

  ghost predicate Refines(cache: seq<Item>, log: seq<Item>) {
    && Increasing(cache) && Increasing(log) && TimesWithin(cache, log)
    && (cache == [] <==> log == [])
    && (log != [] ==> Agree(cache, log, Latest(log) - DAY_MS))
  }

  lemma {:induction false} LatestIsLast(s: seq<Item>, x: Item)
    requires Increasing(s) && x in s
    ensures s != [] && x.timestamp <= Latest(s)
  {
  }

  lemma {:induction false} SameLatest(cache: seq<Item>, log: seq<Item>)
    requires Refines(cache, log) && log != []
    ensures Latest(cache) == Latest(log)
  {
    var l, c := log[|log| - 1], cache[|cache| - 1];
    assert l in log && l in cache;
    LatestIsLast(cache, l);
    assert c in cache && HasTime(log, c.timestamp);
    var i :| 0 <= i < |log| && log[i].timestamp == c.timestamp;
    LatestIsLast(log, log[i]);
  }

  lemma {:induction false} AddedLatest(s: seq<Item>, b: Item)
    requires Increasing(s)
    ensures Added(s, b) != [] && Latest(Added(s, b)) >= b.timestamp
    ensures s != [] ==> Latest(Added(s, b)) >= Latest(s)
    ensures Latest(Added(s, b)) == b.timestamp || (s != [] && Latest(Added(s, b)) == Latest(s))
  {
    AddedKeepsOrder(s, b);
    var r := Added(s, b);
    if HasTime(s, b.timestamp) {
      var i :| 0 <= i < |s| && s[i].timestamp == b.timestamp;
      LatestIsLast(s, s[i]);
    } else {
      hide Added;
      LatestIsLast(r, b);
      assert r[|r| - 1] in r;
      if s != [] { LatestIsLast(r, s[|s| - 1]); }
      if r[|r| - 1] != b { LatestIsLast(s, r[|r| - 1]); }
    }
  }

  /** Adding the same block to both keeps them in agreement on the last day. */
  lemma {:induction false} AddKeepsRefines(cache: seq<Item>, log: seq<Item>, b: Item)
    requires Refines(cache, log)
    ensures Refines(Added(cache, b), Added(log, b))
  {
    AddedKeepsOrder(cache, b);
    AddedKeepsOrder(log, b);
    AddedLatest(log, b);
    hide Added, Increasing;
    var cache', log' := Added(cache, b), Added(log, b);
    forall x | x in cache' ensures HasTime(log', x.timestamp) { AddedHasTime(cache, log, b, x); }
    assert TimesWithin(cache', log');
    forall x: Item | x.timestamp > Latest(log') - DAY_MS ensures x in cache' <==> x in log' {
      SameAfterAdd(cache, log, b, x);
    }
  }

  lemma {:induction false} AddedHasTime(cache: seq<Item>, log: seq<Item>, b: Item, x: Item)
    requires Increasing(cache) && Increasing(log) && TimesWithin(cache, log) && x in Added(cache, b)
    ensures HasTime(Added(log, b), x.timestamp)
  {
    AddedKeepsOrder(cache, b);
    AddedKeepsOrder(log, b);
    hide Added;
    if HasTime(log, x.timestamp) {
      var i :| 0 <= i < |log| && log[i].timestamp == x.timestamp;
      assert log[i] in Added(log, b);
    } else {
      assert x == b && x in Added(log, b);
    }
  }

  lemma {:induction false} SameTimes(cache: seq<Item>, log: seq<Item>, t: int)
    requires Refines(cache, log) && (log != [] ==> t > Latest(log) - DAY_MS)
    ensures HasTime(cache, t) <==> HasTime(log, t)
  {
    if HasTime(cache, t) {
      var i :| 0 <= i < |cache| && cache[i].timestamp == t;
      assert cache[i] in cache;
    }
    if HasTime(log, t) {
      var i :| 0 <= i < |log| && log[i].timestamp == t;
      assert log[i] in cache;
    }
  }

  lemma {:induction false} SameAfterAdd(cache: seq<Item>, log: seq<Item>, b: Item, x: Item)
    requires Refines(cache, log)
    requires Added(log, b) != [] && x.timestamp > Latest(Added(log, b)) - DAY_MS
    ensures x in Added(cache, b) <==> x in Added(log, b)
  {
    AddedKeepsOrder(cache, b);
    AddedKeepsOrder(log, b);
    AddedLatest(log, b);
    hide Added;
    if log != [] { assert x in cache <==> x in log; }
    if x == b { SameTimes(cache, log, b.timestamp); }
  }

  /** Pruning by any block in the log drops nothing of the last day. */
  lemma {:induction false} PruneKeepsRefines(cache: seq<Item>, log: seq<Item>, reference: int)
    requires Refines(cache, log) && log != [] && reference <= Latest(log)
    ensures Refines(Pruned(cache, reference), log)
  {
    var pruned := Pruned(cache, reference);
    AfterKeepsOrder(cache, reference - DAY_MS);
    forall x ensures x in pruned <==>
      x in cache && x.timestamp > reference - DAY_MS { AfterMembers(cache, reference - DAY_MS, x); }
    SameLatest(cache, log);
    assert cache[|cache| - 1] in pruned;
  }

  /**
   Cache refinement: from a list in strict time order, whatever blocks arrive in whatever order, the
   pruned list stays in order and agrees on the last day with the log that forgets nothing.
   */
  lemma {:induction false} CacheRefinesLog(initial: seq<Item>, arrivals: seq<Item>)
    requires Increasing(initial)
    ensures Refines(Cache(initial, arrivals), Log(initial, arrivals))
  {
    if arrivals != [] {
      var n := |arrivals| - 1;
      var cache, log, b := Cache(initial, arrivals[..n]), Log(initial, arrivals[..n]), arrivals[n];
      CacheRefinesLog(initial, arrivals[..n]);
      AddKeepsRefines(cache, log, b);
      AddedLatest(log, b);
      PruneKeepsRefines(Added(cache, b), Added(log, b), b.timestamp);
    } else {
      forall x | x in initial ensures HasTime(initial, x.timestamp) { var i :| 0 <= i < |initial| && initial[i] == x; }
    }
  }

  lemma {:induction false} SameTotals(cache: seq<Item>, log: seq<Item>, back: int)
    requires Refines(cache, log) && log != [] && 0 < back <= DAY_MS
    ensures cache != [] && Total(After(cache, Latest(cache) - back)) == Total(After(log, Latest(log) - back))
  {
    hide After, Total, Increasing, TimesWithin;
    SameLatest(cache, log);
    var cutoff := Latest(log) - back;
    AfterKeepsOrder(cache, cutoff);
    AfterKeepsOrder(log, cutoff);
    forall x ensures x in After(cache, cutoff) <==> x in After(log, cutoff) {
      AfterMembers(cache, cutoff, x);
      AfterMembers(log, cutoff, x);
    }
    SameItemsSameList(After(cache, cutoff), After(log, cutoff));
  }

  /** The sums shown are those of the whole log. */
  lemma {:induction false} SumsAreTheLogs(initial: seq<Item>, arrivals: seq<Item>)
    requires Increasing(initial)
    ensures HourSum(Cache(initial, arrivals)) == HourSum(Log(initial, arrivals))
    ensures DaySum(Cache(initial, arrivals)) == DaySum(Log(initial, arrivals))
  {
    hide Cache, Log, After, Total, Increasing, Agree, TimesWithin;
    CacheRefinesLog(initial, arrivals);
    if Log(initial, arrivals) != [] {
      SameTotals(Cache(initial, arrivals), Log(initial, arrivals), HOUR_MS);
      SameTotals(Cache(initial, arrivals), Log(initial, arrivals), DAY_MS);
    }
  }

  /** A block never moves the latest time back, however old it is. */
  lemma {:induction false} LatestNeverDecreases(initial: seq<Item>, arrivals: seq<Item>, b: Item)
    requires Increasing(initial) && Cache(initial, arrivals) != []
    ensures Arrived(Cache(initial, arrivals), b) != []
    ensures Latest(Arrived(Cache(initial, arrivals), b)) >= Latest(Cache(initial, arrivals))
  {
    var cache, log := Cache(initial, arrivals), Log(initial, arrivals);
    CacheRefinesLog(initial, arrivals);
    SameLatest(cache, log);
    AddKeepsRefines(cache, log, b);
    AddedLatest(log, b);
    PruneKeepsRefines(Added(cache, b), Added(log, b), b.timestamp);
    SameLatest(Arrived(cache, b), Added(log, b));
  }

  // ----- The store -----

  class RecentBlocksStore {
    var blocks: seq<Item>
    var initialized: bool

    constructor ()
      ensures blocks == [] && !initialized
    {
      blocks, initialized := [], false;
    }

    method SetBlocks(initial: seq<Item>)
      modifies this
      ensures blocks == initial && initialized
    {
      blocks, initialized := initial, true;
    }

    method Reset()
      modifies this
      ensures blocks == [] && !initialized
    {
      blocks, initialized := [], false;
    }

    /** A block at a new time joins the list in time order; a block at a known time changes nothing. */
    method AddBlock(b: Item)
      modifies this`blocks
      ensures blocks == Added(old(blocks), b)
      ensures old(HasTime(blocks, b.timestamp)) ==> blocks == old(blocks)
      ensures forall x :: x in blocks <==> x in old(blocks) || (x == b && !old(HasTime(blocks, b.timestamp)))
      ensures !old(HasTime(blocks, b.timestamp)) ==>
        NeverEarlier(blocks) && multiset(blocks) == multiset(old(blocks)) + multiset{b}
      ensures old(Increasing(blocks)) ==> Increasing(blocks)
    {
      AddedMembers(blocks, b);
      if Increasing(blocks) { AddedKeepsOrder(blocks, b); }
      var exists' := HasTime(blocks, b.timestamp);
      if !exists' {
        blocks := Sorting.Sort(blocks + [b], (x: Item, y: Item) => x.timestamp <= y.timestamp);
      }
    }

    /** Exactly the blocks of the last day before the reference stay, in the order they had. */
    method PruneOldBlocks(reference: int)
      modifies this`blocks
      ensures blocks == Pruned(old(blocks), reference)
      ensures forall x :: x in blocks <==> x in old(blocks) && x.timestamp > reference - DAY_MS
      ensures forall x :: multiset(blocks)[x] == if x.timestamp > reference - DAY_MS then multiset(old(blocks))[x]
        else 0
      ensures old(Increasing(blocks)) ==> Increasing(blocks)
      ensures old(NeverEarlier(blocks)) ==> NeverEarlier(blocks)
    {
      var cutoff := reference - DAY_MS;
      AfterCounts(blocks, cutoff);
      if Increasing(blocks) { AfterKeepsOrder(blocks, cutoff); }
      if NeverEarlier(blocks) { AfterKeepsTimes(blocks, cutoff); }
      blocks := After(blocks, cutoff);
      assert forall x :: x in blocks <==> x in multiset(blocks);
    }

    /** The effect that follows the latest block; nothing before the first list has arrived. */
    method OnLatestBlock(b: Item)
      modifies this`blocks
      ensures blocks == if initialized then Arrived(old(blocks), b) else old(blocks)
    {
      if initialized {
        AddBlock(b);
        PruneOldBlocks(b.timestamp);
      }
    }

    /** The two sums, in one loop over the list. */
    method Stats() returns (lastHour: int, lastDay: int)
      ensures lastHour == HourSum(blocks) && lastDay == DaySum(blocks)
    {
      hide After, Total;
      lastHour, lastDay := 0, 0;
      if |blocks| == 0 { return; }
      CountNone();
      assert blocks[..0] == [];
      var latest := blocks[|blocks| - 1].timestamp;
      var hourAgo, dayAgo := latest - HOUR_MS, latest - DAY_MS;
      for k := 0 to |blocks|
        invariant lastHour == Total(After(blocks[..k], hourAgo))
        invariant lastDay == Total(After(blocks[..k], dayAgo))
      {
        CountOne(blocks, k, hourAgo);
        CountOne(blocks, k, dayAgo);
        if blocks[k].timestamp > dayAgo {
          lastDay := lastDay + blocks[k].transactionsCount;
          if blocks[k].timestamp > hourAgo {
            lastHour := lastHour + blocks[k].transactionsCount;
          }
        }
      }
      assert blocks[..|blocks|] == blocks;
    }

    /** From a loaded list, any blocks one after another. */
    method Follow(initial: seq<Item>, arrivals: seq<Item>) returns (lastHour: int, lastDay: int)
      requires Increasing(initial)
      modifies this
      ensures blocks == Cache(initial, arrivals) && Increasing(blocks)
      ensures lastHour == HourSum(Log(initial, arrivals)) && lastDay == DaySum(Log(initial, arrivals))
    {
      SetBlocks(initial);
      for k := 0 to |arrivals|
        invariant initialized && blocks == Cache(initial, arrivals[..k])
      {
        OnLatestBlock(arrivals[k]);
        assert arrivals[..k + 1][..k] == arrivals[..k];
      }
      assert arrivals[..|arrivals|] == arrivals;
      CacheRefinesLog(initial, arrivals);
      SumsAreTheLogs(initial, arrivals);
      lastHour, lastDay := Stats();
    }
  }

  lemma {:induction false} CountNone()
    ensures forall cutoff :: Total(After([], cutoff)) == 0
  {
  }

  lemma {:induction false} TotalMore(s: seq<Item>, x: Item)
    ensures Total(s + [x]) == Total(s) + x.transactionsCount
  {
    assert (s + [x])[..|s|] == s;
  }

  lemma {:induction false} CountOne(blocks: seq<Item>, k: nat, cutoff: int)
    requires k < |blocks|
    ensures Total(After(blocks[..k + 1], cutoff)) ==
      Total(After(blocks[..k], cutoff)) + if blocks[k].timestamp > cutoff then blocks[k].transactionsCount else 0
  {
    assert blocks[..k + 1][..k] == blocks[..k];
    var front := After(blocks[..k], cutoff);
    TotalMore(front, blocks[k]);
    assert After(blocks[..k + 1], cutoff) == front + if blocks[k].timestamp > cutoff then [blocks[k]] else [];
    hide After, Total;
    assert front + [] == front;
  }

  // ----- The windows, in milliseconds -----

  /** The transactions of the blocks after a time, added up from the first block on. */
  ghost function CountSince(blocks: seq<Item>, time: int): int {
    if blocks == [] then 0
    else (if blocks[0].timestamp > time then blocks[0].transactionsCount else 0) + CountSince(blocks[1..], time)
  }

  lemma {:induction false} CountSinceMore(blocks: seq<Item>, x: Item, time: int)
    ensures CountSince(blocks + [x], time) ==
      CountSince(blocks, time) + if x.timestamp > time then x.transactionsCount else 0
  {
    if blocks == [] {
      assert blocks + [x] == [x] && [x][1..] == [];
    } else {
      assert (blocks + [x])[1..] == blocks[1..] + [x];
      CountSinceMore(blocks[1..], x, time);
    }
  }

  lemma {:induction false} TotalAfterIs(blocks: seq<Item>, time: int)
    ensures Total(After(blocks, time)) == CountSince(blocks, time)
  {
    if blocks == [] {
      CountNone();
    } else {
      var n := |blocks| - 1;
      TotalAfterIs(blocks[..n], time);
      CountOne(blocks, n, time);
      CountSinceMore(blocks[..n], blocks[n], time);
      hide After, Total, CountSince;
      assert blocks[..n] + [blocks[n]] == blocks && blocks[..n + 1] == blocks;
    }
  }

  /** The sums shown are those of the hour and of the day that end with the latest block. */
  lemma {:induction false} WindowSums(blocks: seq<Item>)
    requires blocks != []
    ensures var last := blocks[|blocks| - 1].timestamp;
      HourSum(blocks) == CountSince(blocks, last - 3_600_000) && DaySum(blocks) == CountSince(blocks, last - 86_400_000)
  {
    hide After, Total, CountSince;
    TotalAfterIs(blocks, Latest(blocks) - HOUR_MS);
    TotalAfterIs(blocks, Latest(blocks) - DAY_MS);
  }

  /** An arrival leaves the blocks of the day before it, and itself unless a block at its time was there. */
  lemma {:induction false} ArrivalLeaves(blocks: seq<Item>, b: Item, x: Item)
    ensures x in Arrived(blocks, b) <==>
      && x.timestamp > b.timestamp - 86_400_000
      && (x in blocks || (x == b && forall i :: 0 <= i < |blocks| ==> blocks[i].timestamp != b.timestamp))
  {
    AddedMembers(blocks, b);
    AfterMembers(Added(blocks, b), b.timestamp - DAY_MS, x);
    hide Added, After;
  }
}
