/** graph-layout.ts: connected components and the shortest-path rows of the spring layout. */
module GraphLayout {
  import opened Common
  import Sorting

  type Edge = (string, string)

  // ----- Paths -----

  ghost predicate Linked(edges: seq<Edge>, u: string, v: string) {
    u != v && ((u, v) in edges || (v, u) in edges)
  }

  ghost predicate IsPath(edges: seq<Edge>, p: seq<string>) {
    |p| > 0 && forall i :: 0 <= i < |p| - 1 ==> Linked(edges, p[i], p[i + 1])
  }

  ghost predicate PathFromTo(edges: seq<Edge>, p: seq<string>, u: string, v: string) {
    IsPath(edges, p) && p[0] == u && p[|p| - 1] == v
  }

  ghost predicate Joined(edges: seq<Edge>, u: string, v: string) {
    exists p :: PathFromTo(edges, p, u, v)
  }

  /** `d` edges take `u` to `v`, and fewer do not. */
  ghost predicate IsDistance(edges: seq<Edge>, u: string, v: string, d: nat) {
    && (exists p :: PathFromTo(edges, p, u, v) && |p| == d + 1)
    && (forall p :: PathFromTo(edges, p, u, v) ==> |p| >= d + 1)
  }

  lemma {:induction false} JoinedSelf(edges: seq<Edge>, u: string)
    ensures Joined(edges, u, u)
  {
    assert PathFromTo(edges, [u], u, u);
  }

  lemma {:induction false} JoinedStep(edges: seq<Edge>, u: string, v: string, w: string)
    requires Joined(edges, u, v) && Linked(edges, v, w)
    ensures Joined(edges, u, w)
  {
    var p :| PathFromTo(edges, p, u, v);
    assert PathFromTo(edges, p + [w], u, w);
  }

  lemma {:induction false} JoinedBack(edges: seq<Edge>, u: string, v: string)
    requires Joined(edges, u, v)
    ensures Joined(edges, v, u)
  {
    var p :| PathFromTo(edges, p, u, v);
    var q := seq(|p|, i requires 0 <= i < |p| => p[|p| - 1 - i]);
    assert PathFromTo(edges, q, v, u);
  }

  lemma {:induction false} JoinedThrough(edges: seq<Edge>, u: string, v: string, w: string)
    requires Joined(edges, u, v) && Joined(edges, v, w)
    ensures Joined(edges, u, w)
  {
    var p :| PathFromTo(edges, p, u, v);
    var q :| PathFromTo(edges, q, v, w);
    var r := p + q[1..];
    forall i | 0 <= i < |r| - 1 ensures Linked(edges, r[i], r[i + 1]) {
      if i == |p| - 1 { assert q[0] == p[i]; }
      if i >= |p| { assert r[i] == q[i - |p| + 1]; }
    }
    assert PathFromTo(edges, r, u, w);
  }

  ghost predicate Closed(edges: seq<Edge>, s: set<string>) {
    forall u, v :: u in s && Linked(edges, u, v) ==> v in s
  }

  lemma {:induction false} PathStaysIn(edges: seq<Edge>, s: set<string>, p: seq<string>)
    requires Closed(edges, s) && IsPath(edges, p) && p[0] in s
    ensures forall i :: 0 <= i < |p| ==> p[i] in s
  {
    if |p| > 1 {
      var n := |p| - 1;
      PathStaysIn(edges, s, p[..n]);
      assert p[..n][n - 1] in s;
    }
  }

  lemma {:induction false} JoinedStaysIn(edges: seq<Edge>, s: set<string>, u: string, v: string)
    requires Closed(edges, s) && u in s && Joined(edges, u, v)
    ensures v in s
  {
    var p :| PathFromTo(edges, p, u, v);
    PathStaysIn(edges, s, p);
  }

  // ----- Adjacency -----

  ghost predicate KnownEnds(nodes: seq<string>, edges: seq<Edge>) {
    forall i :: 0 <= i < |edges| ==> edges[i].0 in nodes && edges[i].1 in nodes
  }

  /** Each node's list holds exactly its neighbours. */
  ghost predicate IsAdjacency(adj: map<string, seq<string>>, nodes: seq<string>, edges: seq<Edge>) {
    && (forall u :: u in adj <==> u in nodes)
    && (forall u, v :: u in adj ==> (v in adj[u] <==> Linked(edges, u, v)))
  }

  function Elements(s: seq<string>): (r: set<string>)
    ensures forall x :: x in r <==> x in s
  {
    set x | x in s
  }

  lemma {:induction false} DistinctFromFront(s: seq<string>)
    requires s != []
    ensures var n := |s| - 1; Sorting.Distinct(s) <==> Sorting.Distinct(s[..n]) && s[n] !in s[..n]
  {
    var n := |s| - 1;
    var front := s[..n];
    assert forall i :: 0 <= i < n ==> front[i] == s[i];
    if Sorting.Distinct(front) && s[n] !in front {
      forall i, j | 0 <= i < j < |s| ensures s[i] != s[j] {
        if j < n { assert front[i] != front[j]; } else { assert front[i] in front; }
      }
    }
  }

  lemma {:induction false} DistinctBySize(s: seq<string>)
    ensures |Elements(s)| <= |s|
    ensures |Elements(s)| == |s| <==> Sorting.Distinct(s)
  {
    if s != [] {
      var n := |s| - 1;
      DistinctBySize(s[..n]);
      DistinctFromFront(s);
      assert s == s[..n] + [s[n]];
      assert Elements(s) == Elements(s[..n]) + {s[n]};
      hide Sorting.Distinct;
      if s[n] in s[..n] {
        assert Elements(s) == Elements(s[..n]);
      }
    }
  }

  method Adjacency(nodes: seq<string>, edges: seq<Edge>) returns (r: Result<map<string, seq<string>>>)
    ensures r.Ok? <==> Sorting.Distinct(nodes) && KnownEnds(nodes, edges)
    ensures r.Ok? ==> IsAdjacency(r.value, nodes, edges)
  {
    var adj: map<string, seq<string>> := map x | x in nodes :: [];
    DistinctBySize(nodes);
    assert adj.Keys == Elements(nodes);
    if |adj| != |nodes| { return Err; }
    for i := 0 to |edges|
      invariant KnownEnds(nodes, edges[..i])
      invariant IsAdjacency(adj, nodes, edges[..i])
    {
      var (a, b) := edges[i];
      assert edges[..i + 1] == edges[..i] + [edges[i]];
      if a !in adj || b !in adj { return Err; }
      if a != b {
        ghost var before := adj;
        adj := adj[a := adj[a] + [b]];
        adj := adj[b := adj[b] + [a]];
        AdjacencyStep(before, adj, nodes, edges[..i], a, b);
      } else {
        assert forall u, v :: Linked(edges[..i + 1], u, v) <==> Linked(edges[..i], u, v);
      }
    }
    assert edges[..|edges|] == edges;
    return Ok(adj);
  }

  lemma {:induction false} AdjacencyStep(before: map<string, seq<string>>, adj: map<string, seq<string>>,
      nodes: seq<string>, edges: seq<Edge>, a: string, b: string)
    requires IsAdjacency(before, nodes, edges) && a in before && b in before && a != b
    requires adj == before[a := before[a] + [b]][b := before[b] + [a]]
    ensures IsAdjacency(adj, nodes, edges + [(a, b)])
  {
    forall u, v | u in adj ensures v in adj[u] <==> Linked(edges + [(a, b)], u, v) {
      assert (u, v) in edges + [(a, b)] <==> (u, v) in edges || (u, v) == (a, b);
      assert (v, u) in edges + [(a, b)] <==> (v, u) in edges || (v, u) == (a, b);
    }
  }

  // ----- Components -----

  /** What the search from `start` has met: each once, joined to it, and recorded as seen. */
  ghost predicate Met(edges: seq<Edge>, start: string, seen0: set<string>, seen: set<string>, met: seq<string>) {
    && Sorting.Distinct(met) && start in met && seen == seen0 + Elements(met)
    && forall x :: x in met ==> x !in seen0 && Joined(edges, start, x)
  }

  ghost predicate NeighboursMet(edges: seq<Edge>, members: seq<string>, met: seq<string>) {
    forall u, v :: u in members && Linked(edges, u, v) ==> v in met
  }

  lemma {:induction false} MeetOne(edges: seq<Edge>, start: string, seen0: set<string>, seen: set<string>,
      met: seq<string>, node: string, next: string)
    requires Met(edges, start, seen0, seen, met)
    requires node in met && Linked(edges, node, next) && next !in seen
    ensures Met(edges, start, seen0, seen + {next}, met + [next])
  {
    assert next !in met;
    JoinedStep(edges, start, node, next);
  }

  /** Queue the neighbours of `node` not yet seen. */
  method Expand(nodes: seq<string>, edges: seq<Edge>, adj: map<string, seq<string>>, start: string,
      ghost seen0: set<string>, ghost members: seq<string>, queue0: seq<string>, seen1: set<string>, node: string)
    returns (queue: seq<string>, seen: set<string>)
    requires IsAdjacency(adj, nodes, edges) && KnownEnds(nodes, edges) && Closed(edges, seen0)
    requires Met(edges, start, seen0, seen1, members + queue0) && node in members + queue0 && seen1 <= Elements(nodes)
    ensures Met(edges, start, seen0, seen, members + queue) && seen <= Elements(nodes)
    ensures queue0 <= queue
    ensures forall v :: Linked(edges, node, v) ==> v in members + queue
  {
    queue, seen := queue0, seen1;
    assert node in nodes;
    for k := 0 to |adj[node]|
      invariant Met(edges, start, seen0, seen, members + queue) && seen <= Elements(nodes)
      invariant queue0 <= queue
      invariant forall j :: 0 <= j < k ==> adj[node][j] in members + queue
    {
      var next := adj[node][k];
      assert next in adj[node] && Linked(edges, node, next) && next in nodes;
      if next !in seen {
        assert node in members + queue;
        MeetOne(edges, start, seen0, seen, members + queue, node, next);
        assert members + queue + [next] == members + (queue + [next]);
        seen := seen + {next};
        queue := queue + [next];
      } else {
        assert Linked(edges, next, node) && node !in seen0;
      }
    }
  }

  /** With the queue empty, what was met is everything joined to `start`. */
  lemma {:induction false} SearchDone(edges: seq<Edge>, start: string, seen0: set<string>, seen: set<string>,
      members: seq<string>)
    requires Met(edges, start, seen0, seen, members) && NeighboursMet(edges, members, members) && Closed(edges, seen0)
    ensures forall v :: v in members <==> Joined(edges, start, v)
    ensures Closed(edges, seen)
  {
    assert Closed(edges, Elements(members));
    forall v ensures v in members <==> Joined(edges, start, v) {
      if Joined(edges, start, v) { JoinedStaysIn(edges, Elements(members), start, v); }
    }
  }

  lemma {:induction false} HeadIsNew(members: seq<string>, queue: seq<string>)
    requires Sorting.Distinct(members + queue) && queue != []
    ensures queue[0] !in members && queue[0] in members + queue
    ensures members + queue == members + [queue[0]] + queue[1..]
  {
    var all := members + queue;
    assert all[|members|] == queue[0];
    assert forall i :: 0 <= i < |members| ==> all[i] == members[i];
  }

  /** The nodes joined to `start`, in the order the breadth-first search meets them. */
  method Search(nodes: seq<string>, edges: seq<Edge>, adj: map<string, seq<string>>, start: string, seen0: set<string>)
    returns (members: seq<string>, seen: set<string>)
    requires IsAdjacency(adj, nodes, edges) && KnownEnds(nodes, edges)
    requires start in nodes && start !in seen0 && seen0 <= Elements(nodes) && Closed(edges, seen0)
    ensures Sorting.Distinct(members) && forall v :: v in members <==> Joined(edges, start, v)
    ensures seen == seen0 + Elements(members) && seen <= Elements(nodes) && Closed(edges, seen)
  {
    members := [];
    var queue := [start];
    seen := seen0 + {start};
    JoinedSelf(edges, start);
    assert members + queue == [start];
    while queue != []
      invariant Met(edges, start, seen0, seen, members + queue) && NeighboursMet(edges, members, members + queue)
      invariant seen <= Elements(nodes)
      decreases Elements(nodes) - Elements(members)
    {
      var node := queue[0];
      ghost var listed := members;
      HeadIsNew(members, queue);
      assert node in seen && node !in Elements(members);
      assert Elements(members + [node]) == Elements(members) + {node};
      members := members + [node];
      queue := queue[1..];
      queue, seen := Expand(nodes, edges, adj, start, seen0, members, queue, seen, node);
    }
    assert members + queue == members;
    SearchDone(edges, start, seen0, seen, members);
  }

  /** Where a node stands in the input. */
  function Position(nodes: seq<string>, x: string): (k: nat)
    requires x in nodes
    ensures k < |nodes| && nodes[k] == x && forall j :: 0 <= j < k ==> nodes[j] != x
  {
    if nodes[0] == x then 0 else 1 + Position(nodes[1..], x)
  }

  ghost predicate KeepsOrder(nodes: seq<string>, c: seq<string>) {
    && (forall i :: 0 <= i < |c| ==> c[i] in nodes)
    && forall i, j :: 0 <= i < j < |c| ==> Position(nodes, c[i]) < Position(nodes, c[j])
  }

  /** All nodes joined to the first of them, in input order. */
  ghost predicate IsComponent(nodes: seq<string>, edges: seq<Edge>, c: seq<string>) {
    && c != [] && KeepsOrder(nodes, c)
    && forall v :: v in nodes ==> (v in c <==> Joined(edges, c[0], v))
  }

  ghost predicate AllComponents(nodes: seq<string>, edges: seq<Edge>, comps: seq<seq<string>>) {
    forall k :: 0 <= k < |comps| ==> IsComponent(nodes, edges, comps[k])
  }

  ghost predicate InSome(comps: seq<seq<string>>, v: string) {
    exists k :: 0 <= k < |comps| && v in comps[k]
  }

  /** Where the first of a component stands in the input. */
  function FirstAt(nodes: seq<string>, c: seq<string>): nat {
    if c != [] && c[0] in nodes then Position(nodes, c[0]) else 0
  }

  ghost predicate ComesBefore(nodes: seq<string>, a: seq<string>, b: seq<string>) {
    |a| > |b| || (|a| == |b| && FirstAt(nodes, a) < FirstAt(nodes, b))
  }

  /** The components of the graph: every node in one, largest first, ties by first appearance. */
  ghost predicate AreComponents(nodes: seq<string>, edges: seq<Edge>, comps: seq<seq<string>>) {
    && AllComponents(nodes, edges, comps)
    && (forall v :: v in nodes ==> InSome(comps, v))
    && (forall i, j :: 0 <= i < j < |comps| ==> ComesBefore(nodes, comps[i], comps[j]))
  }

  /** Sorting what the search met by input position. */
  method InInputOrder(nodes: seq<string>, members: seq<string>) returns (c: seq<string>)
    requires Sorting.Distinct(members) && forall i :: 0 <= i < |members| ==> members[i] in nodes
    ensures KeepsOrder(nodes, c) && (forall v :: v in c <==> v in members)
  {
    var order := map x | x in nodes :: Position(nodes, x);
    var le := (a: string, b: string) => a !in order || (b in order && order[a] <= order[b]);
    LeIsOrder(order, le);
    c := Sorting.Sort(members, le);
    Sorting.SortSorted(members, le);
    Sorting.SortMembers(members, le);
    Sorting.SortKeepsDistinct(members, le);
    assert forall i :: 0 <= i < |c| ==> c[i] in members;
    forall i, j | 0 <= i < j < |c| ensures Position(nodes, c[i]) < Position(nodes, c[j]) {
      assert le(c[i], c[j]);
      assert c[i] != c[j];
    }
  }

  lemma {:induction false} LeIsOrder(order: map<string, nat>, le: (string, string) -> bool)
    requires forall a, b :: le(a, b) <==> a !in order || (b in order && order[a] <= order[b])
    ensures Sorting.Total(le) && Sorting.Transitive(le)
  {
  }

  ghost predicate ByFirst(nodes: seq<string>, comps: seq<seq<string>>, i: nat) {
    && (forall k :: 0 <= k < |comps| ==> FirstAt(nodes, comps[k]) < i)
    && forall j, k :: 0 <= j < k < |comps| ==> FirstAt(nodes, comps[j]) < FirstAt(nodes, comps[k])
  }

  /** The components found so far, in order of their first nodes; everything before `i` is in one. */
  ghost predicate FoundTo(nodes: seq<string>, edges: seq<Edge>, comps: seq<seq<string>>, seen: set<string>, i: nat) {
    && i <= |nodes| && seen <= Elements(nodes) && Closed(edges, seen)
    && AllComponents(nodes, edges, comps) && ByFirst(nodes, comps, i)
    && (forall v :: v in seen <==> InSome(comps, v))
    && (forall j :: 0 <= j < i ==> nodes[j] in seen)
  }

  /** A component met from its first unseen node begins with that node. */
  lemma {:induction false} StartsAtFirstUnseen(nodes: seq<string>, edges: seq<Edge>, seen0: set<string>, i: nat,
      c: seq<string>)
    requires Sorting.Distinct(nodes) && i < |nodes| && nodes[i] !in seen0 && Closed(edges, seen0)
    requires forall j :: 0 <= j < i ==> nodes[j] in seen0
    requires KeepsOrder(nodes, c) && forall v :: v in c <==> Joined(edges, nodes[i], v)
    ensures nodes[i] in c && FirstAt(nodes, c) == i && IsComponent(nodes, edges, c)
  {
    JoinedSelf(edges, nodes[i]);
    assert nodes[i] in c;
    var k :| 0 <= k < |c| && c[k] == nodes[i];
    var first := Position(nodes, c[0]);
    if first < i {
      assert nodes[first] == c[0] && c[0] in c;
      JoinedBack(edges, nodes[i], c[0]);
      JoinedStaysIn(edges, seen0, c[0], nodes[i]);
    }
    assert first >= i;
    assert Position(nodes, nodes[i]) == i;
    assert Position(nodes, c[0]) <= Position(nodes, c[k]);
  }

  lemma {:induction false} FoundOneMore(nodes: seq<string>, edges: seq<Edge>, comps: seq<seq<string>>,
      seen0: set<string>, seen: set<string>, i: nat, c: seq<string>)
    requires Sorting.Distinct(nodes) && FoundTo(nodes, edges, comps, seen0, i) && i < |nodes| && nodes[i] !in seen0
    requires KeepsOrder(nodes, c) && forall v :: v in c <==> Joined(edges, nodes[i], v)
    requires seen == seen0 + Elements(c) && seen <= Elements(nodes) && Closed(edges, seen)
    ensures FoundTo(nodes, edges, comps + [c], seen, i + 1)
  {
    hide Closed, IsComponent, KeepsOrder, Joined, FirstAt, InSome, AllComponents, ByFirst, Sorting.Distinct;
    StartsAtFirstUnseen(nodes, edges, seen0, i, c);
    OneMoreComponent(nodes, edges, comps, c, i);
    forall v ensures v in seen <==> InSome(comps + [c], v) { InSomeMore(comps, c, v); }
  }

  lemma {:induction false} FoundNothingYet(nodes: seq<string>, edges: seq<Edge>)
    ensures FoundTo(nodes, edges, [], {}, 0)
  {
  }

  lemma {:induction false} FoundAlready(nodes: seq<string>, edges: seq<Edge>, comps: seq<seq<string>>,
      seen: set<string>, i: nat)
    requires FoundTo(nodes, edges, comps, seen, i) && i < |nodes| && nodes[i] in seen
    ensures FoundTo(nodes, edges, comps, seen, i + 1)
  {
    hide FirstAt, IsComponent;
  }

  lemma {:induction false} OneMoreComponent(nodes: seq<string>, edges: seq<Edge>, comps: seq<seq<string>>,
      c: seq<string>, i: nat)
    requires AllComponents(nodes, edges, comps) && IsComponent(nodes, edges, c)
    requires ByFirst(nodes, comps, i) && FirstAt(nodes, c) == i
    ensures AllComponents(nodes, edges, comps + [c]) && ByFirst(nodes, comps + [c], i + 1)
  {
    hide IsComponent, FirstAt;
  }

  lemma {:induction false} InSomeMore(comps: seq<seq<string>>, c: seq<string>, v: string)
    ensures InSome(comps + [c], v) <==> InSome(comps, v) || v in c
  {
    var all := comps + [c];
    if InSome(comps, v) {
      var k :| 0 <= k < |comps| && v in comps[k];
      assert all[k] == comps[k];
    }
    assert all[|comps|] == c;
  }

  datatype Tagged = Tagged(members: seq<string>, index: nat)

  function Untagged(s: seq<Tagged>): (r: seq<seq<string>>)
    ensures |r| == |s| && forall i :: 0 <= i < |s| ==> r[i] == s[i].members
  {
    seq(|s|, i requires 0 <= i < |s| => s[i].members)
  }

  predicate LargerFirst(a: Tagged, b: Tagged) {
    |a.members| > |b.members| || (|a.members| == |b.members| && a.index <= b.index)
  }

  ghost predicate ListsLargerFirst(found: seq<seq<string>>, s: seq<Tagged>) {
    && (forall i :: 0 <= i < |s| ==> s[i].index < |found| && s[i].members == found[s[i].index])
    && (forall k :: 0 <= k < |found| ==> Tagged(found[k], k) in s)
    && (forall i, j :: 0 <= i < j < |s| ==> LargerFirst(s[i], s[j]) && s[i] != s[j])
  }

  /** Any reordering of the found components that puts the larger first, ties by index, lists them as promised. */
  lemma {:induction false} LargerFirstLists(nodes: seq<string>, edges: seq<Edge>, found: seq<seq<string>>,
      seen: set<string>, s: seq<Tagged>)
    requires FoundTo(nodes, edges, found, seen, |nodes|)
    requires ListsLargerFirst(found, s)
    ensures AreComponents(nodes, edges, Untagged(s))
  {
    hide IsComponent, Closed, FirstAt;
    var comps := Untagged(s);
    forall v | v in nodes ensures InSome(comps, v) {
      assert nodes[Position(nodes, v)] in seen;
      var k :| 0 <= k < |found| && v in found[k];
      var i :| 0 <= i < |s| && s[i] == Tagged(found[k], k);
      assert v in comps[i];
    }
    forall i, j | 0 <= i < j < |comps| ensures ComesBefore(nodes, comps[i], comps[j]) {
      assert LargerFirst(s[i], s[j]) && s[i].index != s[j].index;
    }
  }

  /** Largest first; equal sizes keep their index order. */
  method LargestFirst(nodes: seq<string>, ghost edges: seq<Edge>, found: seq<seq<string>>, ghost seen: set<string>)
    returns (comps: seq<seq<string>>)
    requires FoundTo(nodes, edges, found, seen, |nodes|)
    ensures AreComponents(nodes, edges, comps)
  {
    hide *;
    var tagged := seq(|found|, k requires 0 <= k < |found| => Tagged(found[k], k));
    var le := (a: Tagged, b: Tagged) => LargerFirst(a, b);
    var s := Sorting.Sort(tagged, le);
    TaggedSorted(found, tagged, le);
    LargerFirstLists(nodes, edges, found, seen, s);
    comps := Untagged(s);
  }

  lemma {:induction false} TaggedSorted(found: seq<seq<string>>, tagged: seq<Tagged>, le: (Tagged, Tagged) -> bool)
    requires |tagged| == |found| && forall k :: 0 <= k < |found| ==> tagged[k] == Tagged(found[k], k)
    requires forall a, b :: le(a, b) <==> LargerFirst(a, b)
    ensures ListsLargerFirst(found, Sorting.Sort(tagged, le))
  {
    var s := Sorting.Sort(tagged, le);
    Sorting.SortSorted(tagged, le);
    Sorting.SortMembers(tagged, le);
    Sorting.SortKeepsDistinct(tagged, le);
    forall i | 0 <= i < |s| ensures s[i].index < |found| && s[i].members == found[s[i].index] {
      assert s[i] in tagged;
    }
    forall k | 0 <= k < |found| ensures Tagged(found[k], k) in s { assert tagged[k] in tagged; }
    forall i, j | 0 <= i < j < |s| ensures LargerFirst(s[i], s[j]) { assert le(s[i], s[j]); }
  }

  method ConnectedComponents(nodes: seq<string>, edges: seq<Edge>) returns (r: Result<seq<seq<string>>>)
    ensures r.Ok? <==> Sorting.Distinct(nodes) && KnownEnds(nodes, edges)
    ensures r.Ok? ==> AreComponents(nodes, edges, r.value)
  {
    hide Joined, IsComponent, KeepsOrder, KnownEnds, AreComponents, AllComponents, ByFirst, InSome, IsAdjacency,
      Sorting.Distinct;
    var a := Adjacency(nodes, edges);
    if a.Err? { return Err; }
    var seen: set<string> := {};
    var found: seq<seq<string>> := [];
    FoundNothingYet(nodes, edges);
    for i := 0 to |nodes|
      invariant FoundTo(nodes, edges, found, seen, i)
    {
      if nodes[i] !in seen {
        var members, more := Search(nodes, edges, a.value, nodes[i], seen);
        assert forall k :: 0 <= k < |members| ==> members[k] in more;
        var c := InInputOrder(nodes, members);
        assert Elements(c) == Elements(members);
        FoundOneMore(nodes, edges, found, seen, more, i, c);
        found := found + [c];
        seen := more;
      } else {
        FoundAlready(nodes, edges, found, seen, i);
      }
    }
    var comps := LargestFirst(nodes, edges, found, seen);
    return Ok(comps);
  }

  /** Two nodes share a component exactly when an edge path joins them. */
  lemma {:induction false} SharedExactlyWhenJoined(nodes: seq<string>, edges: seq<Edge>, comps: seq<seq<string>>,
      u: string, v: string)
    requires AreComponents(nodes, edges, comps) && u in nodes && v in nodes
    ensures (exists k :: 0 <= k < |comps| && u in comps[k] && v in comps[k]) <==> Joined(edges, u, v)
  {
    if k :| 0 <= k < |comps| && u in comps[k] && v in comps[k] {
      assert IsComponent(nodes, edges, comps[k]);
      JoinedBack(edges, comps[k][0], u);
      JoinedThrough(edges, u, comps[k][0], v);
    }
    if Joined(edges, u, v) {
      assert InSome(comps, u);
      var k :| 0 <= k < |comps| && u in comps[k];
      assert IsComponent(nodes, edges, comps[k]);
      JoinedThrough(edges, comps[k][0], u, v);
      assert v in comps[k];
    }
  }

  lemma {:induction false} ComponentAt(nodes: seq<string>, edges: seq<Edge>, comps: seq<seq<string>>, k: nat)
    requires AreComponents(nodes, edges, comps) && k < |comps|
    ensures IsComponent(nodes, edges, comps[k]) && comps[k] != [] && forall m :: m in comps[k] ==> m in nodes
  {
    assert IsComponent(nodes, edges, comps[k]);
    forall m | m in comps[k] ensures m in nodes {
      var i :| 0 <= i < |comps[k]| && comps[k][i] == m;
    }
  }

  /** No node is in two components. */
  lemma {:induction false} InOneComponent(nodes: seq<string>, edges: seq<Edge>, comps: seq<seq<string>>, u: string,
      i: nat, j: nat)
    requires AreComponents(nodes, edges, comps) && i < j < |comps| && u in comps[i]
    ensures u !in comps[j]
  {
    assert IsComponent(nodes, edges, comps[i]) && IsComponent(nodes, edges, comps[j])
      && ComesBefore(nodes, comps[i], comps[j]);
    if u in comps[j] { SameComponent(nodes, edges, comps[i], comps[j], u); }
  }

  /** Components that meet are the same list. */
  lemma {:induction false} SameComponent(nodes: seq<string>, edges: seq<Edge>, c: seq<string>, d: seq<string>,
      u: string)
    requires IsComponent(nodes, edges, c) && IsComponent(nodes, edges, d) && u in c && u in d
    ensures |c| == |d| && c[0] == d[0]
  {
    JoinedBack(edges, c[0], u);
    JoinedBack(edges, d[0], u);
    forall v ensures v in c <==> v in d {
      if v in c { var i :| 0 <= i < |c|
        && c[i] == v; JoinedThrough(edges, u, c[0], v); JoinedThrough(edges, d[0], u, v); }
      if v in d { var i :| 0 <= i < |d|
        && d[i] == v; JoinedThrough(edges, u, d[0], v); JoinedThrough(edges, c[0], u, v); }
    }
    assert Elements(c) == Elements(d);
    DistinctBySize(c);
    DistinctBySize(d);
    var i :| 0 <= i < |c| && c[i] == d[0];
    var j :| 0 <= j < |d| && d[j] == c[0];
    assert Position(nodes, c[0]) <= Position(nodes, c[i]) && Position(nodes, d[0]) <= Position(nodes, d[j]);
  }

  // ----- Shortest-path rows -----

  ghost predicate ReachedIn(edges: seq<Edge>, u: string, v: string, d: nat) {
    exists p :: PathFromTo(edges, p, u, v) && |p| == d + 1
  }

  /** `u`'s neighbours are all reached, at most one step further. */
  ghost predicate Relaxed(edges: seq<Edge>, dist: map<string, nat>, u: string)
    requires u in dist
  {
    forall w :: Linked(edges, u, w) ==> w in dist && dist[w] <= dist[u] + 1
  }

  /** The distances found so far, and a queue in their order that spans at most one step. */
  ghost predicate Spreading(edges: seq<Edge>, source: string, dist: map<string, nat>, queue: seq<string>, low: nat) {
    && source in dist && dist[source] == 0
    && Sorting.Distinct(queue)
    && (forall i :: 0 <= i < |queue| ==> queue[i] in dist && low <= dist[queue[i]])
    && (forall i, j :: 0 <= i < j < |queue| ==> dist[queue[i]] <= dist[queue[j]])
    && (forall v :: v in dist ==> dist[v] <= low + 1 && ReachedIn(edges, source, v, dist[v]))
  }

  ghost predicate RelaxedBut(edges: seq<Edge>, dist: map<string, nat>, pending: set<string>) {
    forall u :: u in dist && u !in pending ==> Relaxed(edges, dist, u)
  }

  lemma {:induction false} ReachOneMore(edges: seq<Edge>, source: string, u: string, w: string, d: nat)
    requires ReachedIn(edges, source, u, d) && Linked(edges, u, w)
    ensures ReachedIn(edges, source, w, d + 1)
  {
    var p :| PathFromTo(edges, p, source, u) && |p| == d + 1;
    assert PathFromTo(edges, p + [w], source, w);
  }

  /** A neighbour met for the first time goes to the end of the queue, one step further. */
  lemma {:induction false} SpreadOne(edges: seq<Edge>, source: string, dist: map<string, nat>, queue: seq<string>,
      node: string, next: string)
    requires node in dist && Spreading(edges, source, dist, queue, dist[node])
    requires Linked(edges, node, next) && next !in dist
    ensures Spreading(edges, source, dist[next := dist[node] + 1], queue + [next], dist[node])
  {
    ReachOneMore(edges, source, node, next, dist[node]);
    hide ReachedIn, Linked;
    var q := queue + [next];
    assert forall i :: 0 <= i < |queue| ==> queue[i] in dist && q[i] == queue[i];
  }

  /** More distances leave a relaxed node relaxed. */
  lemma {:induction false} RelaxedKept(edges: seq<Edge>, dist: map<string, nat>, more: map<string, nat>,
      pending: set<string>, added: set<string>)
    requires RelaxedBut(edges, dist, pending)
    requires more.Keys == dist.Keys + added && forall v :: v in dist ==> more[v] == dist[v]
    ensures RelaxedBut(edges, more, pending + added)
  {
    forall u | u in more && u !in pending + added ensures Relaxed(edges, more, u) {
      assert u in dist && Relaxed(edges, dist, u);
    }
  }

  /** When nothing is left to spread from, the numbers are the distances, and unreached nodes are unreachable. */
  lemma {:induction false} SpreadDone(edges: seq<Edge>, source: string, dist: map<string, nat>, v: string)
    requires source in dist && dist[source] == 0 && RelaxedBut(edges, dist, {})
    requires forall x :: x in dist ==> ReachedIn(edges, source, x, dist[x])
    ensures v in dist ==> IsDistance(edges, source, v, dist[v])
    ensures v !in dist ==> !Joined(edges, source, v)
  {
    forall p | PathFromTo(edges, p, source, v) ensures v in dist && dist[v] <= |p| - 1 {
      NoFurtherThanPath(edges, source, dist, p);
    }
    if v in dist { assert ReachedIn(edges, source, v, dist[v]); }
  }

  lemma {:induction false} NoFurtherThanPath(edges: seq<Edge>, source: string, dist: map<string, nat>, p: seq<string>)
    requires source in dist && dist[source] == 0 && RelaxedBut(edges, dist, {})
    requires IsPath(edges, p) && p[0] == source
    ensures p[|p| - 1] in dist && dist[p[|p| - 1]] <= |p| - 1
  {
    if |p| > 1 {
      var n := |p| - 1;
      var u := p[n - 1];
      NoFurtherThanPath(edges, source, dist, p[..n]);
      assert p[..n][n - 1] == u && Relaxed(edges, dist, u) && Linked(edges, u, p[n]);
    }
  }

  /** The row array shows the distances found; a node not reached yet is still infinitely far. */
  ghost predicate Shows(row: seq<Option<nat>>, nodes: seq<string>, dist: map<string, nat>) {
    && |row| == |nodes| && (forall v :: v in dist ==> v in nodes)
    && forall j :: 0 <= j < |row| ==> row[j] == if nodes[j] in dist then Some(dist[nodes[j]]) else None
  }

  lemma {:induction false} ShowsOne(row: seq<Option<nat>>, nodes: seq<string>, dist: map<string, nat>, next: string,
      d: nat)
    requires Shows(row, nodes, dist) && Sorting.Distinct(nodes) && next in nodes
    ensures |row| == |nodes| && row[Position(nodes, next)] == if next in dist then Some(dist[next]) else None
    ensures Shows(row[Position(nodes, next) := Some(d)], nodes, dist[next := d])
  {
  }

  /** The search while it spreads from `node`. */
  ghost predicate SpreadingFrom(edges: seq<Edge>, source: string, dist: map<string, nat>, queue: seq<string>,
      node: string, here: nat) {
    && node in dist && dist[node] == here && Spreading(edges, source, dist, queue, here)
    && RelaxedBut(edges, dist, Elements(queue) + {node})
  }

  lemma {:induction false} SpreadStep(edges: seq<Edge>, source: string, dist: map<string, nat>, queue: seq<string>,
      node: string, here: nat, next: string)
    requires SpreadingFrom(edges, source, dist, queue, node, here) && Linked(edges, node, next) && next !in dist
    ensures SpreadingFrom(edges, source, dist[next := here + 1], queue + [next], node, here)
    ensures dist[next := here + 1].Keys - Elements(queue + [next]) == dist.Keys - Elements(queue)
  {
    SpreadOne(edges, source, dist, queue, node, next);
    RelaxedKept(edges, dist, dist[next := here + 1], Elements(queue) + {node}, {next});
    assert Elements(queue + [next]) + {node} == Elements(queue) + {node} + {next};
  }

  lemma {:induction false} SpreadFinished(edges: seq<Edge>, adj: map<string, seq<string>>, nodes: seq<string>,
      source: string, dist: map<string, nat>, queue: seq<string>, node: string, here: nat)
    requires SpreadingFrom(edges, source, dist, queue, node, here) && IsAdjacency(adj, nodes, edges) && node in nodes
    requires forall j :: 0 <= j < |adj[node]| ==> adj[node][j] in dist
    ensures RelaxedBut(edges, dist, Elements(queue))
  {
    assert Relaxed(edges, dist, node);
  }

  lemma {:induction false} NodesAreKeys(adj: map<string, seq<string>>, nodes: seq<string>, edges: seq<Edge>)
    requires IsAdjacency(adj, nodes, edges)
    ensures forall u :: u in nodes ==> u in adj
  {
  }

  lemma {:induction false} NeighbourIsNode(adj: map<string, seq<string>>, nodes: seq<string>, edges: seq<Edge>,
      node: string, k: nat)
    requires IsAdjacency(adj, nodes, edges) && KnownEnds(nodes, edges) && node in adj && k < |adj[node]|
    ensures Linked(edges, node, adj[node][k]) && adj[node][k] in nodes
  {
    assert adj[node][k] in adj[node];
  }

  /** The neighbour `next` of `node`, if it is still infinitely far, is one step further and joins the queue. */
  method SpreadTo(nodes: seq<string>, ghost edges: seq<Edge>, ghost source: string, ghost node: string, here: nat,
      next: string, row: array<Option<nat>>, queue0: seq<string>, ghost dist0: map<string, nat>)
    returns (queue: seq<string>, ghost dist: map<string, nat>)
    requires Sorting.Distinct(nodes) && next in nodes && Linked(edges, node, next)
    requires Shows(row[..], nodes, dist0) && SpreadingFrom(edges, source, dist0, queue0, node, here)
    modifies row
    ensures Shows(row[..], nodes, dist) && SpreadingFrom(edges, source, dist, queue, node, here)
    ensures dist.Keys - Elements(queue) == dist0.Keys - Elements(queue0)
    ensures next in dist && dist0.Keys <= dist.Keys
  {
    queue, dist := queue0, dist0;
    ShowsOne(row[..], nodes, dist, next, here + 1);
    hide SpreadingFrom, Shows, Linked;
    var j := Position(nodes, next);
    if row[j] == None {
      ghost var was := row[..];
      row[j] := Some(here + 1);
      assert row[..] == was[j := Some(here + 1)];
      SpreadStep(edges, source, dist, queue, node, here, next);
      dist := dist[next := here + 1];
      queue := queue + [next];
    }
  }

  /** Spread from `node` to those of its neighbours that are still infinitely far. */
  method SpreadFrom(nodes: seq<string>, ghost edges: seq<Edge>, adj: map<string, seq<string>>, ghost source: string,
      node: string, row: array<Option<nat>>, queue0: seq<string>, ghost dist0: map<string, nat>)
    returns (queue: seq<string>, ghost dist: map<string, nat>)
    requires IsAdjacency(adj, nodes, edges) && Sorting.Distinct(nodes) && KnownEnds(nodes, edges)
    requires Shows(row[..], nodes, dist0) && node in nodes
    requires node in dist0 && SpreadingFrom(edges, source, dist0, queue0, node, dist0[node])
    modifies row
    ensures Shows(row[..], nodes, dist)
    ensures SpreadingFrom(edges, source, dist, queue, node, dist0[node])
    ensures dist.Keys - Elements(queue) == dist0.Keys - Elements(queue0)
    ensures RelaxedBut(edges, dist, Elements(queue))
  {
    hide SpreadingFrom, Shows, Sorting.Distinct, RelaxedBut, IsAdjacency, KnownEnds, Linked, Position;
    queue, dist := queue0, dist0;
    ShowsOne(row[..], nodes, dist, node, 0);
    var here := row[Position(nodes, node)].value;
    assert node in adj by { NodesAreKeys(adj, nodes, edges); }
    for k := 0 to |adj[node]|
      invariant Shows(row[..], nodes, dist) && row.Length == |nodes|
      invariant SpreadingFrom(edges, source, dist, queue, node, here)
      invariant dist.Keys - Elements(queue) == dist0.Keys - Elements(queue0)
      invariant forall j :: 0 <= j < k ==> adj[node][j] in dist
    {
      var next := adj[node][k];
      NeighbourIsNode(adj, nodes, edges, node, k);
      queue, dist := SpreadTo(nodes, edges, source, node, here, next, row, queue, dist);
    }
    SpreadFinished(edges, adj, nodes, source, dist, queue, node, here);
  }

  /** The next node leaves the queue; nothing queued is nearer. */
  lemma {:induction false} TakeNext(edges: seq<Edge>, source: string, dist: map<string, nat>, queue: seq<string>,
      low: nat)
    requires queue != [] && Spreading(edges, source, dist, queue, low) && RelaxedBut(edges, dist, Elements(queue))
    ensures queue[0] in dist && SpreadingFrom(edges, source, dist, queue[1..], queue[0], dist[queue[0]])
    ensures dist.Keys - Elements(queue[1..]) == dist.Keys - Elements(queue) + {queue[0]} && queue[0] in Elements(queue)
  {
    assert queue == [queue[0]] + queue[1..];
    assert Elements(queue) == Elements(queue[1..]) + {queue[0]};
  }

  /** One row of the distance matrix: a breadth-first search from `source`. */
  method DistanceRow(nodes: seq<string>, ghost edges: seq<Edge>, adj: map<string, seq<string>>, source: string)
    returns (result: seq<Option<nat>>)
    requires IsAdjacency(adj, nodes, edges) && Sorting.Distinct(nodes) && KnownEnds(nodes, edges) && source in nodes
    ensures |result| == |nodes|
    ensures forall j :: 0 <= j < |nodes| ==>
      if result[j].Some? then IsDistance(edges, source, nodes[j], result[j].value) else !Joined(edges, source, nodes[j])
  {
    var row := new Option<nat>[|nodes|](_ => None);
    ghost var dist: map<string, nat> := map[];
    ghost var was := row[..];
    ShowsOne(row[..], nodes, dist, source, 0);
    row[Position(nodes, source)] := Some(0);
    assert row[..] == was[Position(nodes, source) := Some(0)];
    dist := dist[source := 0];
    var queue := [source];
    assert PathFromTo(edges, [source], source, source);
    ghost var low := 0;
    hide SpreadingFrom, Shows, Sorting.Distinct, RelaxedBut, Linked;
    StartSpreading(edges, source);
    while queue != []
      invariant Shows(row[..], nodes, dist)
      invariant Spreading(edges, source, dist, queue, low) && RelaxedBut(edges, dist, Elements(queue))
      decreases Elements(nodes) - (dist.Keys - Elements(queue))
    {
      TakeNext(edges, source, dist, queue, low);
      var node := queue[0];
      ShownInNodes(row[..], nodes, dist, node);
      low := dist[node];
      queue, dist := SpreadFrom(nodes, edges, adj, source, node, row, queue[1..], dist);
      SpreadingFromSpreads(edges, source, dist, queue, node, low);
    }
    result := row[..];
    forall j | 0 <= j < |nodes| ensures |result| == |nodes| &&
      if result[j].Some? then IsDistance(edges, source, nodes[j], result[j].value) else !Joined(edges, source, nodes[j])
    {
      RowIsDistance(edges, nodes, source, dist, result, j, low);
    }
  }

  lemma {:induction false} StartSpreading(edges: seq<Edge>, source: string)
    ensures Spreading(edges, source, map[source := 0], [source], 0)
    ensures RelaxedBut(edges, map[source := 0], Elements([source]))
  {
    assert PathFromTo(edges, [source], source, source);
  }

  lemma {:induction false} SpreadingFromSpreads(edges: seq<Edge>, source: string, dist: map<string, nat>,
      queue: seq<string>, node: string, here: nat)
    requires SpreadingFrom(edges, source, dist, queue, node, here)
    ensures Spreading(edges, source, dist, queue, here)
  {
  }

  lemma {:induction false} ShownInNodes(row: seq<Option<nat>>, nodes: seq<string>, dist: map<string, nat>, node: string)
    requires Shows(row, nodes, dist) && node in dist
    ensures node in nodes && dist.Keys <= Elements(nodes)
  {
  }

  lemma {:induction false} RowIsDistance(edges: seq<Edge>, nodes: seq<string>, source: string, dist: map<string, nat>,
      row: seq<Option<nat>>, j: nat, low: nat)
    requires Spreading(edges, source, dist, [], low) && RelaxedBut(edges, dist, Elements([]))
      && Shows(row, nodes, dist) && j < |nodes|
    ensures |row| == |nodes|
    ensures if row[j].Some? then IsDistance(edges, source, nodes[j], row[j].value) else !Joined(edges, source, nodes[j])
  {
    assert Elements([]) == {};
    SpreadDone(edges, source, dist, nodes[j]);
  }

  /** The largest entry of the rows. */
  function MaxEntry(rows: seq<seq<nat>>): (m: nat)
    ensures forall i, j :: 0 <= i < |rows| && 0 <= j < |rows[i]| ==> rows[i][j] <= m
  {
    if rows == [] then 0
    else
      var rest := MaxEntry(rows[1..]);
      var first := MaxOf(rows[0]);
      assert forall i :: 1 <= i < |rows| ==> rows[i] == rows[1..][i - 1];
      if first > rest then first else rest
  }

  function MaxOf(row: seq<nat>): (m: nat)
    ensures forall j :: 0 <= j < |row| ==> row[j] <= m
  {
    if row == [] then 0
    else
      var rest := MaxOf(row[1..]);
      assert forall i :: 1 <= i < |row| ==> row[i] == row[1..][i - 1];
      if row[0] > rest then row[0] else rest
  }

  /** The row as numbers, unless somebody is infinitely far. */
  method Finite(row: seq<Option<nat>>) returns (r: Result<seq<nat>>)
    ensures r.Ok? <==> forall j :: 0 <= j < |row| ==> row[j].Some?
    ensures r.Ok? ==> |r.value| == |row| && forall j :: 0 <= j < |row| ==> row[j] == Some(r.value[j])
  {
    var out: seq<nat> := [];
    for j := 0 to |row|
      invariant |out| == j && forall i :: 0 <= i < j ==> row[i] == Some(out[i])
    {
      if row[j] == None { return Err; }
      out := out + [row[j].value];
    }
    return Ok(out);
  }

  ghost predicate AllJoined(nodes: seq<string>, edges: seq<Edge>) {
    forall u, v :: u in nodes && v in nodes ==> Joined(edges, u, v)
  }

  ghost predicate IsDistanceRow(nodes: seq<string>, edges: seq<Edge>, source: string, row: seq<nat>) {
    |row| == |nodes| && forall j :: 0 <= j < |nodes| ==> IsDistance(edges, source, nodes[j], row[j])
  }

  lemma {:induction false} DistanceJoins(edges: seq<Edge>, u: string, v: string, d: nat)
    requires IsDistance(edges, u, v, d)
    ensures Joined(edges, u, v)
    ensures u != v ==> d >= 1
  {
  }

  /**
   The distance matrix the spring layout starts from. One or no node needs none; otherwise a graph
   in one piece gets its true shortest distances and a spread to divide by, and any other throws.
   */
  method Distances(nodes: seq<string>, edges: seq<Edge>) returns (r: Result<seq<seq<nat>>>)
    ensures r.Ok? <==> Sorting.Distinct(nodes) && KnownEnds(nodes, edges) && (|nodes| >= 2 ==> AllJoined(nodes, edges))
    ensures r.Ok? && |nodes| >= 2 ==>
      && |r.value| == |nodes| && MaxEntry(r.value) >= 1
      && forall i :: 0 <= i < |nodes| ==> IsDistanceRow(nodes, edges, nodes[i], r.value[i])
  {
    hide IsDistance, Joined, IsAdjacency, KnownEnds;
    var a := Adjacency(nodes, edges);
    if a.Err? { return Err; }
    if |nodes| < 2 { return Ok([]); }
    var rows: seq<seq<nat>> := [];
    for i := 0 to |nodes|
      invariant |rows| == i
      invariant forall k :: 0 <= k < i ==> IsDistanceRow(nodes, edges, nodes[k], rows[k])
    {
      var row := DistanceRow(nodes, edges, a.value, nodes[i]);
      var finite := Finite(row);
      if finite.Err? {
        var j :| 0 <= j < |row| && row[j].None?;
        assert !Joined(edges, nodes[i], nodes[j]);
        return Err;
      }
      rows := rows + [finite.value];
    }
    assert IsDistanceRow(nodes, edges, nodes[0], rows[0]);
    DistanceJoins(edges, nodes[0], nodes[1], rows[0][1]);
    assert AllJoined(nodes, edges) by {
      forall u, v | u in nodes && v in nodes ensures Joined(edges, u, v) {
        var i, j := Position(nodes, u), Position(nodes, v);
        assert IsDistanceRow(nodes, edges, nodes[i], rows[i]);
        DistanceJoins(edges, u, v, rows[i][j]);
      }
    }
    return Ok(rows);
  }

  // ----- Laying out one component -----

  /** The links whose first end is in the group, as layoutComponent keeps them. */
  function LinksOf(group: set<string>, links: seq<Edge>): (r: seq<Edge>)
    ensures forall e :: e in r <==> e in links && e.0 in group
  {
    if links == [] then []
    else
      var rest := LinksOf(group, links[1..]);
      assert links == [links[0]] + links[1..];
      if links[0].0 in group then [links[0]] + rest else rest
  }

  /** Inside a component, dropping the other components' links drops nothing. */
  lemma {:induction false} LinkedInComponent(nodes: seq<string>, edges: seq<Edge>, c: seq<string>, u: string, v: string)
    requires IsComponent(nodes, edges, c) && KnownEnds(nodes, edges) && u in c && Linked(edges, u, v)
    ensures v in c && Linked(LinksOf(Elements(c), edges), u, v)
  {
    assert v in nodes;
    JoinedStep(edges, c[0], u, v);
  }

  lemma {:induction false} PathInComponent(nodes: seq<string>, edges: seq<Edge>, c: seq<string>, p: seq<string>)
    requires IsComponent(nodes, edges, c) && KnownEnds(nodes, edges) && IsPath(edges, p) && p[0] in c
    ensures IsPath(LinksOf(Elements(c), edges), p) && forall i :: 0 <= i < |p| ==> p[i] in c
  {
    if |p| > 1 {
      var n := |p| - 1;
      PathInComponent(nodes, edges, c, p[..n]);
      assert p[n - 1] == p[..n][n - 1];
      LinkedInComponent(nodes, edges, c, p[n - 1], p[n]);
      forall i | 0 <= i < |p| ensures p[i] in c { if i < n { assert p[..n][i] in c; } }
      forall i | 0 <= i < n ensures Linked(LinksOf(Elements(c), edges), p[i], p[i + 1]) {
        if i < n - 1 { assert p[..n][i] == p[i] && p[..n][i + 1] == p[i + 1]; }
      }
    }
  }

  /** A component with its own links is a graph in one piece, so laying it out never throws. */
  lemma {:induction false} ComponentIsLayoutable(nodes: seq<string>, edges: seq<Edge>, c: seq<string>)
    requires KnownEnds(nodes, edges) && IsComponent(nodes, edges, c)
    ensures var links := LinksOf(Elements(c), edges);
      Sorting.Distinct(c) && KnownEnds(c, links) && AllJoined(c, links)
  {
    var links := LinksOf(Elements(c), edges);
    forall i | 0 <= i < |links| ensures links[i].0 in c && links[i].1 in c {
      var (a, b) := links[i];
      assert links[i] in links;
      if a != b { LinkedInComponent(nodes, edges, c, a, b); }
    }
    forall u, v | u in c && v in c ensures Joined(links, u, v) {
      JoinedBack(edges, c[0], u);
      JoinedThrough(edges, u, c[0], v);
      var p :| PathFromTo(edges, p, u, v);
      PathInComponent(nodes, edges, c, p);
      assert PathFromTo(links, p, u, v);
    }
  }
}
