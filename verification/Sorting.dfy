/**
 Array.prototype.sort as the front end uses it: a stable sort by a comparator. `le(a, b)` stands
 for "the comparator does not put `a` after `b`".
 */
module Sorting {

  ghost predicate Total<T(!new)>(le: (T, T) -> bool) {
    forall a, b :: le(a, b) || le(b, a)
  }

  ghost predicate Transitive<T(!new)>(le: (T, T) -> bool) {
    forall a, b, c :: le(a, b) && le(b, c) ==> le(a, c)
  }

  /** No two different elements of the list tie. */
  ghost predicate TieFree<T(!new)>(s: seq<T>, le: (T, T) -> bool) {
    forall a, b :: a in s && b in s && le(a, b) && le(b, a) ==> a == b
  }

  ghost predicate Sorted<T(!new)>(s: seq<T>, le: (T, T) -> bool) {
    forall i, j :: 0 <= i < j < |s| ==> le(s[i], s[j])
  }

  /** `x` put into an ordered list, after every element it does not precede. */
  function Insert<T(!new)>(s: seq<T>, x: T, le: (T, T) -> bool): (r: seq<T>)
    ensures |r| == |s| + 1
    ensures multiset(r) == multiset(s) + multiset{x}
  {
    if s == [] then [x]
    else
      var n := |s| - 1;
      assert s == s[..n] + [s[n]];
      if le(s[n], x) then s + [x] else Insert(s[..n], x, le) + [s[n]]
  }

  function Sort<T(!new)>(s: seq<T>, le: (T, T) -> bool): (r: seq<T>)
    ensures |r| == |s|
    ensures multiset(r) == multiset(s)
  {
    if s == [] then []
    else
      var n := |s| - 1;
      assert s == s[..n] + [s[n]];
      Insert(Sort(s[..n], le), s[n], le)
  }

  lemma {:induction false} InsertSorted<T(!new)>(s: seq<T>, x: T, le: (T, T) -> bool)
    requires Total(le) && Transitive(le) && Sorted(s, le)
    ensures Sorted(Insert(s, x, le), le)
  {
    if s != [] {
      var n := |s| - 1;
      if le(s[n], x) {
        assert forall i :: 0 <= i < n ==> le(s[i], s[n]);
      } else {
        InsertSorted(s[..n], x, le);
        var r := Insert(s[..n], x, le);
        forall i | 0 <= i < |r| ensures le(r[i], s[n]) {
          assert r[i] in multiset(r);
          if r[i] != x {
            assert r[i] in s[..n];
          }
        }
        assert Insert(s, x, le) == r + [s[n]];
      }
    }
  }

  lemma {:induction false} SortSorted<T(!new)>(s: seq<T>, le: (T, T) -> bool)
    requires Total(le) && Transitive(le)
    ensures Sorted(Sort(s, le), le)
  {
    if s != [] {
      SortSorted(s[..|s| - 1], le);
      InsertSorted(Sort(s[..|s| - 1], le), s[|s| - 1], le);
    }
  }

  lemma {:induction false} SameFirst<T(!new)>(s: seq<T>, t: seq<T>, le: (T, T) -> bool)
    requires TieFree(s, le) && Sorted(s, le) && Sorted(t, le) && multiset(s) == multiset(t) && s != []
    ensures t != [] && s[0] == t[0]
  {
    assert s[0] in multiset(t) && t != [] && t[0] in multiset(s);
  }

  lemma {:induction false} WithoutFirst<T>(s: seq<T>)
    requires s != []
    ensures s == [s[0]] + s[1..] && multiset(s[1..]) == multiset(s) - multiset{s[0]}
  {
    assert s == [s[0]] + s[1..];
  }

  lemma {:induction false} TailsSorted<T(!new)>(s: seq<T>, t: seq<T>, le: (T, T) -> bool)
    requires s != [] && t != [] && TieFree(s, le) && Sorted(s, le) && Sorted(t, le)
    ensures TieFree(s[1..], le) && Sorted(s[1..], le) && Sorted(t[1..], le)
  {
  }

  /** Without ties there is only one ordered list of the same elements. */
  lemma {:induction false} SortedUnique<T(!new)>(s: seq<T>, t: seq<T>, le: (T, T) -> bool)
    requires TieFree(s, le) && Sorted(s, le) && Sorted(t, le) && multiset(s) == multiset(t)
    ensures s == t
    decreases |s|
  {
    hide TieFree, Sorted;
    assert |s| == |multiset(s)| == |multiset(t)| == |t|;
    if s != [] {
      SameFirst(s, t, le);
      WithoutFirst(s);
      WithoutFirst(t);
      TailsSorted(s, t, le);
      SortedUnique(s[1..], t[1..], le);
    }
  }

  // ----- Stability -----

  function Filter<T>(s: seq<T>, p: T -> bool): seq<T> {
    if s == [] then [] else Filter(s[..|s| - 1], p) + if p(s[|s| - 1]) then [s[|s| - 1]] else []
  }

  lemma {:induction false} FilterMore<T>(s: seq<T>, x: T, p: T -> bool)
    ensures Filter(s + [x], p) == Filter(s, p) + if p(x) then [x] else []
  {
    assert (s + [x])[..|s|] == s;
  }

  lemma {:induction false} InsertStep<T(!new)>(s: seq<T>, x: T, le: (T, T) -> bool)
    requires s != []
    ensures var n := |s| - 1;
      s == s[..n] + [s[n]] && Insert(s, x, le) == if le(s[n], x) then s + [x] else Insert(s[..n], x, le) + [s[n]]
  {
    assert s == s[..|s| - 1] + [s[|s| - 1]];
  }

  lemma {:induction false} InsertStable<T(!new)>(s: seq<T>, x: T, le: (T, T) -> bool, p: T -> bool)
    requires forall a, b :: p(a) && p(b) ==> le(a, b)
    ensures Filter(Insert(s, x, le), p) == Filter(s + [x], p)
  {
    FilterMore(s, x, p);
    if s == [] {
      assert Insert(s, x, le) == s + [x];
    } else {
      hide Filter, Insert;
      var n := |s| - 1;
      InsertStep(s, x, le);
      FilterMore(s[..n], s[n], p);
      if !le(s[n], x) {
        InsertStable(s[..n], x, le, p);
        FilterMore(s[..n], x, p);
        FilterMore(Insert(s[..n], x, le), s[n], p);
        assert !(p(s[n]) && p(x));
      }
    }
  }

  /** Elements that all tie keep the order they had among themselves. */
  lemma {:induction false} SortStable<T(!new)>(s: seq<T>, le: (T, T) -> bool, p: T -> bool)
    requires forall a, b :: p(a) && p(b) ==> le(a, b)
    ensures Filter(Sort(s, le), p) == Filter(s, p)
  {
    if s != [] {
      var n := |s| - 1;
      SortStable(s[..n], le, p);
      InsertStable(Sort(s[..n], le), s[n], le, p);
      FilterMore(Sort(s[..n], le), s[n], p);
    }
  }

  /** What a sort returns holds the same elements it was given. */
  lemma SortMembers<T(!new)>(s: seq<T>, le: (T, T) -> bool)
    ensures forall x :: x in Sort(s, le) <==> x in s
  {
    forall x ensures x in Sort(s, le) <==> x in s {
      assert x in Sort(s, le) <==> x in multiset(Sort(s, le));
    }
  }

  ghost predicate Distinct<T(!new)>(s: seq<T>) {
    forall i, j :: 0 <= i < j < |s| ==> s[i] != s[j]
  }

  lemma {:induction false} DistinctByCount<T(!new)>(s: seq<T>)
    ensures Distinct(s) <==> forall x :: multiset(s)[x] <= 1
  {
    if s != [] {
      var n := |s| - 1;
      var front := s[..n];
      assert s == front + [s[n]];
      DistinctByCount(front);
      if Distinct(s) {
        assert s[n] !in front;
        assert multiset(front)[s[n]] == 0;
      }
      if forall x :: multiset(s)[x] <= 1 {
        assert forall x :: multiset(front)[x] <= multiset(s)[x];
        assert multiset(front)[s[n]] == multiset(s)[s[n]] - 1 == 0;
        assert s[n] !in front;
        assert forall i :: 0 <= i < n ==> front[i] == s[i];
      }
    }
  }

  /** A sort of a list without repeats has none either. */
  lemma {:induction false} SortKeepsDistinct<T(!new)>(s: seq<T>, le: (T, T) -> bool)
    requires Distinct(s)
    ensures Distinct(Sort(s, le))
  {
    DistinctByCount(s);
    DistinctByCount(Sort(s, le));
  }
}
