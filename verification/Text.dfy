/** Comparing texts the way `<` does: by the first character in which they differ, else by length. */
module Text {

  predicate Less(a: string, b: string) {
    if b == "" then false
    else if a == "" then true
    else if a[0] == b[0] then Less(a[1..], b[1..])
    else a[0] < b[0]
  }

  lemma {:induction false} LessTransitive(a: string, b: string, c: string)
    requires Less(a, b) && Less(b, c)
    ensures Less(a, c)
  {
    if a != "" && a[0] == b[0] && b[0] == c[0] {
      LessTransitive(a[1..], b[1..], c[1..]);
    }
  }

  /** Of two different texts exactly one comes first. */
  lemma {:induction false} LessTotal(a: string, b: string)
    ensures a == b || Less(a, b) || Less(b, a)
    ensures !(Less(a, b) && Less(b, a))
  {
    if a != "" && b != "" && a[0] == b[0] {
      LessTotal(a[1..], b[1..]);
      assert a == [a[0]] + a[1..] && b == [b[0]] + b[1..];
    }
  }

  /** A common beginning decides nothing. */
  lemma {:induction false} LessAfterCommon(p: string, a: string, b: string)
    ensures Less(p + a, p + b) <==> Less(a, b)
  {
    if p == "" {
      assert p + a == a && p + b == b;
    } else {
      assert (p + a)[1..] == p[1..] + a && (p + b)[1..] == p[1..] + b;
      LessAfterCommon(p[1..], a, b);
    }
  }

  /** Beginnings of the same length that differ decide everything. */
  lemma {:induction false} LessByBeginning(p: string, q: string, a: string, b: string)
    requires |p| == |q| && p != q
    ensures Less(p + a, q + b) <==> Less(p, q)
  {
    assert (p + a)[1..] == p[1..] + a && (q + b)[1..] == q[1..] + b;
    if p[0] == q[0] {
      assert p == [p[0]] + p[1..] && q == [q[0]] + q[1..];
      LessByBeginning(p[1..], q[1..], a, b);
    }
  }

  /** They agree up to `k`, and there the first ends or has the smaller character. */
  ghost predicate FirstAt(a: string, b: string, k: nat) {
    k <= |a| && k < |b| && a[..k] == b[..k] && (k == |a| || a[k] < b[k])
  }

  lemma FirstLater(a: string, b: string, k: nat)
    requires a != "" && b != "" && a[0] == b[0]
    ensures FirstAt(a, b, k + 1) <==> FirstAt(a[1..], b[1..], k)
  {
    if k < |a| && k + 1 < |b| {
      assert a[..k + 1] == [a[0]] + a[1..][..k] && b[..k + 1] == [b[0]] + b[1..][..k];
    }
  }

  lemma FirstLetters(a: string, b: string, k: nat)
    ensures a != "" && b != "" && FirstAt(a, b, k) ==> a[0] <= b[0]
  {
    if a != "" && b != "" && FirstAt(a, b, k) && k > 0 {
      assert a[..k][0] == b[..k][0];
    }
  }

  /** One text is before another exactly where the first difference says so. */
  lemma {:induction false} LessExactlyWhen(a: string, b: string)
    ensures Less(a, b) <==> exists k: nat :: FirstAt(a, b, k)
  {
    if a != "" && b != "" && a[0] == b[0] {
      LessExactlyWhen(a[1..], b[1..]);
      if Less(a, b) {
        var k: nat :| FirstAt(a[1..], b[1..], k);
        FirstLater(a, b, k);
      }
      if k: nat :| FirstAt(a, b, k) {
        assert k > 0;
        FirstLater(a, b, k - 1);
      }
    } else if b != "" && (a == "" || a[0] < b[0]) {
      assert FirstAt(a, b, 0);
    } else {
      forall k: nat { FirstLetters(a, b, k); }
    }
  }
}
