/** `Array.prototype.sort`, which is stable: elements the comparison does not separate keep their order. */
module StableSort {

  ghost predicate TotalPreorder<T(!new)>(leq: (T, T) -> bool) {
    && (forall a, b :: leq(a, b) || leq(b, a))
    && (forall a, b, c :: leq(a, b) && leq(b, c) ==> leq(a, c))
  }

  ghost predicate SortedBy<T>(leq: (T, T) -> bool, s: seq<T>) {
    forall i, j | 0 <= i < j < |s| :: leq(s[i], s[j])
  }

  /** The place of an element that comes before everything in `s`. */
  function Place<T>(leq: (T, T) -> bool, x: T, s: seq<T>): (k: nat)
    ensures k <= |s|
    ensures forall i | 0 <= i < k :: !leq(x, s[i])
    ensures k < |s| ==> leq(x, s[k])
  {
    if s == [] || leq(x, s[0]) then 0 else 1 + Place(leq, x, s[1..])
  }

  function Sort<T>(leq: (T, T) -> bool, s: seq<T>): (r: seq<T>)
    ensures |r| == |s|
  {
    if s == [] then []
    else
      var rest := Sort(leq, s[1..]);
      var k := Place(leq, s[0], rest);
      rest[..k] + [s[0]] + rest[k..]
  }

  lemma InsertPermutes<T>(x: T, rest: seq<T>, k: nat)
    requires k <= |rest|
    ensures multiset(rest[..k] + [x] + rest[k..]) == multiset{x} + multiset(rest)
  {
    assert rest == rest[..k] + rest[k..];
  }

  lemma {:induction false} SortIsPermutation<T>(leq: (T, T) -> bool, s: seq<T>)
    ensures multiset(Sort(leq, s)) == multiset(s)
  {
    if s != [] {
      var rest := Sort(leq, s[1..]);
      SortIsPermutation(leq, s[1..]);
      InsertPermutes(s[0], rest, Place(leq, s[0], rest));
      assert s == [s[0]] + s[1..];
    }
  }

  lemma {:induction false} SortMembers<T(!new)>(leq: (T, T) -> bool, s: seq<T>)
    ensures forall x: T :: x in Sort(leq, s) <==> x in s
  {
    SortIsPermutation(leq, s);
    forall x ensures x in Sort(leq, s) <==> x in s {
      assert x in multiset(Sort(leq, s)) <==> x in multiset(s);
    }
  }

  lemma {:induction false} SortIsSorted<T(!new)>(leq: (T, T) -> bool, s: seq<T>)
    requires TotalPreorder(leq)
    ensures SortedBy(leq, Sort(leq, s))
  {
    if s != [] {
      SortIsSorted(leq, s[1..]);
      var rest := Sort(leq, s[1..]);
      var k := Place(leq, s[0], rest);
      InsertSorted(leq, s[0], rest, k);
    }
  }

  lemma InsertSorted<T(!new)>(leq: (T, T) -> bool, x: T, rest: seq<T>, k: nat)
    requires TotalPreorder(leq) && SortedBy(leq, rest) && k == Place(leq, x, rest)
    ensures SortedBy(leq, rest[..k] + [x] + rest[k..])
  {
    var r := rest[..k] + [x] + rest[k..];
    forall i, j | 0 <= i < j < |r| ensures leq(r[i], r[j]) {
      if i < k {
        assert leq(rest[i], x);
        if j > k { assert r[j] == rest[j - 1] && leq(rest[i], rest[j - 1]); }
      } else if i == k {
        assert r[j] == rest[j - 1] && leq(x, rest[k]);
        assert k == j - 1 || leq(rest[k], rest[j - 1]);
      } else {
        assert leq(rest[i - 1], rest[j - 1]);
      }
    }
  }

  /** A sorted sequence is left alone. */
  lemma {:induction false} SortOfSorted<T(!new)>(leq: (T, T) -> bool, s: seq<T>)
    requires SortedBy(leq, s)
    ensures Sort(leq, s) == s
  {
    if s != [] {
      SortOfSorted(leq, s[1..]);
      assert s[1..] != [] ==> leq(s[0], s[1]);
      assert s == [] + [s[0]] + s[1..];
    }
  }

  /** A sorted beginning that belongs before the rest stays where it is. */
  lemma {:induction false} SortPrefix<T(!new)>(leq: (T, T) -> bool, a: seq<T>, rest: seq<T>)
    requires SortedBy(leq, a) && forall x, y | x in a && y in rest :: leq(x, y)
    ensures Sort(leq, a + rest) == a + Sort(leq, rest)
  {
    if a == [] {
      assert a + rest == rest && a + Sort(leq, rest) == Sort(leq, rest);
    } else {
      assert (a + rest)[1..] == a[1..] + rest;
      SortPrefix(leq, a[1..], rest);
      var sorted := Sort(leq, rest);
      SortMembers(leq, rest);
      var left := a[1..] + sorted;
      assert left != [] ==> leq(a[0], left[0]) by {
        if a[1..] != [] { assert leq(a[0], a[1]); } else if sorted != [] { assert sorted[0] in sorted; }
      }
      assert [] + [a[0]] + left == a + sorted;
    }
  }

  /** A stretch put in front of the smaller one it belongs behind changes places with it. */
  lemma {:induction false} SortSwap<T(!new)>(leq: (T, T) -> bool, b: seq<T>, c: seq<T>)
    requires SortedBy(leq, b) && SortedBy(leq, c) && forall x, y | x in b && y in c :: !leq(x, y)
    ensures Sort(leq, b + c) == c + b
  {
    if b == [] {
      assert b + c == c && c + b == c;
      SortOfSorted(leq, c);
    } else {
      assert (b + c)[1..] == b[1..] + c;
      SortSwap(leq, b[1..], c);
      var left := c + b[1..];
      assert b[1..] != [] ==> leq(b[0], b[1]);
      assert forall i | 0 <= i < |c| :: left[i] in c;
      assert |c| < |left| ==> left[|c|] == b[1];
      assert Place(leq, b[0], left) == |c|;
      assert left[..|c|] == c && left[|c|..] == b[1..] && b == [b[0]] + b[1..];
      assert c + [b[0]] + b[1..] == c + b;
    }
  }

  function Filter<T>(p: T -> bool, s: seq<T>): seq<T> {
    if s == [] then [] else (if p(s[0]) then [s[0]] else []) + Filter(p, s[1..])
  }

  lemma {:induction false} FilterConcat<T>(p: T -> bool, a: seq<T>, b: seq<T>)
    ensures Filter(p, a + b) == Filter(p, a) + Filter(p, b)
  {
    if a == [] {
      assert a + b == b;
    } else {
      assert (a + b)[1..] == a[1..] + b;
      FilterConcat(p, a[1..], b);
      var head := if p(a[0]) then [a[0]] else [];
      assert head + (Filter(p, a[1..]) + Filter(p, b)) == (head + Filter(p, a[1..])) + Filter(p, b);
    }
  }

  lemma {:induction false} FilterNone<T>(p: T -> bool, s: seq<T>)
    requires forall x | x in s :: !p(x)
    ensures Filter(p, s) == []
  {
    if s != [] {
      assert s[0] in s;
      FilterNone(p, s[1..]);
    }
  }

  lemma InsertStable<T>(p: T -> bool, x: T, a: seq<T>, b: seq<T>)
    requires p(x) ==> Filter(p, a) == []
    ensures Filter(p, a + [x] + b) == Filter(p, [x]) + Filter(p, a + b)
  {
    FilterConcat(p, a, b);
    FilterConcat(p, a + [x], b);
    FilterConcat(p, a, [x]);
    if !p(x) {
      FilterNone(p, [x]);
    }
  }

  /** Stability: among elements that no comparison separates, the order is unchanged. */
  lemma {:induction false} SortIsStable<T(!new)>(leq: (T, T) -> bool, s: seq<T>, p: T -> bool)
    requires forall a, b :: p(a) && p(b) ==> leq(a, b)
    ensures Filter(p, Sort(leq, s)) == Filter(p, s)
  {
    hide Filter;
    if s != [] {
      var rest := Sort(leq, s[1..]);
      var k := Place(leq, s[0], rest);
      SortIsStable(leq, s[1..], p);
      if p(s[0]) {
        forall y | y in rest[..k] ensures !p(y) {
          var i :| 0 <= i < k && rest[i] == y;
        }
        FilterNone(p, rest[..k]);
      }
      InsertStable(p, s[0], rest[..k], rest[k..]);
      assert rest[..k] + rest[k..] == rest;
      FilterConcat(p, [s[0]], s[1..]);
      assert s == [s[0]] + s[1..];
    }
  }
}
