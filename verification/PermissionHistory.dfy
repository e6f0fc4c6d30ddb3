/** The browser's bounded maps of past requests (packages/pwa/src/lib/permission-history.ts).  A
    record is its pairs in insertion order, which JavaScript keeps for keys that are no array index. */
module PermissionHistory {
  import opened Sequences

  datatype Pair<V> = Pair(key: string, value: V)

  type Record<V> = seq<Pair<V>>

  predicate Has<V>(r: Record<V>, key: string) {
    exists i :: 0 <= i < |r| && r[i].key == key
  }

  /** `delete`. */
  function Without<V>(r: Record<V>, key: string): (w: Record<V>)
    ensures |w| <= |r|
    ensures forall i | 0 <= i < |w| :: w[i].key != key
  {
    if r == [] then []
    else
      var before := Without(r[..|r| - 1], key);
      if r[|r| - 1].key == key then before else before + [r[|r| - 1]]
  }

  function Insert<V>(r: Record<V>, key: string, value: V, max: nat): Record<V> {
    LastN(Without(r, key) + [Pair(key, value)], max)
  }

  ghost predicate DistinctKeys<V>(r: Record<V>) {
    forall i, j | 0 <= i < j < |r| :: r[i].key != r[j].key
  }

  lemma {:induction false} WithoutAbsent<V>(r: Record<V>, key: string)
    requires !Has(r, key)
    ensures Without(r, key) == r
  {
    if r != [] {
      WithoutAbsent(r[..|r| - 1], key);
    }
  }

  lemma {:induction false} WithoutConcat<V>(a: Record<V>, b: Record<V>, key: string)
    ensures Without(a + b, key) == Without(a, key) + Without(b, key)
  {
    if b == [] {
      assert a + b == a;
    } else {
      WithoutConcat(a, b[..|b| - 1], key);
      assert (a + b)[..|a + b| - 1] == a + b[..|b| - 1];
    }
  }

  lemma HasPush<V>(r: Record<V>, p: Pair<V>, key: string)
    ensures Has(r + [p], key) <==> Has(r, key) || p.key == key
  {
    if Has(r, key) {
      var i :| 0 <= i < |r| && r[i].key == key;
      assert (r + [p])[i].key == key;
    }
    assert (r + [p])[|r|] == p;
  }

  lemma {:induction false} WithoutHas<V>(r: Record<V>, key: string, k: string)
    ensures Has(Without(r, key), k) <==> Has(r, k) && k != key
  {
    if r != [] {
      var init, last := r[..|r| - 1], r[|r| - 1];
      WithoutHas(init, key, k);
      assert r == init + [last];
      HasPush(init, last, k);
      HasPush(Without(init, key), last, k);
    }
  }

  lemma {:induction false} WithoutDistinct<V>(r: Record<V>, key: string)
    requires DistinctKeys(r)
    ensures DistinctKeys(Without(r, key))
    ensures |Without(r, key)| == |r| - (if Has(r, key) then 1 else 0)
  {
    if r != [] {
      var init, last := r[..|r| - 1], r[|r| - 1];
      WithoutDistinct(init, key);
      assert r == init + [last];
      HasPush(init, last, key);
      assert !Has(init, last.key);
      WithoutHas(init, key, last.key);
      DistinctPush(Without(init, key), last);
      hide Has;
    }
  }

  lemma DistinctPush<V>(r: Record<V>, p: Pair<V>)
    requires DistinctKeys(r)
    ensures DistinctKeys(r + [p]) <==> !Has(r, p.key)
  {
    var all := r + [p];
    assert all[|r|] == p && forall i | 0 <= i < |r| :: all[i] == r[i];
  }

  lemma DropOldest<V>(keys: Record<V>, i: nat)
    requires DistinctKeys(keys) && i < |keys|
    ensures Without(keys[i..], keys[i].key) == keys[i + 1..]
  {
    var oldest, rest := [keys[i]], keys[i + 1..];
    assert keys[i..] == oldest + rest;
    WithoutConcat(oldest, rest, keys[i].key);
    WithoutAbsent(rest, keys[i].key);
    assert oldest[..0] == [] && [] + rest == rest;
  }

  method InsertWithLru<V>(history: Record<V>, key: string, value: V, max: nat) returns (next: Record<V>)
    requires DistinctKeys(history)
    ensures next == Insert(history, key, value, max)
    ensures DistinctKeys(next) && |next| <= max
  {
    hide Without, Has, DistinctKeys;
    WithoutDistinct(history, key);
    next := history;
    if Has(next, key) {
      next := Without(next, key);
    } else {
      WithoutAbsent(history, key);
    }
    WithoutHas(history, key, key);
    DistinctPush(next, Pair(key, value));
    next := next + [Pair(key, value)];
    var keys := next;
    if |keys| <= max { return; }
    var i := 0;
    while i < |keys| - max
      invariant 0 <= i <= |keys| - max
      invariant next == keys[i..]
    {
      DropOldest(keys, i);
      next := Without(next, keys[i].key);
      i := i + 1;
    }
    DistinctSuffix(keys, i);
  }

  lemma DistinctSuffix<V>(r: Record<V>, k: nat)
    requires DistinctKeys(r) && k <= |r|
    ensures DistinctKeys(r[k..])
  {
  }

  function Run<V>(inserts: Record<V>, max: nat): Record<V> {
    if inserts == [] then []
    else
      var last := inserts[|inserts| - 1];
      Insert(Run(inserts[..|inserts| - 1], max), last.key, last.value, max)
  }

  // ----- the reference: distinct keys by their latest insertion -----

  /** The place of the latest insertion of a key. */
  function LatestOf<V>(inserts: Record<V>, key: string): (r: int)
    ensures -1 <= r < |inserts|
    ensures r >= 0 ==> inserts[r].key == key
    ensures forall j | r < j < |inserts| :: inserts[j].key != key
  {
    if inserts == [] then -1
    else if inserts[|inserts| - 1].key == key then |inserts| - 1
    else LatestOf(inserts[..|inserts| - 1], key)
  }

  function Recency<V>(inserts: Record<V>): Record<V> {
    if inserts == [] then []
    else Without(Recency(inserts[..|inserts| - 1]), inserts[|inserts| - 1].key) + [inserts[|inserts| - 1]]
  }

  /** The pair is the latest insertion of its key. */
  ghost predicate Current<V>(inserts: Record<V>, p: Pair<V>) {
    var at := LatestOf(inserts, p.key);
    at >= 0 && p == inserts[at]
  }

  ghost predicate Ascends<V>(inserts: Record<V>, r: Record<V>) {
    && (forall i | 0 <= i < |r| :: Current(inserts, r[i]))
    && (forall i, j | 0 <= i < j < |r| :: LatestOf(inserts, r[i].key) < LatestOf(inserts, r[j].key))
  }

  /** Each inserted key once, with its latest value, in the order of those latest insertions. */
  ghost predicate ByRecency<V>(inserts: Record<V>, r: Record<V>) {
    Ascends(inserts, r) && forall key :: Has(r, key) <==> LatestOf(inserts, key) >= 0
  }

  lemma LatestPush<V>(inserts: Record<V>, last: Pair<V>, key: string)
    ensures LatestOf(inserts + [last], key) == if last.key == key then |inserts| else LatestOf(inserts, key)
  {
    assert (inserts + [last])[..|inserts|] == inserts;
  }

  lemma CurrentPush<V>(inserts: Record<V>, last: Pair<V>, p: Pair<V>)
    requires p.key != last.key && Current(inserts, p)
    ensures Current(inserts + [last], p)
  {
    LatestPush(inserts, last, p.key);
    assert (inserts + [last])[LatestOf(inserts, p.key)] == p;
  }

  /** What `Without` leaves keeps its order. */
  lemma {:induction false} WithoutAscends<V>(inserts: Record<V>, r: Record<V>, key: string)
    requires Ascends(inserts, r)
    ensures Ascends(inserts, Without(r, key))
    ensures Without(r, key) != [] ==>
      LatestOf(inserts, Without(r, key)[|Without(r, key)| - 1].key) <= LatestOf(inserts, r[|r| - 1].key)
  {
    hide Current, LatestOf;
    if r != [] {
      WithoutAscends(inserts, r[..|r| - 1], key);
    }
  }

  lemma AscendsPush<V>(inserts: Record<V>, last: Pair<V>, w: Record<V>)
    requires Ascends(inserts, w) && !Has(w, last.key)
    ensures Ascends(inserts + [last], w + [last])
  {
    var all, r := inserts + [last], w + [last];
    forall i | 0 <= i < |w| ensures Current(all, r[i]) && LatestOf(all, r[i].key) == LatestOf(inserts, w[i].key) {
      CurrentPush(inserts, last, w[i]);
      LatestPush(inserts, last, w[i].key);
    }
    LatestPush(inserts, last, last.key);
    assert Current(all, last);
    hide Current, LatestOf;
  }

  lemma {:induction false} RecencyIs<V>(inserts: Record<V>)
    ensures ByRecency(inserts, Recency(inserts))
  {
    hide Ascends, Has, Without, LatestOf;
    if inserts == [] {
      NothingRecent(inserts);
    } else {
      var init, last := inserts[..|inserts| - 1], inserts[|inserts| - 1];
      RecencyIs(init);
      var w := Without(Recency(init), last.key);
      WithoutAscends(init, Recency(init), last.key);
      WithoutHas(Recency(init), last.key, last.key);
      AscendsPush(init, last, w);
      assert inserts == init + [last];
      forall key ensures Has(w + [last], key) <==> LatestOf(inserts, key) >= 0 {
        HasPush(w, last, key);
        WithoutHas(Recency(init), last.key, key);
        LatestPush(init, last, key);
      }
    }
  }

  lemma NothingRecent<V>(inserts: Record<V>)
    requires inserts == []
    ensures ByRecency(inserts, [])
  {
  }

  lemma RecencyDistinct<V>(inserts: Record<V>)
    ensures DistinctKeys(Recency(inserts))
  {
    RecencyIs(inserts);
    hide Has, Recency, LatestOf, Current;
  }

  /** One insertion into the newest `max` pairs gives the newest `max` pairs of all. */
  lemma InsertKeepsNewest<V>(r: Record<V>, key: string, value: V, max: nat)
    requires DistinctKeys(r)
    ensures Insert(LastN(r, max), key, value, max) == LastN(Without(r, key) + [Pair(key, value)], max)
  {
    hide Without, Has, LastN;
    var newest := LastN(r, max);
    var older := r[..|r| - |newest|];
    assert r == older + newest;
    WithoutConcat(older, newest, key);
    WithoutDistinct(newest, key);
    if !Has(newest, key) { WithoutAbsent(newest, key); }
    var kept := Without(newest, key) + [Pair(key, value)];
    Assoc(Without(older, key), Without(newest, key), [Pair(key, value)]);
    assert |kept| >= max || older == [];
    WithoutNothing(older, key);
    LastNConcat(Without(older, key), kept, max);
  }

  lemma WithoutNothing<V>(r: Record<V>, key: string)
    ensures r == [] ==> Without(r, key) == []
  {
  }

  lemma LastNConcat<T>(a: seq<T>, b: seq<T>, n: nat)
    ensures |b| >= n || a == [] ==> LastN(a + b, n) == LastN(b, n)
  {
    assert a == [] ==> a + b == b;
    assert |b| >= n ==> (a + b)[|a + b| - n..] == b[|b| - n..];
  }

  /** Whatever is inserted in whatever order, the map holds exactly the `max` most recently inserted
      distinct keys, in the order of their latest insertions, each with its latest value. */
  lemma {:induction false} NewestKept<V>(inserts: Record<V>, max: nat)
    ensures Run(inserts, max) == LastN(Recency(inserts), max)
    ensures ByRecency(inserts, Recency(inserts))
  {
    RecencyIs(inserts);
    if inserts == [] {
    } else {
      var init, last := inserts[..|inserts| - 1], inserts[|inserts| - 1];
      NewestKept(init, max);
      RecencyDistinct(init);
      InsertKeepsNewest(Recency(init), last.key, last.value, max);
      assert last == Pair(last.key, last.value);
    }
  }
}
