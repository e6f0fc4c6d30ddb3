/** Drains that end anywhere, inside characters included: when the live rows are still those of one
    scan of the file (packages/daemon/src/jsonl-watcher.ts). */
module JsonlCuts {
  import opened Sequences
  import opened Utf8
  import opened Jsonl

  /** A place in a text: so many whole characters and so many bytes of the next. */
  datatype Point = Point(chars: nat, extra: nat)

  const ORIGIN := Point(0, 0)

  ghost predicate Valid(t: Text, q: Point) {
    q.chars <= |t| && (q.extra > 0 ==> q.chars < |t| && q.extra < Width(t[q.chars]))
  }

  predicate NotAfter(q: Point, p: Point) {
    q.chars < p.chars || (q.chars == p.chars && q.extra <= p.extra)
  }

  /** The file up to a point. */
  function Bytes(t: Text, q: Point): seq<Byte>
    requires Valid(t, q)
  {
    EncodeAll(t[..q.chars]) + if q.extra > 0 then Encode(t[q.chars])[..q.extra] else []
  }

  // ----- what one drain reads -----

  /** The rest of a character that was cut. */
  function Ending(t: Text, q: Point): seq<Byte>
    requires Valid(t, q)
  {
    if q.extra > 0 then Encode(t[q.chars])[q.extra..] else []
  }

  function Beginning(t: Text, p: Point): seq<Byte>
    requires Valid(t, p)
  {
    if p.extra > 0 then Encode(t[p.chars])[..p.extra] else []
  }

  /** The first whole character after a point. */
  function Resume(q: Point): nat {
    if q.extra > 0 then q.chars + 1 else q.chars
  }

  function Between(t: Text, q: Point, p: Point): seq<Byte>
    requires Valid(t, q) && Valid(t, p) && NotAfter(q, p)
  {
    if q.chars < p.chars then Ending(t, q) + EncodeAll(t[Resume(q)..p.chars]) + Beginning(t, p)
    else if q.extra < p.extra then Encode(t[q.chars])[q.extra..p.extra]
    else []
  }

  /** The text that a drain from one point to the next appends. */
  function Piece(t: Text, q: Point, p: Point): Text
    requires Valid(t, q) && Valid(t, p) && NotAfter(q, p)
  {
    if q.chars < p.chars then
      Replacements(|Ending(t, q)|) + t[Resume(q)..p.chars] + (if p.extra > 0 then [REPLACEMENT] else [])
    else if q.extra == p.extra then []
    else if q.extra == 0 then [REPLACEMENT]
    else Replacements(p.extra - q.extra)
  }

  lemma BytesAcross(t: Text, q: Point, p: Point)
    requires Valid(t, q) && Valid(t, p) && q.chars < p.chars
    ensures Bytes(t, p) == Bytes(t, q) + Between(t, q, p)
  {
    hide Encode, EncodeAll, Width;
    var a, u, r := EncodeAll(t[..q.chars]), EncodeAll(t[Resume(q)..p.chars]), Beginning(t, p);
    assert t[..Resume(q)] + t[Resume(q)..p.chars] == t[..p.chars];
    EncodeAllConcat(t[..Resume(q)], t[Resume(q)..p.chars]);
    if q.extra > 0 {
      var c := t[q.chars];
      assert t[..q.chars] + [c] == t[..Resume(q)];
      EncodeAllConcat(t[..q.chars], [c]);
      EncodeOne(c);
      var b, e := Encode(c)[..q.extra], Encode(c)[q.extra..];
      assert b + e == Encode(c);
      Assoc(a, b, e);
      Assoc(a + b, e, u);
      Assoc(a + b, e + u, r);
    } else {
      assert a + [] == a && [] + u == u;
      Assoc(a, u, r);
    }
  }

  lemma BytesBetween(t: Text, q: Point, p: Point)
    requires Valid(t, q) && Valid(t, p) && NotAfter(q, p)
    ensures Bytes(t, p) == Bytes(t, q) + Between(t, q, p)
  {
    hide EncodeAll, Encode;
    if q.chars < p.chars {
      BytesAcross(t, q, p);
    } else if q.extra < p.extra {
      var c := t[q.chars];
      var b, d := Encode(c)[..q.extra], Encode(c)[q.extra..p.extra];
      assert b + d == Encode(c)[..p.extra];
      Assoc(EncodeAll(t[..q.chars]), b, d);
      assert EncodeAll(t[..q.chars]) + [] == EncodeAll(t[..q.chars]);
    } else {
      assert Bytes(t, q) + [] == Bytes(t, q);
    }
  }

  lemma EndingContinues(c: Scalar, k: nat, m: nat)
    requires 0 < k <= m <= Width(c)
    ensures forall i | 0 <= i < m - k :: Continues(Encode(c)[k..m][i])
  {
    forall i | 0 <= i < m - k ensures Continues(Encode(c)[k..m][i]) {
      EncodeContinues(c, k + i);
    }
  }

  lemma EndingIsLeftover(t: Text, q: Point)
    requires Valid(t, q)
    ensures forall i | 0 <= i < |Ending(t, q)| :: Continues(Ending(t, q)[i])
  {
    if q.extra > 0 {
      var c := t[q.chars];
      EndingContinues(c, q.extra, Width(c));
      assert Encode(c)[q.extra..Width(c)] == Encode(c)[q.extra..];
    }
  }

  lemma BeginningDecodes(t: Text, p: Point)
    requires Valid(t, p)
    ensures Decode(Beginning(t, p)) == if p.extra > 0 then [REPLACEMENT] else []
  {
    if p.extra > 0 {
      CharacterCut(t[p.chars], p.extra);
    }
  }

  lemma WithinDecodes(c: Scalar, k: nat, m: nat)
    requires 0 < k < m <= Width(c)
    ensures Decode(Encode(c)[k..m]) == Replacements(m - k)
  {
    hide Encode, Width, Replacements;
    var d := Encode(c)[k..m];
    EndingContinues(c, k, m);
    DecodeLeftover(d, []);
    assert d + [] == d && Replacements(m - k) + [] == Replacements(m - k);
  }

  lemma PieceDecodes(t: Text, q: Point, p: Point)
    requires Valid(t, q) && Valid(t, p) && NotAfter(q, p)
    ensures Decode(Between(t, q, p)) == Piece(t, q, p)
  {
    hide Decode, Encode, EncodeAll, Width, Replacements;
    if q.chars < p.chars {
      var e, u, r := Ending(t, q), t[Resume(q)..p.chars], Beginning(t, p);
      EndingIsLeftover(t, q);
      Assoc(e, EncodeAll(u), r);
      DecodeLeftover(e, EncodeAll(u) + r);
      DecodeEncodeAll(u, r);
      BeginningDecodes(t, p);
      Assoc(Replacements(|e|), u, Decode(r));
    } else if q.extra < p.extra {
      if q.extra == 0 {
        CharacterCut(t[q.chars], p.extra);
      } else {
        WithinDecodes(t[q.chars], q.extra, p.extra);
      }
    } else {
      DecodeNothing();
    }
  }

  lemma DecodeNothing()
    ensures Decode([]) == []
  {
  }

  // ----- whole runs of drains -----

  function LastPoint(ps: seq<Point>): Point {
    if ps == [] then ORIGIN else ps[|ps| - 1]
  }

  /** The points follow each other through the text. */
  ghost predicate InOrder(t: Text, ps: seq<Point>) {
    && (forall i | 0 <= i < |ps| :: Valid(t, ps[i]))
    && (forall i, j | 0 <= i < j < |ps| :: NotAfter(ps[i], ps[j]))
  }

  /** All the text that the drains append, replacement characters included. */
  function Read(t: Text, ps: seq<Point>): Text
    requires InOrder(t, ps)
  {
    if ps == [] then []
    else
      var init := ps[..|ps| - 1];
      Read(t, init) + Piece(t, LastPoint(init), ps[|ps| - 1])
  }

  function FilesAt(t: Text, ps: seq<Point>): seq<seq<Byte>>
    requires InOrder(t, ps)
  {
    if ps == [] then [] else FilesAt(t, ps[..|ps| - 1]) + [Bytes(t, ps[|ps| - 1])]
  }

  function Live(t: Text, ps: seq<Point>): seq<Row>
    requires InOrder(t, ps)
  {
    DrainAll(Tail(0, []), FilesAt(t, ps)).1
  }

  lemma {:induction false} DrainAllPush(s: Tail, files: seq<seq<Byte>>, f: seq<Byte>)
    ensures var (s1, rows) := DrainAll(s, files);
            var (s2, more) := Drained(s1, f);
            DrainAll(s, files + [f]).0 == s2 && DrainAll(s, files + [f]).1 == rows + more
    decreases |files|
  {
    hide Drained;
    if files == [] {
      assert [] + [f] == [f] && [f][1..] == [];
      var more := Drained(s, f).1;
      assert more + [] == more && [] + more == more;
    } else {
      var (s1, rows) := Drained(s, files[0]);
      assert (files + [f])[1..] == files[1..] + [f];
      DrainAllPush(s1, files[1..], f);
      var (s2, more) := DrainAll(s1, files[1..]);
      Assoc(rows, more, Drained(s2, f).1);
    }
  }

  lemma NoRows(r: Text, offset: int)
    requires NEWLINE !in r
    ensures Emitted(r, offset) == [] && Rows(r, offset) == [] && Rest(r) == r
  {
    NoNewline(r);
  }

  lemma RestClean(t: Text)
    ensures NEWLINE !in Rest(t)
  {
    RestHasNoNewline(t);
    assert Rest(t)[..|Rest(t)|] == Rest(t);
  }

  /** One more drain, from any point to any later one. */
  lemma DrainOnce(t: Text, q: Point, p: Point, e: Text)
    requires Valid(t, q) && Valid(t, p) && NotAfter(q, p)
    ensures var d := Piece(t, q, p);
            Drained(Tail(|Bytes(t, q)|, Rest(e)), Bytes(t, p))
            == (Tail(|Bytes(t, p)|, Rest(e + d)), Emitted(Rest(e) + d, |Bytes(t, p)|))
  {
    hide Piece, Between, Decode, Rest, Emitted, Bytes, ByteLength;
    var d := Piece(t, q, p);
    BytesBetween(t, q, p);
    PieceDecodes(t, q, p);
    RowsSplit(e, d, 0);
    var more := Between(t, q, p);
    assert Bytes(t, p)[|Bytes(t, q)|..] == more;
    if more == [] {
      DecodeNothing();
      RestClean(e);
      NoRows(Rest(e), |Bytes(t, p)|);
      assert Rest(e) + d == Rest(e) && e + d == e;
    }
  }

  lemma OrderInit(t: Text, ps: seq<Point>)
    requires InOrder(t, ps) && ps != []
    ensures InOrder(t, ps[..|ps| - 1]) && Valid(t, LastPoint(ps[..|ps| - 1]))
    ensures Valid(t, ps[|ps| - 1]) && NotAfter(LastPoint(ps[..|ps| - 1]), ps[|ps| - 1])
  {
  }

  lemma {:induction false} Tracks(t: Text, ps: seq<Point>)
    requires InOrder(t, ps)
    ensures Valid(t, LastPoint(ps))
    ensures DrainAll(Tail(0, []), FilesAt(t, ps)).0 == Tail(|Bytes(t, LastPoint(ps))|, Rest(Read(t, ps)))
  {
    hide Bytes, Rest, Drained, Piece;
    if ps == [] {
      assert |Bytes(t, ORIGIN)| == 0 by { NothingRead(t); }
      NoRows([], 0);
    } else {
      var init, p := ps[..|ps| - 1], ps[|ps| - 1];
      OrderInit(t, ps);
      Tracks(t, init);
      DrainAllPush(Tail(0, []), FilesAt(t, init), Bytes(t, p));
      DrainOnce(t, LastPoint(init), p, Read(t, init));
    }
  }

  lemma NothingRead(t: Text)
    ensures Valid(t, ORIGIN) && Bytes(t, ORIGIN) == []
  {
  }

  lemma LivePush(t: Text, ps: seq<Point>)
    requires InOrder(t, ps) && ps != []
    ensures var init, p := ps[..|ps| - 1], ps[|ps| - 1];
            && InOrder(t, init) && Valid(t, LastPoint(init)) && NotAfter(LastPoint(init), p)
            && Live(t, ps) == Live(t, init)
                 + Emitted(Rest(Read(t, init)) + Piece(t, LastPoint(init), p), |Bytes(t, p)|)
  {
    hide Bytes, Rest, Drained, Piece, Emitted;
    var init, p := ps[..|ps| - 1], ps[|ps| - 1];
    OrderInit(t, ps);
    Tracks(t, init);
    DrainAllPush(Tail(0, []), FilesAt(t, init), Bytes(t, p));
    DrainOnce(t, LastPoint(init), p, Read(t, init));
  }

  // ----- a cut before the last newline corrupts a line -----

  /** The characters of some lines and their newlines. */
  function Total(rows: seq<Row>): nat {
    if rows == [] then 0 else |rows[0].line| + 1 + Total(rows[1..])
  }

  /** The characters up to and including the last newline. */
  function Through(t: Text): int {
    |t| - |Rest(t)|
  }

  lemma {:induction false} TotalConcat(a: seq<Row>, b: seq<Row>)
    ensures Total(a + b) == Total(a) + Total(b)
  {
    if a == [] {
      assert a + b == b;
    } else {
      assert (a + b)[1..] == a[1..] + b;
      TotalConcat(a[1..], b);
    }
  }

  lemma {:induction false} TotalIs(t: Text, offset: int)
    ensures Total(Emitted(t, offset)) == Through(t)
    decreases |t|
  {
    hide NextNewline, ByteLength;
    EmittedUnfold(t, offset);
    RestUnfold(t);
    var n := NextNewline(t);
    if n < |t| {
      TotalIs(t[n + 1..], offset);
      TotalConcat([Row(t[..n], offset - ByteLength(t[n + 1..]))], Emitted(t[n + 1..], offset));
    }
  }

  lemma HasNewline(t: Text)
    ensures NEWLINE in t <==> NextNewline(t) < |t|
  {
    assert t[..|t|] == t;
  }

  lemma RestOf(a: Text, b: Text)
    ensures NEWLINE !in b ==> Rest(a + b) == Rest(a) + b
    ensures NEWLINE in b ==> Rest(a + b) == Rest(b)
  {
    hide NextNewline, Rest, ByteLength, Rows;
    RowsSplit(a, b, 0);
    RestClean(a);
    var r := Rest(a);
    HasNewline(r);
    HasNewline(b);
    NewlineOfConcat(r, b);
    RestUnfold(r + b);
    RestUnfold(b);
    if NEWLINE in b {
      assert (r + b)[|r| + NextNewline(b) + 1..] == b[NextNewline(b) + 1..];
    }
  }

  lemma RestShort(t: Text)
    ensures |Rest(t)| <= |t| && (NEWLINE in t ==> |Rest(t)| < |t|)
    decreases |t|
  {
    var n := NextNewline(t);
    if n < |t| {
      RestShort(t[n + 1..]);
    } else {
      assert t[..n] == t;
    }
  }

  lemma {:induction false} LiveTotal(t: Text, ps: seq<Point>)
    requires InOrder(t, ps)
    ensures Total(Live(t, ps)) == Through(Read(t, ps))
  {
    hide Emitted, Rest, Bytes, Piece, Drained;
    if ps == [] {
      NoRows([], 0);
    } else {
      var init, p := ps[..|ps| - 1], ps[|ps| - 1];
      LivePush(t, ps);
      LiveTotal(t, init);
      var e, d := Read(t, init), Piece(t, LastPoint(init), p);
      TotalConcat(Live(t, init), Emitted(Rest(e) + d, |Bytes(t, p)|));
      TotalIs(Rest(e) + d, |Bytes(t, p)|);
      RowsSplit(e, d, 0);
      hide InOrder;
    }
  }

  predicate Cut(p: Point) {
    p.extra > 0
  }

  function Partial(p: Point): nat {
    if p.extra > 0 then 1 else 0
  }

  lemma CutIsWide(t: Text, q: Point)
    requires Valid(t, q) && Cut(q)
    ensures t[q.chars] != NEWLINE && |Ending(t, q)| == Width(t[q.chars]) - q.extra >= 1
  {
  }

  lemma ReplacementsClean(n: nat)
    ensures NEWLINE !in Replacements(n)
  {
  }

  /** A drain within one character. */
  lemma GrowSame(t: Text, q: Point, p: Point, e: Text)
    requires Valid(t, q) && Valid(t, p) && NotAfter(q, p) && q.chars == p.chars
    ensures var d := Piece(t, q, p);
            && Through(e + d) == Through(e) && |Rest(e + d)| == |Rest(e)| + |d|
            && |d| >= Partial(p) - Partial(q)
  {
    var d := Piece(t, q, p);
    ReplacementsClean(if p.extra >= q.extra then p.extra - q.extra else 0);
    RestOf(e, d);
  }

  /** A drain across characters, none of them a newline. */
  lemma GrowLine(t: Text, q: Point, p: Point, e: Text)
    requires Valid(t, q) && Valid(t, p) && q.chars < p.chars && NEWLINE !in t[Resume(q)..p.chars]
    ensures var d := Piece(t, q, p);
            && Through(e + d) == Through(e) && Through(t[..p.chars]) == Through(t[..q.chars])
            && |Rest(e + d)| - |Rest(e)| == |Ending(t, q)| + (p.chars - Resume(q)) + Partial(p)
            && |Rest(t[..p.chars])| - |Rest(t[..q.chars])| == p.chars - q.chars
  {
    hide Rest, Encode, Replacements;
    var d, u := Piece(t, q, p), t[q.chars..p.chars];
    ReplacementsClean(|Ending(t, q)|);
    assert NEWLINE !in d;
    RestOf(e, d);
    if Cut(q) { CutIsWide(t, q); }
    assert u == t[q.chars..Resume(q)] + t[Resume(q)..p.chars];
    assert t[..q.chars] + u == t[..p.chars];
    RestOf(t[..q.chars], u);
  }

  /** A drain across a newline. */
  lemma GrowLines(t: Text, q: Point, p: Point, e: Text)
    requires Valid(t, q) && Valid(t, p) && q.chars < p.chars && NEWLINE in t[Resume(q)..p.chars]
    ensures var d := Piece(t, q, p);
            var rest := |Rest(t[Resume(q)..p.chars])|;
            && rest < p.chars - Resume(q)
            && Through(e + d) == |e| + |Ending(t, q)| + (p.chars - Resume(q)) - rest
            && |Rest(e + d)| == rest + Partial(p)
            && Through(t[..p.chars]) == p.chars - rest && |Rest(t[..p.chars])| == rest
  {
    hide Rest, Encode, Replacements;
    var u := t[Resume(q)..p.chars];
    var r, b := Replacements(|Ending(t, q)|), if p.extra > 0 then [REPLACEMENT] else [];
    var d := Piece(t, q, p);
    assert d == r + u + b;
    RestShort(u);
    RestOf(r, u);
    RestOf(r + u, b);
    assert NEWLINE in r + u;
    assert NEWLINE in d;
    RestOf(e, d);
    assert t[..Resume(q)] + u == t[..p.chars];
    RestOf(t[..Resume(q)], u);
  }

  /** One drain widens or keeps the gap between what was read and the text. */
  lemma ExcessStep(t: Text, q: Point, p: Point, e: Text)
    requires Valid(t, q) && Valid(t, p) && NotAfter(q, p)
    requires Through(e) >= Through(t[..q.chars]) && |Rest(e)| >= |Rest(t[..q.chars])| + Partial(q)
    ensures var (e1, w, w1) := (e + Piece(t, q, p), t[..q.chars], t[..p.chars]);
            var more := |Rest(e)| > |Rest(w)| + Partial(q) || (Cut(q) && q.chars < p.chars);
            var crossed := q.chars < p.chars && NEWLINE in t[Resume(q)..p.chars];
            && Through(w) <= q.chars && Through(w1) <= p.chars
            && Through(e1) >= Through(w1) && |Rest(e1)| >= |Rest(w1)| + Partial(p)
            && (Through(e) > Through(w) ==> Through(e1) > Through(w1))
            && (more && !crossed ==> |Rest(e1)| > |Rest(w1)| + Partial(p))
            && (more && crossed ==> Through(e1) > Through(w1))
            && (!crossed ==> Through(w1) == Through(w))
            && (crossed ==> Through(w1) > q.chars)
  {
    hide Rest, Piece, Ending, Valid;
    if Cut(q) { CutIsWide(t, q); } else { NoEnding(t, q); }
    assert q.chars <= p.chars <= |t| && Resume(q) <= |t| by { InBounds(t, q); InBounds(t, p); }
    if q.chars == p.chars {
      GrowSame(t, q, p, e);
    } else if NEWLINE !in t[Resume(q)..p.chars] {
      GrowLine(t, q, p, e);
    } else {
      GrowLines(t, q, p, e);
    }
  }

  lemma InBounds(t: Text, q: Point)
    requires Valid(t, q)
    ensures q.chars <= |t| && Resume(q) <= |t|
  {
  }

  lemma NoEnding(t: Text, q: Point)
    requires Valid(t, q) && !Cut(q)
    ensures |Ending(t, q)| == 0
  {
  }

  lemma {:induction false} Excess(t: Text, ps: seq<Point>, i: nat)
    requires InOrder(t, ps) && i < |ps| && Cut(ps[i])
    ensures Valid(t, LastPoint(ps)) && ps[i].chars <= LastPoint(ps).chars
    ensures var q := LastPoint(ps);
            var e, w := Read(t, ps), t[..q.chars];
            && Through(e) >= Through(w) && |Rest(e)| >= |Rest(w)| + Partial(q)
            && (ps[i].chars < Through(w) ==> Through(e) > Through(w))
            && (Through(w) <= ps[i].chars < q.chars ==> |Rest(e)| > |Rest(w)| + Partial(q))
  {
    hide Rest, Piece, Valid;
    var init, p := ps[..|ps| - 1], ps[|ps| - 1];
    var q := LastPoint(init);
    OrderInit(t, ps);
    if i < |init| {
      Excess(t, init, i);
      assert q.chars == ps[i].chars ==> Cut(q) by { LastFollows(t, init, i); }
    } else {
      NoShorter(t, init);
    }
    ExcessStep(t, q, p, Read(t, init));
  }

  lemma LastFollows(t: Text, ps: seq<Point>, i: nat)
    requires InOrder(t, ps) && i < |ps|
    ensures NotAfter(ps[i], LastPoint(ps))
  {
    if i < |ps| - 1 { assert NotAfter(ps[i], ps[|ps| - 1]); }
  }

  lemma {:induction false} NoShorter(t: Text, ps: seq<Point>)
    requires InOrder(t, ps)
    ensures Valid(t, LastPoint(ps))
    ensures var q := LastPoint(ps);
            Through(Read(t, ps)) >= Through(t[..q.chars])
            && |Rest(Read(t, ps))| >= |Rest(t[..q.chars])| + Partial(q)
  {
    hide Rest, Piece, Valid;
    if ps == [] {
      NoRows([], 0);
      assert t[..0] == [];
      NothingRead(t);
    } else {
      var init := ps[..|ps| - 1];
      OrderInit(t, ps);
      NoShorter(t, init);
      ExcessStep(t, LastPoint(init), ps[|ps| - 1], Read(t, init));
    }
  }

  /** A cut before the last newline makes the live lines longer, all together, than those of the
      text. */
  lemma CutLengthens(t: Text, ps: seq<Point>, i: nat)
    requires InOrder(t, ps) && i < |ps| && Cut(ps[i])
    requires ps[i].chars < Through(t[..LastPoint(ps).chars])
    ensures Live(t, ps) != Rows(t[..LastPoint(ps).chars], 0)
  {
    hide Rest, Emitted, Live, Read;
    var w := t[..LastPoint(ps).chars];
    Excess(t, ps, i);
    LiveTotal(t, ps);
    TotalIs(w, ByteLength(w));
    EmittedIsRows(w, 0);
  }

  // ----- cuts behind the last newline -----

  ghost predicate Behind(ps: seq<Point>, m: int) {
    forall i | 0 <= i < |ps| :: Cut(ps[i]) ==> ps[i].chars >= m
  }

  function Previous(ps: seq<Point>, i: nat): Point
    requires i < |ps|
  {
    if i == 0 then ORIGIN else ps[i - 1]
  }

  /** The offsets of the lines that the drain ending at a cut reports are right: it reports none, or
      the three bytes it has read of the character are as many as the replacement character has. */
  ghost predicate OffsetsKept(t: Text, ps: seq<Point>, i: nat)
    requires InOrder(t, ps) && i < |ps|
  {
    Cut(ps[i]) ==> ps[i].extra == 3 || NEWLINE !in t[Previous(ps, i).chars..ps[i].chars]
  }

  ghost predicate AllKept(t: Text, ps: seq<Point>)
    requires InOrder(t, ps)
  {
    forall i: nat | i < |ps| :: OffsetsKept(t, ps, i)
  }

  lemma KeptInit(t: Text, ps: seq<Point>, i: nat)
    requires InOrder(t, ps) && i < |ps| - 1 && InOrder(t, ps[..|ps| - 1])
    ensures OffsetsKept(t, ps, i) <==> OffsetsKept(t, ps[..|ps| - 1], i)
  {
    hide InOrder;
  }

  lemma KeptPush(t: Text, ps: seq<Point>)
    requires InOrder(t, ps) && ps != [] && InOrder(t, ps[..|ps| - 1])
    ensures AllKept(t, ps) <==> AllKept(t, ps[..|ps| - 1]) && OffsetsKept(t, ps, |ps| - 1)
  {
    hide InOrder, OffsetsKept;
    var init := ps[..|ps| - 1];
    forall i: nat | i < |init| ensures OffsetsKept(t, ps, i) <==> OffsetsKept(t, init, i) { KeptInit(t, ps, i); }
  }

  lemma TextGrows(t: Text, a: nat, b: nat)
    requires a <= b <= |t|
    ensures Through(t[..a]) <= Through(t[..b])
    ensures NEWLINE in t[a..b] ==> Through(t[..b]) > a
    ensures NEWLINE !in t[a..b] ==> Rows(t[..b], 0) == Rows(t[..a], 0)
    ensures NEWLINE in t[a..b] ==>
      Rows(Rest(t[..a]) + t[a..b], ByteLength(t[..a]) - ByteLength(Rest(t[..a]))) != []
    ensures Rows(t[..b], 0) == Rows(t[..a], 0)
      + Rows(Rest(t[..a]) + t[a..b], ByteLength(t[..a]) - ByteLength(Rest(t[..a])))
  {
    hide Rest, Rows, ByteLength, NextNewline;
    var w, u := t[..a], t[a..b];
    assert w + u == t[..b];
    RowsSplit(w, u, 0);
    RestOf(w, u);
    RestShort(w);
    RestShort(u);
    RestClean(w);
    var base := ByteLength(w) - ByteLength(Rest(w));
    RowsUnfold(Rest(w) + u, base);
    HasNewline(Rest(w) + u);
    if NEWLINE !in u {
      assert Rows(w, 0) + [] == Rows(w, 0);
    } else {
      assert NEWLINE in Rest(w) + u;
    }
  }

  lemma {:induction false} WholeRead(t: Text, ps: seq<Point>)
    requires InOrder(t, ps) && forall i | 0 <= i < |ps| :: !Cut(ps[i])
    ensures var n := LastPoint(ps).chars;
            n <= |t| && Read(t, ps) == t[..n] && Bytes(t, LastPoint(ps)) == EncodeAll(t[..n])
  {
    if ps == [] {
      assert t[..0] == [];
    } else {
      var init, p := ps[..|ps| - 1], ps[|ps| - 1];
      OrderInit(t, ps);
      WholeRead(t, init);
      var q := LastPoint(init);
      assert !Cut(q) && t[..q.chars] + t[q.chars..p.chars] == t[..p.chars];
      assert Piece(t, q, p) == t[q.chars..p.chars] by {
        assert Replacements(0) + t[q.chars..p.chars] + [] == t[q.chars..p.chars];
      }
    }
  }

  /** A drain that completes no line. */
  lemma SilentDrain(t: Text, ps: seq<Point>)
    requires InOrder(t, ps) && ps != []
    requires NotAfter(LastPoint(ps[..|ps| - 1]), ps[|ps| - 1]) && ps[|ps| - 1].chars <= |t|
    requires NEWLINE !in t[LastPoint(ps[..|ps| - 1]).chars..ps[|ps| - 1].chars]
    ensures InOrder(t, ps[..|ps| - 1]) && Live(t, ps) == Live(t, ps[..|ps| - 1])
  {
    hide Rest, Emitted, Bytes, Live, Replacements, Piece, InOrder, Read;
    var init, p := ps[..|ps| - 1], ps[|ps| - 1];
    var q := LastPoint(init);
    LivePush(t, ps);
    OrderInit(t, ps);
    PieceClean(t, q, p);
    RestClean(Read(t, init));
    NoRows(Rest(Read(t, init)) + Piece(t, q, p), |Bytes(t, p)|);
    assert Live(t, init) + [] == Live(t, init);
  }

  lemma PieceClean(t: Text, q: Point, p: Point)
    requires Valid(t, q) && Valid(t, p) && NotAfter(q, p) && NEWLINE !in t[q.chars..p.chars]
    ensures NEWLINE !in Piece(t, q, p)
  {
    hide Encode, Width;
    if q.chars < p.chars {
      ReplacementsClean(|Ending(t, q)|);
      assert t[Resume(q)..p.chars] == t[q.chars..p.chars][Resume(q) - q.chars..];
    } else if 0 < q.extra < p.extra {
      ReplacementsClean(p.extra - q.extra);
    }
  }

  lemma AddedRight(live: seq<Row>, rows: seq<Row>, right: seq<Row>)
    ensures live + rows == live + right <==> rows == right
  {
    if live + rows == live + right {
      assert rows == (live + rows)[|live|..] && right == (live + right)[|live|..];
    }
  }

  /** A drain that completes lines, after drains that ended between characters. */
  lemma CrossingDrain(t: Text, init: seq<Point>, p: Point)
    requires InOrder(t, init + [p]) && InOrder(t, init)
    requires (forall i | 0 <= i < |init| :: !Cut(init[i])) && LastPoint(init).chars <= p.chars <= |t|
    requires NEWLINE in t[LastPoint(init).chars..p.chars]
    requires Live(t, init) == Rows(t[..LastPoint(init).chars], 0)
    ensures Live(t, init + [p]) == Rows(t[..p.chars], 0) <==> (Cut(p) ==> p.extra == 3)
  {
    hide Rest, Emitted, Rows, Drained, Encode, Decode, EncodeAll, ByteLength, Moved, Piece, Read, InOrder;
    var n := LastPoint(init).chars;
    var w, u := t[..n], t[n..p.chars];
    PushedFile(t, init, p);
    var more := Drained(At(w), Bytes(t, p)).1;
    assert w + u == t[..p.chars];
    TextGrows(t, n, p.chars);
    var right := Rows(Rest(w) + u, ByteLength(w) - ByteLength(Rest(w)));
    AddedRight(Rows(w, 0), more, right);
    if Cut(p) {
      CutShiftsOffsets(w, u, t[p.chars], p.extra);
    } else {
      DrainGrowth(w, u);
      assert EncodeAll(w + u) + [] == EncodeAll(w + u);
    }
  }

  lemma PushedFile(t: Text, init: seq<Point>, p: Point)
    requires InOrder(t, init + [p]) && InOrder(t, init)
    requires (forall i | 0 <= i < |init| :: !Cut(init[i]))
    ensures Valid(t, p) && LastPoint(init).chars <= |t|
    ensures Live(t, init + [p]) == Live(t, init) + Drained(At(t[..LastPoint(init).chars]), Bytes(t, p)).1
  {
    hide Rest, Drained, EncodeAll, ByteLength, Piece, Read, Bytes;
    assert (init + [p])[..|init|] == init && (init + [p])[|init|] == p;
    var w := t[..LastPoint(init).chars];
    WholeRead(t, init);
    Tracks(t, init);
    EncodeAllLength(w);
    DrainAllPush(Tail(0, []), FilesAt(t, init), Bytes(t, p));
  }

  lemma {:induction false} KeptIff(t: Text, ps: seq<Point>, m: int)
    requires InOrder(t, ps) && Behind(ps, m) && Valid(t, LastPoint(ps))
    requires Through(t[..LastPoint(ps).chars]) <= m
    ensures Live(t, ps) == Rows(t[..LastPoint(ps).chars], 0) <==> AllKept(t, ps)
  {
    hide Rest, Rows, Live, AllKept;
    if ps == [] {
      assert t[..0] == [];
      NoRows([], 0);
      NothingLive(t);
    } else {
      var init, p := ps[..|ps| - 1], ps[|ps| - 1];
      var q := LastPoint(init);
      OrderInit(t, ps);
      TextGrows(t, q.chars, p.chars);
      KeptIff(t, init, m);
      KeptPush(t, ps);
      assert Previous(ps, |ps| - 1) == q;
      if NEWLINE !in t[q.chars..p.chars] {
        SilentDrain(t, ps);
      } else {
        forall i | 0 <= i < |init| ensures !Cut(init[i]) {
          LastFollows(t, init, i);
          assert init[i] == ps[i];
        }
        NoneCut(t, init);
        assert init + [p] == ps;
        CrossingDrain(t, init, p);
      }
    }
  }

  lemma NothingLive(t: Text)
    ensures InOrder(t, []) && Live(t, []) == [] && AllKept(t, [])
  {
  }

  lemma NoneCut(t: Text, ps: seq<Point>)
    requires InOrder(t, ps) && forall i | 0 <= i < |ps| :: !Cut(ps[i])
    ensures AllKept(t, ps)
  {
  }

  // ----- the theorem -----

  /** No harm is done by cuts behind the last newline that leave the offsets right. */
  ghost predicate Harmless(t: Text, ps: seq<Point>)
    requires InOrder(t, ps) && Valid(t, LastPoint(ps))
  {
    Behind(ps, Through(t[..LastPoint(ps).chars])) && AllKept(t, ps)
  }

  lemma PointsHarmlessIff(t: Text, ps: seq<Point>)
    requires InOrder(t, ps) && Valid(t, LastPoint(ps))
    ensures Live(t, ps) == Rows(t[..LastPoint(ps).chars], 0) <==> Harmless(t, ps)
  {
    hide Live, Rows, AllKept, Rest;
    var m := Through(t[..LastPoint(ps).chars]);
    if Behind(ps, m) {
      KeptIff(t, ps, m);
    } else {
      var i :| 0 <= i < |ps| && Cut(ps[i]) && ps[i].chars < m;
      CutLengthens(t, ps, i);
    }
  }

  /** The place of a byte position. */
  function PointAt(t: Text, n: nat): (q: Point)
    requires n <= ByteLength(t)
    ensures Valid(t, q)
  {
    if t == [] then ORIGIN
    else if n < Width(t[0]) then Point(0, n)
    else
      var r := PointAt(t[1..], n - Width(t[0]));
      Point(r.chars + 1, r.extra)
  }

  lemma {:induction false} PointInOrder(t: Text, n: nat, m: nat)
    requires n <= m <= ByteLength(t)
    ensures NotAfter(PointAt(t, n), PointAt(t, m))
    decreases |t|
  {
    if t != [] && n >= Width(t[0]) {
      PointInOrder(t[1..], n - Width(t[0]), m - Width(t[0]));
    }
  }

  lemma {:induction false} BytesAtPoint(t: Text, n: nat)
    requires n <= ByteLength(t) == |EncodeAll(t)|
    ensures Bytes(t, PointAt(t, n)) == EncodeAll(t)[..n]
    decreases |t|
  {
    hide Encode;
    if t == [] {
    } else if n < Width(t[0]) {
      assert (Encode(t[0]) + EncodeAll(t[1..]))[..n] == Encode(t[0])[..n];
    } else {
      var u := t[1..];
      var r := PointAt(u, n - Width(t[0]));
      EncodeAllLength(u);
      BytesAtPoint(u, n - Width(t[0]));
      assert t[..r.chars + 1] == [t[0]] + u[..r.chars];
      EncodeAllConcat([t[0]], u[..r.chars]);
      EncodeOne(t[0]);
      Assoc(Encode(t[0]), EncodeAll(u[..r.chars]), if r.extra > 0 then Encode(u[r.chars])[..r.extra] else []);
    }
  }

  /** Byte positions that a growing file of at most `n` bytes has when it is drained. */
  ghost predicate Positions(ends: seq<nat>, n: nat) {
    && (forall i | 0 <= i < |ends| :: ends[i] <= n)
    && (forall i, j | 0 <= i < j < |ends| :: ends[i] <= ends[j])
  }

  function Points(t: Text, ends: seq<nat>): (ps: seq<Point>)
    requires forall i | 0 <= i < |ends| :: ends[i] <= ByteLength(t)
    ensures |ps| == |ends| && forall i | 0 <= i < |ps| :: ps[i] == PointAt(t, ends[i])
  {
    seq(|ends|, i requires 0 <= i < |ends| => PointAt(t, ends[i]))
  }

  function Prefixes(file: seq<Byte>, ends: seq<nat>): seq<seq<Byte>>
    requires forall i | 0 <= i < |ends| :: ends[i] <= |file|
  {
    seq(|ends|, i requires 0 <= i < |ends| => file[..ends[i]])
  }

  lemma {:induction false} FilesAre(t: Text, ends: seq<nat>)
    requires Positions(ends, ByteLength(t)) && ByteLength(t) == |EncodeAll(t)|
    ensures InOrder(t, Points(t, ends)) && FilesAt(t, Points(t, ends)) == Prefixes(EncodeAll(t), ends)
  {
    hide Bytes, EncodeAll, PointAt, ByteLength;
    var ps := Points(t, ends);
    forall i, j | 0 <= i < j < |ps| ensures NotAfter(ps[i], ps[j]) { PointInOrder(t, ends[i], ends[j]); }
    if ends != [] {
      var init := ends[..|ends| - 1];
      FilesAre(t, init);
      assert Points(t, init) == ps[..|ps| - 1];
      BytesAtPoint(t, ends[|ends| - 1]);
      assert Prefixes(EncodeAll(t), ends) == Prefixes(EncodeAll(t), init) + [EncodeAll(t)[..ends[|ends| - 1]]];
    }
  }

  lemma ScanAtPoint(t: Text, q: Point)
    requires Valid(t, q)
    ensures Rows(Decode(Bytes(t, q)), 0) == Rows(t[..q.chars], 0)
  {
    hide Decode, Encode, EncodeAll, Rows, Rest, Width;
    var w := t[..q.chars];
    if q.extra > 0 {
      DecodeTruncated(w, t[q.chars], q.extra);
      RowsSplit(w, [REPLACEMENT], 0);
      RestHasNoNewline(w);
      LoneTail(Rest(w));
      assert Rows(w, 0) + [] == Rows(w, 0);
    } else {
      DecodeExactly(w);
      assert EncodeAll(w) + [] == EncodeAll(w);
    }
  }

  /** Drains at any byte positions of a growing file: the live rows are those of one scan of what the
      last drain saw exactly when every position inside a character lies behind the last newline
      and has three bytes of the character read or completes no line. */
  lemma LiveMatchesScanIff(t: Text, ends: seq<nat>)
    requires Positions(ends, ByteLength(t)) && ends != []
    ensures ByteLength(t) == |EncodeAll(t)|
    ensures var ps, file := Points(t, ends), EncodeAll(t)[..ends[|ends| - 1]];
            && InOrder(t, ps) && Valid(t, LastPoint(ps))
            && (DrainAll(Tail(0, []), Prefixes(EncodeAll(t), ends)).1 == Rows(Decode(file), 0) <==> Harmless(t, ps))
  {
    hide DrainAll, Decode, EncodeAll, Rows, Harmless, PointAt, Bytes, ByteLength;
    EncodeAllLength(t);
    FilesAre(t, ends);
    var ps := Points(t, ends);
    BytesAtPoint(t, ends[|ends| - 1]);
    ScanAtPoint(t, LastPoint(ps));
    PointsHarmlessIff(t, ps);
  }
}
