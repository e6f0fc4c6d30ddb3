/** Paging back through a transcript: the browser asks for the rows up to its oldest known offset
    (packages/pwa/src/hooks/useSessionTimeline.ts), the daemon answers (packages/daemon/src/jsonl-history.ts),
    and the reducer merges (packages/pwa/src/hooks/useHub.ts). */
module Paging {
  import opened Arithmetic
  import opened Jsonl
  import opened MergeBuffer
  import opened StableSort

  const MAX_SAFE_INTEGER: int := 9007199254740991

  /** The rows of a file, in order, and what the adapter makes of each. */
  datatype File = File(rows: seq<Row>, convert: Row -> seq<string>)

  function AsEvent(f: File, r: Row): EventRow {
    EventRow(r.end, f.convert(r))
  }

  function AsEvents(f: File, rs: seq<Row>): (es: seq<EventRow>)
    ensures |es| == |rs| && forall i | 0 <= i < |rs| :: es[i] == AsEvent(f, rs[i])
  {
    seq(|rs|, i requires 0 <= i < |rs| => AsEvent(f, rs[i]))
  }

  /** The events of some rows in file order. */
  function FlatAll(f: File, rs: seq<Row>): seq<Buffered> {
    if rs == [] then [] else FlatAll(f, rs[..|rs| - 1]) + Flat(AsEvent(f, rs[|rs| - 1]))
  }

  /** Offsets grow and are positive, every row has an event, and the file fits the buffer. */
  ghost predicate Ordinary(f: File) {
    && (forall i, j | 0 <= i < j < |f.rows| :: f.rows[i].end < f.rows[j].end)
    && (forall i | 0 <= i < |f.rows| :: 1 <= f.rows[i].end <= MAX_SAFE_INTEGER && f.convert(f.rows[i]) != [])
    && |FlatAll(f, f.rows)| <= PER_SESSION_BUFFER
  }

  /** `beforeOffset`: the first buffered event's offset, or the largest number. */
  function Before(s: Session): int {
    if s.events == [] then MAX_SAFE_INTEGER else s.events[0].offset
  }

  /** One `loadEarlier` when the file has its first `m` rows. */
  function Page(f: File, m: nat, s: Session, limit: int): Session
    requires m <= |f.rows|
  {
    OnChunk(s, AsEvents(f, Answer(f.rows[..m], Before(s), limit)))
  }

  /** The buffer holds exactly rows `k` to `m`. */
  ghost predicate Window(f: File, s: Session, k: nat, m: nat) {
    k <= m <= |f.rows| && s.events == FlatAll(f, f.rows[k..m])
  }

  /** Where the window begins after one page. */
  function Earlier(k: nat, m: nat, limit: int): nat {
    if limit <= 0 then k
    else if k == m then (if m <= limit then 0 else m - limit)
    else if k + 1 <= limit then 0 else k + 1 - limit
  }

  /** The end of the rows that a page may answer with: the oldest known one is included. */
  function Top(k: nat, m: nat): nat {
    if k == m then m else k + 1
  }

  // ----- the events of a stretch of rows -----

  lemma {:induction false} FlatAllConcat(f: File, a: seq<Row>, b: seq<Row>)
    ensures FlatAll(f, a + b) == FlatAll(f, a) + FlatAll(f, b)
    decreases |b|
  {
    if b == [] {
      assert a + b == a;
    } else {
      var init := b[..|b| - 1];
      assert (a + b)[..|a + b| - 1] == a + init;
      FlatAllConcat(f, a, init);
    }
  }

  lemma {:induction false} FlatAllMember(f: File, rs: seq<Row>, e: Buffered)
    requires e in FlatAll(f, rs)
    ensures exists i :: 0 <= i < |rs| && rs[i].end == e.offset
  {
    var init, last := rs[..|rs| - 1], rs[|rs| - 1];
    if e in FlatAll(f, init) {
      FlatAllMember(f, init, e);
      var i :| 0 <= i < |init| && init[i].end == e.offset;
      assert rs[i].end == e.offset;
    } else {
      assert last.end == e.offset;
    }
  }

  lemma {:induction false} FlatAllHas(f: File, rs: seq<Row>, i: nat)
    requires i < |rs| && f.convert(rs[i]) != []
    ensures Has(FlatAll(f, rs), rs[i].end)
  {
    var init, last := rs[..|rs| - 1], rs[|rs| - 1];
    var all := FlatAll(f, rs);
    if i == |rs| - 1 {
      assert all[|FlatAll(f, init)|] == Flat(AsEvent(f, last))[0];
    } else {
      FlatAllHas(f, init, i);
      var j :| 0 <= j < |FlatAll(f, init)| && FlatAll(f, init)[j].offset == init[i].end;
      assert all[j].offset == rs[i].end;
    }
  }

  lemma WindowHas(f: File, k: nat, m: nat, i: nat)
    requires Ordinary(f) && k <= m <= |f.rows| && i < |f.rows|
    ensures Has(FlatAll(f, f.rows[k..m]), f.rows[i].end) <==> k <= i < m
  {
    var rs := f.rows[k..m];
    if k <= i < m {
      assert rs[i - k] == f.rows[i];
      FlatAllHas(f, rs, i - k);
    }
    if Has(FlatAll(f, rs), f.rows[i].end) {
      var j :| 0 <= j < |FlatAll(f, rs)| && FlatAll(f, rs)[j].offset == f.rows[i].end;
      FlatAllMember(f, rs, FlatAll(f, rs)[j]);
      var p :| 0 <= p < |rs| && rs[p].end == f.rows[i].end;
      assert rs[p] == f.rows[k + p];
      assert k + p == i;
    }
  }

  lemma {:induction false} WindowSorted(f: File, k: nat, m: nat)
    requires Ordinary(f) && k <= m <= |f.rows|
    ensures SortedBy(ByOffset, FlatAll(f, f.rows[k..m]))
    decreases m - k
  {
    if k < m {
      WindowSorted(f, k, m - 1);
      FlatAllPush(f, k, m);
      hide FlatAll;
      var a, b := FlatAll(f, f.rows[k..m - 1]), Flat(AsEvent(f, f.rows[m - 1]));
      forall i, j | 0 <= i < j < |a + b| ensures ByOffset((a + b)[i], (a + b)[j]) {
        if i < |a| <= j {
          FlatAllMember(f, f.rows[k..m - 1], a[i]);
          var p :| 0 <= p < |f.rows[k..m - 1]| && f.rows[k..m - 1][p].end == a[i].offset;
          assert f.rows[k + p].end < f.rows[m - 1].end;
        }
      }
    }
  }

  lemma WindowFits(f: File, k: nat, m: nat)
    requires Ordinary(f) && k <= m <= |f.rows|
    ensures |FlatAll(f, f.rows[k..m])| <= PER_SESSION_BUFFER
  {
    FlatAllConcat(f, f.rows[..k], f.rows[k..m]);
    assert f.rows[..k] + f.rows[k..m] == f.rows[..m];
    FlatAllConcat(f, f.rows[..m], f.rows[m..]);
    assert f.rows[..m] + f.rows[m..] == f.rows;
  }

  lemma {:induction false} FirstOffset(f: File, k: nat, m: nat)
    requires Ordinary(f) && k < m <= |f.rows|
    ensures FlatAll(f, f.rows[k..m]) != [] && FlatAll(f, f.rows[k..m])[0].offset == f.rows[k].end
  {
    FlatAllConcat(f, f.rows[k..k + 1], f.rows[k + 1..m]);
    assert f.rows[k..k + 1] + f.rows[k + 1..m] == f.rows[k..m];
    assert f.rows[k..k + 1] == [f.rows[k]] && [f.rows[k]][..0] == [];
    assert FlatAll(f, [f.rows[k]]) == Flat(AsEvent(f, f.rows[k]));
    assert f.convert(f.rows[k]) != [];
  }

  lemma NoEvents(f: File, rs: seq<Row>)
    ensures rs == [] ==> FlatAll(f, rs) == []
  {
  }

  lemma FlatAllPush(f: File, a: nat, b: nat)
    requires a < b <= |f.rows|
    ensures FlatAll(f, f.rows[a..b]) == FlatAll(f, f.rows[a..b - 1]) + Flat(AsEvent(f, f.rows[b - 1]))
  {
    var rs := f.rows[a..b];
    assert rs[..|rs| - 1] == f.rows[a..b - 1];
  }

  lemma NewFlatPush(existing: seq<Buffered>, f: File, a: nat, b: nat)
    requires a < b <= |f.rows|
    ensures NewFlat(existing, AsEvents(f, f.rows[a..b])) ==
      NewFlat(existing, AsEvents(f, f.rows[a..b - 1])) + FlatIfNew(existing, AsEvent(f, f.rows[b - 1]))
  {
    hide FlatIfNew, AsEvent;
    var es := AsEvents(f, f.rows[a..b]);
    assert es[..|es| - 1] == AsEvents(f, f.rows[a..b - 1]);
  }

  /** The events of rows `a` to `b`, if there are such rows. */
  function Piece(f: File, a: nat, b: nat): seq<Buffered>
    requires b <= |f.rows|
  {
    if a < b then FlatAll(f, f.rows[a..b]) else []
  }

  lemma PiecePush(f: File, a: nat, b: nat)
    requires 0 < b <= |f.rows|
    ensures Piece(f, a, b) == Piece(f, a, b - 1) + if a < b then Flat(AsEvent(f, f.rows[b - 1])) else []
  {
    hide FlatAll, Flat;
    if a < b {
      FlatAllPush(f, a, b);
      NoEvents(f, f.rows[a..a]);
    }
  }

  lemma PieceJoin(f: File, a: nat, b: nat, c: nat)
    requires a <= b <= c <= |f.rows|
    ensures Piece(f, a, b) + Piece(f, b, c) == Piece(f, a, c)
  {
    hide FlatAll;
    if a < b < c {
      FlatAllConcat(f, f.rows[a..b], f.rows[b..c]);
      assert f.rows[a..b] + f.rows[b..c] == f.rows[a..c];
    }
  }

  lemma PieceIs(f: File, a: nat, b: nat)
    requires a <= b <= |f.rows|
    ensures Piece(f, a, b) == FlatAll(f, f.rows[a..b])
  {
    NoEvents(f, f.rows[a..b]);
  }

  /** What the merge adds for rows `a` to `b` when the buffer holds rows `k` to `m`. */
  lemma {:induction false} NewFlatOfRows(f: File, k: nat, m: nat, a: nat, b: nat)
    requires Ordinary(f) && k <= m <= |f.rows| && a <= b <= |f.rows|
    ensures NewFlat(FlatAll(f, f.rows[k..m]), AsEvents(f, f.rows[a..b]))
         == Piece(f, a, Min(b, k)) + Piece(f, Max(a, m), b)
    decreases b - a
  {
    hide FlatAll, Flat, Ordinary, Has, NewFlat, Piece;
    var existing := FlatAll(f, f.rows[k..m]);
    if a == b {
      NoNews(existing);
      assert AsEvents(f, f.rows[a..b]) == [];
      NoPiece(f, a, Min(b, k));
      NoPiece(f, Max(a, m), b);
    } else {
      NewFlatOfRows(f, k, m, a, b - 1);
      WindowHas(f, k, m, b - 1);
      NewFlatPush(existing, f, a, b);
      PiecePush(f, Max(a, m), b);
      if b <= k {
        PiecePush(f, a, b);
        NoPiece(f, Max(a, m), b);
        NoPiece(f, Max(a, m), b - 1);
      }
    }
  }

  lemma NoPiece(f: File, a: nat, b: nat)
    requires b <= |f.rows|
    ensures b <= a ==> Piece(f, a, b) == []
  {
  }

  lemma PieceOffsets(f: File, a: nat, b: nat, e: Buffered)
    requires Ordinary(f) && b <= |f.rows| && e in Piece(f, a, b)
    ensures exists i :: a <= i < b && f.rows[i].end == e.offset
  {
    FlatAllMember(f, f.rows[a..b], e);
    var p :| 0 <= p < |f.rows[a..b]| && f.rows[a..b][p].end == e.offset;
    assert f.rows[a + p].end == e.offset;
  }

  lemma PiecesApart(f: File, a: nat, b: nat, c: nat)
    requires Ordinary(f) && a <= b <= c <= |f.rows|
    ensures forall x, y | x in Piece(f, a, b) && y in Piece(f, b, c) :: ByOffset(x, y) && !ByOffset(y, x)
  {
    hide Piece;
    forall x, y | x in Piece(f, a, b) && y in Piece(f, b, c) ensures x.offset < y.offset {
      PieceOffsets(f, a, b, x);
      PieceOffsets(f, b, c, y);
    }
  }

  lemma PieceSorted(f: File, a: nat, b: nat)
    requires Ordinary(f) && b <= |f.rows|
    ensures SortedBy(ByOffset, Piece(f, a, b))
  {
    if a < b { WindowSorted(f, a, b); }
  }

  /** Earlier and later rows in front of the ones between them, sorted. */
  lemma SortPieces(f: File, a: nat, k: nat, m: nat, b: nat)
    requires Ordinary(f) && a <= k <= m <= b <= |f.rows|
    ensures Sort(ByOffset, Piece(f, a, k) + Piece(f, m, b) + Piece(f, k, m)) == Piece(f, a, b)
  {
    hide Piece, Sort, Ordinary;
    var left, mid, right := Piece(f, a, k), Piece(f, k, m), Piece(f, m, b);
    PieceSorted(f, a, k);
    PieceSorted(f, k, m);
    PieceSorted(f, m, b);
    PiecesApart(f, k, m, b);
    PiecesApart(f, a, k, b);
    PieceJoin(f, k, m, b);
    PieceJoin(f, a, k, b);
    assert left + right + mid == left + (right + mid);
    SortPrefix(ByOffset, left, right + mid);
    SortSwap(ByOffset, right, mid);
  }

  /** A chunk of any rows that the window touches extends the window at both ends, in order. */
  lemma ChunkExtendsWindow(f: File, s: Session, k: nat, m: nat, a: nat, b: nat)
    requires Ordinary(f) && Window(f, s, k, m) && a < b <= |f.rows| && k <= b && a <= m
    ensures Window(f, OnChunk(s, AsEvents(f, f.rows[a..b])), Min(a, k), Max(m, b))
    ensures OnChunk(s, AsEvents(f, f.rows[a..b])).noMore == s.noMore
  {
    hide FlatAll, Flat, Ordinary, Has, NewFlat, Sort, Piece;
    var first, top := Min(a, k), Max(m, b);
    NewFlatOfRows(f, k, m, a, b);
    PieceIs(f, k, m);
    PieceIs(f, first, top);
    NoPiece(f, a, Min(b, k));
    NoPiece(f, m, b);
    var incoming := Piece(f, a, Min(b, k)) + Piece(f, m, b);
    assert Piece(f, first, k) == Piece(f, a, Min(b, k)) by { NoPiece(f, first, k); }
    assert Piece(f, m, top) == Piece(f, m, b) by { NoPiece(f, m, top); }
    SortPieces(f, first, k, m, top);
    WindowFits(f, first, top);
    if incoming == [] {
      PieceFilled(f, first, k);
      PieceFilled(f, m, top);
      assert first == k && top == m;
    }
  }

  lemma PieceFilled(f: File, a: nat, b: nat)
    requires Ordinary(f) && b <= |f.rows|
    ensures a < b ==> Piece(f, a, b) != []
  {
    if a < b { FirstOffset(f, a, b); }
  }
}
