/** The browser's per-session event buffer: live frames and history chunks merged without repeats
    (packages/pwa/src/hooks/useHub.ts). */
module MergeBuffer {
  import opened Sequences
  import opened StableSort

  const PER_SESSION_BUFFER: nat := 2000

  /** One transcript row as a frame carries it. */
  datatype EventRow = EventRow(offset: int, payload: seq<string>)

  /** One event of a row, keyed by the row's offset and its place in the row. */
  datatype Buffered = Buffered(offset: int, index: nat, event: string)

  datatype Session = Session(events: seq<Buffered>, noMore: bool)

  function Flat(row: EventRow): (r: seq<Buffered>)
    ensures |r| == |row.payload|
    ensures forall i | 0 <= i < |r| :: r[i] == Buffered(row.offset, i, row.payload[i])
  {
    seq(|row.payload|, i requires 0 <= i < |row.payload| => Buffered(row.offset, i, row.payload[i]))
  }

  predicate Has(buf: seq<Buffered>, offset: int) {
    exists i :: 0 <= i < |buf| && buf[i].offset == offset
  }

  /** `appendEventToBuffer`. */
  function Append(existing: seq<Buffered>, row: EventRow, max: nat): seq<Buffered> {
    if Has(existing, row.offset) then existing else LastN(existing + Flat(row), max)
  }

  /** The reducer's `event` case. */
  function OnEvent(s: Session, row: EventRow): Session {
    if Has(s.events, row.offset) then s else Session(Append(s.events, row, PER_SESSION_BUFFER), false)
  }

  predicate ByOffset(a: Buffered, b: Buffered) {
    a.offset <= b.offset
  }

  /** The events of the rows whose offset the buffer does not have. */
  function NewFlat(existing: seq<Buffered>, rows: seq<EventRow>): seq<Buffered> {
    if rows == [] then []
    else NewFlat(existing, rows[..|rows| - 1]) + FlatIfNew(existing, rows[|rows| - 1])
  }

  function FlatIfNew(existing: seq<Buffered>, row: EventRow): seq<Buffered> {
    if Has(existing, row.offset) then [] else Flat(row)
  }

  /** The reducer's `history_chunk` case. */
  function OnChunk(s: Session, rows: seq<EventRow>): Session {
    if rows == [] then s.(noMore := true)
    else
      var incoming := NewFlat(s.events, rows);
      if incoming == [] then s
      else s.(events := LastN(Sort(ByOffset, incoming + s.events), PER_SESSION_BUFFER))
  }

  /** The events of a row, pushed one by one. */
  method FlatRow(h: EventRow) returns (r: seq<Buffered>)
    ensures r == Flat(h)
  {
    r := [];
    for i := 0 to |h.payload|
      invariant r == Flat(h)[..i]
    {
      r := r + [Buffered(h.offset, i, h.payload[i])];
    }
  }

  method HistoryChunk(s: Session, rows: seq<EventRow>) returns (next: Session)
    ensures next == OnChunk(s, rows)
  {
    if |rows| == 0 {
      return s.(noMore := true);
    }
    var deduped := set e | e in s.events :: e.offset;
    var incoming: seq<Buffered> := [];
    for k := 0 to |rows|
      invariant incoming == NewFlat(s.events, rows[..k])
    {
      var h := rows[k];
      assert rows[..k + 1][..k] == rows[..k];
      assert h.offset in deduped <==> Has(s.events, h.offset) by { Known(s.events, h.offset); }
      if h.offset !in deduped {
        var flat := FlatRow(h);
        incoming := incoming + flat;
      }
    }
    assert rows[..|rows|] == rows;
    if |incoming| == 0 {
      return s;
    }
    hide Sort, NewFlat;
    var merged := Sort(ByOffset, incoming + s.events);
    next := s.(events := if |merged| > PER_SESSION_BUFFER then merged[|merged| - PER_SESSION_BUFFER..] else merged);
  }

  lemma Known(buf: seq<Buffered>, offset: int)
    ensures offset in (set e | e in buf :: e.offset) <==> Has(buf, offset)
  {
    if Has(buf, offset) {
      var i :| 0 <= i < |buf| && buf[i].offset == offset;
      assert buf[i] in buf;
    }
  }

  // ----- each event once -----

  ghost predicate Unique(s: seq<Buffered>) {
    forall i, j | 0 <= i < j < |s| :: s[i].offset != s[j].offset || s[i].index != s[j].index
  }

  ghost predicate DistinctRows(rows: seq<EventRow>) {
    forall i, j | 0 <= i < j < |rows| :: rows[i].offset != rows[j].offset
  }

  lemma UniqueConcat(a: seq<Buffered>, b: seq<Buffered>)
    requires Unique(a) && Unique(b)
    requires forall x, y | x in a && y in b :: x.offset != y.offset
    ensures Unique(a + b)
  {
    var s := a + b;
    forall i, j | 0 <= i < j < |s| ensures s[i].offset != s[j].offset || s[i].index != s[j].index {
      if i < |a| <= j { assert s[i] in a && s[j] in b; }
    }
  }

  lemma UniqueSplice(x: Buffered, rest: seq<Buffered>, k: nat)
    requires k <= |rest| && Unique([x] + rest)
    ensures Unique(rest[..k] + [x] + rest[k..])
  {
    var t, s := [x] + rest, rest[..k] + [x] + rest[k..];
    forall i, j | 0 <= i < j < |s| ensures s[i].offset != s[j].offset || s[i].index != s[j].index {
      var p := if i < k then i + 1 else if i == k then 0 else i;
      var q := if j < k then j + 1 else if j == k then 0 else j;
      assert t[p] == s[i] && t[q] == s[j] && p != q;
    }
  }

  lemma {:induction false} UniqueSort(s: seq<Buffered>)
    requires Unique(s)
    ensures Unique(Sort(ByOffset, s))
  {
    if s != [] {
      var rest := Sort(ByOffset, s[1..]);
      UniqueSort(s[1..]);
      SortMembers(ByOffset, s[1..]);
      forall y | y in rest ensures y.offset != s[0].offset || y.index != s[0].index {
        var i :| 0 <= i < |s[1..]| && s[1..][i] == y;
        assert s[i + 1] == y;
      }
      assert Unique([s[0]] + rest);
      UniqueSplice(s[0], rest, Place(ByOffset, s[0], rest));
    }
  }

  lemma {:induction false} NewFlatMembers(existing: seq<Buffered>, rows: seq<EventRow>, e: Buffered)
    ensures e in NewFlat(existing, rows) <==>
      !Has(existing, e.offset) && exists r :: r in rows && e in Flat(r)
  {
    if rows != [] {
      var init, last := rows[..|rows| - 1], rows[|rows| - 1];
      NewFlatMembers(existing, init, e);
      assert rows == init + [last];
    }
  }

  lemma {:induction false} NewFlatUnique(existing: seq<Buffered>, rows: seq<EventRow>)
    requires DistinctRows(rows)
    ensures Unique(NewFlat(existing, rows))
  {
    if rows != [] {
      var init, last := rows[..|rows| - 1], rows[|rows| - 1];
      NewFlatUnique(existing, init);
      forall x, y | x in NewFlat(existing, init) && y in FlatIfNew(existing, last) ensures x.offset != y.offset {
        NewFlatMembers(existing, init, x);
        var r :| r in init && x in Flat(r);
        assert exists i :: 0 <= i < |init| && rows[i] == r;
      }
      UniqueConcat(NewFlat(existing, init), FlatIfNew(existing, last));
    }
  }

  lemma HasMember(buf: seq<Buffered>, e: Buffered)
    requires e in buf
    ensures Has(buf, e.offset)
  {
    var i :| 0 <= i < |buf| && buf[i] == e;
  }

  lemma MergedUnique(existing: seq<Buffered>, rows: seq<EventRow>)
    requires Unique(existing) && DistinctRows(rows)
    ensures Unique(NewFlat(existing, rows) + existing)
  {
    NewFlatUnique(existing, rows);
    forall x, y | x in NewFlat(existing, rows) && y in existing ensures x.offset != y.offset {
      NewFlatMembers(existing, rows, x);
      HasMember(existing, y);
    }
    UniqueConcat(NewFlat(existing, rows), existing);
  }

  lemma AppendedUnique(existing: seq<Buffered>, row: EventRow)
    requires Unique(existing) && !Has(existing, row.offset)
    ensures Unique(existing + Flat(row))
  {
    forall x, y | x in existing && y in Flat(row) ensures x.offset != y.offset {
      HasMember(existing, x);
    }
    UniqueConcat(existing, Flat(row));
  }

  datatype Delivery = Live(row: EventRow) | Chunk(rows: seq<EventRow>)

  function Deliver(s: Session, d: Delivery): Session {
    match d
    case Live(row) => OnEvent(s, row)
    case Chunk(rows) => OnChunk(s, rows)
  }

  function DeliverAll(s: Session, ds: seq<Delivery>): Session {
    if ds == [] then s else Deliver(DeliverAll(s, ds[..|ds| - 1]), ds[|ds| - 1])
  }

  const EMPTY := Session([], false)

  // ----- whether there is more -----

  /** Delivery `i` is an empty chunk, and no live row after it was new. */
  ghost predicate LastVerdict(ds: seq<Delivery>, i: nat) {
    && i < |ds| && ds[i] == Chunk([])
    && forall j | i < j < |ds| && ds[j].Live? :: Has(DeliverAll(EMPTY, ds[..j]).events, ds[j].row.offset)
  }

  lemma VerdictPush(ds: seq<Delivery>, d: Delivery, i: nat)
    ensures LastVerdict(ds + [d], i) <==>
              if i == |ds| then d == Chunk([])
              else LastVerdict(ds, i) && (d.Live? ==> Has(DeliverAll(EMPTY, ds).events, d.row.offset))
  {
    var all := ds + [d];
    assert all[..|ds|] == ds;
    forall j | 0 <= j < |ds| ensures all[j] == ds[j] && all[..j] == ds[..j] {}
    if LastVerdict(all, i) && i < |ds| {
      assert d.Live? ==> Has(DeliverAll(EMPTY, all[..|ds|]).events, all[|ds|].row.offset);
    }
  }

  /** For every run: a session says that it has no more history exactly if an empty chunk came and no
      live row that was new came after it; chunks with rows change nothing of that. */
  lemma {:induction false} NoMoreIff(ds: seq<Delivery>)
    ensures DeliverAll(EMPTY, ds).noMore <==> exists i :: LastVerdict(ds, i)
  {
    hide NewFlat, Sort;
    if ds != [] {
      var init, d := ds[..|ds| - 1], ds[|ds| - 1];
      assert init + [d] == ds;
      NoMoreIff(init);
      forall i: nat
        ensures LastVerdict(ds, i) <==>
                  if i == |init| then d == Chunk([])
                  else LastVerdict(init, i) && (d.Live? ==> Has(DeliverAll(EMPTY, init).events, d.row.offset))
      {
        VerdictPush(init, d, i);
      }
      assert !LastVerdict(init, |init|);
      NoMoreStep(DeliverAll(EMPTY, init), d);
      if exists i :: LastVerdict(init, i) {
        var i :| LastVerdict(init, i);
        assert d == Chunk([]) ==> LastVerdict(ds, |init|);
        assert (d.Live? ==> Has(DeliverAll(EMPTY, init).events, d.row.offset)) ==> LastVerdict(ds, i);
      } else {
        assert d == Chunk([]) ==> LastVerdict(ds, |init|);
      }
    }
  }

  lemma NoMoreStep(s: Session, d: Delivery)
    ensures Deliver(s, d).noMore
         <==> d == Chunk([]) || (s.noMore && (d.Live? ==> Has(s.events, d.row.offset)))
  {
  }

  /** In every run whose chunks list each offset once, with repeats, any order and evictions: no
      event is in the buffer twice and the buffer never exceeds its cap. */
  lemma {:induction false} NeverTwiceNeverOverCap(ds: seq<Delivery>)
    requires forall d | d in ds :: d.Chunk? ==> DistinctRows(d.rows)
    ensures var s := DeliverAll(EMPTY, ds); Unique(s.events) && |s.events| <= PER_SESSION_BUFFER
  {
    if ds != [] {
      var init, last := ds[..|ds| - 1], ds[|ds| - 1];
      assert forall d | d in init :: d in ds;
      NeverTwiceNeverOverCap(init);
      var s := DeliverAll(EMPTY, init);
      match last {
        case Live(row) =>
          if !Has(s.events, row.offset) {
            AppendedUnique(s.events, row);
          }
        case Chunk(rows) =>
          assert last in ds;
          MergedUnique(s.events, rows);
          UniqueSort(NewFlat(s.events, rows) + s.events);
      }
    }
  }

  // ----- the union of what was delivered -----

  /** Every event of the rows of `file` at the offsets `offs`. */
  ghost function EventsOf(file: map<int, seq<string>>, offs: set<int>): set<Buffered> {
    set o, i | o in offs && o in file && 0 <= i < |file[o]| :: Buffered(o, i, file[o][i])
  }

  ghost predicate RowOf(file: map<int, seq<string>>, row: EventRow) {
    row.offset in file && file[row.offset] == row.payload
  }

  ghost predicate FromFile(file: map<int, seq<string>>, d: Delivery) {
    match d
    case Live(row) => RowOf(file, row)
    case Chunk(rows) => DistinctRows(rows) && forall r | r in rows :: RowOf(file, r)
  }

  ghost function OffsetsOf(d: Delivery): set<int> {
    match d
    case Live(row) => {row.offset}
    case Chunk(rows) => set r | r in rows :: r.offset
  }

  ghost function AllOffsets(ds: seq<Delivery>): set<int> {
    set d, o | d in ds && o in OffsetsOf(d) :: o
  }

  ghost function Members(s: seq<Buffered>): set<Buffered> {
    set e | e in s
  }

  lemma {:induction false} UniqueSize(s: seq<Buffered>)
    requires Unique(s)
    ensures |Members(s)| == |s|
  {
    if s != [] {
      var init, last := s[..|s| - 1], s[|s| - 1];
      UniqueSize(init);
      assert last !in init;
      assert Members(s) == Members(init) + {last};
    }
  }

  lemma SubsetSize<T>(a: set<T>, b: set<T>)
    requires a <= b
    ensures |a| <= |b|
  {
    assert b == a + (b - a);
  }

  lemma FlatMembers(file: map<int, seq<string>>, row: EventRow)
    requires RowOf(file, row)
    ensures Members(Flat(row)) == EventsOf(file, {row.offset})
  {
    forall e | e in EventsOf(file, {row.offset}) ensures e in Flat(row) {
      assert Flat(row)[e.index] == e;
    }
  }

  lemma EventsOfUnion(file: map<int, seq<string>>, a: set<int>, b: set<int>)
    ensures EventsOf(file, a + b) == EventsOf(file, a) + EventsOf(file, b)
  {
  }

  ghost predicate Holds(file: map<int, seq<string>>, s: Session, offs: set<int>) {
    Unique(s.events) && Members(s.events) == EventsOf(file, offs)
  }

  lemma KnownOffset(file: map<int, seq<string>>, s: Session, offs: set<int>, row: EventRow)
    requires Holds(file, s, offs) && RowOf(file, row) && Has(s.events, row.offset)
    ensures EventsOf(file, {row.offset}) <= EventsOf(file, offs)
  {
    var i :| 0 <= i < |s.events| && s.events[i].offset == row.offset;
    assert s.events[i] in Members(s.events);
  }

  lemma LiveHolds(file: map<int, seq<string>>, s: Session, offs: set<int>, row: EventRow)
    requires Holds(file, s, offs) && RowOf(file, row)
    requires |EventsOf(file, offs + {row.offset})| <= PER_SESSION_BUFFER
    ensures Holds(file, OnEvent(s, row), offs + {row.offset})
  {
    EventsOfUnion(file, offs, {row.offset});
    if Has(s.events, row.offset) {
      KnownOffset(file, s, offs, row);
    } else {
      AppendedUnique(s.events, row);
      FlatMembers(file, row);
      var all := s.events + Flat(row);
      assert Members(all) == Members(s.events) + Members(Flat(row));
      UniqueSize(all);
    }
  }

  lemma NewFlatEvents(file: map<int, seq<string>>, s: Session, offs: set<int>, rows: seq<EventRow>)
    requires Holds(file, s, offs) && forall r | r in rows :: RowOf(file, r)
    ensures Members(s.events) + Members(NewFlat(s.events, rows)) == EventsOf(file, offs + OffsetsOf(Chunk(rows)))
  {
    var more := OffsetsOf(Chunk(rows));
    EventsOfUnion(file, offs, more);
    forall e ensures e in EventsOf(file, offs) + Members(NewFlat(s.events, rows)) <==> e in EventsOf(file, offs) + EventsOf(file, more) {
      NewFlatMembers(s.events, rows, e);
      if e in NewFlat(s.events, rows) {
        var r :| r in rows && e in Flat(r);
        FlatMembers(file, r);
        assert e in EventsOf(file, {r.offset});
        assert r.offset in more;
      } else if e in EventsOf(file, more) {
        var r :| r in rows && r.offset == e.offset;
        FlatMembers(file, r);
        assert e in Members(Flat(r));
        KnownOffset(file, s, offs, r);
        assert e in EventsOf(file, {r.offset});
      }
    }
  }

  /** Sorting moves events but neither adds nor repeats any. */
  lemma SortedMembers(all: seq<Buffered>)
    requires Unique(all)
    ensures Unique(Sort(ByOffset, all)) && Members(Sort(ByOffset, all)) == Members(all)
    ensures |Sort(ByOffset, all)| == |Members(all)|
  {
    UniqueSort(all);
    SortMembers(ByOffset, all);
    UniqueSize(all);
  }

  lemma MembersConcat(a: seq<Buffered>, b: seq<Buffered>)
    ensures Members(a + b) == Members(a) + Members(b)
  {
  }

  lemma ChunkHolds(file: map<int, seq<string>>, s: Session, offs: set<int>, rows: seq<EventRow>)
    requires Holds(file, s, offs) && FromFile(file, Chunk(rows))
    requires |EventsOf(file, offs + OffsetsOf(Chunk(rows)))| <= PER_SESSION_BUFFER
    ensures Holds(file, OnChunk(s, rows), offs + OffsetsOf(Chunk(rows)))
  {
    hide EventsOf, NewFlat, Sort, Unique, RowOf, OffsetsOf, DistinctRows;
    NewFlatEvents(file, s, offs, rows);
    var incoming := NewFlat(s.events, rows);
    if rows == [] { NoNews(s.events); }
    if incoming == [] {
      assert Members(incoming) == {};
      assert OnChunk(s, rows).events == s.events;
    } else {
      MergedUnique(s.events, rows);
      SortedMembers(incoming + s.events);
      MembersConcat(incoming, s.events);
      assert Members(incoming) + Members(s.events) == Members(s.events) + Members(incoming);
    }
  }

  lemma NoNews(existing: seq<Buffered>)
    ensures NewFlat(existing, []) == []
  {
  }

  /** Live frames and history chunks in any interleaving, order and repetition: as long as the
      delivered events fit the cap, the buffer holds exactly their union, each event once. */
  lemma {:induction false} BufferIsUnion(file: map<int, seq<string>>, ds: seq<Delivery>)
    requires forall d | d in ds :: FromFile(file, d)
    requires |EventsOf(file, AllOffsets(ds))| <= PER_SESSION_BUFFER
    ensures Holds(file, DeliverAll(EMPTY, ds), AllOffsets(ds))
  {
    if ds == [] {
      assert Members([]) == {};
    } else {
      var init, last := ds[..|ds| - 1], ds[|ds| - 1];
      assert ds == init + [last];
      assert AllOffsets(ds) == AllOffsets(init) + OffsetsOf(last);
      EventsOfUnion(file, AllOffsets(init), OffsetsOf(last));
      SubsetSize(EventsOf(file, AllOffsets(init)), EventsOf(file, AllOffsets(ds)));
      BufferIsUnion(file, init);
      assert last in ds;
      match last {
        case Live(row) => LiveHolds(file, DeliverAll(EMPTY, init), AllOffsets(init), row);
        case Chunk(rows) => ChunkHolds(file, DeliverAll(EMPTY, init), AllOffsets(init), rows);
      }
    }
  }

  // ----- order -----

  lemma ByOffsetIsPreorder()
    ensures TotalPreorder(ByOffset)
  {
  }

  /** A chunk that brings anything new leaves the buffer sorted by offset. */
  lemma ChunkSorts(s: Session, rows: seq<EventRow>)
    requires OnChunk(s, rows).events != s.events
    ensures SortedBy(ByOffset, OnChunk(s, rows).events)
  {
    ByOffsetIsPreorder();
    SortIsSorted(ByOffset, NewFlat(s.events, rows) + s.events);
  }

  /** A live frame is appended, not inserted: a sorted buffer stays sorted exactly when the frame is
      a repeat, is empty, comes after the last event, or pushes every older event out.  A synthetic
      run event, whose offset is negative and new, meets none of these on a buffer that holds
      transcript rows. */
  lemma LiveKeepsOrderIff(existing: seq<Buffered>, row: EventRow, max: nat)
    requires SortedBy(ByOffset, existing)
    ensures SortedBy(ByOffset, Append(existing, row, max)) <==>
      || Has(existing, row.offset)
      || row.payload == []
      || |row.payload| >= max
      || existing == []
      || existing[|existing| - 1].offset < row.offset
  {
    if !Has(existing, row.offset) && existing != [] && row.payload != [] && |row.payload| < max {
      var all, kept := existing + Flat(row), Append(existing, row, max);
      var cut := |all| - |kept|;
      assert kept == all[cut..];
      if row.offset < existing[|existing| - 1].offset {
        var i := |existing| - 1 - cut;
        assert kept[i] == existing[|existing| - 1] && kept[i + 1] == Flat(row)[0];
        assert !ByOffset(kept[i], kept[i + 1]);
      } else {
        assert existing[|existing| - 1].offset != row.offset;
        AppendAfterSorted(existing, row);
      }
    } else {
      AppendSortedCases(existing, row, max);
    }
  }

  lemma AppendAfterSorted(existing: seq<Buffered>, row: EventRow)
    requires SortedBy(ByOffset, existing)
    requires existing == [] || existing[|existing| - 1].offset < row.offset
    ensures SortedBy(ByOffset, existing + Flat(row))
  {
    var all := existing + Flat(row);
    forall p, q | 0 <= p < q < |all| ensures ByOffset(all[p], all[q]) {
      if p < |existing| <= q {
        assert p == |existing| - 1 || ByOffset(existing[p], existing[|existing| - 1]);
      }
    }
  }

  lemma SuffixSorted(s: seq<Buffered>, k: nat)
    requires SortedBy(ByOffset, s) && k <= |s|
    ensures SortedBy(ByOffset, s[k..])
  {
  }

  lemma SameOffsetSorted(s: seq<Buffered>, offset: int)
    requires forall i | 0 <= i < |s| :: s[i].offset == offset
    ensures SortedBy(ByOffset, s)
  {
  }

  lemma AppendSortedCases(existing: seq<Buffered>, row: EventRow, max: nat)
    requires SortedBy(ByOffset, existing)
    requires Has(existing, row.offset) || existing == [] || row.payload == [] || |row.payload| >= max
    ensures SortedBy(ByOffset, Append(existing, row, max))
  {
    hide Has, SortedBy;
    if !Has(existing, row.offset) {
      var flat := Flat(row);
      var all := existing + flat;
      var cut := |all| - |LastN(all, max)|;
      assert LastN(all, max) == all[cut..];
      if row.payload == [] {
        assert all == existing;
        SuffixSorted(existing, cut);
      } else {
        assert all[cut..] == flat[cut - |existing|..];
        SameOffsetSorted(all[cut..], row.offset);
      }
    }
  }

  // ----- what a full buffer gives up -----

  /** A chunk that brings something drops events only if they and the buffer together exceed the cap,
      keeps exactly the cap then, and drops none with a greater offset than one it keeps. */
  lemma ChunkDropsOldest(s: Session, rows: seq<EventRow>) returns (dropped: seq<Buffered>)
    ensures var kept := OnChunk(s, rows).events;
            var all := NewFlat(s.events, rows) + s.events;
            && multiset(all) == multiset(dropped) + multiset(if NewFlat(s.events, rows) == [] then s.events else kept)
            && (NewFlat(s.events, rows) == [] ==> kept == s.events && dropped == [])
            && (NewFlat(s.events, rows) != [] ==>
                  && |kept| == (if |all| > PER_SESSION_BUFFER then PER_SESSION_BUFFER else |all|)
                  && forall x, y | x in dropped && y in kept :: x.offset <= y.offset)
  {
    hide NewFlat, Sort, LastN;
    if rows == [] { NoNews(s.events); }
    var incoming := NewFlat(s.events, rows);
    if incoming == [] {
      dropped := [];
      assert [] + s.events == s.events;
    } else {
      ByOffsetIsPreorder();
      SortIsSorted(ByOffset, incoming + s.events);
      SortIsPermutation(ByOffset, incoming + s.events);
      dropped := NewestOf(Sort(ByOffset, incoming + s.events), PER_SESSION_BUFFER);
    }
  }

  /** The last events of a sorted buffer, and those before them. */
  lemma {:induction false} NewestOf(merged: seq<Buffered>, max: nat) returns (dropped: seq<Buffered>)
    requires SortedBy(ByOffset, merged)
    ensures multiset(merged) == multiset(dropped) + multiset(LastN(merged, max))
    ensures |LastN(merged, max)| == if |merged| > max then max else |merged|
    ensures forall x, y | x in dropped && y in LastN(merged, max) :: x.offset <= y.offset
  {
    var kept := LastN(merged, max);
    dropped := merged[..|merged| - |kept|];
    assert kept == merged[|dropped|..];
    assert merged == dropped + kept;
    hide SortedBy;
    forall x, y | x in dropped && y in kept ensures x.offset <= y.offset {
      var i :| 0 <= i < |dropped| && dropped[i] == x;
      var j :| 0 <= j < |kept| && kept[j] == y;
      InSorted(merged, i, |dropped| + j);
    }
  }

  lemma InSorted(s: seq<Buffered>, i: nat, j: nat)
    requires SortedBy(ByOffset, s) && i < j < |s|
    ensures s[i].offset <= s[j].offset
  {
    assert ByOffset(s[i], s[j]);
  }

  /** A live frame pushes out the events at the front, no more than needed. */
  lemma {:induction false} LiveDropsFront(existing: seq<Buffered>, row: EventRow, max: nat) returns (dropped: seq<Buffered>)
    requires !Has(existing, row.offset)
    ensures existing + Flat(row) == dropped + Append(existing, row, max)
    ensures |Append(existing, row, max)| ==
      if |existing| + |row.payload| > max then max else |existing| + |row.payload|
  {
    hide Has;
    var all := existing + Flat(row);
    dropped := all[..|all| - |LastN(all, max)|];
  }
}
