/** Paging back while the file grows and live rows arrive: asking, reading the file, sending the answer
    and merging it are separate steps that interleave with everything else
    (packages/pwa/src/hooks/useSessionTimeline.ts, packages/daemon/src/index.ts, packages/pwa/src/hooks/useHub.ts). */
module AsyncPaging {
  import opened Arithmetic
  import opened Jsonl
  import opened MergeBuffer
  import opened Paging
  import PagingRuns
  import opened StableSort

  /** A request on its way to the daemon, or its answer on the way back.  `top` counts the rows of the
      file up to the end of the answer. */
  datatype Call =
    | Asked(before: int, limit: int)
    | Answered(before: int, rows: seq<Row>, top: nat)
    | Done

  /** The file has its first `written` rows; those before `live` have been delivered live or were there
      before the browser came.  History: the rows shown, the first and the end of them. */
  datatype Sys = Sys(
    written: nat, live: nat, session: Session, calls: seq<Call>, held: set<nat>, lo: nat, hi: nat)

  /** `Ask` is the moment the bound is taken from the buffer; the request itself may leave later. */
  datatype Event = Write | LiveRow | Ask(limit: int) | Read(call: nat) | Deliver(call: nat)

  predicate AtLeast(i: nat, a: nat) {
    a <= i
  }

  ghost function Span(a: nat, b: nat): set<nat> {
    set i: nat | i < b && AtLeast(i, a)
  }

  function FirstRow(c: Call): int
    requires c.Answered?
  {
    c.top - |c.rows|
  }

  /** What `readHistory` makes of a request when the file has these rows. */
  function AnswerTo(rows: seq<Row>, before: int, limit: int): Call {
    Answered(before, Answer(rows, before, limit), |UpTo(rows, before)|)
  }

  predicate Enabled(f: File, x: Sys, e: Event) {
    match e
    case Write => x.written < |f.rows|
    case LiveRow => x.live < x.written <= |f.rows|
    case Ask(_) => true
    case Read(i) => i < |x.calls| && x.calls[i].Asked? && x.written <= |f.rows|
    case Deliver(i) => i < |x.calls| && x.calls[i].Answered? && 0 <= FirstRow(x.calls[i])
  }

  /** Requests may overtake each other and answers too. */
  ghost function Next(f: File, x: Sys, e: Event): Sys {
    if !Enabled(f, x, e) then x
    else
      match e
      case Write => x.(written := x.written + 1)
      case LiveRow =>
        x.(live := x.live + 1, session := OnEvent(x.session, AsEvent(f, f.rows[x.live])),
           held := x.held + Span(x.live, x.live + 1), hi := Max(x.hi, x.live + 1))
      case Ask(limit) => x.(calls := x.calls + [Asked(Before(x.session), limit)])
      case Read(i) => x.(calls := x.calls[i := AnswerTo(f.rows[..x.written], x.calls[i].before, x.calls[i].limit)])
      case Deliver(i) =>
        var c := x.calls[i];
        var y := x.(session := OnChunk(x.session, AsEvents(f, c.rows)), calls := x.calls[i := Done]);
        if c.rows == [] then y
        else y.(held := x.held + Span(FirstRow(c), c.top), lo := Min(x.lo, FirstRow(c)), hi := Max(x.hi, c.top))
  }

  ghost function Run(f: File, x: Sys, steps: seq<Event>): Sys
    decreases |steps|
  {
    if steps == [] then x else Run(f, Next(f, x, steps[0]), steps[1..])
  }

  /** A browser that comes when the file has `n` rows and the live feed is about to bring row `m`. */
  ghost function Arrival(m: nat, n: nat): Sys {
    Sys(n, m, EMPTY, [], {}, m, m)
  }

  // ----- the buffer holds the rows shown -----

  ghost function Contents(f: File): map<int, seq<string>>
    requires Ordinary(f)
  {
    map i | 0 <= i < |f.rows| :: f.rows[i].end := f.convert(f.rows[i])
  }

  ghost function Ends(f: File, rows: set<nat>): set<int> {
    set i | i in rows && i < |f.rows| :: f.rows[i].end
  }

  /** Exactly the events of some rows, each once. */
  ghost predicate HoldsRows(f: File, s: Session, rows: set<nat>)
    requires Ordinary(f)
  {
    Holds(Contents(f), s, Ends(f, rows))
  }

  lemma {:induction false} EventIn(f: File, rs: seq<Row>, i: nat, e: Buffered)
    requires i < |rs| && e in Flat(AsEvent(f, rs[i]))
    ensures e in FlatAll(f, rs)
  {
    var init := rs[..|rs| - 1];
    if i < |init| { EventIn(f, init, i, e); }
  }

  lemma {:induction false} MembersSize<T>(s: seq<T>)
    ensures |set e | e in s| <= |s|
  {
    if s != [] {
      MembersSize(s[1..]);
      assert (set e | e in s) == {s[0]} + (set e | e in s[1..]);
    }
  }

  lemma Fits(f: File, rows: set<nat>)
    requires Ordinary(f)
    ensures |EventsOf(Contents(f), Ends(f, rows))| <= PER_SESSION_BUFFER
  {
    hide FlatAll;
    var all := FlatAll(f, f.rows);
    forall e | e in EventsOf(Contents(f), Ends(f, rows)) ensures e in all {
      var i :| i in rows && i < |f.rows| && f.rows[i].end == e.offset;
      assert Flat(AsEvent(f, f.rows[i]))[e.index] == e;
      EventIn(f, f.rows, i, e);
    }
    SubsetSize(EventsOf(Contents(f), Ends(f, rows)), set e | e in all);
    MembersSize(all);
  }

  lemma EndsUnion(f: File, a: set<nat>, b: set<nat>)
    ensures Ends(f, a + b) == Ends(f, a) + Ends(f, b)
  {
  }

  lemma ContentsAt(f: File, i: nat)
    requires Ordinary(f) && i < |f.rows|
    ensures f.rows[i].end in Contents(f) && Contents(f)[f.rows[i].end] == f.convert(f.rows[i])
  {
  }

  /** The buffer has the offset of a row exactly if the row is shown. */
  lemma HasRow(f: File, s: Session, rows: set<nat>, i: nat)
    requires Ordinary(f) && HoldsRows(f, s, rows) && i < |f.rows|
    ensures Has(s.events, f.rows[i].end) <==> i in rows
  {
    hide FlatAll, Unique;
    var o := f.rows[i].end;
    if i in rows {
      var e := Buffered(o, 0, f.convert(f.rows[i])[0]);
      ContentsAt(f, i);
      assert o in Ends(f, rows) && e in EventsOf(Contents(f), Ends(f, rows));
      assert e in Members(s.events);
      HasMember(s.events, e);
    }
    if Has(s.events, o) {
      var p :| 0 <= p < |s.events| && s.events[p].offset == o;
      assert s.events[p] in Members(s.events);
      var j :| j in rows && j < |f.rows| && f.rows[j].end == o;
      assert i == j;
    }
  }

  lemma RowOfFile(f: File, i: nat)
    requires Ordinary(f) && i < |f.rows|
    ensures RowOf(Contents(f), AsEvent(f, f.rows[i])) && Ends(f, Span(i, i + 1)) == {f.rows[i].end}
  {
    ContentsAt(f, i);
    assert i in Span(i, i + 1);
  }

  lemma LiveShows(f: File, s: Session, rows: set<nat>, i: nat)
    requires Ordinary(f) && HoldsRows(f, s, rows) && i < |f.rows|
    ensures HoldsRows(f, OnEvent(s, AsEvent(f, f.rows[i])), rows + Span(i, i + 1))
  {
    hide Ordinary, Holds, Ends, Contents, Span;
    RowOfFile(f, i);
    EndsUnion(f, rows, Span(i, i + 1));
    Fits(f, rows + Span(i, i + 1));
    LiveHolds(Contents(f), s, Ends(f, rows), AsEvent(f, f.rows[i]));
  }

  lemma ChunkOfFile(f: File, a: nat, b: nat)
    requires Ordinary(f) && a <= b <= |f.rows|
    ensures var c := Chunk(AsEvents(f, f.rows[a..b]));
            FromFile(Contents(f), c) && OffsetsOf(c) == Ends(f, Span(a, b))
  {
    hide Ordinary, Contents, RowOf, OffsetsOf, Ends, Span, DistinctRows, AsEvent;
    var es := AsEvents(f, f.rows[a..b]);
    ChunkEnds(f, a, b);
    ChunkDistinct(f, a, b);
    forall r | r in es ensures RowOf(Contents(f), r) {
      var i :| 0 <= i < |es| && es[i] == r;
      RowOfFile(f, a + i);
    }
  }

  lemma ChunkDistinct(f: File, a: nat, b: nat)
    requires Ordinary(f) && a <= b <= |f.rows|
    ensures DistinctRows(AsEvents(f, f.rows[a..b]))
  {
    hide FlatAll;
    var rs, es := f.rows[a..b], AsEvents(f, f.rows[a..b]);
    assert forall i, j | 0 <= i < j < |rs| :: rs[i].end < rs[j].end;
    assert forall i | 0 <= i < |es| :: es[i].offset == rs[i].end;
  }

  lemma ChunkEnds(f: File, a: nat, b: nat)
    requires a <= b <= |f.rows|
    ensures OffsetsOf(Chunk(AsEvents(f, f.rows[a..b]))) == Ends(f, Span(a, b))
  {
    var es := AsEvents(f, f.rows[a..b]);
    assert |es| == b - a && forall i | a <= i < b :: es[i - a].offset == f.rows[i].end;
    forall o | o in Ends(f, Span(a, b)) ensures o in OffsetsOf(Chunk(es)) {
      var i :| i in Span(a, b) && i < |f.rows| && f.rows[i].end == o;
      assert es[i - a] in es;
    }
    forall o | o in OffsetsOf(Chunk(es)) ensures o in Ends(f, Span(a, b)) {
      var r :| r in es && r.offset == o;
      var i :| 0 <= i < |es| && es[i] == r;
      assert a + i in Span(a, b);
    }
  }

  lemma ChunkShows(f: File, s: Session, rows: set<nat>, a: nat, b: nat)
    requires Ordinary(f) && HoldsRows(f, s, rows) && a <= b <= |f.rows|
    ensures HoldsRows(f, OnChunk(s, AsEvents(f, f.rows[a..b])), rows + Span(a, b))
  {
    hide Ordinary, Holds, Ends, Contents, Span, FromFile, OffsetsOf;
    ChunkOfFile(f, a, b);
    EndsUnion(f, rows, Span(a, b));
    Fits(f, rows + Span(a, b));
    ChunkHolds(Contents(f), s, Ends(f, rows), AsEvents(f, f.rows[a..b]));
  }

  // ----- nothing is skipped for good -----

  /** All rows before `lo` end at or before the bound. */
  ghost predicate Reaches(f: File, lo: nat, before: int) {
    forall i | 0 <= i < lo && i < |f.rows| :: f.rows[i].end <= before
  }

  /** The bound of a request made on an empty buffer is none; any other is the end of a row shown. */
  ghost predicate Anchored(f: File, held: set<nat>, before: int) {
    before == MAX_SAFE_INTEGER || exists k :: k in held && k < |f.rows| && f.rows[k].end == before
  }

  ghost predicate CallOk(f: File, x: Sys, c: Call)
    requires x.written <= |f.rows|
  {
    match c
    case Asked(before, _) => Reaches(f, x.lo, before) && Anchored(f, x.held, before)
    case Answered(before, rows, top) =>
      && 0 <= FirstRow(c) && top <= x.written && rows == f.rows[FirstRow(c)..top]
      && (rows != [] ==> x.lo <= top && (before == MAX_SAFE_INTEGER || top - 1 in x.held))
    case Done => true
  }

  /** The rows shown and those that the live feed has still to bring leave no gap. */
  ghost predicate Inv(f: File, x: Sys)
    requires Ordinary(f)
  {
    && x.lo <= x.live <= x.hi <= x.written <= |f.rows|
    && x.held <= Span(x.lo, x.hi)
    && HoldsRows(f, x.session, x.held)
    && x.held + Span(x.live, x.written) == Span(x.lo, x.written)
    && (forall i | 0 <= i < |x.calls| :: CallOk(f, x, x.calls[i]))
  }

  lemma SpanHas(a: nat, b: nat, i: nat)
    ensures i in Span(a, b) <==> a <= i < b
  {
  }

  lemma SpanJoin(a: nat, b: nat, c: nat)
    requires a <= b <= c
    ensures Span(a, b) + Span(b, c) == Span(a, c)
  {
  }

  /** Two stretches that touch make one. */
  lemma SpanUnion(a: nat, b: nat, c: nat, d: nat)
    requires a <= b && c <= d && a <= d && c <= b
    ensures Span(a, b) + Span(c, d) == Span(Min(a, c), Max(b, d))
  {
  }

  lemma SpanWithin(a: nat, b: nat, c: nat, d: nat)
    requires c <= a && b <= d
    ensures Span(a, b) <= Span(c, d)
  {
  }

  lemma CallKept(f: File, x: Sys, y: Sys, c: Call)
    requires x.written <= y.written <= |f.rows| && y.lo <= x.lo && x.held <= y.held && CallOk(f, x, c)
    ensures CallOk(f, y, c)
  {
  }

  /** The bound of a new request. */
  lemma BeforeIsEnd(f: File, x: Sys)
    requires Ordinary(f) && Inv(f, x)
    ensures Reaches(f, x.lo, Before(x.session)) && Anchored(f, x.held, Before(x.session))
  {
    hide FlatAll, Unique, Contents, EventsOf;
    var s := x.session;
    if s.events != [] {
      var e := s.events[0];
      assert e in Members(s.events);
      var k := RowShown(f, s, x.held, e);
      SpanHas(x.lo, x.hi, k);
    }
  }

  lemma RowShown(f: File, s: Session, rows: set<nat>, e: Buffered) returns (k: nat)
    requires Ordinary(f) && HoldsRows(f, s, rows) && e in Members(s.events)
    ensures k in rows && k < |f.rows| && f.rows[k].end == e.offset
  {
    assert e.offset in Ends(f, rows);
    k :| k in rows && k < |f.rows| && f.rows[k].end == e.offset;
  }

  lemma InvWrite(f: File, x: Sys)
    requires Ordinary(f) && Inv(f, x) && Enabled(f, x, Write)
    ensures Inv(f, Next(f, x, Write))
  {
    hide Ordinary, HoldsRows, CallOk, Span;
    var y := Next(f, x, Write);
    SpanJoin(x.live, x.written, y.written);
    SpanJoin(x.lo, x.written, y.written);
    assert x.held + (Span(x.live, x.written) + Span(x.written, y.written))
        == (x.held + Span(x.live, x.written)) + Span(x.written, y.written);
    forall i | 0 <= i < |y.calls| ensures CallOk(f, y, y.calls[i]) { CallKept(f, x, y, y.calls[i]); }
  }

  lemma InvLive(f: File, x: Sys)
    requires Ordinary(f) && Inv(f, x) && Enabled(f, x, LiveRow)
    ensures Inv(f, Next(f, x, LiveRow))
  {
    hide Ordinary, HoldsRows, CallOk, Span, OnEvent, AsEvent;
    var y := Next(f, x, LiveRow);
    LiveShows(f, x.session, x.held, x.live);
    SpanJoin(x.live, y.live, x.written);
    assert (x.held + Span(x.live, y.live)) + Span(y.live, x.written)
        == x.held + (Span(x.live, y.live) + Span(y.live, x.written));
    SpanWithin(x.lo, x.hi, y.lo, y.hi);
    SpanWithin(x.live, y.live, y.lo, y.hi);
    forall i | 0 <= i < |y.calls| ensures CallOk(f, y, y.calls[i]) { CallKept(f, x, y, y.calls[i]); }
  }

  lemma InvAsk(f: File, x: Sys, limit: int)
    requires Ordinary(f) && Inv(f, x)
    ensures Inv(f, Next(f, x, Ask(limit)))
  {
    hide Ordinary, HoldsRows, Span, Before, Reaches, Anchored;
    BeforeIsEnd(f, x);
    var y := Next(f, x, Ask(limit));
    forall i | 0 <= i < |y.calls| ensures CallOk(f, y, y.calls[i]) {
      if i < |x.calls| { CallKept(f, x, y, x.calls[i]); }
    }
  }

  lemma AnswerSlice(f: File, n: nat, before: int, limit: int)
    requires Ordinary(f) && n <= |f.rows|
    ensures var c := AnswerTo(f.rows[..n], before, limit);
            && 0 <= FirstRow(c) && c.top <= n && c.rows == f.rows[FirstRow(c)..c.top]
            && (forall i | 0 <= i < n :: i < c.top <==> f.rows[i].end <= before)
  {
    hide FlatAll, UpTo;
    var rows := f.rows[..n];
    UpToIsAll(rows, before);
    forall i | 0 <= i < n ensures rows[i] == f.rows[i] {}
  }

  lemma Ascending(f: File, i: nat, j: nat)
    requires Ordinary(f) && i < j < |f.rows|
    ensures f.rows[i].end < f.rows[j].end
  {
  }

  /** What the daemon reads for a request. */
  lemma AnswerFits(f: File, x: Sys, before: int, limit: int)
    requires Ordinary(f) && Inv(f, x) && Reaches(f, x.lo, before) && Anchored(f, x.held, before)
    ensures CallOk(f, x, AnswerTo(f.rows[..x.written], before, limit))
  {
    hide Ordinary, HoldsRows, AnswerTo, Span;
    AnswerSlice(f, x.written, before, limit);
    var c := AnswerTo(f.rows[..x.written], before, limit);
    assert c.Answered? && c.before == before by { AnswerKeepsBound(f.rows[..x.written], before, limit); }
    assert x.lo > 0 ==> f.rows[x.lo - 1].end <= before;
    if before != MAX_SAFE_INTEGER {
      var k :| k in x.held && k < |f.rows| && f.rows[k].end == before;
      SpanHas(x.lo, x.hi, k);
      if k + 1 < x.written { Ascending(f, k, k + 1); }
      assert c.top == k + 1;
    }
  }

  lemma AnswerKeepsBound(rows: seq<Row>, before: int, limit: int)
    ensures AnswerTo(rows, before, limit).Answered? && AnswerTo(rows, before, limit).before == before
  {
  }

  lemma InvRead(f: File, x: Sys, call: nat)
    requires Ordinary(f) && Inv(f, x) && Enabled(f, x, Read(call))
    ensures Inv(f, Next(f, x, Read(call)))
  {
    hide Ordinary, HoldsRows, Span, Reaches, Anchored, AnswerTo;
    var c := x.calls[call];
    assert CallOk(f, x, c);
    AnswerFits(f, x, c.before, c.limit);
    var y := Next(f, x, Read(call));
    forall i | 0 <= i < |y.calls| ensures CallOk(f, y, y.calls[i]) {
      CallKept(f, x, y, if i == call then AnswerTo(f.rows[..x.written], c.before, c.limit) else x.calls[i]);
    }
  }

  lemma InvDeliver(f: File, x: Sys, call: nat)
    requires Ordinary(f) && Inv(f, x) && Enabled(f, x, Deliver(call))
    ensures Inv(f, Next(f, x, Deliver(call)))
  {
    hide Ordinary, HoldsRows, Span, OnChunk, AsEvents;
    var c := x.calls[call];
    assert CallOk(f, x, c);
    var y := Next(f, x, Deliver(call));
    var first: nat := FirstRow(c);
    if c.rows == [] {
      ChunkShows(f, x.session, x.held, first, c.top);
      SpanEmpty(first, c.top);
      assert x.held + {} == x.held;
    } else {
      ChunkShows(f, x.session, x.held, first, c.top);
      SpanUnion(x.lo, x.written, first, c.top);
      assert (x.held + Span(first, c.top)) + Span(x.live, x.written)
          == (x.held + Span(x.live, x.written)) + Span(first, c.top);
      SpanWithin(x.lo, x.hi, y.lo, y.hi);
      SpanWithin(first, c.top, y.lo, y.hi);
    }
    forall i | 0 <= i < |y.calls| ensures CallOk(f, y, y.calls[i]) {
      if i != call { CallKept(f, x, y, x.calls[i]); }
    }
  }

  lemma SpanEmpty(a: nat, b: nat)
    ensures b <= a ==> Span(a, b) == {}
  {
  }

  lemma InvStep(f: File, x: Sys, e: Event)
    requires Ordinary(f) && Inv(f, x)
    ensures Inv(f, Next(f, x, e))
  {
    hide Ordinary, Inv, Next;
    if Enabled(f, x, e) {
      match e
      case Write => InvWrite(f, x);
      case LiveRow => InvLive(f, x);
      case Ask(limit) => InvAsk(f, x, limit);
      case Read(i) => InvRead(f, x, i);
      case Deliver(i) => InvDeliver(f, x, i);
    } else {
      Stutters(f, x, e);
    }
  }

  lemma Stutters(f: File, x: Sys, e: Event)
    requires !Enabled(f, x, e)
    ensures Next(f, x, e) == x
  {
  }

  lemma InvArrival(f: File, m: nat, n: nat)
    requires Ordinary(f) && m <= n <= |f.rows|
    ensures Inv(f, Arrival(m, n))
  {
    hide FlatAll;
  }

  lemma {:induction false} InvRun(f: File, x: Sys, steps: seq<Event>)
    requires Ordinary(f) && Inv(f, x)
    ensures Inv(f, Run(f, x, steps))
    decreases |steps|
  {
    hide Ordinary, Inv, Next;
    if steps != [] {
      InvStep(f, x, steps[0]);
      InvRun(f, Next(f, x, steps[0]), steps[1..]);
    }
  }

  /** However requests, file reads, answers, live rows and the growth of the file interleave, the buffer
      holds the events of some rows, each once; the only rows missing behind the first one shown
      are ones that the live feed has yet to bring; and so, whenever it has caught up, none is. */
  lemma NothingSkipped(f: File, m: nat, n: nat, steps: seq<Event>)
    requires Ordinary(f) && m <= n <= |f.rows|
    ensures var x := Run(f, Arrival(m, n), steps);
            && HoldsRows(f, x.session, x.held)
            && (forall i | i in x.held :: x.lo <= i < x.written)
            && (forall i: nat | x.lo <= i < x.written && i !in x.held :: i >= x.live)
            && (x.live == x.written ==> x.held == Span(x.lo, x.written))
  {
    hide Ordinary, HoldsRows;
    InvArrival(f, m, n);
    InvRun(f, Arrival(m, n), steps);
    var x := Run(f, Arrival(m, n), steps);
    forall i: nat | x.lo <= i < x.written && i !in x.held ensures i >= x.live {
      SpanHas(x.lo, x.written, i);
      SpanHas(x.live, x.written, i);
    }
    SpanEmpty(x.live, x.written);
    assert x.held + {} == x.held;
  }

  // ----- in order -----

  /** The buffer is the rows from the first shown to the last shown, in file order and without a gap. */
  ghost predicate Orderly(f: File, x: Sys) {
    Window(f, x.session, x.lo, x.hi)
  }

  /** An answer is merged that begins behind the row after the last one shown. */
  predicate Skips(f: File, x: Sys, e: Event) {
    e.Deliver? && Enabled(f, x, e) && x.calls[e.call].rows != [] && FirstRow(x.calls[e.call]) > x.hi
  }

  lemma OrderlyLive(f: File, x: Sys)
    requires Ordinary(f) && Inv(f, x) && Orderly(f, x) && Enabled(f, x, LiveRow)
    ensures Orderly(f, Next(f, x, LiveRow))
  {
    hide FlatAll, Ordinary, Has, HoldsRows, CallOk, Span;
    if x.live < x.hi {
      WindowHas(f, x.lo, x.hi, x.live);
    } else {
      PagingRuns.LiveExtendsWindow(f, x.session, x.lo, x.hi);
    }
  }

  lemma OrderlyDeliver(f: File, x: Sys, call: nat)
    requires Ordinary(f) && Inv(f, x) && Orderly(f, x) && Enabled(f, x, Deliver(call))
    ensures !Skips(f, x, Deliver(call)) ==> Orderly(f, Next(f, x, Deliver(call)))
  {
    hide FlatAll, Ordinary, Has, HoldsRows, Span, Flat, NewFlat, Sort;
    var c := x.calls[call];
    assert CallOk(f, x, c);
    if c.rows != [] && FirstRow(c) <= x.hi {
      ChunkExtendsWindow(f, x.session, x.lo, x.hi, FirstRow(c), c.top);
    }
  }

  lemma SkipLeavesGap(f: File, x: Sys, call: nat)
    requires Ordinary(f) && Inv(f, x) && Orderly(f, x) && Skips(f, x, Deliver(call))
    ensures var y := Next(f, x, Deliver(call));
            y.lo <= x.hi < y.hi && x.hi !in y.held && !Orderly(f, y)
  {
    hide FlatAll, Ordinary, Has, HoldsRows, CallOk, Span, OnChunk;
    var y := Next(f, x, Deliver(call));
    assert CallOk(f, x, x.calls[call]);
    assert FirstRow(x.calls[call]) < x.calls[call].top <= x.written by { AnswerBounds(f, x, x.calls[call]); }
    InvDeliver(f, x, call);
    SpanHas(x.lo, x.hi, x.hi);
    SpanHas(FirstRow(x.calls[call]), x.calls[call].top, x.hi);
    assert x.hi !in y.held;
    HasRow(f, y.session, y.held, x.hi);
    if Orderly(f, y) {
      WindowHas(f, y.lo, y.hi, x.hi);
    }
  }

  lemma AnswerBounds(f: File, x: Sys, c: Call)
    requires x.written <= |f.rows| && CallOk(f, x, c) && c.Answered? && c.rows != []
    ensures FirstRow(c) < c.top <= x.written
  {
  }

  /** A step keeps the buffer in order and free of gaps exactly if it does not skip a row. */
  lemma OrderlyStepIff(f: File, x: Sys, e: Event)
    requires Ordinary(f) && Inv(f, x) && Orderly(f, x)
    ensures Orderly(f, Next(f, x, e)) <==> !Skips(f, x, e)
  {
    hide Ordinary, Inv;
    if Enabled(f, x, e) {
      match e
      case Write =>
      case LiveRow => OrderlyLive(f, x);
      case Ask(_) =>
      case Read(_) =>
      case Deliver(i) =>
        if Skips(f, x, e) { SkipLeavesGap(f, x, i); } else { OrderlyDeliver(f, x, i); }
    }
  }

  ghost predicate OrderlyThroughout(f: File, x: Sys, steps: seq<Event>)
    decreases |steps|
  {
    Orderly(f, x) && (steps != [] ==> OrderlyThroughout(f, Next(f, x, steps[0]), steps[1..]))
  }

  ghost predicate NeverSkips(f: File, x: Sys, steps: seq<Event>)
    decreases |steps|
  {
    steps != [] ==> !Skips(f, x, steps[0]) && NeverSkips(f, Next(f, x, steps[0]), steps[1..])
  }

  lemma {:induction false} OrderlyRunIff(f: File, x: Sys, steps: seq<Event>)
    requires Ordinary(f) && Inv(f, x) && Orderly(f, x)
    ensures OrderlyThroughout(f, x, steps) <==> NeverSkips(f, x, steps)
    decreases |steps|
  {
    hide Ordinary, Inv, Next, Orderly, Skips;
    if steps != [] {
      OrderlyStepIff(f, x, steps[0]);
      InvStep(f, x, steps[0]);
      if Orderly(f, Next(f, x, steps[0])) {
        OrderlyRunIff(f, Next(f, x, steps[0]), steps[1..]);
      }
    }
  }

  /** From the browser's arrival on, the buffer is one stretch of the file in file order at every point
      of a run exactly if no answer is merged that skips a row. */
  lemma OrderlyThroughoutIff(f: File, m: nat, n: nat, steps: seq<Event>)
    requires Ordinary(f) && m <= n <= |f.rows|
    ensures OrderlyThroughout(f, Arrival(m, n), steps) <==> NeverSkips(f, Arrival(m, n), steps)
  {
    hide Ordinary, Inv, Next, OrderlyThroughout, NeverSkips;
    InvArrival(f, m, n);
    NoEvents(f, f.rows[m..m]);
    OrderlyRunIff(f, Arrival(m, n), steps);
  }

  /** Only the answer to a request without a bound, as a browser with an empty buffer makes it, can skip
      rows: every other one ends with a row already shown. */
  lemma OnlyUnboundedSkips(f: File, m: nat, n: nat, steps: seq<Event>, call: nat)
    requires Ordinary(f) && m <= n <= |f.rows|
    requires Skips(f, Run(f, Arrival(m, n), steps), Deliver(call))
    ensures Run(f, Arrival(m, n), steps).calls[call].before == MAX_SAFE_INTEGER
  {
    hide Ordinary, HoldsRows, Span, Run;
    InvArrival(f, m, n);
    InvRun(f, Arrival(m, n), steps);
    var x := Run(f, Arrival(m, n), steps);
    var c := x.calls[call];
    assert CallOk(f, x, c);
    SpanHas(x.lo, x.hi, c.top - 1);
  }

  lemma {:induction false} OrderlyAtEnd(f: File, x: Sys, steps: seq<Event>)
    requires OrderlyThroughout(f, x, steps)
    ensures Orderly(f, Run(f, x, steps))
    decreases |steps|
  {
    hide Orderly, Next;
    if steps != [] { OrderlyAtEnd(f, Next(f, x, steps[0]), steps[1..]); }
  }

  /** After a run that merged no such answer, whenever the live feed has caught up, the buffer is the
      file's rows from the first one shown to its end, in order. */
  lemma OrderlyAndCaughtUp(f: File, m: nat, n: nat, steps: seq<Event>)
    requires Ordinary(f) && m <= n <= |f.rows| && NeverSkips(f, Arrival(m, n), steps)
    ensures var x := Run(f, Arrival(m, n), steps);
            x.live == x.written ==> Window(f, x.session, x.lo, x.written)
  {
    hide Ordinary, HoldsRows, CallOk, Run, NeverSkips, OrderlyThroughout;
    OrderlyThroughoutIff(f, m, n, steps);
    OrderlyAtEnd(f, Arrival(m, n), steps);
    InvArrival(f, m, n);
    InvRun(f, Arrival(m, n), steps);
  }

  // ----- an answer that skips rows -----

  const ROWS: seq<Row> := [Row([], 10), Row([], 20), Row([], 30)]

  function Sample(): File {
    File(ROWS, _ => ["e"])
  }

  function Shown(offsets: seq<int>): seq<Buffered> {
    seq(|offsets|, i requires 0 <= i < |offsets| => Buffered(offsets[i], 0, "e"))
  }

  lemma SampleAnswer()
    ensures Answer(ROWS[..3], MAX_SAFE_INTEGER, 1) == [ROWS[2]] && |UpTo(ROWS[..3], MAX_SAFE_INTEGER)| == 3
  {
    assert ROWS[..3] == ROWS;
    assert ROWS[1..] == [Row([], 20), Row([], 30)] && ROWS[1..][1..] == [Row([], 30)] && [Row([], 30)][1..] == [];
    assert UpTo([Row([], 30)], MAX_SAFE_INTEGER) == [Row([], 30)];
    assert UpTo(ROWS[1..], MAX_SAFE_INTEGER) == ROWS[1..];
    assert UpTo(ROWS, MAX_SAFE_INTEGER) == ROWS;
  }

  lemma SampleChunk()
    ensures OnChunk(EMPTY, AsEvents(Sample(), [ROWS[2]])) == Session(Shown([30]), false)
  {
    var es := AsEvents(Sample(), [ROWS[2]]);
    assert es == [EventRow(30, ["e"])] && es[..0] == [];
    assert NewFlat([], es) == Flat(EventRow(30, ["e"]));
    assert NewFlat([], es) + [] == Shown([30]);
    SortOfSorted(ByOffset, Shown([30]));
  }

  lemma SampleLive(offsets: seq<int>, i: nat)
    requires i < 3 && |offsets| < 3
    ensures var s := Session(Shown(offsets), false);
            OnEvent(s, AsEvent(Sample(), ROWS[i])) ==
              if Has(s.events, ROWS[i].end) then s else Session(Shown(offsets + [ROWS[i].end]), false)
  {
    var s := Session(Shown(offsets), false);
    assert Flat(AsEvent(Sample(), ROWS[i])) == [Buffered(ROWS[i].end, 0, "e")];
    assert Shown(offsets) + [Buffered(ROWS[i].end, 0, "e")] == Shown(offsets + [ROWS[i].end]);
  }

  /** Three rows are in the file when a browser with an empty buffer asks for one: it gets the last, and
      the two before it, delivered live afterwards, stay behind it.  No row is missing in the end,
      but the last event of the buffer is not the newest. */
  lemma SkippedRowsStayBehind()
    ensures var x := Run(Sample(), Arrival(0, 3), [Ask(1), Read(0), Deliver(0), LiveRow, LiveRow, LiveRow]);
            x.live == x.written == 3 && x.session.events == Shown([30, 10, 20])
  {
    hide OnChunk, OnEvent, Answer, UpTo, Shown, AsEvents, AsEvent, Has;
    var f := Sample();
    var steps := [Ask(1), Read(0), Deliver(0), LiveRow, LiveRow, LiveRow];
    SampleAnswer();
    SampleChunk();
    SampleLive([30], 0);
    SampleLive([30, 10], 1);
    SampleLast();
    var x1 := Next(f, Arrival(0, 3), Ask(1));
    var x2 := Next(f, x1, Read(0));
    var x3 := Next(f, x2, Deliver(0));
    assert x3.session == Session(Shown([30]), false) && x3.live == 0 && x3.written == 3;
    var x4 := Next(f, x3, LiveRow);
    var x5 := Next(f, x4, LiveRow);
    var x6 := Next(f, x5, LiveRow);
    assert [30] + [10] == [30, 10] && [30, 10] + [20] == [30, 10, 20];
    assert steps[1..] == [Read(0), Deliver(0), LiveRow, LiveRow, LiveRow];
    assert steps[1..][1..] == [Deliver(0), LiveRow, LiveRow, LiveRow];
    RunThree(f, x3);
  }

  lemma RunThree(f: File, x: Sys)
    ensures Run(f, x, [LiveRow, LiveRow, LiveRow]) == Next(f, Next(f, Next(f, x, LiveRow), LiveRow), LiveRow)
  {
    hide Next;
    assert [LiveRow, LiveRow, LiveRow][1..] == [LiveRow, LiveRow] && [LiveRow, LiveRow][1..] == [LiveRow];
    assert [LiveRow][1..] == [];
  }

  /** What the buffer has by then. */
  lemma SampleLast()
    ensures !Has(Shown([30]), 10) && !Has(Shown([30, 10]), 20)
    ensures OnEvent(Session(Shown([30, 10, 20]), false), AsEvent(Sample(), ROWS[2])).events == Shown([30, 10, 20])
  {
    assert Shown([30, 10, 20])[0].offset == 30;
  }
}
