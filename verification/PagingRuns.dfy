/** Single pages, and whole runs of paging back and of live rows (packages/pwa/src/hooks/useSessionTimeline.ts). */
module PagingRuns {
  import opened Jsonl
  import opened MergeBuffer
  import opened Paging
  import Sequences
  import Utf8

  // ----- one page -----

  lemma AnswerIs(f: File, s: Session, k: nat, m: nat, limit: int)
    requires Ordinary(f) && Window(f, s, k, m) && limit > 0
    ensures Earlier(k, m, limit) <= Top(k, m) <= |f.rows|
    ensures Answer(f.rows[..m], Before(s), limit) == f.rows[Earlier(k, m, limit)..Top(k, m)]
  {
    NoEvents(f, f.rows[k..k]);
    hide FlatAll, UpTo;
    var rows, top := f.rows[..m], Top(k, m);
    if k < m { FirstOffset(f, k, m); }
    UpToTop(rows, Before(s), top);
    var upTo := UpTo(rows, Before(s));
    assert upTo == f.rows[..top];
    var first := Earlier(k, m, limit);
    assert first == if top <= limit then 0 else top - limit;
    assert Sequences.LastN(upTo, limit) == f.rows[first..top];
  }

  /** One page extends the window downwards by what the limit allows, and by nothing else. */
  lemma PageExtendsWindow(f: File, s: Session, k: nat, m: nat, limit: int)
    requires Ordinary(f) && Window(f, s, k, m)
    ensures Window(f, Page(f, m, s, limit), Earlier(k, m, limit), m)
  {
    hide FlatAll, Flat, Ordinary, UpTo;
    var first := Earlier(k, m, limit);
    if limit > 0 {
      AnswerIs(f, s, k, m, limit);
      if first < Top(k, m) {
        ChunkExtendsWindow(f, s, k, m, first, Top(k, m));
      }
    }
  }

  /** A live frame for the next row extends the window upwards. */
  lemma LiveExtendsWindow(f: File, s: Session, k: nat, m: nat)
    requires Ordinary(f) && Window(f, s, k, m) && m < |f.rows|
    ensures Window(f, OnEvent(s, AsEvent(f, f.rows[m])), k, m + 1)
  {
    hide FlatAll, Flat, Ordinary, Has;
    WindowHas(f, k, m, m);
    FlatAllPush(f, k, m + 1);
    WindowFits(f, k, m + 1);
  }

  // ----- runs -----

  datatype Step = LoadEarlier(limit: int) | LiveRow

  /** Pages at any limits, with the file growing in between. */
  function Run(f: File, m: nat, s: Session, steps: seq<Step>): (Session, nat)
    requires m <= |f.rows|
    decreases |steps|
  {
    if steps == [] then (s, m)
    else if steps[0].LoadEarlier? then Run(f, m, Page(f, m, s, steps[0].limit), steps[1..])
    else if m < |f.rows| then Run(f, m + 1, OnEvent(s, AsEvent(f, f.rows[m])), steps[1..])
    else Run(f, m, s, steps[1..])
  }

  /** However pages and live rows alternate, the buffer is a gap-free run of the file's rows that
      ends with the newest one delivered. */
  lemma {:induction false} GapFree(f: File, m: nat, s: Session, k: nat, steps: seq<Step>) returns (j: nat)
    requires Ordinary(f) && Window(f, s, k, m)
    ensures Window(f, Run(f, m, s, steps).0, j, Run(f, m, s, steps).1)
    decreases |steps|
  {
    hide FlatAll, Ordinary, Page;
    if steps == [] {
      j := k;
    } else if steps[0].LoadEarlier? {
      PageExtendsWindow(f, s, k, m, steps[0].limit);
      j := GapFree(f, m, Page(f, m, s, steps[0].limit), Earlier(k, m, steps[0].limit), steps[1..]);
    } else if m < |f.rows| {
      LiveExtendsWindow(f, s, k, m);
      j := GapFree(f, m + 1, OnEvent(s, AsEvent(f, f.rows[m])), k, steps[1..]);
    } else {
      j := GapFree(f, m, s, k, steps[1..]);
    }
  }

  function Pages(f: File, m: nat, s: Session, limit: int, n: nat): Session
    requires m <= |f.rows|
    decreases n
  {
    if n == 0 then s else Pages(f, m, Page(f, m, s, limit), limit, n - 1)
  }

  /** With a limit of at least two, `n` pages bring in `limit - 1` earlier rows each, so the first
      row is reached exactly when `n * (limit - 1)` covers the rows that were missing. */
  lemma {:induction false} PagesReachStart(f: File, m: nat, s: Session, k: nat, limit: int, n: nat)
    requires Ordinary(f) && Window(f, s, k, m) && k < m && limit >= 2
    ensures Window(f, Pages(f, m, s, limit, n), if k <= n * (limit - 1) then 0 else k - n * (limit - 1), m)
    decreases n
  {
    hide FlatAll, Ordinary, Page;
    if n > 0 {
      PageExtendsWindow(f, s, k, m, limit);
      var k1 := Earlier(k, m, limit);
      PagesReachStart(f, m, Page(f, m, s, limit), k1, limit, n - 1);
      StepsAddUp(n, limit - 1);
    }
  }

  lemma StepsAddUp(n: nat, d: nat)
    requires n > 0
    ensures n * d == (n - 1) * d + d && (n - 1) * d >= 0
  {
  }

  /** With a limit of one, paging never moves: the bound includes the oldest row itself. */
  lemma LimitOneStalls(f: File, s: Session, k: nat, m: nat)
    requires Ordinary(f) && Window(f, s, k, m) && k < m
    ensures Page(f, m, s, 1).events == s.events
  {
    PageExtendsWindow(f, s, k, m, 1);
  }

  /** For the same reason a page over a non-empty buffer is never empty, so paging never sets the
      flag that says there is no more history, not even at the first row. */
  lemma PagingNeverSaysNoMore(f: File, s: Session, k: nat, m: nat, limit: int)
    requires Ordinary(f) && Window(f, s, k, m) && k < m && limit > 0
    ensures Answer(f.rows[..m], Before(s), limit) != []
    ensures Page(f, m, s, limit).noMore == s.noMore
  {
    AnswerIs(f, s, k, m, limit);
  }

  /** The rows of a real transcript are ordinary rows as far as their offsets go. */
  lemma TranscriptRowsOrdered(t: Utf8.Text)
    ensures var rows := Rows(t, 0);
            && (forall i, j | 0 <= i < j < |rows| :: rows[i].end < rows[j].end)
            && (forall i | 0 <= i < |rows| :: 1 <= rows[i].end <= Utf8.ByteLength(t))
  {
    RowsIncrease(t, 0);
  }
}
