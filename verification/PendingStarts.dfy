/** Start requests waiting for their session to register (packages/daemon/src/pending-starts.ts). */
module PendingStarts {
  import opened Frames

  datatype Entry = Entry(requestId: string, cwd: string, expiresAt: int)

  /** Drop expired entries from the front only. */
  function PurgeFront(queue: seq<Entry>, now: int): (q: seq<Entry>)
    ensures q != [] ==> q[0].expiresAt >= now
    ensures forall e | e in q :: e in queue
  {
    if queue != [] && queue[0].expiresAt < now then PurgeFront(queue[1..], now) else queue
  }

  /** Drop every expired entry. */
  function PurgeAll(queue: seq<Entry>, now: int): seq<Entry> {
    if queue == [] then []
    else (if queue[0].expiresAt < now then [] else [queue[0]]) + PurgeAll(queue[1..], now)
  }

  /** The place of the first entry for a directory, if any. */
  function FirstFor(queue: seq<Entry>, cwd: string): (r: Option<nat>)
    ensures r.Some? ==> r.value < |queue| && queue[r.value].cwd == cwd
    ensures r.Some? ==> forall j | 0 <= j < r.value :: queue[j].cwd != cwd
    ensures r.None? ==> forall e | e in queue :: e.cwd != cwd
  {
    if queue == [] then None
    else if queue[0].cwd == cwd then Some(0)
    else
      match FirstFor(queue[1..], cwd)
      case None => None
      case Some(i) => Some(i + 1)
  }

  /** `Add` reads the clock twice, to purge and to stamp the entry. */
  datatype Ev = Add(requestId: string, cwd: string, purgeAt: int, stampAt: int) | Consume(forCwd: string, at: int)

  function First(e: Ev): int {
    if e.Add? then e.purgeAt else e.at
  }

  function Last(e: Ev): int {
    if e.Add? then e.stampAt else e.at
  }

  /** What a call does to a purged queue, and the request it answers. */
  function After(left: seq<Entry>, ttl: int, e: Ev): (seq<Entry>, Option<string>) {
    match e
    case Add(id, cwd, _, u) => (left + [Entry(id, cwd, u + ttl)], None)
    case Consume(cwd, _) =>
      var found := FirstFor(left, cwd);
      if found.None? then (left, None)
      else (left[..found.value] + left[found.value + 1..], Some(left[found.value].requestId))
  }

  /** One call, dropping expired entries by `purge`. */
  function Step(purge: (seq<Entry>, int) -> seq<Entry>, ttl: int, queue: seq<Entry>, e: Ev)
    : (seq<Entry>, Option<string>)
  {
    if e.Add? && e.requestId == "" then (queue, None) else After(purge(queue, First(e)), ttl, e)
  }

  class Pending {
    const ttlMs: int
    var queue: seq<Entry>

    constructor (ttlMs: int)
      ensures this.ttlMs == ttlMs && queue == []
    {
      this.ttlMs := ttlMs;
      queue := [];
    }

    method Purge(now: int)
      modifies this
      ensures queue == PurgeFront(old(queue), now)
    {
      while |queue| > 0 && queue[0].expiresAt < now
        invariant PurgeFront(queue, now) == PurgeFront(old(queue), now)
        decreases |queue|
      {
        queue := queue[1..];
      }
    }

    method AddStart(requestId: string, cwd: string, purgeAt: int, stampAt: int)
      modifies this
      ensures queue == Step(PurgeFront, ttlMs, old(queue), Add(requestId, cwd, purgeAt, stampAt)).0
    {
      if requestId == "" { return; }
      Purge(purgeAt);
      queue := queue + [Entry(requestId, cwd, stampAt + ttlMs)];
    }

    method ConsumeStart(cwd: string, now: int) returns (r: Option<string>)
      modifies this
      ensures queue == Step(PurgeFront, ttlMs, old(queue), Consume(cwd, now)).0
      ensures r == Step(PurgeFront, ttlMs, old(queue), Consume(cwd, now)).1
    {
      hide PurgeFront;
      Purge(now);
      ghost var left := queue;
      assert Step(PurgeFront, ttlMs, old(queue), Consume(cwd, now)) == After(left, ttlMs, Consume(cwd, now));
      var i := 0;
      while i < |queue|
        invariant 0 <= i <= |queue| && queue == left
        invariant forall j | 0 <= j < i :: queue[j].cwd != cwd
      {
        if queue[i].cwd == cwd {
          var e := queue[i];
          queue := queue[..i] + queue[i + 1..];
          return Some(e.requestId);
        }
        i := i + 1;
      }
      return None;
    }
  }

  // ----- when the front is enough -----

  ghost predicate Expired(queue: seq<Entry>, i: int, now: int)
    requires 0 <= i < |queue|
  {
    queue[i].expiresAt < now
  }

  lemma {:induction false} PurgeAllLive(queue: seq<Entry>, now: int)
    ensures |PurgeAll(queue, now)| <= |queue|
    ensures (forall i | 0 <= i < |queue| :: !Expired(queue, i, now)) ==> PurgeAll(queue, now) == queue
    ensures (exists i :: 0 <= i < |queue| && Expired(queue, i, now)) ==> |PurgeAll(queue, now)| < |queue|
  {
    if queue != [] {
      var rest := queue[1..];
      PurgeAllLive(rest, now);
      assert forall i | 0 <= i < |rest| :: Expired(rest, i, now) == Expired(queue, i + 1, now);
      if i :| 0 <= i < |queue| && Expired(queue, i, now) {
        assert i > 0 ==> Expired(rest, i - 1, now);
      } else {
        assert queue == [queue[0]] + rest;
        assert !Expired(queue, 0, now);
      }
    }
  }

  /** Purging the front drops every expired entry exactly when none stands behind a live one. */
  lemma {:induction false} FrontIsEnoughIff(queue: seq<Entry>, now: int)
    ensures PurgeFront(queue, now) == PurgeAll(queue, now) <==>
              forall i, j | 0 <= i < j < |queue| :: Expired(queue, j, now) ==> Expired(queue, i, now)
  {
    if queue != [] {
      var rest := queue[1..];
      assert forall i | 0 <= i < |rest| :: Expired(rest, i, now) == Expired(queue, i + 1, now);
      if Expired(queue, 0, now) {
        FrontIsEnoughIff(rest, now);
        assert PurgeFront(queue, now) == PurgeFront(rest, now);
        assert PurgeAll(queue, now) == PurgeAll(rest, now);
        BehindTheHead(queue, now);
      } else {
        PurgeAllLive(queue, now);
      }
    }
  }

  lemma BehindTheHead(queue: seq<Entry>, now: int)
    requires queue != [] && Expired(queue, 0, now)
    ensures (forall i, j | 0 <= i < j < |queue[1..]| :: Expired(queue[1..], j, now) ==> Expired(queue[1..], i, now))
        <==> (forall i, j | 0 <= i < j < |queue| :: Expired(queue, j, now) ==> Expired(queue, i, now))
  {
    var rest := queue[1..];
    if forall i, j | 0 <= i < j < |rest| :: Expired(rest, j, now) ==> Expired(rest, i, now) {
      forall i, j | 0 <= i < j < |queue| ensures Expired(queue, j, now) ==> Expired(queue, i, now) {
        if i > 0 {
          assert Expired(rest, j - 1, now) ==> Expired(rest, i - 1, now);
        }
      }
    }
    if forall i, j | 0 <= i < j < |queue| :: Expired(queue, j, now) ==> Expired(queue, i, now) {
      forall i, j | 0 <= i < j < |rest| ensures Expired(rest, j, now) ==> Expired(rest, i, now) {
        assert Expired(queue, j + 1, now) ==> Expired(queue, i + 1, now);
      }
    }
  }

  // ----- whole runs -----

  function Run(purge: (seq<Entry>, int) -> seq<Entry>, ttl: int, es: seq<Ev>): (seq<Entry>, seq<Option<string>>) {
    if es == [] then ([], [])
    else
      var (queue, answers) := Run(purge, ttl, es[..|es| - 1]);
      var (next, answer) := Step(purge, ttl, queue, es[|es| - 1]);
      (next, answers + [answer])
  }

  ghost predicate ClockForward(es: seq<Ev>) {
    && (forall i | 0 <= i < |es| :: First(es[i]) <= Last(es[i]))
    && (forall i, j | 0 <= i < j < |es| :: Last(es[i]) <= First(es[j]))
  }

  /** Entries stand in the order of their expiry, and none expires later than `latest`. */
  ghost predicate InOrder(queue: seq<Entry>, latest: int) {
    && (forall i, j | 0 <= i < j < |queue| :: queue[i].expiresAt <= queue[j].expiresAt)
    && (forall i | 0 <= i < |queue| :: queue[i].expiresAt <= latest)
  }

  lemma {:induction false} PurgeKeepsOrder(queue: seq<Entry>, now: int, latest: int)
    requires InOrder(queue, latest)
    ensures InOrder(PurgeFront(queue, now), latest) && PurgeFront(queue, now) == PurgeAll(queue, now)
  {
    FrontIsEnoughIff(queue, now);
    hide PurgeAll;
    if queue != [] && queue[0].expiresAt < now {
      PurgeKeepsOrder(queue[1..], now, latest);
    }
  }

  lemma AfterKeepsOrder(left: seq<Entry>, ttl: int, e: Ev, latest: int)
    requires InOrder(left, latest) && latest <= Last(e) + ttl
    ensures InOrder(After(left, ttl, e).0, Last(e) + ttl)
  {
  }

  lemma StepKeepsOrder(ttl: int, queue: seq<Entry>, e: Ev, latest: int)
    requires InOrder(queue, latest) && latest <= Last(e) + ttl
    ensures InOrder(Step(PurgeFront, ttl, queue, e).0, Last(e) + ttl)
    ensures Step(PurgeFront, ttl, queue, e) == Step(PurgeAll, ttl, queue, e)
  {
    hide PurgeFront, PurgeAll, After;
    PurgeKeepsOrder(queue, First(e), latest);
    AfterKeepsOrder(PurgeFront(queue, First(e)), ttl, e, latest);
    LaterBound(queue, latest, Last(e) + ttl);
  }

  lemma LaterBound(queue: seq<Entry>, latest: int, later: int)
    requires InOrder(queue, latest) && latest <= later
    ensures InOrder(queue, later)
  {
  }

  /** With a clock that never goes back and one time-to-live, purging the front is the same as
      dropping every expired entry: the same queue and the same answers, call by call. */
  lemma {:induction false} FrontPurgeIsEnough(ttl: int, es: seq<Ev>)
    requires ClockForward(es)
    ensures Run(PurgeFront, ttl, es) == Run(PurgeAll, ttl, es)
    ensures es != [] ==> InOrder(Run(PurgeFront, ttl, es).0, Last(es[|es| - 1]) + ttl)
  {
    hide PurgeFront, PurgeAll, Step;
    if es != [] {
      var init, e := es[..|es| - 1], es[|es| - 1];
      FrontPurgeIsEnough(ttl, init);
      var queue := Run(PurgeFront, ttl, init).0;
      if init == [] {
        StepKeepsOrder(ttl, queue, e, Last(e) + ttl);
      } else {
        assert Last(es[|es| - 2]) <= First(e) <= Last(e);
        StepKeepsOrder(ttl, queue, e, Last(init[|init| - 1]) + ttl);
      }
    }
  }

  // ----- what becomes of every start -----

  predicate Started(e: Ev) {
    e.Add? && e.requestId != ""
  }

  function EntryOf(e: Ev, ttl: int): Entry
    requires e.Add?
  {
    Entry(e.requestId, e.cwd, e.stampAt + ttl)
  }

  /** The queue is of these calls' entries, oldest call first. */
  ghost predicate Waiting(es: seq<Ev>, ttl: int, queue: seq<Entry>, waiting: seq<nat>) {
    && |waiting| == |queue|
    && (forall k | 0 <= k < |waiting| ::
          waiting[k] < |es| && Started(es[waiting[k]]) && queue[k] == EntryOf(es[waiting[k]], ttl))
    && (forall k, l | 0 <= k < l < |waiting| :: waiting[k] < waiting[l])
  }

  /** Call `i` answered what `taken[i]` says: an earlier start of its own directory, or nothing. */
  ghost predicate AnswerOk(es: seq<Ev>, answers: seq<Option<string>>, taken: seq<Option<nat>>, i: nat)
    requires i < |es| && |answers| == |taken| == |es|
  {
    match taken[i]
    case None => answers[i] == None
    case Some(j) => j < i && es[i].Consume? && Started(es[j]) && es[j].cwd == es[i].forCwd && answers[i] == Some(es[j].requestId)
  }

  /** Start `j` was answered, or expired at some call, before call `upto`. */
  ghost predicate Gone(es: seq<Ev>, ttl: int, taken: seq<Option<nat>>, j: nat, upto: nat)
    requires upto <= |es| == |taken| && j < |es| && Started(es[j])
  {
    exists x :: j < x < upto && (taken[x] == Some(j) || EntryOf(es[j], ttl).expiresAt < First(es[x]))
  }

  /** What call `i` passed over had been answered before or had expired by then. */
  ghost predicate Fair(es: seq<Ev>, ttl: int, taken: seq<Option<nat>>, i: nat)
    requires i < |es| == |taken|
  {
    es[i].Consume? ==>
      forall j: nat | j < i && Started(es[j]) && es[j].cwd == es[i].forCwd && (taken[i].Some? ==> j < taken[i].value) ::
        Gone(es, ttl, taken, j, i) || EntryOf(es[j], ttl).expiresAt < First(es[i])
  }

  ghost predicate Books(es: seq<Ev>, ttl: int, answers: seq<Option<string>>, waiting: seq<nat>, taken: seq<Option<nat>>)
  {
    && |answers| == |taken| == |es|
    && (forall i: nat | i < |es| :: AnswerOk(es, answers, taken, i) && Fair(es, ttl, taken, i))
    && (forall i, k | 0 <= i < k < |taken| && taken[i].Some? :: taken[i] != taken[k])
    && (forall i, k | 0 <= i < |taken| && 0 <= k < |waiting| :: taken[i] != Some(waiting[k]))
    && (forall j: nat | j < |es| && Started(es[j]) :: j in waiting || Gone(es, ttl, taken, j, |es|))
  }

  lemma {:induction false} PurgeDrops(queue: seq<Entry>, now: int) returns (p: nat)
    ensures p <= |queue| && PurgeFront(queue, now) == queue[p..]
    ensures forall k | 0 <= k < p :: queue[k].expiresAt < now
  {
    if queue != [] && queue[0].expiresAt < now {
      var q := PurgeDrops(queue[1..], now);
      p := q + 1;
      assert queue[1..][q..] == queue[p..];
      forall k | 0 <= k < p ensures queue[k].expiresAt < now {
        if k > 0 { assert queue[1..][k - 1].expiresAt < now; }
      }
    } else {
      p := 0;
    }
  }

  lemma GoneLater(es: seq<Ev>, e: Ev, ttl: int, taken: seq<Option<nat>>, t: Option<nat>, j: nat, upto: nat, later: nat)
    requires |es| == |taken| && upto <= later <= |es| + 1 && upto <= |es| && j < |es| && Started(es[j])
    requires Gone(es, ttl, taken, j, upto)
    ensures Gone(es + [e], ttl, taken + [t], j, later)
  {
    var x :| j < x < upto && (taken[x] == Some(j) || EntryOf(es[j], ttl).expiresAt < First(es[x]));
    assert (es + [e])[x] == es[x] && (taken + [t])[x] == taken[x] && (es + [e])[j] == es[j];
  }

  lemma FairLater(es: seq<Ev>, e: Ev, ttl: int, taken: seq<Option<nat>>, t: Option<nat>, i: nat)
    requires i < |es| == |taken| && Fair(es, ttl, taken, i)
    ensures Fair(es + [e], ttl, taken + [t], i)
  {
    hide Gone;
    var fs, ts := es + [e], taken + [t];
    if es[i].Consume? {
      forall j: nat | j < i && Started(fs[j]) && fs[j].cwd == fs[i].forCwd && (ts[i].Some? ==> j < ts[i].value)
        ensures Gone(fs, ttl, ts, j, i) || EntryOf(fs[j], ttl).expiresAt < First(fs[i])
      {
        if Gone(es, ttl, taken, j, i) { GoneLater(es, e, ttl, taken, t, j, i, i); }
      }
    }
  }

  lemma AnswerLater(
    es: seq<Ev>, e: Ev, answers: seq<Option<string>>, a: Option<string>, taken: seq<Option<nat>>, t: Option<nat>, i: nat)
    requires i < |es| && |answers| == |taken| == |es| && AnswerOk(es, answers, taken, i)
    ensures AnswerOk(es + [e], answers + [a], taken + [t], i)
  {
  }

  lemma WaitingRest(es: seq<Ev>, ttl: int, queue: seq<Entry>, waiting: seq<nat>, p: nat)
    requires Waiting(es, ttl, queue, waiting) && p <= |queue|
    ensures Waiting(es, ttl, queue[p..], waiting[p..])
    ensures forall j | j in waiting && j !in waiting[p..] :: exists k :: 0 <= k < p && waiting[k] == j
  {
    forall j | j in waiting && j !in waiting[p..] ensures exists k :: 0 <= k < p && waiting[k] == j {
      assert waiting == waiting[..p] + waiting[p..];
      var k :| 0 <= k < p && waiting[..p][k] == j;
      assert waiting[k] == j;
    }
  }

  /** What a purge leaves still waits; what it drops had expired. */
  lemma Purged(es: seq<Ev>, ttl: int, queue: seq<Entry>, waiting: seq<nat>, now: int) returns (left: seq<nat>)
    requires Waiting(es, ttl, queue, waiting)
    ensures Waiting(es, ttl, PurgeFront(queue, now), left)
    ensures forall j | j in left :: j in waiting
    ensures forall j | j in waiting && j !in left :: EntryOf(es[j], ttl).expiresAt < now
  {
    hide PurgeFront;
    var p := PurgeDrops(queue, now);
    left := waiting[p..];
    WaitingRest(es, ttl, queue, waiting, p);
    forall j | j in waiting && j !in left ensures EntryOf(es[j], ttl).expiresAt < now {
      var k :| 0 <= k < p && waiting[k] == j;
      assert queue[k] == EntryOf(es[waiting[k]], ttl);
    }
  }

  lemma WaitingLater(es: seq<Ev>, e: Ev, ttl: int, queue: seq<Entry>, waiting: seq<nat>)
    requires Waiting(es, ttl, queue, waiting)
    ensures Waiting(es + [e], ttl, queue, waiting)
    ensures Started(e) ==> Waiting(es + [e], ttl, queue + [EntryOf(e, ttl)], waiting + [|es|])
  {
  }

  /** One entry is taken from the middle. */
  lemma WaitingWithout(es: seq<Ev>, ttl: int, queue: seq<Entry>, waiting: seq<nat>, f: nat) returns (rest: seq<nat>)
    requires Waiting(es, ttl, queue, waiting) && f < |waiting|
    ensures Waiting(es, ttl, queue[..f] + queue[f + 1..], rest)
    ensures waiting[f] !in rest && forall j :: j in waiting <==> j == waiting[f] || j in rest
  {
    rest := waiting[..f] + waiting[f + 1..];
    forall j | j in waiting ensures j == waiting[f] || j in rest {
      var k :| 0 <= k < |waiting| && waiting[k] == j;
      if k < f { assert rest[k] == j; } else if k > f { assert rest[k - 1] == j; }
    }
  }

  /** A call without an answer: it drops expired starts, and adds itself if it is a start. */
  lemma BooksNone(
    es: seq<Ev>, e: Ev, ttl: int, answers: seq<Option<string>>, waiting: seq<nat>, taken: seq<Option<nat>>, after: seq<nat>)
    requires Books(es, ttl, answers, waiting, taken)
    requires forall j | j in waiting && j !in after :: j < |es| && Started(es[j]) && EntryOf(es[j], ttl).expiresAt < First(e)
    requires forall j | j in after :: j in waiting || (j == |es| && Started(e))
    requires Started(e) ==> |es| in after
    requires forall j | j in waiting :: j < |es|
    requires e.Consume? ==> forall j | j in after :: j < |es| && es[j].Add? && es[j].cwd != e.forCwd
    ensures Books(es + [e], ttl, answers + [None], after, taken + [None])
  {
    hide Gone, Fair, AnswerOk;
    var fs, ts, n := es + [e], taken + [None], |es|;
    assert fs[n] == e && ts[n] == None;
    forall i: nat | i < n ensures AnswerOk(fs, answers + [None], ts, i) && Fair(fs, ttl, ts, i) {
      AnswerLater(es, e, answers, None, taken, None, i);
      FairLater(es, e, ttl, taken, None, i);
    }
    forall j: nat | j < n && Started(es[j])
      ensures j in after || Gone(fs, ttl, ts, j, n + 1)
      ensures Gone(fs, ttl, ts, j, n) || j in after || EntryOf(es[j], ttl).expiresAt < First(e)
    {
      FateLater(es, e, ttl, waiting, taken, None, after, j);
    }
    LastNone(fs, ttl, answers + [None], ts, after);
    forall i, k | 0 <= i < |ts| && 0 <= k < |after| ensures ts[i] != Some(after[k]) {
      assert after[k] in after;
      if i < n { TakenEarlier(es, answers, waiting, ttl, taken, i, after[k]); }
    }
  }

  lemma TakenEarlier(
    es: seq<Ev>, answers: seq<Option<string>>, waiting: seq<nat>, ttl: int, taken: seq<Option<nat>>, i: nat, j: nat)
    requires Books(es, ttl, answers, waiting, taken) && i < |es| && (j in waiting || j == |es|)
    ensures taken[i] != Some(j)
  {
    hide Fair, Gone;
    assert AnswerOk(es, answers, taken, i);
    if j in waiting { var k :| 0 <= k < |waiting| && waiting[k] == j; }
  }

  lemma LastNone(es: seq<Ev>, ttl: int, answers: seq<Option<string>>, taken: seq<Option<nat>>, after: seq<nat>)
    requires es != [] && |answers| == |taken| == |es| && taken[|es| - 1] == None && answers[|es| - 1] == None
    requires forall j: nat | j < |es| - 1 && Started(es[j]) ::
        Gone(es, ttl, taken, j, |es| - 1) || j in after || EntryOf(es[j], ttl).expiresAt < First(es[|es| - 1])
    requires es[|es| - 1].Consume? ==> forall j | j in after :: j < |es| && es[j].Add? && es[j].cwd != es[|es| - 1].forCwd
    ensures AnswerOk(es, answers, taken, |es| - 1) && Fair(es, ttl, taken, |es| - 1)
  {
    hide Gone;
  }

  /** A start that does not wait after a call was gone before it or goes with it. */
  lemma FateLater(
    es: seq<Ev>, e: Ev, ttl: int, waiting: seq<nat>, taken: seq<Option<nat>>, t: Option<nat>, after: seq<nat>, j: nat)
    requires |es| == |taken| && j < |es| && Started(es[j]) && (j in waiting || Gone(es, ttl, taken, j, |es|))
    requires j in waiting && j !in after ==> t == Some(j) || EntryOf(es[j], ttl).expiresAt < First(e)
    ensures j in after || Gone(es + [e], ttl, taken + [t], j, |es| + 1)
    ensures Gone(es + [e], ttl, taken + [t], j, |es|) || j in after || t == Some(j) || EntryOf(es[j], ttl).expiresAt < First(e)
  {
    var n := |es|;
    if Gone(es, ttl, taken, j, n) {
      GoneLater(es, e, ttl, taken, t, j, n, n);
      GoneLater(es, e, ttl, taken, t, j, n, n + 1);
    } else if j !in after {
      assert (es + [e])[n] == e && (taken + [t])[n] == t && (es + [e])[j] == es[j];
    }
  }

  /** A call that answers takes the oldest start of its directory that has not expired. */
  lemma BooksTake(
    es: seq<Ev>, e: Ev, ttl: int, answers: seq<Option<string>>, waiting: seq<nat>, taken: seq<Option<nat>>,
    after: seq<nat>, taking: nat)
    requires Books(es, ttl, answers, waiting, taken) && e.Consume?
    requires taking in waiting && taking < |es| && Started(es[taking]) && es[taking].cwd == e.forCwd
    requires forall j | j in waiting :: j < |es|
    requires forall j | j in waiting && j !in after :: Started(es[j]) && (j == taking || EntryOf(es[j], ttl).expiresAt < First(e))
    requires forall j | j in after :: j in waiting && j != taking && es[j].Add? && (j < taking ==> es[j].cwd != e.forCwd)
    ensures Books(es + [e], ttl, answers + [Some(es[taking].requestId)], after, taken + [Some(taking)])
  {
    hide Gone, Fair, AnswerOk;
    var t, a := Some(taking), Some(es[taking].requestId);
    var fs, ts, n := es + [e], taken + [t], |es|;
    assert fs[n] == e && ts[n] == t;
    forall i: nat | i < n ensures AnswerOk(fs, answers + [a], ts, i) && Fair(fs, ttl, ts, i) {
      AnswerLater(es, e, answers, a, taken, t, i);
      FairLater(es, e, ttl, taken, t, i);
    }
    forall j: nat | j < n && Started(es[j])
      ensures j in after || Gone(fs, ttl, ts, j, n + 1)
      ensures Gone(fs, ttl, ts, j, n) || j in after || j == taking || EntryOf(es[j], ttl).expiresAt < First(e)
    {
      FateLater(es, e, ttl, waiting, taken, t, after, j);
    }
    LastTaken(fs, ttl, answers + [a], ts, after, taking);
    forall i | 0 <= i < n ensures ts[i] != Some(taking) {
      TakenEarlier(es, answers, waiting, ttl, taken, i, taking);
    }
    forall i, k | 0 <= i < |ts| && 0 <= k < |after| ensures ts[i] != Some(after[k]) {
      assert after[k] in after;
      if i < n { TakenEarlier(es, answers, waiting, ttl, taken, i, after[k]); }
    }
  }

  lemma LastTaken(
    es: seq<Ev>, ttl: int, answers: seq<Option<string>>, taken: seq<Option<nat>>, after: seq<nat>, taking: nat)
    requires es != [] && |answers| == |taken| == |es| && taken[|es| - 1] == Some(taking)
    requires var e := es[|es| - 1];
        e.Consume? && taking < |es| - 1 && Started(es[taking]) && es[taking].cwd == e.forCwd
        && answers[|es| - 1] == Some(es[taking].requestId)
    requires forall j: nat | j < |es| - 1 && Started(es[j]) ::
        Gone(es, ttl, taken, j, |es| - 1) || j in after || j == taking
        || EntryOf(es[j], ttl).expiresAt < First(es[|es| - 1])
    requires forall j | j in after :: j < |es| && es[j].Add? && (j < taking ==> es[j].cwd != es[|es| - 1].forCwd)
    ensures AnswerOk(es, answers, taken, |es| - 1) && Fair(es, ttl, taken, |es| - 1)
  {
    hide Gone;
  }

  /** The starts that wait are calls of the run, and their entries are in the queue. */
  lemma WaitingAre(es: seq<Ev>, ttl: int, queue: seq<Entry>, waiting: seq<nat>)
    requires Waiting(es, ttl, queue, waiting)
    ensures |waiting| == |queue| && forall j | j in waiting :: j < |es| && Started(es[j])
    ensures forall k | 0 <= k < |waiting| :: es[waiting[k]].cwd == queue[k].cwd && es[waiting[k]].requestId == queue[k].requestId
    ensures forall k, l | 0 <= k < |waiting| && 0 <= l < |waiting| && waiting[k] < waiting[l] :: k < l
  {
  }

  lemma BooksConsume(es: seq<Ev>, e: Ev, ttl: int, queue: seq<Entry>, answers: seq<Option<string>>, waiting: seq<nat>,
                     taken: seq<Option<nat>>)
    returns (after: seq<nat>, t: Option<nat>)
    requires Waiting(es, ttl, queue, waiting) && Books(es, ttl, answers, waiting, taken) && e.Consume?
    ensures var (next, answer) := Step(PurgeFront, ttl, queue, e);
            Waiting(es + [e], ttl, next, after) && Books(es + [e], ttl, answers + [answer], after, taken + [t])
  {
    hide Books, Gone, PurgeFront, Waiting, EntryOf;
    var left := Purged(es, ttl, queue, waiting, First(e));
    var kept := PurgeFront(queue, First(e));
    WaitingAre(es, ttl, queue, waiting);
    WaitingAre(es, ttl, kept, left);
    var found := FirstFor(kept, e.forCwd);
    if found.None? {
      after, t := left, None;
      WaitingLater(es, e, ttl, kept, left);
      forall j | j in after ensures es[j].cwd != e.forCwd {
        var k :| 0 <= k < |left| && left[k] == j;
        assert kept[k] in kept;
      }
      BooksNone(es, e, ttl, answers, waiting, taken, after);
    } else {
      var f := found.value;
      var rest := WaitingWithout(es, ttl, kept, left, f);
      after, t := rest, Some(left[f]);
      WaitingLater(es, e, ttl, kept[..f] + kept[f + 1..], rest);
      assert left[f] in left;
      forall j | j in rest && j < left[f] ensures es[j].cwd != e.forCwd {
        var k :| 0 <= k < |left| && left[k] == j;
      }
      BooksTake(es, e, ttl, answers, waiting, taken, after, left[f]);
    }
  }

  lemma BooksStep(es: seq<Ev>, e: Ev, ttl: int, queue: seq<Entry>, answers: seq<Option<string>>, waiting: seq<nat>,
                  taken: seq<Option<nat>>)
    returns (after: seq<nat>, t: Option<nat>)
    requires Waiting(es, ttl, queue, waiting) && Books(es, ttl, answers, waiting, taken)
    ensures var (next, answer) := Step(PurgeFront, ttl, queue, e);
            Waiting(es + [e], ttl, next, after) && Books(es + [e], ttl, answers + [answer], after, taken + [t])
  {
    hide Books, Gone, PurgeFront, Waiting;
    WaitingAre(es, ttl, queue, waiting);
    if e.Consume? {
      after, t := BooksConsume(es, e, ttl, queue, answers, waiting, taken);
    } else if e.requestId == "" {
      after, t := waiting, None;
      WaitingLater(es, e, ttl, queue, waiting);
      BooksNone(es, e, ttl, answers, waiting, taken, after);
    } else {
      var left := Purged(es, ttl, queue, waiting, First(e));
      WaitingLater(es, e, ttl, PurgeFront(queue, First(e)), left);
      after, t := left + [|es|], None;
      BooksNone(es, e, ttl, answers, waiting, taken, after);
    }
  }

  /** For every run and any clocks: an answer is the request id of an earlier start of the same directory,
      no start is answered twice, the one answered is the oldest that had neither been answered nor
      expired, a call without an answer had none such, and a start that no longer waits was answered or
      had expired at some later call.  What waits are the starts themselves, oldest first, each with its
      own time plus the time-to-live. */
  lemma {:induction false} EveryStartHasItsFate(ttl: int, es: seq<Ev>) returns (waiting: seq<nat>, taken: seq<Option<nat>>)
    ensures var (queue, answers) := Run(PurgeFront, ttl, es);
            Waiting(es, ttl, queue, waiting) && Books(es, ttl, answers, waiting, taken)
  {
    hide Waiting, Books, Step;
    if es == [] {
      waiting, taken := [], [];
      NothingStarted(ttl, es);
    } else {
      var init, e := es[..|es| - 1], es[|es| - 1];
      assert init + [e] == es;
      var before, took := EveryStartHasItsFate(ttl, init);
      var (queue, answers) := Run(PurgeFront, ttl, init);
      var after, t := BooksStep(init, e, ttl, queue, answers, before, took);
      waiting, taken := after, took + [t];
    }
  }

  lemma NothingStarted(ttl: int, es: seq<Ev>)
    requires es == []
    ensures var (queue, answers) := Run(PurgeFront, ttl, es);
            Waiting(es, ttl, queue, []) && Books(es, ttl, answers, [], [])
  {
  }

  /** A clock that goes back leaves an expired start behind a live one, and it is still answered. */
  lemma ClockBackAnswersExpired()
    ensures var queue := [Entry("a", "/x", 110), Entry("b", "/y", 60)];
            && Step(PurgeFront, 10, [Entry("a", "/x", 110)], Add("b", "/y", 50, 50)).0 == queue
            && Step(PurgeFront, 10, queue, Consume("/y", 105)).1 == Some("b")
            && Step(PurgeAll, 10, queue, Consume("/y", 105)).1 == None
  {
    var a, b := Entry("a", "/x", 110), Entry("b", "/y", 60);
    assert PurgeFront([a], 50) == [a] && PurgeFront([a, b], 105) == [a, b];
    assert [a] + [b] == [a, b] && [a, b][1..] == [b] && [b][1..] == [];
    assert PurgeAll([b], 105) == [] + [] && PurgeAll([a, b], 105) == [a] + [];
    assert [a] + [] == [a] && [a][1..] == [];
  }
}
