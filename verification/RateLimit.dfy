/** The sliding-window limiter (packages/hub/src/rate-limit.ts). */
module RateLimit {

  datatype Req = Req(key: string, limit: int, now: int)

  datatype State = State(windows: map<string, seq<int>>, lastGc: int)

  /** The array without the leading entries before `cutoff`. */
  function Trim(times: seq<int>, cutoff: int): seq<int> {
    if times != [] && times[0] < cutoff then Trim(times[1..], cutoff) else times
  }

  function TimesAt(windows: map<string, seq<int>>, key: string): seq<int> {
    if key in windows then windows[key] else []
  }

  /** Every array trimmed, the emptied ones dropped. */
  function Collected(windows: map<string, seq<int>>, cutoff: int): map<string, seq<int>> {
    map k | k in windows && Trim(windows[k], cutoff) != [] :: Trim(windows[k], cutoff)
  }

  /** One check: the new state and the decision.  `collect` says whether garbage is collected when
      the request is admitted. */
  function Step(window: nat, s: State, r: Req, collect: bool): (State, bool) {
    if r.limit <= 0 then (s, true)
    else
      var times := Trim(TimesAt(s.windows, r.key), r.now - window);
      if |times| >= r.limit then (s.(windows := s.windows[r.key := times]), false)
      else
        var windows := s.windows[r.key := times + [r.now]];
        (if collect then State(Collected(windows, r.now - window), r.now) else s.(windows := windows), true)
  }

  /** When the code collects. */
  predicate Due(window: nat, s: State, now: int) {
    now - s.lastGc > window
  }

  class RateLimiter {
    const windowMs: nat
    var windows: map<string, seq<int>>
    var lastGc: int

    constructor (windowMs: nat, now: int)
      ensures this.windowMs == windowMs && View() == State(map[], now)
    {
      this.windowMs := windowMs;
      windows, lastGc := map[], now;
    }

    ghost function View(): State
      reads this
    {
      State(windows, lastGc)
    }

    method Check(key: string, limit: int, now: int) returns (ok: bool)
      modifies this
      ensures var (t, admitted) := old(Step(windowMs, View(), Req(key, limit, now), Due(windowMs, View(), now)));
              View() == t && ok == admitted
      ensures lastGc == if ok && limit > 0 && now - old(lastGc) > windowMs then now else old(lastGc)
    {
      hide Collected;
      if limit <= 0 { return true; }
      var cutoff := now - windowMs;
      if key !in windows {
        windows := windows[key := []];
      }
      var arr := windows[key];
      var i := 0;
      while i < |arr| && arr[i] < cutoff
        invariant 0 <= i <= |arr|
        invariant Trim(arr[i..], cutoff) == Trim(arr, cutoff)
      {
        assert arr[i..][1..] == arr[i + 1..];
        i := i + 1;
      }
      arr := arr[i..];
      windows := windows[key := arr];
      assert windows == old(windows)[key := Trim(TimesAt(old(windows), key), cutoff)];
      if |arr| >= limit { return false; }
      windows := windows[key := arr + [now]];
      assert windows == old(windows)[key := arr + [now]];
      if now - lastGc > windowMs {
        Gc(now);
      }
      return true;
    }

    method Gc(now: int)
      modifies this
      ensures View() == State(old(Collected(windows, now - windowMs)), now)
    {
      var cutoff := now - windowMs;
      var keys := windows.Keys;
      while keys != {}
        invariant keys <= old(windows).Keys && windows.Keys <= old(windows).Keys && keys <= windows.Keys
        invariant forall k | k in keys :: windows[k] == old(windows)[k]
        invariant forall k | k in old(windows).Keys - keys ::
                    if Trim(old(windows)[k], cutoff) == [] then k !in windows
                    else k in windows && windows[k] == Trim(old(windows)[k], cutoff)
        decreases |keys|
      {
        var k :| k in keys;
        var arr := windows[k];
        while |arr| > 0 && arr[0] < cutoff
          invariant Trim(arr, cutoff) == Trim(old(windows)[k], cutoff)
        {
          arr := arr[1..];
        }
        windows := if |arr| == 0 then windows - {k} else windows[k := arr];
        keys := keys - {k};
      }
      lastGc := now;
    }
  }

  // ----- whole runs -----

  /** Requests with, for each, whether garbage would be collected. */
  function Run(window: nat, s: State, reqs: seq<Req>, collects: seq<bool>): State
    requires |collects| == |reqs|
  {
    if reqs == [] then s
    else
      var n := |reqs| - 1;
      Step(window, Run(window, s, reqs[..n], collects[..n]), reqs[n], collects[n]).0
  }

  /** The decision on the last request. */
  function Decision(window: nat, s: State, reqs: seq<Req>, collects: seq<bool>): bool
    requires |collects| == |reqs| > 0
  {
    var n := |reqs| - 1;
    Step(window, Run(window, s, reqs[..n], collects[..n]), reqs[n], collects[n]).1
  }

  predicate ClockForward(reqs: seq<Req>) {
    forall i, j | 0 <= i < j < |reqs| :: reqs[i].now <= reqs[j].now
  }

  /** The times at which limited requests of a key were admitted. */
  function Admitted(window: nat, s: State, reqs: seq<Req>, collects: seq<bool>, key: string): seq<int>
    requires |collects| == |reqs|
  {
    if reqs == [] then []
    else
      var n := |reqs| - 1;
      var before := Admitted(window, s, reqs[..n], collects[..n], key);
      if reqs[n].key == key && reqs[n].limit > 0 && Decision(window, s, reqs, collects)
      then before + [reqs[n].now] else before
  }

  /** How many times lie in the closed interval. */
  function CountIn(times: seq<int>, lo: int, hi: int): nat {
    if times == [] then 0
    else CountIn(times[..|times| - 1], lo, hi) + (if lo <= times[|times| - 1] <= hi then 1 else 0)
  }

  ghost predicate Sorted(times: seq<int>) {
    forall i, j | 0 <= i < j < |times| :: times[i] <= times[j]
  }

  ghost predicate Below(times: seq<int>, cutoff: int) {
    forall i | 0 <= i < |times| :: times[i] < cutoff
  }

  ghost predicate AtMost(times: seq<int>, hi: int) {
    forall i | 0 <= i < |times| :: times[i] <= hi
  }

  // ----- what the arrays hold -----

  lemma {:induction false} TrimSuffix(times: seq<int>, cutoff: int)
    ensures var t := Trim(times, cutoff); |t| <= |times| && t == times[|times| - |t|..]
    ensures Below(times[..|times| - |Trim(times, cutoff)|], cutoff)
  {
    if times != [] && times[0] < cutoff {
      TrimSuffix(times[1..], cutoff);
      var k := |times| - |Trim(times, cutoff)|;
      assert times[..k] == [times[0]] + times[1..][..k - 1];
    }
  }

  /** A key's array is its admissions without some that have left the window by `now`. */
  ghost predicate Tracks(held: seq<int>, admitted: seq<int>, cutoff: int) {
    && |held| <= |admitted| && held == admitted[|admitted| - |held|..]
    && Below(admitted[..|admitted| - |held|], cutoff)
  }

  lemma TracksPush(held: seq<int>, admitted: seq<int>, cutoff: int, now: int)
    requires Tracks(held, admitted, cutoff)
    ensures Tracks(held + [now], admitted + [now], cutoff)
  {
    var k := |admitted| - |held|;
    assert (admitted + [now])[..k] == admitted[..k] && (admitted + [now])[k..] == admitted[k..] + [now];
  }

  ghost predicate Bounded(times: seq<int>, hi: int) {
    Sorted(times) && AtMost(times, hi)
  }

  lemma BoundedPush(times: seq<int>, hi: int, now: int)
    requires Bounded(times, hi) && hi <= now
    ensures Bounded(times, now) && Bounded(times + [now], now)
  {
  }

  lemma StepOther(window: nat, s: State, r: Req, collect: bool, key: string)
    requires r.limit <= 0
    ensures Step(window, s, r, collect) == (s, true)
  {
  }

  /** What a limited request leaves of the map: the trimmed array, with the new time if admitted. */
  lemma StepWindows(window: nat, s: State, r: Req, collect: bool)
    requires r.limit > 0
    ensures var (t, ok) := Step(window, s, r, collect);
            var lo := r.now - window;
            var times := Trim(TimesAt(s.windows, r.key), lo);
            var windows := s.windows[r.key := if ok then times + [r.now] else times];
            t.windows == (if ok && collect then Collected(windows, lo) else windows)
  {
    hide Trim, Collected, TimesAt;
  }

  lemma CollectedAt(windows: map<string, seq<int>>, cutoff: int, key: string)
    ensures TimesAt(Collected(windows, cutoff), key) == Trim(TimesAt(windows, key), cutoff)
  {
  }

  lemma NothingTracked(s: State, key: string, cutoff: int)
    requires s.windows == map[]
    ensures Tracks(TimesAt(s.windows, key), [], cutoff)
  {
  }

  lemma NothingBounded(now: int)
    ensures Bounded([], now)
  {
  }

  lemma {:induction false} RunBounded(window: nat, s: State, reqs: seq<Req>, collects: seq<bool>, key: string, now: int)
    requires |collects| == |reqs| && ClockForward(reqs)
    requires reqs != [] ==> now >= reqs[|reqs| - 1].now
    ensures Bounded(Admitted(window, s, reqs, collects, key), now)
  {
    hide Decision, Bounded;
    if reqs == [] {
      NothingBounded(now);
    } else {
      var n := |reqs| - 1;
      assert n > 0 ==> reqs[n - 1].now <= reqs[n].now;
      RunBounded(window, s, reqs[..n], collects[..n], key, reqs[n].now);
      BoundedPush(Admitted(window, s, reqs[..n], collects[..n], key), reqs[n].now, reqs[n].now);
      BoundedPush(Admitted(window, s, reqs, collects, key), reqs[n].now, now);
    }
  }

  // ----- any clock -----

  /** No time outside the window stands behind, or is, one at or after its beginning. */
  ghost predicate NothingAstray(times: seq<int>, lo: int, hi: int) {
    forall i, j | 0 <= i <= j < |times| && lo <= times[i] :: lo <= times[j] <= hi
  }

  lemma {:induction false} CountAll(times: seq<int>, lo: int, hi: int)
    ensures CountIn(times, lo, hi) <= |times|
    ensures CountIn(times, lo, hi) == |times| <==> forall i | 0 <= i < |times| :: lo <= times[i] <= hi
  {
    if times != [] {
      CountAll(times[..|times| - 1], lo, hi);
    }
  }

  lemma {:induction false} CountConcat(a: seq<int>, b: seq<int>, lo: int, hi: int)
    ensures CountIn(a + b, lo, hi) == CountIn(a, lo, hi) + CountIn(b, lo, hi)
    decreases |b|
  {
    if b == [] {
      assert a + b == a;
    } else {
      assert (a + b)[..|a + b| - 1] == a + b[..|b| - 1];
      CountConcat(a, b[..|b| - 1], lo, hi);
    }
  }

  lemma {:induction false} CountBelow(times: seq<int>, lo: int, hi: int)
    requires Below(times, lo)
    ensures CountIn(times, lo, hi) == 0
  {
    if times != [] {
      CountBelow(times[..|times| - 1], lo, hi);
    }
  }

  lemma {:induction false} TrimStarts(times: seq<int>, cutoff: int)
    ensures Trim(times, cutoff) != [] ==> Trim(times, cutoff)[0] >= cutoff
  {
    if times != [] && times[0] < cutoff {
      TrimStarts(times[1..], cutoff);
    }
  }

  ghost predicate FirstWithin(times: seq<int>, cutoff: int, i: int) {
    0 <= i < |times| && times[i] >= cutoff && forall j | 0 <= j < i :: times[j] < cutoff
  }

  /** Collection keeps exactly the keys with a time inside the window, and of each its times from the first
      such time on. */
  lemma CollectedIs(windows: map<string, seq<int>>, cutoff: int, key: string)
    ensures key in Collected(windows, cutoff) <==> key in windows && exists i :: FirstWithin(windows[key], cutoff, i)
    ensures forall i :: key in windows && FirstWithin(windows[key], cutoff, i) ==>
              key in Collected(windows, cutoff) && Collected(windows, cutoff)[key] == windows[key][i..]
  {
    if key in windows {
      var times := windows[key];
      var kept := Trim(times, cutoff);
      TrimSuffix(times, cutoff);
      TrimStarts(times, cutoff);
      var k := |times| - |kept|;
      assert forall j | 0 <= j < k :: times[..k][j] == times[j];
      if kept != [] { assert FirstWithin(times, cutoff, k); }
    }
  }

  lemma AstrayConcat(a: seq<int>, b: seq<int>, lo: int, hi: int)
    requires Below(a, lo)
    ensures NothingAstray(a + b, lo, hi) <==> NothingAstray(b, lo, hi)
  {
    var all := a + b;
    if NothingAstray(all, lo, hi) {
      forall i, j | 0 <= i <= j < |b| && lo <= b[i] ensures lo <= b[j] <= hi {
        assert all[|a| + i] == b[i] && all[|a| + j] == b[j];
      }
    }
    if NothingAstray(b, lo, hi) {
      forall i, j | |a| <= i <= j < |all| && lo <= all[i] ensures lo <= all[j] <= hi {
        assert all[i] == b[i - |a|] && all[j] == b[j - |a|];
      }
      assert forall i | 0 <= i < |a| :: all[i] == a[i];
    }
  }

  lemma AstrayFromStart(times: seq<int>, lo: int, hi: int)
    requires times != [] ==> times[0] >= lo
    ensures NothingAstray(times, lo, hi) <==> forall i | 0 <= i < |times| :: lo <= times[i] <= hi
  {
    if NothingAstray(times, lo, hi) {
      forall i | 0 <= i < |times| ensures lo <= times[i] <= hi {
        assert lo <= times[0];
      }
    }
  }

  /** Trimming the front leaves as many times as lie in the window exactly when nothing is astray,
      and never fewer. */
  lemma TrimExactIff(times: seq<int>, lo: int, hi: int)
    ensures CountIn(times, lo, hi) <= |Trim(times, lo)|
    ensures |Trim(times, lo)| == CountIn(times, lo, hi) <==> NothingAstray(times, lo, hi)
  {
    hide CountIn, Trim;
    TrimSuffix(times, lo);
    TrimStarts(times, lo);
    var kept := Trim(times, lo);
    var k := |times| - |kept|;
    var dropped := times[..k];
    assert times == dropped + kept;
    CountConcat(dropped, kept, lo, hi);
    CountBelow(dropped, lo, hi);
    CountAll(kept, lo, hi);
    AstrayConcat(dropped, kept, lo, hi);
    AstrayFromStart(kept, lo, hi);
  }

  /** Tracking needs no forward clock: whatever was dropped lies before the latest cutoff so far. */
  lemma TracksTrim(held: seq<int>, admitted: seq<int>, cutoff: int, lo: int)
    requires Tracks(held, admitted, cutoff)
    ensures Tracks(Trim(held, lo), admitted, if cutoff < lo then lo else cutoff)
  {
    TrimSuffix(held, lo);
    var t := Trim(held, lo);
    var max := if cutoff < lo then lo else cutoff;
    var dropped := admitted[..|admitted| - |t|];
    forall i | 0 <= i < |dropped| ensures dropped[i] < max {
      var k := |admitted| - |held|;
      if i < k {
        assert dropped[i] == admitted[..k][i];
      } else {
        assert dropped[i] == held[..|held| - |t|][i - k];
      }
    }
  }

  lemma StepTracks(window: nat, s: State, r: Req, collect: bool, key: string, admitted: seq<int>, cutoff: int)
    requires Tracks(TimesAt(s.windows, key), admitted, cutoff) && r.now - window <= cutoff
    ensures var (t, ok) := Step(window, s, r, collect);
            var after := if r.key == key && r.limit > 0 && ok then admitted + [r.now] else admitted;
            Tracks(TimesAt(t.windows, key), after, cutoff)
  {
    hide Tracks, Trim, Step, Collected;
    var lo := r.now - window;
    var held := TimesAt(s.windows, key);
    TracksTrim(held, admitted, cutoff, lo);
    if r.limit <= 0 {
      StepOther(window, s, r, collect, key);
    } else {
      StepWindows(window, s, r, collect);
      var ok := Step(window, s, r, collect).1;
      var times := Trim(TimesAt(s.windows, r.key), lo);
      var windows := s.windows[r.key := if ok then times + [r.now] else times];
      TracksPush(Trim(held, lo), admitted, cutoff, r.now);
      var after := if r.key == key && ok then admitted + [r.now] else admitted;
      assert Tracks(TimesAt(windows, key), after, cutoff);
      TracksTrim(TimesAt(windows, key), after, cutoff, lo);
      CollectedAt(windows, lo, key);
    }
  }

  lemma {:induction false} RunTracks(window: nat, s: State, reqs: seq<Req>, collects: seq<bool>, key: string, latest: int)
    requires |collects| == |reqs| && s.windows == map[] && forall r | r in reqs :: r.now <= latest
    ensures Tracks(TimesAt(Run(window, s, reqs, collects).windows, key),
                   Admitted(window, s, reqs, collects, key), latest - window)
    ensures AtMost(Admitted(window, s, reqs, collects, key), latest)
  {
    hide Tracks, Step, TimesAt;
    if reqs == [] {
      NothingTracked(s, key, latest - window);
    } else {
      var n := |reqs| - 1;
      assert reqs[n] in reqs && forall r | r in reqs[..n] :: r in reqs;
      RunTracks(window, s, reqs[..n], collects[..n], key, latest);
      StepTracks(window, Run(window, s, reqs[..n], collects[..n]), reqs[n], collects[n], key,
                    Admitted(window, s, reqs[..n], collects[..n], key), latest - window);
    }
  }

  lemma AstrayDropped(held: seq<int>, admitted: seq<int>, lo: int, hi: int)
    requires Tracks(held, admitted, lo)
    ensures NothingAstray(held, lo, hi) <==> NothingAstray(admitted, lo, hi)
    ensures CountIn(held, lo, hi) == CountIn(admitted, lo, hi)
  {
    var k := |admitted| - |held|;
    var dropped := admitted[..k];
    assert admitted == dropped + held;
    CountConcat(dropped, held, lo, hi);
    CountBelow(dropped, lo, hi);
    AstrayConcat(dropped, held, lo, hi);
  }

  lemma StepAdmits(window: nat, s: State, r: Req, collect: bool)
    requires r.limit > 0
    ensures Step(window, s, r, collect).1 <==> |Trim(TimesAt(s.windows, r.key), r.now - window)| < r.limit
  {
    hide Trim, Collected;
  }

  /** From any state and at any time, earlier than what was recorded or later: the decision is, under
      every limit, that of the times held for the key that lie in the closed window, exactly when
      nothing held is astray. */
  lemma DecidesByHeldIff(window: nat, t: State, key: string, now: int, collect: bool)
    ensures var held := TimesAt(t.windows, key);
            (forall limit | limit > 0 ::
               Step(window, t, Req(key, limit, now), collect).1 <==> CountIn(held, now - window, now) < limit)
            <==> NothingAstray(held, now - window, now)
  {
    hide Trim, CountIn, Step, NothingAstray;
    var held := TimesAt(t.windows, key);
    TrimExactIff(held, now - window, now);
    forall limit | limit > 0
      ensures Step(window, t, Req(key, limit, now), collect).1 <==> |Trim(held, now - window)| < limit
    {
      StepAdmits(window, t, Req(key, limit, now), collect);
    }
    var count := CountIn(held, now - window, now);
    if !NothingAstray(held, now - window, now) {
      assert !Step(window, t, Req(key, count + 1, now), collect).1;
    }
  }

  /** A request made at the latest time so far is decided, under every limit, by the
      number of admissions in the closed window that ends now, exactly when none of its key's
      admissions before the window came after one in it.  It is never admitted against that number. */
  lemma LatestAdmitsIff(window: nat, s: State, reqs: seq<Req>, collects: seq<bool>, key: string, now: int, collect: bool)
    requires |collects| == |reqs| && s.windows == map[] && forall r | r in reqs :: r.now <= now
    ensures var t := Run(window, s, reqs, collects);
            var admitted := Admitted(window, s, reqs, collects, key);
            && (forall limit | limit > 0 && Step(window, t, Req(key, limit, now), collect).1 ::
                  CountIn(admitted, now - window, now) < limit)
            && ((forall limit | limit > 0 ::
                   Step(window, t, Req(key, limit, now), collect).1 <==> CountIn(admitted, now - window, now) < limit)
                <==> NothingAstray(admitted, now - window, now))
  {
    hide Tracks, Trim, CountIn, Step, Run, Admitted;
    var t := Run(window, s, reqs, collects);
    var admitted := Admitted(window, s, reqs, collects, key);
    var held := TimesAt(t.windows, key);
    RunTracks(window, s, reqs, collects, key, now);
    AstrayDropped(held, admitted, now - window, now);
    TrimExactIff(held, now - window, now);
    forall limit | limit > 0
      ensures Step(window, t, Req(key, limit, now), collect).1 <==> |Trim(held, now - window)| < limit
    {
      StepAdmits(window, t, Req(key, limit, now), collect);
    }
    var count := CountIn(admitted, now - window, now);
    if !NothingAstray(admitted, now - window, now) {
      var limit := count + 1;
      assert !Step(window, t, Req(key, limit, now), collect).1;
    }
  }

  // ----- any request of any run -----

  /** Whatever the clock does, a key's array is the end of its admissions. */
  ghost predicate EndOf(held: seq<int>, admitted: seq<int>) {
    |held| <= |admitted| && held == admitted[|admitted| - |held|..]
  }

  /** The window of some request had passed this time. */
  ghost predicate Passed(window: nat, reqs: seq<Req>, time: int) {
    exists r :: r in reqs && time < r.now - window
  }

  /** What is missing at the front was passed. */
  ghost predicate Lost(window: nat, reqs: seq<Req>, held: seq<int>, admitted: seq<int>)
    requires |held| <= |admitted|
  {
    forall i | 0 <= i < |admitted| - |held| :: Passed(window, reqs, admitted[i])
  }

  lemma EndTrim(window: nat, reqs: seq<Req>, r: Req, held: seq<int>, admitted: seq<int>)
    requires EndOf(held, admitted) && Lost(window, reqs, held, admitted) && r in reqs
    ensures var t := Trim(held, r.now - window); EndOf(t, admitted) && Lost(window, reqs, t, admitted)
  {
    TrimSuffix(held, r.now - window);
    var t := Trim(held, r.now - window);
    var k := |admitted| - |held|;
    forall i | 0 <= i < |admitted| - |t| ensures Passed(window, reqs, admitted[i]) {
      if i >= k {
        assert admitted[i] == held[..|held| - |t|][i - k];
      }
    }
  }

  lemma EndPush(window: nat, reqs: seq<Req>, held: seq<int>, admitted: seq<int>, now: int)
    requires EndOf(held, admitted) && Lost(window, reqs, held, admitted)
    ensures EndOf(held + [now], admitted + [now]) && Lost(window, reqs, held + [now], admitted + [now])
  {
    var k := |admitted| - |held|;
    assert (admitted + [now])[k..] == admitted[k..] + [now];
  }

  lemma MorePassed(window: nat, reqs: seq<Req>, r: Req, held: seq<int>, admitted: seq<int>)
    requires |held| <= |admitted| && Lost(window, reqs, held, admitted)
    ensures Lost(window, reqs + [r], held, admitted)
  {
    forall i | 0 <= i < |admitted| - |held| ensures Passed(window, reqs + [r], admitted[i]) {
      assert Passed(window, reqs, admitted[i]);
      var q :| q in reqs && admitted[i] < q.now - window;
      assert q in reqs + [r];
    }
  }

  lemma StepEnd(window: nat, s: State, reqs: seq<Req>, r: Req, collect: bool, key: string, admitted: seq<int>)
    requires EndOf(TimesAt(s.windows, key), admitted) && Lost(window, reqs, TimesAt(s.windows, key), admitted)
    requires r in reqs
    ensures var (t, ok) := Step(window, s, r, collect);
            var after := if r.key == key && r.limit > 0 && ok then admitted + [r.now] else admitted;
            EndOf(TimesAt(t.windows, key), after) && Lost(window, reqs, TimesAt(t.windows, key), after)
  {
    hide Lost, Trim, Step, Collected;
    var lo := r.now - window;
    var held := TimesAt(s.windows, key);
    EndTrim(window, reqs, r, held, admitted);
    if r.limit <= 0 {
      StepOther(window, s, r, collect, key);
    } else {
      StepWindows(window, s, r, collect);
      var ok := Step(window, s, r, collect).1;
      var times := Trim(TimesAt(s.windows, r.key), lo);
      var windows := s.windows[r.key := if ok then times + [r.now] else times];
      EndPush(window, reqs, Trim(held, lo), admitted, r.now);
      var after := if r.key == key && ok then admitted + [r.now] else admitted;
      assert EndOf(TimesAt(windows, key), after) && Lost(window, reqs, TimesAt(windows, key), after);
      EndTrim(window, reqs, r, TimesAt(windows, key), after);
      CollectedAt(windows, lo, key);
    }
  }

  lemma NothingEnds(window: nat, s: State, key: string)
    requires s.windows == map[]
    ensures TimesAt(s.windows, key) == [] && EndOf([], []) && Lost(window, [], [], [])
  {
  }

  lemma {:induction false} RunEnds(window: nat, s: State, reqs: seq<Req>, collects: seq<bool>, key: string)
    requires |collects| == |reqs| && s.windows == map[]
    ensures var held, admitted := TimesAt(Run(window, s, reqs, collects).windows, key), Admitted(window, s, reqs, collects, key);
            EndOf(held, admitted) && Lost(window, reqs, held, admitted)
  {
    hide Passed, Step, TimesAt;
    if reqs == [] {
      NothingEnds(window, s, key);
    } else {
      var n := |reqs| - 1;
      var init := reqs[..n];
      RunEnds(window, s, init, collects[..n], key);
      var t := Run(window, s, init, collects[..n]);
      assert init + [reqs[n]] == reqs;
      MorePassed(window, init, reqs[n], TimesAt(t.windows, key), Admitted(window, s, init, collects[..n], key));
      StepEnd(window, t, reqs, reqs[n], collects[n], key, Admitted(window, s, init, collects[..n], key));
    }
  }

  /** The array kept for a request, the rest of its key's admissions, and those of each in its window. */
  lemma KeptAndLost(window: nat, s: State, reqs: seq<Req>, collects: seq<bool>, key: string, now: int)
    requires |collects| == |reqs| && s.windows == map[]
    ensures var kept := Trim(TimesAt(Run(window, s, reqs, collects).windows, key), now - window);
            var admitted := Admitted(window, s, reqs, collects, key);
            && EndOf(kept, admitted)
            && var lost := admitted[..|admitted| - |kept|];
               CountIn(admitted, now - window, now) == CountIn(lost, now - window, now) + CountIn(kept, now - window, now)
  {
    hide Passed, Step, CountIn, Trim, Run, Admitted;
    RunEnds(window, s, reqs, collects, key);
    var held := TimesAt(Run(window, s, reqs, collects).windows, key);
    var admitted := Admitted(window, s, reqs, collects, key);
    var last := Req(key, 1, now);
    MorePassed(window, reqs, last, held, admitted);
    EndTrim(window, reqs + [last], last, held, admitted);
    var kept := Trim(held, now - window);
    var k := |admitted| - |kept|;
    assert admitted == admitted[..k] + kept;
    CountConcat(admitted[..k], kept, now - window, now);
  }

  /** For any clock and a request at any time: under every limit its decision is that of the admissions
      in the closed window that ends now exactly when as many of those have been dropped as times
      outside the window are kept.  It admits too much under some limit exactly when more have been
      dropped, and refuses too much under some limit exactly when fewer have. */
  lemma AdmitsExactlyIff(window: nat, s: State, reqs: seq<Req>, collects: seq<bool>, key: string, now: int, collect: bool)
    requires |collects| == |reqs| && s.windows == map[]
    ensures var t := Run(window, s, reqs, collects);
            var kept := Trim(TimesAt(t.windows, key), now - window);
            var admitted := Admitted(window, s, reqs, collects, key);
            var count := CountIn(admitted, now - window, now);
            && EndOf(kept, admitted)
            && var dropped := CountIn(admitted[..|admitted| - |kept|], now - window, now);
               var outside := |kept| - CountIn(kept, now - window, now);
               && ((forall limit | limit > 0 :: Step(window, t, Req(key, limit, now), collect).1 <==> count < limit)
                   <==> dropped == outside)
               && ((forall limit | limit > 0 :: Step(window, t, Req(key, limit, now), collect).1 ==> count < limit)
                   <==> dropped <= outside)
               && ((forall limit | limit > 0 :: !Step(window, t, Req(key, limit, now), collect).1 ==> count >= limit)
                   <==> dropped >= outside)
  {
    hide CountIn, Step, Run, Admitted, Trim;
    var t := Run(window, s, reqs, collects);
    var kept := Trim(TimesAt(t.windows, key), now - window);
    KeptAndLost(window, s, reqs, collects, key, now);
    forall limit | limit > 0
      ensures Step(window, t, Req(key, limit, now), collect).1 <==> |kept| < limit
    {
      StepAdmits(window, t, Req(key, limit, now), collect);
    }
    var count := CountIn(Admitted(window, s, reqs, collects, key), now - window, now);
    if |kept| < count {
      assert Step(window, t, Req(key, |kept| + 1, now), collect).1;
    } else if count < |kept| {
      assert !Step(window, t, Req(key, count + 1, now), collect).1;
    }
  }

  /** No admission between the two times has been passed by the window of any of the requests. */
  ghost predicate NonePassed(window: nat, reqs: seq<Req>, admitted: seq<int>, lo: int, hi: int) {
    forall i | 0 <= i < |admitted| && lo <= admitted[i] <= hi :: !Passed(window, reqs, admitted[i])
  }

  lemma {:induction false} CountNone(times: seq<int>, lo: int, hi: int)
    requires forall i | 0 <= i < |times| :: !(lo <= times[i] <= hi)
    ensures CountIn(times, lo, hi) == 0
  {
    if times != [] { CountNone(times[..|times| - 1], lo, hi); }
  }

  /** Of the admissions between the two times none is missing, if none was passed. */
  lemma NothingDropped(
    window: nat, s: State, reqs: seq<Req>, collects: seq<bool>, key: string, now: int, lo: int, hi: int)
    requires |collects| == |reqs| && s.windows == map[] && now - window <= lo
    requires NonePassed(window, reqs, Admitted(window, s, reqs, collects, key), lo, hi)
    ensures var kept := Trim(TimesAt(Run(window, s, reqs, collects).windows, key), now - window);
            CountIn(Admitted(window, s, reqs, collects, key), lo, hi) == CountIn(kept, lo, hi)
  {
    hide CountIn, Trim, Run, Admitted, Passed;
    RunEnds(window, s, reqs, collects, key);
    var held := TimesAt(Run(window, s, reqs, collects).windows, key);
    var admitted := Admitted(window, s, reqs, collects, key);
    var last := Req(key, 1, now);
    MorePassed(window, reqs, last, held, admitted);
    EndTrim(window, reqs + [last], last, held, admitted);
    var kept := Trim(held, now - window);
    var k := |admitted| - |kept|;
    forall i | 0 <= i < k ensures !(lo <= admitted[i] <= hi) {
      assert Passed(window, reqs + [last], admitted[i]);
      PassedByOne(window, reqs, last, admitted[i]);
    }
    assert admitted == admitted[..k] + kept;
    CountNone(admitted[..k], lo, hi);
    CountConcat(admitted[..k], kept, lo, hi);
  }

  lemma PassedByOne(window: nat, reqs: seq<Req>, r: Req, time: int)
    ensures Passed(window, reqs + [r], time) <==> Passed(window, reqs, time) || time < r.now - window
  {
    if Passed(window, reqs, time) {
      var q :| q in reqs && time < q.now - window;
      assert q in reqs + [r];
    }
    assert r in reqs + [r];
  }

  /** A guard that can be read off the times: where no admission in the window ending now was passed by
      the window of an earlier request, nothing is admitted against the number of those admissions. */
  lemma UnpassedNeverTooMany(
    window: nat, s: State, reqs: seq<Req>, collects: seq<bool>, key: string, now: int, limit: int, collect: bool)
    requires |collects| == |reqs| && s.windows == map[] && limit > 0
    requires NonePassed(window, reqs, Admitted(window, s, reqs, collects, key), now - window, now)
    ensures Step(window, Run(window, s, reqs, collects), Req(key, limit, now), collect).1 ==>
              CountIn(Admitted(window, s, reqs, collects, key), now - window, now) < limit
  {
    hide CountIn, Step, Run, Admitted, Trim;
    var t := Run(window, s, reqs, collects);
    NothingDropped(window, s, reqs, collects, key, now, now - window, now);
    StepAdmits(window, t, Req(key, limit, now), collect);
    CountAll(Trim(TimesAt(t.windows, key), now - window), now - window, now);
  }

  // ----- the theorems -----

  /** With a clock that never goes back, a limited request is admitted exactly when fewer than
      `limit` earlier admissions of its key lie in the closed window that ends now. */
  lemma AdmitsIff(window: nat, s: State, reqs: seq<Req>, collects: seq<bool>)
    requires |collects| == |reqs| > 0 && s.windows == map[] && ClockForward(reqs)
    ensures var n := |reqs| - 1;
            var r := reqs[n];
            var earlier := Admitted(window, s, reqs[..n], collects[..n], r.key);
            Decision(window, s, reqs, collects) <==> r.limit <= 0 || CountIn(earlier, r.now - window, r.now) < r.limit
  {
    hide CountIn, Admitted, Run, Step;
    var n := |reqs| - 1;
    var r := reqs[n];
    var earlier := Admitted(window, s, reqs[..n], collects[..n], r.key);
    assert n > 0 ==> reqs[n - 1].now <= r.now;
    RunBounded(window, s, reqs[..n], collects[..n], r.key, r.now);
    assert NothingAstray(earlier, r.now - window, r.now);
    LatestAdmitsIff(window, s, reqs[..n], collects[..n], r.key, r.now, collects[n]);
    assert r == Req(r.key, r.limit, r.now);
    if r.limit <= 0 {
      StepOther(window, Run(window, s, reqs[..n], collects[..n]), r, collects[n], r.key);
    }
  }

  /** Collecting garbage, now or never, changes no decision. */
  lemma {:induction false} GcChangesNothing(window: nat, s: State, reqs: seq<Req>, gc: seq<bool>, other: seq<bool>)
    requires |gc| == |other| == |reqs| && s.windows == map[] && ClockForward(reqs)
    ensures forall key :: Admitted(window, s, reqs, gc, key) == Admitted(window, s, reqs, other, key)
    ensures reqs != [] ==> Decision(window, s, reqs, gc) == Decision(window, s, reqs, other)
  {
    if reqs != [] {
      var n := |reqs| - 1;
      GcChangesNothing(window, s, reqs[..n], gc[..n], other[..n]);
      AdmitsIff(window, s, reqs, gc);
      AdmitsIff(window, s, reqs, other);
      hide Decision;
    }
  }

  lemma {:induction false} CountMonotone(times: seq<int>, lo: int, hi: int, lo': int, hi': int)
    requires forall i | 0 <= i < |times| && lo <= times[i] <= hi :: lo' <= times[i] <= hi'
    ensures CountIn(times, lo, hi) <= CountIn(times, lo', hi')
  {
    if times != [] {
      CountMonotone(times[..|times| - 1], lo, hi, lo', hi');
    }
  }

  lemma CountPush(times: seq<int>, t: int, lo: int, hi: int)
    ensures CountIn(times + [t], lo, hi) == CountIn(times, lo, hi) + (if lo <= t <= hi then 1 else 0)
  {
    assert (times + [t])[..|times|] == times;
  }

  /** Throughout a run no admission within a window's length of a request was passed before it. */
  ghost predicate NeverPasses(window: nat, s: State, reqs: seq<Req>, collects: seq<bool>, key: string)
    requires |collects| == |reqs|
  {
    forall n: nat | n < |reqs| && reqs[n].key == key ::
      NonePassed(window, reqs[..n], Admitted(window, s, reqs[..n], collects[..n], key),
                 reqs[n].now - window, reqs[n].now + window)
  }

  lemma ForwardNeverPasses(window: nat, s: State, reqs: seq<Req>, collects: seq<bool>, key: string)
    requires |collects| == |reqs| && ClockForward(reqs)
    ensures NeverPasses(window, s, reqs, collects, key)
  {
    hide Admitted;
    forall n: nat, r | n < |reqs| && r in reqs[..n] ensures r.now <= reqs[n].now {}
  }

  lemma NeverPassesInit(window: nat, s: State, reqs: seq<Req>, collects: seq<bool>, key: string)
    requires |collects| == |reqs| > 0 && NeverPasses(window, s, reqs, collects, key)
    ensures NeverPasses(window, s, reqs[..|reqs| - 1], collects[..|reqs| - 1], key)
  {
    hide Admitted, NonePassed;
    var init, gc := reqs[..|reqs| - 1], collects[..|reqs| - 1];
    forall n: nat | n < |init| ensures init[..n] == reqs[..n] && gc[..n] == collects[..n] && init[n] == reqs[n] {}
  }

  /** When a key always comes with the same positive limit and the clock never goes back, or not so far
      that a window passes an admission it comes back to, no closed window of the configured length,
      wherever it lies, holds more than `limit` admissions of the key. */
  lemma {:induction false} NoWindowOverLimit(
    window: nat, s: State, reqs: seq<Req>, collects: seq<bool>, key: string, limit: int, start: int)
    requires |collects| == |reqs| && s.windows == map[]
    requires ClockForward(reqs) || NeverPasses(window, s, reqs, collects, key)
    requires limit > 0 && forall r | r in reqs && r.key == key :: r.limit == limit
    ensures CountIn(Admitted(window, s, reqs, collects, key), start, start + window) <= limit
  {
    hide Decision, Run, CountIn, NeverPasses, NonePassed, Trim;
    if ClockForward(reqs) { ForwardNeverPasses(window, s, reqs, collects, key); }
    if reqs == [] {
      NothingCounted([], start, start + window);
    } else {
      var n := |reqs| - 1;
      var r := reqs[n];
      assert r in reqs;
      NeverPassesInit(window, s, reqs, collects, key);
      NoWindowOverLimit(window, s, reqs[..n], collects[..n], key, limit, start);
      var before := Admitted(window, s, reqs[..n], collects[..n], key);
      if r.key == key && Decision(window, s, reqs, collects) {
        CountPush(before, r.now, start, start + window);
        if start <= r.now <= start + window {
          AdmittedBelow(window, s, reqs, collects, start);
        }
      }
    }
  }

  lemma AdmittedBelow(window: nat, s: State, reqs: seq<Req>, collects: seq<bool>, start: int)
    requires |collects| == |reqs| > 0 && s.windows == map[] && Decision(window, s, reqs, collects)
    requires var r := reqs[|reqs| - 1]; r.limit > 0 && start <= r.now <= start + window && NeverPasses(window, s, reqs, collects, r.key)
    ensures var n, r := |reqs| - 1, reqs[|reqs| - 1];
            CountIn(Admitted(window, s, reqs[..n], collects[..n], r.key), start, start + window) < r.limit
  {
    hide CountIn, Run, Admitted, Trim, Step, NonePassed;
    var n, r := |reqs| - 1, reqs[|reqs| - 1];
    var t := Run(window, s, reqs[..n], collects[..n]);
    var before := Admitted(window, s, reqs[..n], collects[..n], r.key);
    assert NonePassed(window, reqs[..n], before, r.now - window, r.now + window);
    NothingDropped(window, s, reqs[..n], collects[..n], r.key, r.now, r.now - window, r.now + window);
    KeptAndLost(window, s, reqs[..n], collects[..n], r.key, r.now);
    StepAdmits(window, t, r, collects[n]);
    var kept := Trim(TimesAt(t.windows, r.key), r.now - window);
    NarrowerCount(before, kept, r.now - window, r.now + window, start, start + window);
    assert r == Req(r.key, r.limit, r.now);
  }

  /** If `kept` ends `all` and has all its times in the wider interval, it has all those in a narrower one. */
  lemma NarrowerCount(all: seq<int>, kept: seq<int>, lo: int, hi: int, lo': int, hi': int)
    requires EndOf(kept, all) && CountIn(all, lo, hi) == CountIn(kept, lo, hi) && lo <= lo' && hi' <= hi
    ensures CountIn(all, lo', hi') <= |kept|
  {
    hide CountIn;
    var k := |all| - |kept|;
    assert all == all[..k] + kept;
    CountConcat(all[..k], kept, lo, hi);
    CountConcat(all[..k], kept, lo', hi');
    CountMonotone(all[..k], lo', hi', lo, hi);
    CountAll(kept, lo', hi');
  }

  lemma NothingCounted(times: seq<int>, lo: int, hi: int)
    requires times == []
    ensures CountIn(times, lo, hi) == 0
  {
  }

  /** A clock that goes back keeps an entry in front of older ones: at 105 the only admission within
      the last 10 was at 100, and yet a limit of 2 refuses. */
  lemma ClockBackRefuses()
    ensures var reqs := [Req("k", 2, 100), Req("k", 2, 50), Req("k", 2, 105)];
            var none := [false, false, false];
            && Admitted(10, State(map[], 0), reqs[..2], none[..2], "k") == [100, 50]
            && !Decision(10, State(map[], 0), reqs, none)
  {
    var s := State(map[], 0);
    var a, b, c := Req("k", 2, 100), Req("k", 2, 50), Req("k", 2, 105);
    Push(10, s, [], [], a, false);
    Push(10, s, [a], [false], b, false);
    Push(10, s, [a, b], [false, false], c, false);
    assert [] + [a] == [a] && [a] + [b] == [a, b] && [a, b] + [c] == [a, b, c];
    assert [] + [false] == [false] && [false] + [false] == [false, false];
    assert [false, false] + [false] == [false, false, false];
    assert [a, b, c][..2] == [a, b] && [false, false, false][..2] == [false, false];
    Nothing(10, s, [], [], "k");
    hide Run, Decision, Admitted;
    assert TimesAt(Run(10, s, [a], [false]).windows, "k") == [] + [100];
    assert Trim([100], 40) == [100];
    assert TimesAt(Run(10, s, [a, b], [false, false]).windows, "k") == [100] + [50] == [100, 50];
    assert Trim([100, 50], 95) == [100, 50];
  }

  /** It also admits too much: the check at 100 drops the three admissions that the window ending at 50
      still has, and the fifth request makes four in that window under a limit of three. */
  lemma ClockBackOverAdmits()
    ensures var reqs := [Req("k", 3, 45), Req("k", 3, 46), Req("k", 3, 47), Req("k", 3, 100), Req("k", 3, 50)];
            var none := [false, false, false, false, false];
            && Admitted(10, State(map[], 0), reqs, none, "k") == [45, 46, 47, 100, 50]
            && CountIn([45, 46, 47, 100, 50], 40, 50) == 4
  {
    var a, b, c, d, e := Req("k", 3, 45), Req("k", 3, 46), Req("k", 3, 47), Req("k", 3, 100), Req("k", 3, 50);
    Nothing(10, State(map[], 0), [], [], "k");
    hide Run, Admitted, CountIn, TimesAt;
    var f1, f2, f3, f4 := [false], [false, false], [false, false, false], [false, false, false, false];
    assert [] + [a] == [a] && [a] + [b] == [a, b] && [a, b] + [c] == [a, b, c] && [a, b, c] + [d] == [a, b, c, d];
    assert [a, b, c, d] + [e] == [a, b, c, d, e] && f4 + [false] == [false, false, false, false, false];
    assert [] + [false] == f1 && f1 + [false] == f2 && f2 + [false] == f3 && f3 + [false] == f4;
    hide Trim;
    FiveTrims();
    AdmitOne([], [], a, [], []);
    AdmitOne([a], f1, b, [45], [45]);
    AdmitOne([a, b], f2, c, [45, 46], [45, 46]);
    AdmitOne([a, b, c], f3, d, [45, 46, 47], [45, 46, 47]);
    AdmitOne([a, b, c, d], f4, e, [100], [45, 46, 47, 100]);
    CountFive();
  }

  lemma FiveTrims()
    ensures Trim([], 35) == [] && Trim([45], 36) == [45] && Trim([45, 46], 37) == [45, 46]
    ensures Trim([45, 46, 47], 90) == [] && Trim([100], 40) == [100]
    ensures var none: seq<int> := []; none + [45] == [45] && none + [100] == [100]
    ensures [45] + [46] == [45, 46] && [45, 46] + [47] == [45, 46, 47]
    ensures [45, 46, 47] + [100] == [45, 46, 47, 100] && [45, 46, 47, 100] + [50] == [45, 46, 47, 100, 50]
  {
    TrimThree();
  }

  lemma AdmitOne(reqs: seq<Req>, collects: seq<bool>, r: Req, held: seq<int>, admitted: seq<int>)
    requires |collects| == |reqs| && r.key == "k" && r.limit == 3
    requires var s := State(map[], 0);
             && TimesAt(Run(10, s, reqs, collects).windows, "k") == held && |Trim(held, r.now - 10)| < 3
             && Admitted(10, s, reqs, collects, "k") == admitted
    ensures var s := State(map[], 0);
            && TimesAt(Run(10, s, reqs + [r], collects + [false]).windows, "k") == Trim(held, r.now - 10) + [r.now]
            && Admitted(10, s, reqs + [r], collects + [false], "k") == admitted + [r.now]
  {
    hide Run, Admitted, Trim;
    Push(10, State(map[], 0), reqs, collects, r, false);
  }

  lemma TrimThree()
    ensures Trim([45, 46, 47], 90) == []
  {
    assert [45, 46, 47][1..] == [46, 47] && [46, 47][1..] == [47] && [47][1..] == [];
    assert Trim([47], 90) == [] && Trim([46, 47], 90) == [];
  }

  lemma CountFive()
    ensures CountIn([45, 46, 47, 100, 50], 40, 50) == 4
  {
    CountPush([], 45, 40, 50);
    CountPush([45], 46, 40, 50);
    CountPush([45, 46], 47, 40, 50);
    CountPush([45, 46, 47], 100, 40, 50);
    CountPush([45, 46, 47, 100], 50, 40, 50);
    assert [] + [45] == [45] && [45] + [46] == [45, 46] && [45, 46] + [47] == [45, 46, 47];
    assert [45, 46, 47] + [100] == [45, 46, 47, 100] && [45, 46, 47, 100] + [50] == [45, 46, 47, 100, 50];
    NothingCounted([], 40, 50);
  }

  // ----- collecting garbage under any clock -----

  lemma {:induction false} TrimTwice(times: seq<int>, cutoff: int, lo: int)
    ensures Trim(Trim(times, cutoff), lo) == Trim(times, lo)
        <==> Trim(times, lo) == [] || Trim(times, lo)[0] >= cutoff
    ensures |Trim(Trim(times, cutoff), lo)| <= |Trim(times, lo)|
    ensures |Trim(Trim(times, cutoff), lo)| == |Trim(times, lo)| ==> Trim(Trim(times, cutoff), lo) == Trim(times, lo)
  {
    if times != [] && times[0] < cutoff {
      if times[0] < lo {
        TrimTwice(times[1..], cutoff, lo);
      } else {
        TrimSuffix(times[1..], cutoff);
        TrimSuffix(Trim(times[1..], cutoff), lo);
      }
    } else if times != [] {
      TrimStarts(times, lo);
    }
  }

  /** From any state: collecting garbage now leaves the decisions on a key at another time as they were,
      under every limit, exactly when the first time its array would keep then is no earlier than the
      time before which garbage is collected, or it would keep none. */
  lemma CollectHarmlessIff(window: nat, s: State, cutoff: int, key: string, at: int, collect: bool)
    ensures var u := State(Collected(s.windows, cutoff), s.lastGc);
            var kept := Trim(TimesAt(s.windows, key), at - window);
            (forall limit | limit > 0 ::
               Step(window, u, Req(key, limit, at), collect).1 == Step(window, s, Req(key, limit, at), collect).1)
            <==> kept == [] || kept[0] >= cutoff
  {
    hide Trim, Step, Collected;
    var u := State(Collected(s.windows, cutoff), s.lastGc);
    var times := TimesAt(s.windows, key);
    var lo := at - window;
    CollectedAt(s.windows, cutoff, key);
    TrimTwice(times, cutoff, lo);
    forall limit | limit > 0
      ensures Step(window, u, Req(key, limit, at), collect).1 <==> |Trim(Trim(times, cutoff), lo)| < limit
      ensures Step(window, s, Req(key, limit, at), collect).1 <==> |Trim(times, lo)| < limit
    {
      StepAdmits(window, u, Req(key, limit, at), collect);
      StepAdmits(window, s, Req(key, limit, at), collect);
    }
    var fewer := |Trim(Trim(times, cutoff), lo)|;
    if fewer < |Trim(times, lo)| {
      assert Step(window, u, Req(key, fewer + 1, at), collect).1 != Step(window, s, Req(key, fewer + 1, at), collect).1;
    }
  }

  lemma Push(window: nat, s: State, reqs: seq<Req>, collects: seq<bool>, r: Req, collect: bool)
    requires |collects| == |reqs|
    ensures var t := Run(window, s, reqs, collects);
            && Run(window, s, reqs + [r], collects + [collect]) == Step(window, t, r, collect).0
            && Decision(window, s, reqs + [r], collects + [collect]) == Step(window, t, r, collect).1
            && Admitted(window, s, reqs + [r], collects + [collect], r.key)
               == Admitted(window, s, reqs, collects, r.key)
                  + (if r.limit > 0 && Step(window, t, r, collect).1 then [r.now] else [])
  {
    assert (reqs + [r])[..|reqs|] == reqs && (collects + [collect])[..|reqs|] == collects;
    var before := Admitted(window, s, reqs, collects, r.key);
    assert before + [] == before;
  }

  lemma Nothing(window: nat, s: State, reqs: seq<Req>, collects: seq<bool>, key: string)
    requires reqs == [] && collects == []
    ensures Run(window, s, reqs, collects) == s && Admitted(window, s, reqs, collects, key) == []
  {
  }
}
