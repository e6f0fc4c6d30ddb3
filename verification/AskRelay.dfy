/** The AskUserQuestion relay of the daemon (packages/daemon/src/index.ts): requests held for hook
    clients, their expiry timers, and what is written to hooks and to the hub. */
module AskRelay {
  import opened Frames
  import opened Sequences

  datatype Pending = Pending(client: int, question: Question, timer: nat)

  /** What the closure of an expiry timer captured. */
  datatype Timer = Timer(askId: string, client: int, question: Question)

  /** One frame written to a hook's socket.  `request` tells which request it settles, by its timer;
      it is not part of the frame, and a request for an unknown session has none. */
  datatype Reply = Reply(client: int, askId: string, resolution: Resolution, request: Option<nat>)

  /** `replies` records the writes to hook sockets; `gone` is a history variable: the questions dropped
      because their hook client closed whose ids have been neither asked nor reported to the hub since. */
  datatype State = State(
    asks: map<string, Pending>, timers: map<nat, Timer>, nextTimer: nat,
    replies: seq<Reply>, gone: map<string, Question>)

  datatype Ev =
    | Request(askId: string, client: int, session: Option<string>, questions: seq<string>, expiresAt: int)
    | Answer(askId: string, claimed: string)
    | Fire(timer: nat)
    | ClientClosed(client: int)

  const INITIAL := State(map[], map[], 0, [], map[])

  function OwnedBy(asks: map<string, Pending>, client: int): set<string> {
    set r | r in asks && asks[r].client == client
  }

  /** The state once the entries of `dead` and their timers are dropped. */
  function Dropping(s: State, dead: set<string>): State
    requires dead <= s.asks.Keys
  {
    s.(asks := s.asks - dead,
       timers := s.timers - (set r | r in dead :: s.asks[r].timer),
       gone := s.gone + (map r | r in dead :: s.asks[r].question))
  }

  lemma OwnedAre(s: State, client: int)
    ensures OwnedBy(s.asks, client) <= s.asks.Keys
    ensures forall r | r in s.asks :: r in OwnedBy(s.asks, client) <==> s.asks[r].client == client
  {
  }

  lemma DroppedAre(s: State, client: int)
    ensures var t := Dropping(s, OwnedBy(s.asks, client));
            && t.replies == s.replies
            && (forall r :: Lookup(t.asks, r)
                         == if r in s.asks && s.asks[r].client == client then None else Lookup(s.asks, r))
            && (forall x :: x in t.timers <==>
                  x in s.timers && forall r | r in s.asks && s.asks[r].client == client :: s.asks[r].timer != x)
  {
  }

  lemma DropNone(s: State)
    ensures Dropping(s, {}) == s
  {
    assert s.asks - {} == s.asks && s.timers - {} == s.timers;
  }

  lemma DropOne(s: State, dead: set<string>, r: string)
    requires dead <= s.asks.Keys && r in s.asks.Keys - dead
    ensures var t := Dropping(s, dead);
            Dropping(s, dead + {r}) == t.(asks := t.asks - {r}, timers := t.timers - {s.asks[r].timer},
                                          gone := t.gone[r := s.asks[r].question])
  {
    var more := dead + {r};
    var stopped := set x | x in dead :: s.asks[x].timer;
    assert (set x | x in more :: s.asks[x].timer) == stopped + {s.asks[r].timer};
    assert s.timers - (stopped + {s.asks[r].timer}) == (s.timers - stopped) - {s.asks[r].timer};
    var moved := map x | x in dead :: s.asks[x].question;
    assert (map x | x in more :: s.asks[x].question) == moved[r := s.asks[r].question];
    assert s.gone + moved[r := s.asks[r].question] == (s.gone + moved)[r := s.asks[r].question];
    assert s.asks - more == (s.asks - dead) - {r};
  }

  /** One handler call: the new state and the frames handed to the hub client. */
  function Step(s: State, e: Ev): (State, seq<DaemonFrame>) {
    match e
    case Request(r, client, session, questions, expiresAt) =>
      if session.None? then
        (s.(replies := s.replies + [Reply(client, r, SessionUnknown, None)]), [])
      else
        var q := Question(session.value, questions, expiresAt);
        (s.(asks := s.asks[r := Pending(client, q, s.nextTimer)],
            timers := s.timers[s.nextTimer := Timer(r, client, q)],
            nextTimer := s.nextTimer + 1, gone := s.gone - {r}),
         [AskRequest(r, q)])
    case Answer(r, claimed) =>
      if r !in s.asks then (s, [])
      else
        var p := s.asks[r];
        (s.(asks := s.asks - {r}, timers := s.timers - {p.timer},
            replies := s.replies + [Reply(p.client, r, Answered, Some(p.timer))]),
         [AskResolved(claimed, r, Answered)])
    case Fire(t) =>
      if t !in s.timers then (s, [])
      else
        var c := s.timers[t];
        (s.(asks := s.asks - {c.askId}, timers := s.timers - {t}, gone := s.gone - {c.askId},
            replies := s.replies + [Reply(c.client, c.askId, Expired, Some(t))]),
         [AskResolved(c.question.sessionId, c.askId, Expired)])
    case ClientClosed(client) => (Dropping(s, OwnedBy(s.asks, client)), [])
  }

  function Run(s: State, es: seq<Ev>): (State, seq<DaemonFrame>)
    decreases |es|
  {
    if es == [] then (s, [])
    else
      var (s1, out) := Step(s, es[0]);
      var (s2, rest) := Run(s1, es[1..]);
      (s2, out + rest)
  }

  /** No question is at once pending and dropped. */
  ghost predicate Apart(s: State) {
    s.asks.Keys !! s.gone.Keys
  }

  lemma ApartStep(s: State, e: Ev)
    requires Apart(s)
    ensures Apart(Step(s, e).0)
  {
  }

  // ----- fresh request ids -----

  ghost function Replied(s: State): set<string> {
    set i | 0 <= i < |s.replies| :: s.replies[i].askId
  }

  /** Every request id the daemon has met. */
  ghost function Seen(s: State): set<string> {
    s.asks.Keys + s.gone.Keys + Replied(s)
  }

  ghost predicate FreshStep(s: State, e: Ev) {
    e.Request? ==> e.askId !in Seen(s)
  }

  ghost predicate FreshRun(s: State, es: seq<Ev>)
    decreases |es|
  {
    es != [] ==> FreshStep(s, es[0]) && FreshRun(Step(s, es[0]).0, es[1..])
  }

  /** Every entry has its timer, under its own id. */
  ghost predicate Timed(s: State) {
    && (forall r | r in s.asks ::
          && s.asks[r].timer in s.timers
          && s.timers[s.asks[r].timer] == Timer(r, s.asks[r].client, s.asks[r].question))
    && (forall t | t in s.timers :: t < s.nextTimer)
  }

  /** Timers and entries correspond one to one. */
  ghost predicate Paired(s: State) {
    && Timed(s)
    && (forall t | t in s.timers ::
          && s.timers[t].askId in s.asks
          && s.asks[s.timers[t].askId].timer == t)
  }

  /** Timers and entries correspond one to one, and a request is pending, dropped or replied to,
      never two of these; no request has two replies. */
  ghost predicate Inv(s: State) {
    && Paired(s)
    && s.asks.Keys !! s.gone.Keys !! Replied(s)
    && OneReplyEach(s)
  }

  ghost predicate OneReplyEach(s: State) {
    forall i, j | 0 <= i < j < |s.replies| :: s.replies[i].askId != s.replies[j].askId
  }

  lemma RepliedPush(s: State, t: State, reply: Reply)
    requires t.replies == s.replies + [reply]
    ensures Replied(t) == Replied(s) + {reply.askId}
    ensures OneReplyEach(s) && reply.askId !in Replied(s) ==> OneReplyEach(t)
  {
    assert t.replies[|s.replies|] == reply;
    forall x | x in Replied(s) ensures x in Replied(t) {
      var i :| 0 <= i < |s.replies| && s.replies[i].askId == x;
      assert t.replies[i].askId == x;
    }
    forall i | 0 <= i < |s.replies| ensures s.replies[i].askId in Replied(s) {}
  }

  lemma InvUnknown(s: State, e: Ev)
    requires Inv(s) && FreshStep(s, e) && e.Request? && e.session.None?
    ensures Inv(Step(s, e).0) && Seen(Step(s, e).0) == Seen(s) + {e.askId}
  {
    hide OneReplyEach, Replied, Paired;
    var t := Step(s, e).0;
    assert t == s.(replies := t.replies) && t.replies == s.replies + [t.replies[|s.replies|]];
    RepliedPush(s, t, t.replies[|s.replies|]);
    PairedStepIff(s, e);
  }

  lemma InvKnown(s: State, e: Ev)
    requires Inv(s) && FreshStep(s, e) && e.Request? && e.session.Some?
    ensures Inv(Step(s, e).0) && Seen(Step(s, e).0) == Seen(s) + {e.askId}
  {
    hide OneReplyEach, Paired;
    var t := Step(s, e).0;
    assert t.replies == s.replies && t.asks.Keys == s.asks.Keys + {e.askId};
    assert t.gone == s.gone;
    PairedStepIff(s, e);
    SameReplies(s, t);
  }

  lemma SameReplies(s: State, t: State)
    requires t.replies == s.replies
    ensures Replied(t) == Replied(s) && OneReplyEach(t) == OneReplyEach(s)
  {
  }

  lemma InvAnswer(s: State, e: Ev)
    requires Inv(s) && e.Answer?
    ensures Inv(Step(s, e).0) && Seen(Step(s, e).0) == Seen(s)
  {
    var t := Step(s, e).0;
    if e.askId in s.asks {
      RepliedPush(s, t, t.replies[|s.replies|]);
    }
  }

  lemma InvFire(s: State, e: Ev)
    requires Inv(s) && e.Fire?
    ensures Inv(Step(s, e).0) && Seen(Step(s, e).0) == Seen(s)
  {
    var t := Step(s, e).0;
    if e.timer in s.timers {
      RepliedPush(s, t, t.replies[|s.replies|]);
    }
  }

  /** The timers stopped with some entries are exactly the timers of those entries. */
  lemma StoppedTimers(s: State, dead: set<string>, c: nat)
    requires Paired(s) && dead <= s.asks.Keys && c in s.timers
    ensures c in (set r | r in dead :: s.asks[r].timer) <==> s.timers[c].askId in dead
  {
    var owner := s.timers[c].askId;
    assert s.asks[owner].timer == c;
    forall r | r in dead && s.asks[r].timer == c ensures r == owner {}
  }

  lemma InvClientClosed(s: State, e: Ev)
    requires Inv(s) && e.ClientClosed?
    ensures Inv(Step(s, e).0) && Seen(Step(s, e).0) == Seen(s)
  {
    hide OneReplyEach, Paired;
    var t := Step(s, e).0;
    var dead := OwnedBy(s.asks, e.client);
    assert t.gone.Keys == s.gone.Keys + dead && t.asks.Keys == s.asks.Keys - dead && t.replies == s.replies;
    SameReplies(s, t);
    PairedStepIff(s, e);
  }

  lemma InvStep(s: State, e: Ev)
    requires Inv(s) && FreshStep(s, e)
    ensures Inv(Step(s, e).0)
    ensures Seen(Step(s, e).0) == Seen(s) + (if e.Request? then {e.askId} else {})
  {
    match e {
      case Request(_, _, session, _, _) => if session.None? { InvUnknown(s, e); } else { InvKnown(s, e); }
      case Answer(_, _) => InvAnswer(s, e);
      case Fire(_) => InvFire(s, e);
      case ClientClosed(_) => InvClientClosed(s, e);
    }
  }

  // ----- what a whole run writes -----

  function ResolvedIds(out: seq<DaemonFrame>): seq<string> {
    if out == [] then []
    else (if out[0].AskResolved? then [out[0].askId] else []) + ResolvedIds(out[1..])
  }

  function SettledIds(replies: seq<Reply>): seq<string> {
    if replies == [] then []
    else (if replies[0].resolution.SessionUnknown? then [] else [replies[0].askId]) + SettledIds(replies[1..])
  }

  lemma {:induction false} ResolvedConcat(a: seq<DaemonFrame>, b: seq<DaemonFrame>)
    ensures ResolvedIds(a + b) == ResolvedIds(a) + ResolvedIds(b)
  {
    if a == [] {
      assert a + b == b;
    } else {
      assert (a + b)[1..] == a[1..] + b;
      ResolvedConcat(a[1..], b);
      var head := if a[0].AskResolved? then [a[0].askId] else [];
      Assoc(head, ResolvedIds(a[1..]), ResolvedIds(b));
    }
  }

  lemma {:induction false} SettledConcat(a: seq<Reply>, b: seq<Reply>)
    ensures SettledIds(a + b) == SettledIds(a) + SettledIds(b)
  {
    if a == [] {
      assert a + b == b;
    } else {
      assert (a + b)[1..] == a[1..] + b;
      SettledConcat(a[1..], b);
      var head := if a[0].resolution.SessionUnknown? then [] else [a[0].askId];
      Assoc(head, SettledIds(a[1..]), SettledIds(b));
    }
  }

  lemma SettledStep(s: State, e: Ev)
    ensures SettledIds(Step(s, e).0.replies) == SettledIds(s.replies) + ResolvedIds(Step(s, e).1)
  {
    var (t, out) := Step(s, e);
    if t.replies == s.replies {
      assert ResolvedIds(out) == [];
    } else {
      var last := t.replies[|s.replies|];
      assert [last][1..] == [];
      SettledConcat(s.replies, [last]);
    }
  }

  /** The hub is told a resolution exactly when a hook is, in the same order, apart from requests
      for unknown sessions, which the hub never hears of. */
  lemma {:induction false} HubAndHooksAgree(s: State, es: seq<Ev>)
    ensures SettledIds(Run(s, es).0.replies) == SettledIds(s.replies) + ResolvedIds(Run(s, es).1)
    decreases |es|
  {
    if es != [] {
      var (s1, out) := Step(s, es[0]);
      SettledStep(s, es[0]);
      HubAndHooksAgree(s1, es[1..]);
      ResolvedConcat(out, Run(s1, es[1..]).1);
    }
  }

  lemma {:induction false} InvRun(s: State, es: seq<Ev>)
    requires Inv(s) && FreshRun(s, es)
    ensures Inv(Run(s, es).0)
    decreases |es|
  {
    if es != [] {
      InvStep(s, es[0]);
      InvRun(Step(s, es[0]).0, es[1..]);
    }
  }

  ghost predicate NoRepeats(ids: seq<string>) {
    forall i, j | 0 <= i < j < |ids| :: ids[i] != ids[j]
  }

  lemma {:induction false} SettledNoRepeats(replies: seq<Reply>)
    requires forall i, j | 0 <= i < j < |replies| :: replies[i].askId != replies[j].askId
    ensures NoRepeats(SettledIds(replies))
    ensures forall x | x in SettledIds(replies) :: exists i :: 0 <= i < |replies| && replies[i].askId == x
  {
    if replies != [] {
      SettledNoRepeats(replies[1..]);
      forall x | x in SettledIds(replies[1..])
        ensures x != replies[0].askId && exists i :: 0 <= i < |replies| && replies[i].askId == x
      {
        var i :| 0 <= i < |replies[1..]| && replies[1..][i].askId == x;
        assert replies[i + 1].askId == x;
      }
      assert replies[0].askId !in SettledIds(replies[1..]);
      var head := if replies[0].resolution.SessionUnknown? then [] else [replies[0].askId];
      assert SettledIds(replies) == head + SettledIds(replies[1..]);
    }
  }

  /** With fresh request ids every question is settled at most once: one reply to a hook, one
      resolution to the hub, and a settled or dropped question is no longer pending. */
  lemma SettledAtMostOnce(es: seq<Ev>)
    requires FreshRun(INITIAL, es)
    ensures OneReplyEach(Run(INITIAL, es).0)
    ensures NoRepeats(ResolvedIds(Run(INITIAL, es).1))
    ensures var s := Run(INITIAL, es).0; s.asks.Keys !! s.gone.Keys !! Replied(s)
  {
    InvRun(INITIAL, es);
    HubAndHooksAgree(INITIAL, es);
    SettledNoRepeats(Run(INITIAL, es).0.replies);
    assert SettledIds([]) + ResolvedIds(Run(INITIAL, es).1) == ResolvedIds(Run(INITIAL, es).1);
  }

  // ----- any request ids -----

  /** The request takes an id that is still pending. */
  predicate Overwrites(s: State, e: Ev) {
    e.Request? && e.session.Some? && e.askId in s.asks
  }

  lemma PairedClosed(s: State, client: int)
    requires Paired(s)
    ensures Paired(Step(s, ClientClosed(client)).0)
  {
    var dead := OwnedBy(s.asks, client);
    forall c | c in s.timers ensures c in (set r | r in dead :: s.asks[r].timer) <==> s.timers[c].askId in dead {
      StoppedTimers(s, dead, c);
    }
  }

  /** A step keeps timers and entries paired exactly when it does not overwrite a pending request. */
  lemma PairedStepIff(s: State, e: Ev)
    requires Paired(s)
    ensures Paired(Step(s, e).0) <==> !Overwrites(s, e)
  {
    var t := Step(s, e).0;
    if e.ClientClosed? {
      PairedClosed(s, e.client);
    } else if Overwrites(s, e) {
      var lost := s.asks[e.askId].timer;
      assert lost in t.timers && t.asks[t.timers[lost].askId].timer != lost;
    }
  }

  lemma {:induction false} RunLast(s: State, es: seq<Ev>)
    requires es != []
    ensures Run(s, es).0 == Step(Run(s, es[..|es| - 1]).0, es[|es| - 1]).0
    decreases |es|
  {
    if |es| == 1 {
      assert es[1..] == [] && es[..0] == [];
    } else {
      RunLast(Step(s, es[0]).0, es[1..]);
      var init := es[..|es| - 1];
      assert init[1..] == es[1..][..|es| - 2] && init[0] == es[0];
    }
  }

  lemma RunNext(es: seq<Ev>, k: nat)
    requires k < |es|
    ensures Run(INITIAL, es[..k + 1]).0 == Step(Run(INITIAL, es[..k]).0, es[k]).0
  {
    RunLast(INITIAL, es[..k + 1]);
    assert es[..k + 1][..k] == es[..k];
  }

  ghost predicate AlwaysPaired(es: seq<Ev>) {
    forall k | 0 <= k <= |es| :: Paired(Run(INITIAL, es[..k]).0)
  }

  ghost predicate NeverOverwrites(es: seq<Ev>) {
    forall k | 0 <= k < |es| :: !Overwrites(Run(INITIAL, es[..k]).0, es[k])
  }

  lemma {:induction false} PairedUpTo(es: seq<Ev>, k: nat)
    requires NeverOverwrites(es) && k <= |es|
    ensures Paired(Run(INITIAL, es[..k]).0)
  {
    if k > 0 {
      hide Run, Step, Paired, Overwrites;
      PairedUpTo(es, k - 1);
      RunNext(es, k - 1);
      PairedStepIff(Run(INITIAL, es[..k - 1]).0, es[k - 1]);
    } else {
      assert es[..0] == [];
    }
  }

  /** Timers and entries stay paired throughout a run exactly when no request in it takes an id that
      is still pending; an id settled or dropped may come back. */
  lemma PairedThroughoutIff(es: seq<Ev>)
    ensures AlwaysPaired(es) <==> NeverOverwrites(es)
  {
    hide Run, Step, Paired, Overwrites;
    if NeverOverwrites(es) {
      forall k | 0 <= k <= |es| ensures Paired(Run(INITIAL, es[..k]).0) {
        PairedUpTo(es, k);
      }
    }
    if AlwaysPaired(es) {
      forall k | 0 <= k < |es| ensures !Overwrites(Run(INITIAL, es[..k]).0, es[k]) {
        assert Paired(Run(INITIAL, es[..k]).0);
        assert Paired(Run(INITIAL, es[..k + 1]).0);
        RunNext(es, k);
        PairedStepIff(Run(INITIAL, es[..k]).0, es[k]);
      }
    }
  }

  /** What an overwritten request does: its timer is still set, and when it fires it deletes the newer
      request's entry, so that the newer one can no longer be answered while its own timer runs on,
      and each of the two timers reports the same id to the hub. */
  lemma OverwrittenStrandsNewer(s: State, e: Ev)
    requires Paired(s) && Overwrites(s, e)
    ensures var former := s.asks[e.askId].timer;
            var t := Step(s, e).0;
            var (u, first) := Step(t, Fire(former));
            var newer := t.asks[e.askId].timer;
            && e.askId in t.asks && e.askId !in u.asks && newer in u.timers
            && (forall claimed :: Step(u, Answer(e.askId, claimed)) == (u, []))
            && ResolvedIds(first) == ResolvedIds(Step(u, Fire(newer)).1) == [e.askId]
  {
    var former := s.asks[e.askId].timer;
    var t := Step(s, e).0;
    assert former in t.timers && t.timers[former].askId == e.askId;
  }

  /** The shortest such run. */
  lemma ReusedIdResolvesTwice()
    ensures var s1 := Step(INITIAL, Request("r", 1, Some("s"), ["q"], 5)).0;
            var s2 := Step(s1, Request("r", 2, Some("s"), ["q"], 9)).0;
            var (s3, first) := Step(s2, Fire(0));
            && Overwrites(s1, Request("r", 2, Some("s"), ["q"], 9))
            && "r" in s2.asks && "r" !in s3.asks
            && ResolvedIds(first) == ResolvedIds(Step(s3, Fire(1)).1) == ["r"]
  {
    var s1 := Step(INITIAL, Request("r", 1, Some("s"), ["q"], 5)).0;
    assert "r" in s1.asks;
  }

  // ----- one reply for each request -----

  ghost predicate SettledBy(s: State, request: nat) {
    exists i :: 0 <= i < |s.replies| && s.replies[i].request == Some(request)
  }

  /** A request that was replied to has no timer any more, and none was replied to twice. */
  ghost predicate RepliesOk(s: State) {
    && (forall t: nat | SettledBy(s, t) :: t < s.nextTimer && t !in s.timers)
    && (forall i, j | 0 <= i < j < |s.replies| && s.replies[i].request.Some? ::
          s.replies[i].request != s.replies[j].request)
  }

  lemma TimedStep(s: State, e: Ev)
    requires Timed(s)
    ensures Timed(Step(s, e).0)
  {
    if e.ClientClosed? {
      var dead := OwnedBy(s.asks, e.client);
      var t := Step(s, e).0;
      forall r | r in t.asks ensures t.asks[r].timer in t.timers {
        forall x | x in dead ensures s.asks[x].timer != s.asks[r].timer {}
      }
    }
  }

  lemma RepliesPush(s: State, t: State, reply: Reply)
    requires RepliesOk(s) && t.replies == s.replies + [reply] && s.nextTimer <= t.nextTimer
    requires t.timers.Keys <= s.timers.Keys
    requires reply.request.Some? ==>
      reply.request.value in s.timers && reply.request.value < s.nextTimer && reply.request.value !in t.timers
    ensures RepliesOk(t)
  {
    forall x: nat | SettledBy(t, x) ensures x < t.nextTimer && x !in t.timers {
      var i :| 0 <= i < |t.replies| && t.replies[i].request == Some(x);
      if i < |s.replies| {
        assert s.replies[i].request == Some(x);
        assert SettledBy(s, x);
      }
    }
    forall i | 0 <= i < |s.replies| && s.replies[i].request.Some?
      ensures s.replies[i].request != reply.request
    {
      assert SettledBy(s, s.replies[i].request.value);
    }
  }

  lemma RepliesSame(s: State, t: State)
    requires RepliesOk(s) && t.replies == s.replies && s.nextTimer <= t.nextTimer
    requires forall x | x in t.timers :: x in s.timers || x >= s.nextTimer
    ensures RepliesOk(t)
  {
    forall x: nat | SettledBy(t, x) ensures SettledBy(s, x) {
      var i :| 0 <= i < |t.replies| && t.replies[i].request == Some(x);
      assert s.replies[i].request == Some(x);
    }
  }

  lemma RepliesStep(s: State, e: Ev)
    requires Timed(s) && RepliesOk(s)
    ensures RepliesOk(Step(s, e).0)
  {
    hide RepliesOk;
    var t := Step(s, e).0;
    if t.replies == s.replies {
      RepliesSame(s, t);
    } else {
      RepliesPush(s, t, t.replies[|s.replies|]);
    }
  }

  lemma {:induction false} TimedRun(s: State, es: seq<Ev>)
    requires Timed(s) && RepliesOk(s)
    ensures Timed(Run(s, es).0) && RepliesOk(Run(s, es).0)
    decreases |es|
  {
    hide Timed, RepliesOk, Step;
    if es != [] {
      TimedStep(s, es[0]);
      RepliesStep(s, es[0]);
      TimedRun(Step(s, es[0]).0, es[1..]);
    }
  }

  /** For every run, with any ids: each request is replied to at most once, by answer or by expiry,
      and never again once its timer is gone. */
  lemma OneReplyPerRequest(es: seq<Ev>)
    ensures RepliesOk(Run(INITIAL, es).0)
  {
    TimedRun(INITIAL, es);
  }

  // ----- the handlers -----

  class AskHandlers {
    var askToClient: map<string, Pending>
    var timers: map<nat, Timer>
    var nextTimer: nat
    var replies: seq<Reply>
    var sent: seq<DaemonFrame>
    ghost var gone: map<string, Question>

    ghost function View(): State
      reads this
    {
      State(askToClient, timers, nextTimer, replies, gone)
    }

    constructor ()
      ensures View() == INITIAL && sent == []
    {
      askToClient, timers, nextTimer, replies, sent, gone := map[], map[], 0, [], [], map[];
    }

    method OnHookRequest(
      askId: string, client: int, session: Option<string>, questions: seq<string>, expiresAt: int)
      modifies this
      ensures View() == old(Step(View(), Request(askId, client, session, questions, expiresAt)).0)
      ensures sent == old(sent + Step(View(), Request(askId, client, session, questions, expiresAt)).1)
      ensures session.None? ==>
                replies == old(replies) + [Reply(client, askId, SessionUnknown, None)]
                && sent == old(sent) && askToClient == old(askToClient) && timers == old(timers)
      ensures session.Some? ==>
                var q := Question(session.value, questions, expiresAt);
                && askToClient == old(askToClient)[askId := Pending(client, q, old(nextTimer))]
                && timers == old(timers)[old(nextTimer) := Timer(askId, client, q)] && nextTimer == old(nextTimer) + 1
                && sent == old(sent) + [AskRequest(askId, q)] && replies == old(replies)
    {
      if session.None? {
        replies := replies + [Reply(client, askId, SessionUnknown, None)];
        return;
      }
      var q := Question(session.value, questions, expiresAt);
      var timer := nextTimer;
      timers := timers[timer := Timer(askId, client, q)];
      nextTimer := nextTimer + 1;
      askToClient := askToClient[askId := Pending(client, q, timer)];
      gone := gone - {askId};
      sent := sent + [AskRequest(askId, q)];
    }

    /** `claimed` is the session the answer frame names; the resolution goes out under it. */
    method OnAnswer(askId: string, claimed: string)
      modifies this
      ensures View() == old(Step(View(), Answer(askId, claimed)).0)
      ensures sent == old(sent + Step(View(), Answer(askId, claimed)).1)
      ensures askId in old(askToClient) ==>
                var p := old(askToClient)[askId];
                && askToClient == old(askToClient) - {askId} && timers == old(timers) - {p.timer}
                && replies == old(replies) + [Reply(p.client, askId, Answered, Some(p.timer))]
                && sent == old(sent) + [AskResolved(claimed, askId, Answered)]
      ensures askId !in old(askToClient) ==> unchanged(this)
    {
      if askId !in askToClient { return; }
      var pending := askToClient[askId];
      timers := timers - {pending.timer};
      askToClient := askToClient - {askId};
      replies := replies + [Reply(pending.client, askId, Answered, Some(pending.timer))];
      sent := sent + [AskResolved(claimed, askId, Answered)];
    }

    /** The runtime calls back a timer that was set and not cleared. */
    method OnTimer(timer: nat)
      requires timer in timers
      modifies this
      ensures View() == old(Step(View(), Fire(timer)).0)
      ensures sent == old(sent + Step(View(), Fire(timer)).1)
      ensures var c := old(timers)[timer];
              && askToClient == old(askToClient) - {c.askId} && timers == old(timers) - {timer}
              && replies == old(replies) + [Reply(c.client, c.askId, Expired, Some(timer))]
              && sent == old(sent) + [AskResolved(c.question.sessionId, c.askId, Expired)]
    {
      var captured := timers[timer];
      timers := timers - {timer};
      askToClient := askToClient - {captured.askId};
      gone := gone - {captured.askId};
      replies := replies + [Reply(captured.client, captured.askId, Expired, Some(timer))];
      sent := sent + [AskResolved(captured.question.sessionId, captured.askId, Expired)];
    }

    method OnClientClosed(client: int)
      modifies this
      ensures View() == old(Step(View(), ClientClosed(client)).0)
      ensures sent == old(sent + Step(View(), ClientClosed(client)).1)
      ensures replies == old(replies) && sent == old(sent)
      ensures forall r :: Lookup(askToClient, r)
                       == if Lookup(old(askToClient), r).Some? && old(askToClient)[r].client == client then None
                          else Lookup(old(askToClient), r)
      ensures forall t :: t in timers <==>
                t in old(timers) && forall r | r in old(askToClient) && old(askToClient)[r].client == client ::
                                      old(askToClient)[r].timer != t
    {
      ghost var was := View();
      ghost var owned := OwnedBy(askToClient, client);
      var todo := askToClient.Keys;
      OwnedAre(was, client);
      DropNone(was);
      hide OwnedBy, Dropping;
      assert owned - todo == {};
      while todo != {}
        invariant todo <= askToClient.Keys && (forall r | r in todo :: askToClient[r] == was.asks[r])
        invariant View() == Dropping(was, owned - todo)
        invariant sent == old(sent)
        decreases todo
      {
        var r :| r in todo;
        ghost var before := todo;
        todo := todo - {r};
        if askToClient[r].client == client {
          DropOne(was, owned - before, r);
          assert owned - todo == (owned - before) + {r};
          timers := timers - {askToClient[r].timer};
          gone := gone[r := askToClient[r].question];
          askToClient := askToClient - {r};
        } else {
          assert owned - todo == owned - before;
        }
      }
      assert owned - todo == owned;
      DroppedAre(was, client);
    }
  }
}
