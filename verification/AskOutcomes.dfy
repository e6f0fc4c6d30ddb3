/** How questions are settled, over every run of the relay's handlers and whatever the ids: who is told,
    of which request, and with which outcome (packages/daemon/src/index.ts). */
module AskOutcomes {
  import opened Frames
  import opened Sequences
  import opened AskRelay

  /** The requests of known sessions, in order: the t-th of them takes timer t. */
  function Known(es: seq<Ev>): seq<Ev> {
    if es == [] then []
    else
      var e := es[|es| - 1];
      Known(es[..|es| - 1]) + if e.Request? && e.session.Some? then [e] else []
  }

  /** The requests of unknown sessions, as the replies they should get. */
  function Unknown(es: seq<Ev>): seq<Reply> {
    if es == [] then []
    else
      var e := es[|es| - 1];
      Unknown(es[..|es| - 1])
        + if e.Request? && e.session.None? then [Reply(e.client, e.askId, SessionUnknown, None)] else []
  }

  function UnknownReplies(replies: seq<Reply>): seq<Reply> {
    if replies == [] then []
    else
      var last := replies[|replies| - 1];
      UnknownReplies(replies[..|replies| - 1]) + if last.resolution.SessionUnknown? then [last] else []
  }

  /** What settles a request: the end of its timer, or an answer under its id. */
  ghost predicate Cause(es: seq<Ev>, askId: string, t: nat, resolution: Resolution) {
    match resolution
    case Expired => Fire(t) in es
    case Answered => exists claimed :: Answer(askId, claimed) in es
    case SessionUnknown => false
  }

  /** A reply to a request goes to the client that made it, under its id, and has its cause. */
  ghost predicate ReplyOk(es: seq<Ev>, r: Reply) {
    && (r.resolution.SessionUnknown? <==> r.request.None?)
    && (r.request.Some? ==>
          var t := r.request.value;
          && t < |Known(es)| && Known(es)[t].Request?
          && r.client == Known(es)[t].client && r.askId == Known(es)[t].askId
          && Cause(es, r.askId, t, r.resolution))
  }

  ghost predicate TimerOf(e: Ev, x: Timer) {
    e.Request? && e.session.Some?
    && x == Timer(e.askId, e.client, Question(e.session.value, e.questions, e.expiresAt))
  }

  /** A resolution goes to the hub under the session its answer named, or, at expiry, under the session
      of the request. */
  ghost predicate FrameOk(es: seq<Ev>, f: DaemonFrame) {
    match f
    case AskRequest(a, q) => exists t :: 0 <= t < |Known(es)| && Asked(Known(es)[t], a, q)
    case AskResolved(session, a, resolution) =>
      (resolution.Answered? && Answer(a, session) in es)
      || (resolution.Expired? && exists t: nat :: Fire(t) in es && t < |Known(es)| && AskedBy(Known(es)[t], a, session))
    case _ => false
  }

  ghost predicate Asked(e: Ev, a: string, q: Question) {
    e.Request? && TimerOf(e, Timer(a, e.client, q))
  }

  ghost predicate AskedBy(e: Ev, a: string, session: string) {
    e.Request? && e.askId == a && e.session == Some(session)
  }

  ghost predicate TimersOk(es: seq<Ev>, s: State) {
    && s.nextTimer == |Known(es)| && Timed(s)
    && forall t | t in s.timers :: t < |Known(es)| && TimerOf(Known(es)[t], s.timers[t])
  }

  /** A request is still timed, was replied to, or went with its client. */
  ghost predicate Accounted(es: seq<Ev>, s: State, t: nat)
    requires t < |Known(es)|
  {
    t in s.timers || SettledBy(s, t) || (Known(es)[t].Request? && ClientClosed(Known(es)[t].client) in es)
  }

  ghost predicate Inv(es: seq<Ev>, s: State, out: seq<DaemonFrame>) {
    && TimersOk(es, s)
    && (forall r | r in s.replies :: ReplyOk(es, r))
    && (forall f | f in out :: FrameOk(es, f))
    && UnknownReplies(s.replies) == Unknown(es)
    && (forall t: nat | t < |Known(es)| :: Accounted(es, s, t))
  }

  lemma KnownPush(es: seq<Ev>, e: Ev)
    ensures Known(es + [e]) == Known(es) + if e.Request? && e.session.Some? then [e] else []
    ensures Unknown(es + [e]) == Unknown(es)
      + if e.Request? && e.session.None? then [Reply(e.client, e.askId, SessionUnknown, None)] else []
  {
    assert (es + [e])[..|es|] == es;
  }

  lemma UnknownPush(replies: seq<Reply>, r: Reply)
    ensures UnknownReplies(replies + [r]) == UnknownReplies(replies) + if r.resolution.SessionUnknown? then [r] else []
  {
    assert (replies + [r])[..|replies|] == replies;
  }

  lemma CauseGrows(es: seq<Ev>, e: Ev, askId: string, t: nat, resolution: Resolution)
    requires Cause(es, askId, t, resolution)
    ensures Cause(es + [e], askId, t, resolution)
  {
    if resolution.Answered? {
      var c :| Answer(askId, c) in es;
      assert Answer(askId, c) in es + [e];
    }
  }

  lemma ReplyGrows(es: seq<Ev>, e: Ev, r: Reply)
    requires ReplyOk(es, r)
    ensures ReplyOk(es + [e], r)
  {
    hide Cause;
    KnownPush(es, e);
    if r.request.Some? { CauseGrows(es, e, r.askId, r.request.value, r.resolution); }
  }

  lemma FrameGrows(es: seq<Ev>, e: Ev, f: DaemonFrame)
    requires FrameOk(es, f)
    ensures FrameOk(es + [e], f)
  {
    hide Asked, AskedBy;
    KnownPush(es, e);
    if f.AskRequest? {
      var t :| 0 <= t < |Known(es)| && Asked(Known(es)[t], f.askId, f.question);
      assert Asked(Known(es + [e])[t], f.askId, f.question);
    } else if f.AskResolved? && !(f.resolution.Answered? && Answer(f.askId, f.sessionId) in es) {
      var t: nat :| Fire(t) in es && t < |Known(es)| && AskedBy(Known(es)[t], f.askId, f.sessionId);
      assert Fire(t) in es + [e] && AskedBy(Known(es + [e])[t], f.askId, f.sessionId);
    }
  }

  lemma TimersStep(es: seq<Ev>, s: State, e: Ev)
    requires TimersOk(es, s)
    ensures TimersOk(es + [e], Step(s, e).0)
  {
    KnownPush(es, e);
    TimedStep(s, e);
  }

  /** What one step adds: at most one reply and the frames that go with it, each with its cause. */
  ghost predicate Adds(es: seq<Ev>, s: State, e: Ev) {
    var (t, out) := Step(s, e);
    && (t.replies == s.replies
        || (t.replies == s.replies + [t.replies[|s.replies|]] && ReplyOk(es + [e], t.replies[|s.replies|])))
    && (forall f | f in out :: FrameOk(es + [e], f))
    && UnknownReplies(t.replies) == UnknownReplies(s.replies)
         + if e.Request? && e.session.None? then [Reply(e.client, e.askId, SessionUnknown, None)] else []
  }

  lemma SameUnknown(replies: seq<Reply>)
    ensures UnknownReplies(replies) + [] == UnknownReplies(replies)
  {
  }

  lemma RequestAdds(es: seq<Ev>, s: State, e: Ev)
    requires TimersOk(es, s) && e.Request?
    ensures Adds(es, s, e)
  {
    hide Known, Unknown, UnknownReplies, TimersOk;
    KnownPush(es, e);
    SameUnknown(s.replies);
    var r := Reply(e.client, e.askId, SessionUnknown, None);
    if e.session.Some? {
      assert Asked(Known(es + [e])[|Known(es)|], e.askId, Question(e.session.value, e.questions, e.expiresAt));
    } else {
      UnknownPush(s.replies, r);
      assert Step(s, e).0.replies[|s.replies|] == r;
    }
  }

  lemma AnswerAdds(es: seq<Ev>, s: State, e: Ev)
    requires TimersOk(es, s) && e.Answer?
    ensures Adds(es, s, e)
  {
    hide Known, Unknown, UnknownReplies;
    KnownPush(es, e);
    SameUnknown(s.replies);
    assert e in es + [e];
    if e.askId in s.asks {
      var p := s.asks[e.askId];
      var r := Reply(p.client, e.askId, Answered, Some(p.timer));
      UnknownPush(s.replies, r);
      assert Step(s, e).0.replies[|s.replies|] == r;
      assert Known(es + [e])[p.timer] == Known(es)[p.timer];
    }
  }

  lemma FireAdds(es: seq<Ev>, s: State, e: Ev)
    requires TimersOk(es, s) && e.Fire?
    ensures Adds(es, s, e)
  {
    hide Known, Unknown, UnknownReplies, Timed;
    KnownPush(es, e);
    SameUnknown(s.replies);
    assert e in es + [e];
    if e.timer in s.timers {
      var c := s.timers[e.timer];
      var r := Reply(c.client, c.askId, Expired, Some(e.timer));
      UnknownPush(s.replies, r);
      assert Step(s, e).0.replies[|s.replies|] == r;
      assert AskedBy(Known(es + [e])[e.timer], c.askId, c.question.sessionId);
    }
  }

  lemma StepAdds(es: seq<Ev>, s: State, e: Ev)
    requires TimersOk(es, s)
    ensures Adds(es, s, e)
  {
    match e {
      case Request(_, _, _, _, _) => RequestAdds(es, s, e);
      case Answer(_, _) => AnswerAdds(es, s, e);
      case Fire(_) => FireAdds(es, s, e);
      case ClientClosed(_) => SameUnknown(s.replies);
    }
  }

  lemma SettledStays(s: State, t: State, reply: Reply, request: nat)
    requires t.replies == s.replies || t.replies == s.replies + [reply]
    ensures SettledBy(s, request) ==> SettledBy(t, request)
    ensures t.replies == s.replies + [reply] && reply.request == Some(request) ==> SettledBy(t, request)
  {
    if SettledBy(s, request) {
      var i :| 0 <= i < |s.replies| && s.replies[i].request == Some(request);
      assert t.replies[i].request == Some(request);
    }
    if t.replies == s.replies + [reply] && reply.request == Some(request) {
      assert t.replies[|s.replies|].request == Some(request);
    }
  }

  /** A timer that a step takes away was settled by that step or belonged to the client that closed. */
  lemma StoppedTimer(es: seq<Ev>, s: State, e: Ev, x: nat)
    requires TimersOk(es, s) && x in s.timers && x !in Step(s, e).0.timers
    ensures e.ClientClosed? ==> e.client == s.timers[x].client
    ensures !e.ClientClosed? ==>
              var t := Step(s, e).0;
              t.replies == s.replies + [t.replies[|s.replies|]] && t.replies[|s.replies|].request == Some(x)
  {
    hide Known, TimerOf, OwnedBy;
    if e.ClientClosed? {
      OwnedAre(s, e.client);
      var r :| r in OwnedBy(s.asks, e.client) && s.asks[r].timer == x;
    }
  }

  lemma StepPushes(s: State, e: Ev) returns (reply: Reply)
    ensures var t := Step(s, e).0; t.replies == s.replies || t.replies == s.replies + [reply]
  {
    var t := Step(s, e).0;
    reply := if t.replies == s.replies then Reply(0, "", Expired, None) else t.replies[|s.replies|];
  }

  lemma AccountedStep(es: seq<Ev>, s: State, e: Ev, x: nat)
    requires TimersOk(es, s) && x < |Known(es + [e])|
    requires x < |Known(es)| ==> Accounted(es, s, x)
    ensures Accounted(es + [e], Step(s, e).0, x)
  {
    hide SettledBy, Step, Known;
    var t := Step(s, e).0;
    KnownPush(es, e);
    TimersStep(es, s, e);
    if x < |Known(es)| {
      var reply := StepPushes(s, e);
      SettledStays(s, t, reply, x);
      if x in s.timers && x !in t.timers {
        StoppedTimer(es, s, e, x);
        assert e in es + [e];
      }
    } else {
      NewTimer(s, e);
    }
  }

  lemma NewTimer(s: State, e: Ev)
    ensures e.Request? && e.session.Some? ==> s.nextTimer in Step(s, e).0.timers
  {
  }

  lemma InvStep(es: seq<Ev>, s: State, out: seq<DaemonFrame>, e: Ev)
    requires Inv(es, s, out)
    ensures Inv(es + [e], Step(s, e).0, out + Step(s, e).1)
  {
    hide TimersOk, ReplyOk, FrameOk, Accounted, Step, Known, Unknown, UnknownReplies;
    KnownPush(es, e);
    TimersStep(es, s, e);
    StepAdds(es, s, e);
    var (t, more) := Step(s, e);
    forall r | r in t.replies ensures ReplyOk(es + [e], r) {
      if r in s.replies { ReplyGrows(es, e, r); }
    }
    forall f | f in out + more ensures FrameOk(es + [e], f) {
      if f in out { FrameGrows(es, e, f); }
    }
    forall x: nat | x < |Known(es + [e])| ensures Accounted(es + [e], t, x) {
      AccountedStep(es, s, e, x);
    }
  }

  lemma {:induction false} RunPush(s: State, es: seq<Ev>, e: Ev)
    ensures Run(s, es + [e]).0 == Step(Run(s, es).0, e).0
    ensures Run(s, es + [e]).1 == Run(s, es).1 + Step(Run(s, es).0, e).1
    decreases |es|
  {
    hide Step;
    if es == [] {
      assert [] + [e] == [e] && [e][1..] == [];
      assert Step(s, e).1 + [] == Step(s, e).1 && [] + Step(s, e).1 == Step(s, e).1;
    } else {
      assert (es + [e])[1..] == es[1..] + [e] && (es + [e])[0] == es[0];
      var (s1, out) := Step(s, es[0]);
      RunPush(s1, es[1..], e);
      Assoc(out, Run(s1, es[1..]).1, Step(Run(s1, es[1..]).0, e).1);
    }
  }

  lemma {:induction false} InvRun(es: seq<Ev>)
    ensures Inv(es, Run(INITIAL, es).0, Run(INITIAL, es).1)
  {
    hide Inv, Step, Run;
    if es == [] {
      NothingYet(es);
    } else {
      var init, e := es[..|es| - 1], es[|es| - 1];
      InvRun(init);
      InvStep(init, Run(INITIAL, init).0, Run(INITIAL, init).1, e);
      RunPush(INITIAL, init, e);
      assert init + [e] == es;
    }
  }

  lemma NothingYet(es: seq<Ev>)
    requires es == []
    ensures Inv(es, Run(INITIAL, es).0, Run(INITIAL, es).1)
  {
  }

  /** For every run: a hook is told `expired` only when its own request's timer ended, `answered` only
      after an answer under its id, each time the client that made that request; a request for an
      unknown session is refused at once and in order; and no request is forgotten: it is timed still,
      was replied to, or its client closed. */
  lemma RepliesHaveCauses(es: seq<Ev>)
    ensures var s := Run(INITIAL, es).0;
            && (forall r | r in s.replies :: ReplyOk(es, r))
            && UnknownReplies(s.replies) == Unknown(es)
            && (forall t: nat | t < |Known(es)| :: Accounted(es, s, t))
  {
    InvRun(es);
  }

  /** For every run: the hub is asked a question only as a hook asked it, and told `answered` only of an
      answer, under the session the answer names, `expired` only of a request whose timer ended,
      under that request's session. */
  lemma FramesHaveCauses(es: seq<Ev>)
    ensures forall f | f in Run(INITIAL, es).1 :: FrameOk(es, f)
  {
    InvRun(es);
  }

  /** What an answer or the end of a timer settles is settled at once: the first answer under a pending id
      replies to the client whose request is pending, a timer that ends to the client whose it is, and
      neither the entry nor the timer is left. */
  lemma SettledAtOnce(es: seq<Ev>, e: Ev)
    ensures var (s, t) := (Run(INITIAL, es).0, Run(INITIAL, es + [e]).0);
            && (e.Answer? && e.askId in s.asks ==>
                  var x := s.asks[e.askId].timer;
                  && x < |Known(es)| && Known(es)[x].Request? && Known(es)[x].askId == e.askId
                  && e.askId !in t.asks && x !in t.timers
                  && t.replies == s.replies + [Reply(Known(es)[x].client, e.askId, Answered, Some(x))])
            && (e.Fire? && e.timer in s.timers ==>
                  && e.timer < |Known(es)| && Known(es)[e.timer].Request?
                  && Known(es)[e.timer].askId !in t.asks && e.timer !in t.timers
                  && t.replies == s.replies
                       + [Reply(Known(es)[e.timer].client, Known(es)[e.timer].askId, Expired, Some(e.timer))])
  {
    InvRun(es);
    RunPush(INITIAL, es, e);
    hide Run, Known;
  }

  // ----- hub and hooks are told the same -----

  function Told(out: seq<DaemonFrame>): seq<(string, Resolution)> {
    if out == [] then []
    else (if out[0].AskResolved? then [(out[0].askId, out[0].resolution)] else []) + Told(out[1..])
  }

  function Settled(replies: seq<Reply>): seq<(string, Resolution)> {
    if replies == [] then []
    else
      (if replies[0].resolution.SessionUnknown? then [] else [(replies[0].askId, replies[0].resolution)])
        + Settled(replies[1..])
  }

  lemma {:induction false} SettledPush(replies: seq<Reply>, r: Reply)
    ensures Settled(replies + [r])
         == Settled(replies) + if r.resolution.SessionUnknown? then [] else [(r.askId, r.resolution)]
  {
    if replies == [] {
      assert [] + [r] == [r] && [r][1..] == [];
    } else {
      assert (replies + [r])[1..] == replies[1..] + [r];
      SettledPush(replies[1..], r);
      Assoc(if replies[0].resolution.SessionUnknown? then [] else [(replies[0].askId, replies[0].resolution)],
            Settled(replies[1..]), if r.resolution.SessionUnknown? then [] else [(r.askId, r.resolution)]);
    }
  }

  lemma {:induction false} ToldConcat(a: seq<DaemonFrame>, b: seq<DaemonFrame>)
    ensures Told(a + b) == Told(a) + Told(b)
  {
    if a == [] {
      assert a + b == b;
    } else {
      assert (a + b)[1..] == a[1..] + b;
      ToldConcat(a[1..], b);
      Assoc(if a[0].AskResolved? then [(a[0].askId, a[0].resolution)] else [], Told(a[1..]), Told(b));
    }
  }

  lemma SameOutcomeStep(s: State, e: Ev)
    ensures Settled(Step(s, e).0.replies) == Settled(s.replies) + Told(Step(s, e).1)
  {
    var (t, out) := Step(s, e);
    if t.replies == s.replies {
      assert Told(out) == [];
    } else {
      SettledPush(s.replies, t.replies[|s.replies|]);
    }
  }

  /** Over every run the hub is told of the same questions with the same outcomes as the hooks, in the
      same order. */
  lemma {:induction false} SameOutcomes(es: seq<Ev>)
    ensures Settled(Run(INITIAL, es).0.replies) == Told(Run(INITIAL, es).1)
  {
    hide Step, Run;
    if es == [] {
      NothingSettled(es);
    } else {
      var init, e := es[..|es| - 1], es[|es| - 1];
      SameOutcomes(init);
      assert init + [e] == es;
      RunPush(INITIAL, init, e);
      SameOutcomeStep(Run(INITIAL, init).0, e);
      ToldConcat(Run(INITIAL, init).1, Step(Run(INITIAL, init).0, e).1);
    }
  }

  lemma NothingSettled(es: seq<Ev>)
    requires es == []
    ensures Settled(Run(INITIAL, es).0.replies) == Told(Run(INITIAL, es).1)
  {
  }
}
