/** One browser client behind the hub: frames queue between them, in order, and the connection may
    drop and come back (packages/hub/src/router.ts, packages/pwa/src/hooks/useHub.ts). */
module Downlink {
  import opened Frames
  import opened Sequences
  import opened Router
  import opened PwaReducer

  datatype HubInput =
    | FromDaemon(d: string, dbName: Option<string>, frame: DaemonFrame)
    | Disconnected(d: string)
    | Renamed(d: string, name: Option<string>)

  function HubStep(hub: Hub, i: HubInput): (Hub, seq<PwaFrame>) {
    match i
    case FromDaemon(d, dbName, f) => OnFrame(hub, d, dbName, f)
    case Disconnected(d) => OnDisconnect(hub, d)
    case Renamed(d, n) => OnRenamed(hub, d, n)
  }

  /** `lead` counts the queued frames up to and including the snapshot.  `hist` and `stale` are
      history variables: what the hub showed at each frame it sent since the subscription, and the
      questions the client knows, or will know, that the hub no longer holds. */
  datatype Link = Link(
    hub: Hub, open: bool, subscribed: bool, fifo: seq<PwaFrame>, lead: nat, pwa: PwaState, hist: seq<View>,
    stale: set<string>)

  datatype Ev =
    | HubIn(i: HubInput)
    | Open
    | Subscribe(list: seq<DaemonView>, replays: seq<PwaFrame>)
    | Receive
    | Close

  /** No other daemon has this question open. */
  ghost predicate Unshared(hub: Hub, d: string, ask: string) {
    forall e | e in hub && e != d :: ask !in hub[e].replica.asks
  }

  /** The input speaks of no question that another daemon has open. */
  ghost predicate InputOk(hub: Hub, i: HubInput) {
    i.FromDaemon? && i.d in hub && (i.frame.AskRequest? || i.frame.AskResolved?) ==> Unshared(hub, i.d, i.frame.askId)
  }

  ghost predicate Enabled(s: Link, e: Ev) {
    match e
    case HubIn(_) => true
    case Open => !s.open
    case Subscribe(list, replays) =>
      s.open && !s.subscribed && IsSnapshot(s.hub, list) && IsReplay(s.hub, replays)
    case Receive => s.open && s.fifo != []
    case Close => s.open
  }

  function CachedOf(hub: Hub, d: string): set<string> {
    if d in hub then hub[d].replica.asks.Keys else {}
  }

  /** The ids of the questions the hub holds. */
  ghost function AllCached(hub: Hub): set<string> {
    set d, a | d in hub && a in hub[d].replica.asks :: a
  }

  /** The hub drops a daemon's questions without a word when the daemon goes or greets anew; a
      question asked or resolved in the client's hearing is settled. */
  ghost function StaleAfter(hub: Hub, i: HubInput, stale: set<string>): set<string> {
    match i
    case FromDaemon(d, _, f) =>
      if f.Hello? then stale + CachedOf(hub, d)
      else if d in hub && (f.AskRequest? || f.AskResolved?) then stale - {f.askId}
      else stale
    case Disconnected(d) => stale + CachedOf(hub, d)
    case Renamed(_, _) => stale
  }

  ghost function Repeat(v: View, n: nat): seq<View> {
    seq(n, i => v)
  }

  ghost function Next(s: Link, e: Ev): Link {
    match e
    case HubIn(i) =>
      var (hub, out) := HubStep(s.hub, i);
      s.(hub := hub, fifo := if s.open then s.fifo + out else s.fifo,
         hist := if s.subscribed then s.hist + Repeat(HubView(hub), |out|) else s.hist,
         stale := if s.subscribed then StaleAfter(s.hub, i, s.stale) else s.stale)
    case Open => s.(open := true, subscribed := false, fifo := [], lead := 0, hist := [])
    case Subscribe(list, replays) =>
      s.(subscribed := true, fifo := s.fifo + [SnapshotFrame(list)] + replays, lead := |s.fifo| + 1,
         hist := Repeat(HubView(s.hub), 1 + |replays|),
         stale := QuestionsAfter(s.pwa.questions, s.fifo).Keys - AllCached(s.hub))
    case Receive =>
      if s.fifo == [] then s
      else s.(fifo := s.fifo[1..], pwa := Reduce(s.pwa, s.fifo[0]), lead := if s.lead > 0 then s.lead - 1 else 0)
    case Close => s.(open := false, subscribed := false, fifo := [], lead := 0, hist := [])
  }

  // ----- sessions -----

  /** `frames` lead from one recorded view to the next. */
  ghost predicate Leads(frames: seq<PwaFrame>, views: seq<View>) {
    && |views| == |frames| + 1
    && forall j | 0 <= j < |frames| :: Tidy(frames[j]) && ViewStep(views[j], frames[j]) == views[j + 1]
  }

  /** The frames queued behind the snapshot, and the views they lead through. */
  ghost predicate ViewInv(s: Link) {
    s.subscribed ==>
      && s.open && s.lead <= |s.fifo| < s.lead + |s.hist|
      && Leads(s.fifo[s.lead..], s.hist[|s.hist| - 1 - (|s.fifo| - s.lead)..])
      && s.hist[|s.hist| - 1] == HubView(s.hub)
      && (s.lead > 0 ==>
            && s.fifo[s.lead - 1].SnapshotFrame?
            && DistinctDaemons(s.fifo[s.lead - 1].daemons)
            && OnlineView(s.fifo[s.lead - 1].daemons) == s.hist[|s.hist| - 1 - (|s.fifo| - s.lead)])
      && (s.lead == 0 ==>
            && DistinctDaemons(s.pwa.daemons)
            && OnlineView(s.pwa.daemons) == s.hist[|s.hist| - 1 - |s.fifo|])
  }

  lemma LeadsPush(frames: seq<PwaFrame>, views: seq<View>, f: PwaFrame, v: View)
    requires Leads(frames, views) && Tidy(f) && ViewStep(views[|frames|], f) == v
    ensures Leads(frames + [f], views + [v])
  {
    var fs, vs := frames + [f], views + [v];
    forall j | 0 <= j < |fs| ensures Tidy(fs[j]) && ViewStep(vs[j], fs[j]) == vs[j + 1] {
      if j == |frames| {
        assert fs[j] == f && vs[j] == views[j] && vs[j + 1] == v;
      } else {
        assert fs[j] == frames[j] && vs[j] == views[j] && vs[j + 1] == views[j + 1];
      }
    }
  }

  lemma LeadsDrop(frames: seq<PwaFrame>, views: seq<View>)
    requires Leads(frames, views) && frames != []
    ensures Leads(frames[1..], views[1..])
  {
    forall j | 0 <= j < |frames[1..]| ensures ViewStep(views[1..][j], frames[1..][j]) == views[1..][j + 1] {
      assert ViewStep(views[j + 1], frames[j + 1]) == views[j + 2];
    }
  }

  lemma LeadsRepeat(frames: seq<PwaFrame>, v: View)
    requires forall f | f in frames :: Tidy(f) && ViewStep(v, f) == v
    ensures Leads(frames, Repeat(v, 1 + |frames|))
  {
  }

  lemma HubInMoves(hub: Hub, i: HubInput)
    ensures var (next, out) := HubStep(hub, i);
            if out == [] then next == hub
            else |out| == 1 && Tidy(out[0]) && HubView(next) == ViewStep(HubView(hub), out[0])
  {
    match i {
      case FromDaemon(d, n, f) => HubFrameView(hub, d, n, f);
      case Disconnected(d) => HubDisconnectView(hub, d);
      case Renamed(d, n) => HubRenameView(hub, d, n);
    }
  }

  lemma ViewInvHubIn(s: Link, i: HubInput)
    requires ViewInv(s)
    ensures ViewInv(Next(s, HubIn(i)))
  {
    hide HubStep, ViewStep, HubView;
    var (hub, out) := HubStep(s.hub, i);
    var t := Next(s, HubIn(i));
    HubInMoves(s.hub, i);
    if s.subscribed {
      var base := |s.hist| - 1 - (|s.fifo| - s.lead);
      if out == [] {
        assert t.fifo == s.fifo && t.hist == s.hist;
      } else {
        assert Repeat(HubView(hub), 1) == [HubView(hub)] && out == [out[0]];
        LeadsPush(s.fifo[s.lead..], s.hist[base..], out[0], HubView(hub));
        assert t.fifo[t.lead..] == s.fifo[s.lead..] + [out[0]];
        assert t.hist[base..] == s.hist[base..] + [HubView(hub)];
      }
    }
  }

  /** A replayed frame changes no session. */
  lemma ReplaysKeepView(hub: Hub, replays: seq<PwaFrame>)
    requires IsReplay(hub, replays)
    ensures Leads(replays, Repeat(HubView(hub), 1 + |replays|))
  {
    forall f | f in replays ensures Tidy(f) && ViewStep(HubView(hub), f) == HubView(hub) {
      var v := HubView(hub)[f.daemonId];
      assert SessionsStep(v.sessions, f.frame) == v.sessions;
    }
    LeadsRepeat(replays, HubView(hub));
  }

  lemma ViewInvSubscribe(s: Link, list: seq<DaemonView>, replays: seq<PwaFrame>)
    requires Enabled(s, Subscribe(list, replays))
    ensures ViewInv(Next(s, Subscribe(list, replays)))
  {
    var t := Next(s, Subscribe(list, replays));
    SnapshotShowsHub(s.hub, list);
    ReplaysKeepView(s.hub, replays);
    assert t.fifo[t.lead..] == replays && t.fifo[t.lead - 1] == SnapshotFrame(list);
    assert t.hist[0..] == t.hist;
  }

  /** Reading a frame behind the snapshot. */
  lemma ViewInvRead(s: Link)
    requires ViewInv(s) && Enabled(s, Receive) && s.subscribed && s.lead == 0
    ensures ViewInv(Next(s, Receive))
  {
    hide ViewStep, Reduce, OnlineView, Tidy;
    var base := |s.hist| - 1 - |s.fifo|;
    assert s.fifo[0..] == s.fifo && s.fifo[1..][0..] == s.fifo[1..];
    assert s.hist[base..][1..] == s.hist[base + 1..];
    LeadsDrop(s.fifo, s.hist[base..]);
    assert Tidy(s.fifo[0]) && ViewStep(s.hist[base..][0], s.fifo[0]) == s.hist[base..][1];
    ReduceIsViewStep(s.pwa, s.fifo[0]);
  }

  /** Reading the snapshot or a frame from before it. */
  lemma ViewInvSkip(s: Link)
    requires ViewInv(s) && Enabled(s, Receive) && s.subscribed && s.lead > 0
    ensures ViewInv(Next(s, Receive))
  {
    var t := Next(s, Receive);
    assert t.fifo[t.lead..] == s.fifo[s.lead..];
    if s.lead > 1 { assert t.fifo[t.lead - 1] == s.fifo[s.lead - 1]; }
  }

  lemma ViewInvReceive(s: Link)
    requires ViewInv(s) && Enabled(s, Receive)
    ensures ViewInv(Next(s, Receive))
  {
    if s.subscribed {
      if s.lead == 0 { ViewInvRead(s); } else { ViewInvSkip(s); }
    }
  }

  lemma ViewInvStep(s: Link, e: Ev)
    requires ViewInv(s) && Enabled(s, e)
    ensures ViewInv(Next(s, e))
  {
    match e {
      case HubIn(i) => ViewInvHubIn(s, i);
      case Subscribe(list, replays) => ViewInvSubscribe(s, list, replays);
      case Receive => ViewInvReceive(s);
      case Open =>
      case Close =>
    }
  }

  // ----- pending questions -----

  /** The client's questions once it has read `frames`. */
  function QuestionsAfter(qs: map<string, Asked>, frames: seq<PwaFrame>): map<string, Asked> {
    if frames == [] then qs
    else
      var f := frames[|frames| - 1];
      var before := QuestionsAfter(qs, frames[..|frames| - 1]);
      if f.Forward? then OnQuestions(before, f.daemonId, f.frame) else before
  }

  ghost predicate Holds(qs: map<string, Asked>, hub: Hub) {
    forall d, a | d in hub && a in hub[d].replica.asks :: Lookup(qs, a) == Some(Asked(d, hub[d].replica.asks[a]))
  }

  ghost predicate AsksUnshared(hub: Hub) {
    forall d, a | d in hub && a in hub[d].replica.asks :: Unshared(hub, d, a)
  }

  /** Every question the hub has cached is, or will be when the queue is read, with the client. */
  ghost predicate QuestionInv(s: Link) {
    && AsksUnshared(s.hub)
    && (s.subscribed ==> s.open && Holds(QuestionsAfter(s.pwa.questions, s.fifo), s.hub))
  }

  lemma {:induction false} QuestionsAfterConcat(qs: map<string, Asked>, a: seq<PwaFrame>, b: seq<PwaFrame>)
    ensures QuestionsAfter(qs, a + b) == QuestionsAfter(QuestionsAfter(qs, a), b)
    decreases |b|
  {
    if b == [] {
      assert a + b == a;
    } else {
      var n := |b| - 1;
      assert (a + b)[..|a + b| - 1] == a + b[..n];
      QuestionsAfterConcat(qs, a, b[..n]);
    }
  }

  lemma QuestionsAfterOne(qs: map<string, Asked>, f: PwaFrame)
    ensures QuestionsAfter(qs, [f]) == if f.Forward? then OnQuestions(qs, f.daemonId, f.frame) else qs
  {
    assert [f][..0] == [];
  }

  lemma ReceiveQuestions(p: PwaState, fifo: seq<PwaFrame>)
    requires fifo != []
    ensures QuestionsAfter(Reduce(p, fifo[0]).questions, fifo[1..]) == QuestionsAfter(p.questions, fifo)
  {
    QuestionsAfterOne(p.questions, fifo[0]);
    QuestionsAfterConcat(p.questions, [fifo[0]], fifo[1..]);
    HeadTail(fifo);
  }

  /** After replays in which a question appears, and always the same way, the client holds it. */
  lemma {:induction false} ReplayedQuestion(qs: map<string, Asked>, frames: seq<PwaFrame>, d: string, a: string, q: Question)
    requires forall f | f in frames :: f.Forward? && !f.frame.AskResolved?
    requires forall f | f in frames && f.frame.AskRequest? && f.frame.askId == a :: f == Forward(d, AskRequest(a, q))
    requires Forward(d, AskRequest(a, q)) in frames
    ensures Lookup(QuestionsAfter(qs, frames), a) == Some(Asked(d, q))
  {
    var n := |frames| - 1;
    var last := frames[n];
    assert last in frames;
    if last != Forward(d, AskRequest(a, q)) {
      assert forall f | f in frames[..n] :: f in frames;
      assert Forward(d, AskRequest(a, q)) in frames[..n] by {
        var i :| 0 <= i < |frames| && frames[i] == Forward(d, AskRequest(a, q));
        assert frames[..n][i] == frames[i];
      }
      ReplayedQuestion(qs, frames[..n], d, a, q);
    }
  }

  lemma HoldsAfterSubscribe(s: Link, list: seq<DaemonView>, replays: seq<PwaFrame>)
    requires QuestionInv(s) && Enabled(s, Subscribe(list, replays))
    ensures QuestionInv(Next(s, Subscribe(list, replays)))
  {
    var before := s.fifo + [SnapshotFrame(list)];
    QuestionsAfterConcat(s.pwa.questions, before, replays);
    var qs := QuestionsAfter(s.pwa.questions, before);
    forall d, a | d in s.hub && a in s.hub[d].replica.asks
      ensures Lookup(QuestionsAfter(qs, replays), a) == Some(Asked(d, s.hub[d].replica.asks[a]))
    {
      var q := s.hub[d].replica.asks[a];
      assert Unshared(s.hub, d, a);
      assert Cached(s.hub[d].replica, AskRequest(a, q));
      forall f | f in replays && f.frame.AskRequest? && f.frame.askId == a
        ensures f == Forward(d, AskRequest(a, q))
      {
        assert Cached(s.hub[f.daemonId].replica, f.frame);
      }
      ReplayedQuestion(qs, replays, d, a, q);
    }
  }

  lemma UnsharedStep(hub: Hub, i: HubInput)
    requires AsksUnshared(hub) && InputOk(hub, i)
    ensures AsksUnshared(HubStep(hub, i).0)
  {
    var next := HubStep(hub, i).0;
    forall d, a, e | d in next && a in next[d].replica.asks && e in next && e != d
      ensures a !in next[e].replica.asks
    {
      if i.FromDaemon? && i.d in hub && i.frame.AskRequest? && i.frame.askId == a {
        assert Unshared(hub, i.d, a);
      } else {
        assert d in hub && a in hub[d].replica.asks ==> Unshared(hub, d, a);
        assert e in hub && a in hub[e].replica.asks ==> Unshared(hub, e, a);
      }
    }
  }

  /** An input that does not speak of a question leaves it where it is. */
  lemma OtherAsksStay(qs: map<string, Asked>, hub: Hub, i: HubInput, d: string, a: string)
    requires d in HubStep(hub, i).0 && a in HubStep(hub, i).0[d].replica.asks
    requires !(i.FromDaemon? && (i.frame.AskRequest? || i.frame.AskResolved?) && i.frame.askId == a)
    ensures d in hub && a in hub[d].replica.asks && HubStep(hub, i).0[d].replica.asks[a] == hub[d].replica.asks[a]
    ensures Lookup(QuestionsAfter(qs, HubStep(hub, i).1), a) == Lookup(qs, a)
  {
    HubStepSends(hub, i);
    var out := HubStep(hub, i).1;
    if out != [] { QuestionsAfterOne(qs, out[0]); }
    hide FromList, QuestionsAfter;
    NoFrames(qs);
  }

  lemma NoFrames(qs: map<string, Asked>)
    ensures QuestionsAfter(qs, []) == qs
  {
  }

  lemma HubStepSends(hub: Hub, i: HubInput)
    ensures HubStep(hub, i).1 == [] || HubStep(hub, i).1 == [HubStep(hub, i).1[0]]
  {
    hide FromList;
  }

  lemma HoldsHubStepAt(qs: map<string, Asked>, hub: Hub, i: HubInput, d: string, a: string)
    requires Holds(qs, hub) && AsksUnshared(hub) && InputOk(hub, i)
    requires d in HubStep(hub, i).0 && a in HubStep(hub, i).0[d].replica.asks
    ensures Lookup(QuestionsAfter(qs, HubStep(hub, i).1), a) == Some(Asked(d, HubStep(hub, i).0[d].replica.asks[a]))
  {
    hide QuestionsAfter, FromList;
    if i.FromDaemon? && (i.frame.AskRequest? || i.frame.AskResolved?) && i.frame.askId == a {
      NoFrames(qs);
      if i.d in hub {
        assert Unshared(hub, i.d, a);
        QuestionsAfterOne(qs, Forward(i.d, i.frame));
      }
    } else {
      OtherAsksStay(qs, hub, i, d, a);
    }
  }

  lemma HoldsHubStep(qs: map<string, Asked>, hub: Hub, i: HubInput)
    requires Holds(qs, hub) && AsksUnshared(hub) && InputOk(hub, i)
    ensures Holds(QuestionsAfter(qs, HubStep(hub, i).1), HubStep(hub, i).0)
  {
    hide HubStep, QuestionsAfter, InputOk, AsksUnshared;
    var next := HubStep(hub, i).0;
    forall d, a | d in next && a in next[d].replica.asks
      ensures Lookup(QuestionsAfter(qs, HubStep(hub, i).1), a) == Some(Asked(d, next[d].replica.asks[a]))
    {
      HoldsHubStepAt(qs, hub, i, d, a);
    }
  }

  /** While the client is subscribed, an input keeps it informed of every cached question, and each
      question with one daemon, exactly if the input speaks of none that another daemon has open. */
  lemma QuestionInputIff(s: Link, i: HubInput)
    requires QuestionInv(s) && s.subscribed
    ensures QuestionInv(Next(s, HubIn(i))) <==> InputOk(s.hub, i)
  {
    if InputOk(s.hub, i) {
      QuestionInvStep(s, HubIn(i));
    } else {
      var e :| e in s.hub && e != i.d && i.frame.askId in s.hub[e].replica.asks;
      var t := Next(s, HubIn(i));
      var out := HubStep(s.hub, i).1;
      assert out == [Forward(i.d, i.frame)] && t.hub[e] == s.hub[e];
      QuestionsAfterConcat(s.pwa.questions, s.fifo, out);
      QuestionsAfterOne(QuestionsAfter(s.pwa.questions, s.fifo), out[0]);
      assert Lookup(QuestionsAfter(t.pwa.questions, t.fifo), i.frame.askId)
          != Some(Asked(e, t.hub[e].replica.asks[i.frame.askId]));
    }
  }

  /** The step, if a hub input, speaks of no question that another daemon has open. */
  ghost predicate KeepsApart(s: Link, e: Ev) {
    e.HubIn? ==> InputOk(s.hub, e.i)
  }

  lemma QuestionInvStep(s: Link, e: Ev)
    requires QuestionInv(s) && Enabled(s, e) && KeepsApart(s, e)
    ensures QuestionInv(Next(s, e))
  {
    match e {
      case HubIn(i) =>
        UnsharedStep(s.hub, i);
        if s.subscribed {
          HoldsHubStep(QuestionsAfter(s.pwa.questions, s.fifo), s.hub, i);
          QuestionsAfterConcat(s.pwa.questions, s.fifo, HubStep(s.hub, i).1);
        }
      case Subscribe(list, replays) => HoldsAfterSubscribe(s, list, replays);
      case Receive => ReceiveQuestions(s.pwa, s.fifo);
      case Open =>
      case Close =>
    }
  }

  // ----- questions that outlive the hub's -----

  /** What the client will know is what the hub holds and what has gone stale, and no question is both. */
  ghost predicate StaleInv(s: Link) {
    s.subscribed ==>
      && QuestionsAfter(s.pwa.questions, s.fifo).Keys == AllCached(s.hub) + s.stale
      && AllCached(s.hub) !! s.stale
  }

  ghost function AskedIn(frames: seq<PwaFrame>): set<string> {
    set f | f in frames && f.Forward? && f.frame.AskRequest? :: f.frame.askId
  }

  lemma {:induction false} ReplayedKeys(qs: map<string, Asked>, frames: seq<PwaFrame>)
    requires forall f | f in frames :: f.Forward? ==> !f.frame.AskResolved?
    ensures QuestionsAfter(qs, frames).Keys == qs.Keys + AskedIn(frames)
  {
    if frames != [] {
      var init, last := frames[..|frames| - 1], frames[|frames| - 1];
      assert forall f | f in init :: f in frames;
      assert frames == init + [last] && last in frames;
      ReplayedKeys(qs, init);
      assert AskedIn(frames) == AskedIn(init) + AskedIn([last]);
    }
  }

  /** The replays ask exactly the questions the hub holds. */
  lemma ReplaysAsk(hub: Hub, list: seq<DaemonView>, replays: seq<PwaFrame>)
    requires IsReplay(hub, replays)
    ensures AskedIn([SnapshotFrame(list)] + replays) == AllCached(hub)
    ensures forall f | f in [SnapshotFrame(list)] + replays :: f.Forward? ==> !f.frame.AskResolved?
  {
    var added := [SnapshotFrame(list)] + replays;
    forall a | a in AllCached(hub) ensures a in AskedIn(added) {
      var d :| d in hub && a in hub[d].replica.asks;
      var f := AskRequest(a, hub[d].replica.asks[a]);
      assert Cached(hub[d].replica, f);
      assert Forward(d, f) in added;
    }
    forall a | a in AskedIn(added) ensures a in AllCached(hub) {
      var f :| f in added && f.Forward? && f.frame.AskRequest? && f.frame.askId == a;
      assert f in replays;
    }
  }

  lemma StaleSubscribe(s: Link, list: seq<DaemonView>, replays: seq<PwaFrame>)
    requires Enabled(s, Subscribe(list, replays))
    ensures StaleInv(Next(s, Subscribe(list, replays)))
  {
    hide AllCached, AskedIn, QuestionsAfter, IsSnapshot, IsReplay, HubView;
    var added := [SnapshotFrame(list)] + replays;
    QuestionsAfterConcat(s.pwa.questions, s.fifo, added);
    ReplaysAsk(s.hub, list, replays);
    ReplayedKeys(QuestionsAfter(s.pwa.questions, s.fifo), added);
    assert s.fifo + [SnapshotFrame(list)] + replays == s.fifo + added;
  }

  /** What an input does to the questions the hub holds. */
  ghost function CachedAfter(hub: Hub, i: HubInput): set<string> {
    match i
    case FromDaemon(d, _, f) =>
      if f.Hello? then AllCached(hub) - CachedOf(hub, d)
      else if d in hub && f.AskRequest? then AllCached(hub) + {f.askId}
      else if d in hub && f.AskResolved? then AllCached(hub) - {f.askId}
      else AllCached(hub)
    case Disconnected(d) => AllCached(hub) - CachedOf(hub, d)
    case Renamed(_, _) => AllCached(hub)
  }

  ghost predicate HeldBy(hub: Hub, e: string, a: string) {
    e in hub && a in hub[e].replica.asks
  }

  /** Whether daemon `e` holds the question after an input. */
  ghost predicate HeldAfter(hub: Hub, i: HubInput, e: string, a: string) {
    match i
    case FromDaemon(d, _, f) =>
      if d != e then HeldBy(hub, e, a)
      else if f.Hello? then false
      else if e in hub && f.AskRequest? && f.askId == a then true
      else if f.AskResolved? && f.askId == a then false
      else HeldBy(hub, e, a)
    case Disconnected(d) => d != e && HeldBy(hub, e, a)
    case Renamed(_, _) => HeldBy(hub, e, a)
  }

  lemma HeldStep(hub: Hub, i: HubInput, e: string, a: string)
    ensures HeldBy(HubStep(hub, i).0, e, a) <==> HeldAfter(hub, i, e, a)
  {
    hide FromList;
  }

  lemma AllCachedHas(hub: Hub, a: string)
    ensures a in AllCached(hub) <==> exists e :: HeldBy(hub, e, a)
  {
    if e :| HeldBy(hub, e, a) {
      assert e in hub && a in hub[e].replica.asks;
    }
    if a in AllCached(hub) {
      var e :| e in hub && a in hub[e].replica.asks;
      assert HeldBy(hub, e, a);
    }
  }

  lemma CachedStepAt(hub: Hub, i: HubInput, a: string)
    requires AsksUnshared(hub) && InputOk(hub, i)
    ensures (exists e :: HeldBy(HubStep(hub, i).0, e, a)) <==> a in CachedAfter(hub, i)
  {
    hide HubStep;
    forall e {
      HeldStep(hub, i, e, a);
    }
    AllCachedHas(hub, a);
    if e :| HeldBy(hub, e, a) {
      assert Unshared(hub, e, a);
      assert forall o | HeldBy(hub, o, a) :: o == e;
      assert HeldAfter(hub, i, e, a) ==> HeldBy(HubStep(hub, i).0, e, a);
    }
    if i.FromDaemon? {
      assert HeldAfter(hub, i, i.d, a) ==> HeldBy(HubStep(hub, i).0, i.d, a);
    }
  }

  lemma AllCachedStep(hub: Hub, i: HubInput)
    requires AsksUnshared(hub) && InputOk(hub, i)
    ensures AllCached(HubStep(hub, i).0) == CachedAfter(hub, i)
  {
    hide HubStep, CachedAfter, AsksUnshared, InputOk;
    forall a ensures a in AllCached(HubStep(hub, i).0) <==> a in CachedAfter(hub, i) {
      CachedStepAt(hub, i, a);
      AllCachedHas(HubStep(hub, i).0, a);
    }
  }

  lemma CachedOfIsCached(hub: Hub)
    ensures forall d :: CachedOf(hub, d) <= AllCached(hub)
  {
  }

  lemma StaleHubIn(s: Link, i: HubInput)
    requires StaleInv(s) && QuestionInv(s) && InputOk(s.hub, i)
    ensures StaleInv(Next(s, HubIn(i)))
  {
    hide QuestionsAfter, Holds, AllCached;
    if s.subscribed {
      var (hub, out) := HubStep(s.hub, i);
      AllCachedStep(s.hub, i);
      HubInMoves(s.hub, i);
      QuestionsAfterConcat(s.pwa.questions, s.fifo, out);
      var qs := QuestionsAfter(s.pwa.questions, s.fifo);
      if out != [] {
        assert out == [out[0]];
        QuestionsAfterOne(qs, out[0]);
      } else {
        assert s.fifo + [] == s.fifo;
      }
      CachedOfIsCached(s.hub);
    }
  }

  /** Every step accounts for every question the client knows beyond the hub's. */
  lemma StaleInvStep(s: Link, e: Ev)
    requires StaleInv(s) && QuestionInv(s) && Enabled(s, e) && KeepsApart(s, e)
    ensures StaleInv(Next(s, e))
  {
    match e {
      case HubIn(i) => StaleHubIn(s, i);
      case Subscribe(list, replays) => StaleSubscribe(s, list, replays);
      case Receive => ReceiveQuestions(s.pwa, s.fifo);
      case Open =>
      case Close =>
    }
  }

  // ----- each session once -----

  /** A greeting in this input lists each session once. */
  ghost predicate GreetsOnce(e: Ev) {
    e.HubIn? && e.i.FromDaemon? && e.i.frame.Hello? ==> DistinctIds(e.i.frame.sessions)
  }

  ghost predicate OnceInv(s: Link) {
    s.subscribed ==>
      && s.lead <= |s.fifo|
      && (forall j | 0 <= j < |s.fifo| && s.lead <= j + 1 :: ListsOnce(s.fifo[j]))
      && (if s.lead == 0 then EachOnce(s.pwa.daemons) else s.fifo[s.lead - 1].SnapshotFrame?)
  }

  lemma OnceInvStep(s: Link, e: Ev)
    requires OnceInv(s) && Enabled(s, e) && GreetsOnce(e)
    ensures OnceInv(Next(s, e))
  {
    hide HubStep, EachOnce, DistinctIds;
    match e {
      case HubIn(i) =>
        HubListsOnce(s.hub, i);
        assert s.subscribed && s.lead > 0 ==> Next(s, e).fifo[s.lead - 1] == s.fifo[s.lead - 1];
      case Subscribe(list, replays) =>
        SnapshotListsOnce(s.hub, list);
        assert Next(s, e).fifo[|s.fifo|] == SnapshotFrame(list);
        ReplaysListOnce(s.hub, replays);
      case Receive =>
        if s.subscribed {
          if s.lead == 0 {
            OnceStepIff(s.pwa, s.fifo[0]);
          } else if s.lead == 1 {
            assert ListsOnce(s.fifo[0]);
          } else {
            assert s.fifo[1..][s.lead - 2] == s.fifo[s.lead - 1];
          }
        }
      case Open =>
      case Close =>
    }
  }

  lemma HubListsOnce(hub: Hub, i: HubInput)
    requires GreetsOnce(HubIn(i))
    ensures forall f | f in HubStep(hub, i).1 :: ListsOnce(f)
  {
  }

  lemma ReplaysListOnce(hub: Hub, replays: seq<PwaFrame>)
    requires IsReplay(hub, replays)
    ensures forall f | f in replays :: ListsOnce(f)
  {
  }

  lemma SnapshotListsOnce(hub: Hub, list: seq<DaemonView>)
    requires IsSnapshot(hub, list)
    ensures EachOnce(list)
  {
    forall i | 0 <= i < |list| ensures DistinctIds(list[i].sessions) {
      assert list[i] in list;
    }
  }

  // ----- runs -----

  ghost predicate RunOk(s: Link, es: seq<Ev>)
    decreases |es|
  {
    es != [] ==> Enabled(s, es[0]) && RunOk(Next(s, es[0]), es[1..])
  }

  ghost function RunEnd(s: Link, es: seq<Ev>): Link
    decreases |es|
  {
    if es == [] then s else RunEnd(Next(s, es[0]), es[1..])
  }

  /** No daemon speaks of a question while another has one open under the same id. */
  ghost predicate ApartRun(s: Link, es: seq<Ev>)
    decreases |es|
  {
    es != [] ==> KeepsApart(s, es[0]) && ApartRun(Next(s, es[0]), es[1..])
  }

  lemma {:induction false} ViewInvRun(s: Link, es: seq<Ev>)
    requires ViewInv(s) && RunOk(s, es)
    ensures ViewInv(RunEnd(s, es))
    decreases |es|
  {
    hide ViewInv, Enabled, Next;
    if es != [] {
      ViewInvStep(s, es[0]);
      ViewInvRun(Next(s, es[0]), es[1..]);
    }
  }

  lemma {:induction false} QuestionRun(s: Link, es: seq<Ev>)
    requires QuestionInv(s) && StaleInv(s) && RunOk(s, es) && ApartRun(s, es)
    ensures QuestionInv(RunEnd(s, es)) && StaleInv(RunEnd(s, es))
    decreases |es|
  {
    hide QuestionInv, StaleInv, Enabled, Next, KeepsApart;
    if es != [] {
      StaleInvStep(s, es[0]);
      QuestionInvStep(s, es[0]);
      QuestionRun(Next(s, es[0]), es[1..]);
    }
  }

  ghost predicate Fresh(s: Link) {
    s.hub == map[] && !s.open && !s.subscribed && s.fifo == [] && s.lead == 0 && s.hist == []
  }

  /** Whatever the hub receives, greetings with repeated sessions and shared question ids included, and
      whenever the connection drops: a client that has read its snapshot shows a view the hub had at
      one of its steps since the subscription, and one step further along with every frame read.
      With an empty queue it shows the hub's current view.  If no daemon speaks of a question that
      another has open, it then also knows exactly the questions the hub has cached and the stale ones. */
  lemma PrefixConsistent(s: Link, es: seq<Ev>)
    requires Fresh(s) && RunOk(s, es)
    ensures var t := RunEnd(s, es);
            t.subscribed && t.lead == 0 ==>
              && DistinctDaemons(t.pwa.daemons)
              && |t.fifo| < |t.hist|
              && OnlineView(t.pwa.daemons) == t.hist[|t.hist| - 1 - |t.fifo|]
              && (t.fifo == [] ==> OnlineView(t.pwa.daemons) == HubView(t.hub))
              && (t.fifo == [] && ApartRun(s, es) ==>
                    && Holds(t.pwa.questions, t.hub)
                    && t.pwa.questions.Keys == AllCached(t.hub) + t.stale && AllCached(t.hub) !! t.stale)
  {
    ViewInvRun(s, es);
    if ApartRun(s, es) { QuestionRun(s, es); }
  }

  // ----- all of it -----

  ghost predicate SessionsInv(s: Link) {
    ViewInv(s) && OnceInv(s)
  }

  ghost predicate QuestionsInv(s: Link) {
    QuestionInv(s) && StaleInv(s)
  }

  lemma SessionsInvStep(s: Link, e: Ev)
    requires SessionsInv(s) && Enabled(s, e) && GreetsOnce(e)
    ensures SessionsInv(Next(s, e))
  {
    hide ViewInv, OnceInv, Enabled, Next;
    ViewInvStep(s, e);
    OnceInvStep(s, e);
  }

  lemma QuestionsInvStep(s: Link, e: Ev)
    requires QuestionsInv(s) && Enabled(s, e) && KeepsApart(s, e)
    ensures QuestionsInv(Next(s, e))
  {
    hide QuestionInv, StaleInv, Enabled, Next;
    QuestionInvStep(s, e);
    StaleInvStep(s, e);
  }

    /** A client that has read everything: what it shows and knows. */
  lemma Current(s: Link)
    requires s.subscribed && s.lead == 0 && s.fifo == []
    ensures SessionsInv(s) ==>
      && DistinctDaemons(s.pwa.daemons) && EachOnce(s.pwa.daemons)
      && OnlineView(s.pwa.daemons) == HubView(s.hub)
    ensures QuestionsInv(s) ==>
      && Holds(s.pwa.questions, s.hub)
      && s.pwa.questions.Keys == AllCached(s.hub) + s.stale && AllCached(s.hub) !! s.stale
  {
  }
}
