/** One daemon and the hub's replica of it.  The daemon's handlers (packages/daemon/src/index.ts)
    produce frames; the link between the two is a FIFO that can lose its tail and reconnect. */
module Uplink {
  import opened Frames
  import opened Sequences
  import opened Router
  import Registry
  import AskRelay
  import HubClient

  /** What the daemon process holds.  `announced`, `openedAt` and `told` are history variables: the
      questions whose request was written since the last greeting, when that was, and for each live
      session the transcript id that the hub is told of it, by its registration or a greeting. */
  datatype Node = Node(
    live: seq<Snapshot>, relay: AskRelay.State, slash: map<string, string>, handshake: map<string, string>,
    client: HubClient.State, announced: set<string>, openedAt: int, told: map<string, Option<string>>)

  datatype Op =
    | Register(session: Snapshot, requestId: Option<string>)
    | Unregister(id: string)
    | Transition(id: string, state: SessionState, prev: SessionState)
    | Bind(id: string, claude: string)
    | Rebind(id: string, claude: string)
    | Inventory(id: string, entries: string)
    | Probe(id: string, payload: string)
    | HookAsk(askId: string, hook: int, claude: string, questions: seq<string>, expiresAt: int)
    | Settle(ev: AskRelay.Ev)
    | Tell(frame: DaemonFrame)

  /** One handler: the new state, and the frames it passes to `hub.send`. */
  function Handle(n: Node, op: Op): (Node, seq<DaemonFrame>) {
    match op
    case Register(s, r) =>
      if Find(n.live, s.sessionId).Some? then (n, [])
      else (n.(live := Registry.Added(n.live, s)), [SessionOpen(s, r)])
    case Unregister(id) =>
      if Find(n.live, id).None? then (n, [])
      else
        (n.(live := Without(n.live, id), slash := n.slash - {id}, handshake := n.handshake - {id}),
         [SessionClose(id)])
    case Transition(id, x, prev) =>
      (n.(live := Registry.Updated(n.live, id, Registry.SetState(x))), [StateChanged(id, x, prev)])
    case Bind(id, c) => (n.(live := Registry.Updated(n.live, id, Registry.SetClaude(c))), [])
    case Rebind(id, c) =>
      if Find(n.live, id).None? then (n, [])
      else (n.(live := Registry.Updated(n.live, id, Registry.SetClaude(c))), [SessionRebound(id, c)])
    case Inventory(id, e) => (n.(slash := n.slash[id := e]), [SlashInventory(id, e)])
    case Probe(id, p) => (n.(handshake := n.handshake[id := p]), [AgentHandshake(id, p)])
    case HookAsk(a, hook, claude, qs, expires) =>
      var (relay, out) := AskRelay.Step(n.relay, HookEvent(n, op));
      (n.(relay := relay), out)
    case Settle(ev) =>
      var (relay, out) := AskRelay.Step(n.relay, ev);
      (n.(relay := relay), out)
    case Tell(f) => (n, [f])
  }

  /** The hook knows only the transcript's id; the daemon looks its session up. */
  function HookEvent(n: Node, op: Op): AskRelay.Ev
    requires op.HookAsk?
  {
    var session := Registry.FindByClaude(n.live, op.claude);
    AskRelay.Request(op.askId, op.hook, if session.Some? then Some(session.value.sessionId) else None,
                     op.questions, op.expiresAt)
  }

  /** The questions asked by some frames. */
  ghost function Requests(fs: seq<DaemonFrame>): set<string> {
    set f | f in fs && f.AskRequest? :: f.askId
  }

  /** A registration tells the transcript id it carries; nothing else but a greeting tells one. */
  function ToldAfter(n: Node, op: Op): map<string, Option<string>> {
    match op
    case Register(s, _) =>
      if Find(n.live, s.sessionId).Some? then n.told else n.told[s.sessionId := s.claudeSessionId]
    case Unregister(id) => n.told - {id}
    case _ => n.told
  }

  /** What some frames say of the transcript id of one session. */
  datatype Word = Silent | Gone | Says(claude: Option<string>)

  function WordOf(f: DaemonFrame, id: string): Word {
    if f.SessionOpen? && f.session.sessionId == id then Says(f.session.claudeSessionId)
    else if f.SessionClose? && f.sessionId == id then Gone
    else Silent
  }

  function LastWord(fs: seq<DaemonFrame>, id: string): Word {
    if fs == [] then Silent
    else
      var w := WordOf(fs[|fs| - 1], id);
      if w.Silent? then LastWord(fs[..|fs| - 1], id) else w
  }

  /** A greeting tells the present ids, but the registrations still queued follow it. */
  function ToldByGreeting(n: Node): map<string, Option<string>> {
    map s | s in n.live && Find(n.live, s.sessionId) == Some(s) ::
      s.sessionId := var w := LastWord(n.client.pending, s.sessionId); if w.Says? then w.claude else s.claudeSessionId
  }

  /** A handler with its sends: the new state and what is written to the socket. */
  ghost function Do(n: Node, op: Op): (Node, seq<DaemonFrame>) {
    var (m, out) := Handle(n, op);
    var (client, written) := HubClient.SentAll(m.client, out);
    (m.(client := client, announced := m.announced + Requests(written), told := ToldAfter(n, op)), written)
  }

  ghost predicate OpOk(n: Node, op: Op) {
    && (op.Settle? ==> !op.ev.Request?)
    && (op.Tell? ==> op.frame.Event? || op.frame.Notice?)
  }

  // ----- what a fold of frames does to a replica -----

  function Fold(r: Replica, fs: seq<DaemonFrame>): Replica {
    if fs == [] then r else OnReplica(Fold(r, fs[..|fs| - 1]), fs[|fs| - 1])
  }

  lemma FoldPush(r: Replica, fs: seq<DaemonFrame>, f: DaemonFrame)
    ensures Fold(r, fs + [f]) == OnReplica(Fold(r, fs), f)
  {
    assert (fs + [f])[..|fs|] == fs;
  }

  lemma {:induction false} FoldConcat(r: Replica, a: seq<DaemonFrame>, b: seq<DaemonFrame>)
    ensures Fold(r, a + b) == Fold(Fold(r, a), b)
    decreases |b|
  {
    if b == [] {
      assert a + b == a;
    } else {
      var n := |b| - 1;
      assert (a + b)[..|a + b| - 1] == a + b[..n];
      FoldConcat(r, a, b[..n]);
    }
  }

  /** The hub's session under an id, without the field no frame refreshes. */
  function SessionAt(r: Replica, id: string): Option<Snapshot> {
    EraseOption(Lookup(r.sessions, id))
  }

  function Stateless(s: Option<Snapshot>): Option<Snapshot> {
    if s.Some? then Some(s.value.(state := Idle)) else None
  }

  lemma StepSameSession(r: Replica, q: Replica, f: DaemonFrame, id: string)
    requires SessionAt(r, id) == SessionAt(q, id)
    ensures SessionAt(OnReplica(r, f), id) == SessionAt(OnReplica(q, f), id)
  {
    match f { case _ => }
  }

  lemma {:induction false} FoldSameSession(r: Replica, q: Replica, fs: seq<DaemonFrame>, id: string)
    requires SessionAt(r, id) == SessionAt(q, id)
    ensures SessionAt(Fold(r, fs), id) == SessionAt(Fold(q, fs), id)
  {
    if fs != [] {
      var init := fs[..|fs| - 1];
      FoldSameSession(r, q, init, id);
      StepSameSession(Fold(r, init), Fold(q, init), fs[|fs| - 1], id);
    }
  }

  lemma StepSameButState(r: Replica, q: Replica, f: DaemonFrame, id: string)
    requires Stateless(SessionAt(r, id)) == Stateless(SessionAt(q, id))
    ensures Stateless(SessionAt(OnReplica(r, f), id)) == Stateless(SessionAt(OnReplica(q, f), id))
  {
    match f { case _ => }
  }

  lemma {:induction false} FoldSameButState(r: Replica, q: Replica, fs: seq<DaemonFrame>, id: string)
    requires Stateless(SessionAt(r, id)) == Stateless(SessionAt(q, id))
    ensures Stateless(SessionAt(Fold(r, fs), id)) == Stateless(SessionAt(Fold(q, fs), id))
  {
    if fs != [] {
      var init := fs[..|fs| - 1];
      FoldSameButState(r, q, init, id);
      StepSameButState(Fold(r, init), Fold(q, init), fs[|fs| - 1], id);
    }
  }

  lemma StepSameCaches(r: Replica, q: Replica, f: DaemonFrame, id: string)
    ensures Lookup(r.slash, id) == Lookup(q.slash, id) ==>
              Lookup(OnReplica(r, f).slash, id) == Lookup(OnReplica(q, f).slash, id)
    ensures Lookup(r.handshake, id) == Lookup(q.handshake, id) ==>
              Lookup(OnReplica(r, f).handshake, id) == Lookup(OnReplica(q, f).handshake, id)
  {
    match f { case _ => }
  }

  lemma {:induction false} FoldSameCaches(r: Replica, q: Replica, fs: seq<DaemonFrame>, id: string)
    ensures Lookup(r.slash, id) == Lookup(q.slash, id) ==>
              Lookup(Fold(r, fs).slash, id) == Lookup(Fold(q, fs).slash, id)
    ensures Lookup(r.handshake, id) == Lookup(q.handshake, id) ==>
              Lookup(Fold(r, fs).handshake, id) == Lookup(Fold(q, fs).handshake, id)
  {
    if fs != [] {
      var init := fs[..|fs| - 1];
      FoldSameCaches(r, q, init, id);
      StepSameCaches(Fold(r, init), Fold(q, init), fs[|fs| - 1], id);
    }
  }

  lemma StepSameAsk(r: Replica, q: Replica, f: DaemonFrame, a: string)
    requires Lookup(r.asks, a) == Lookup(q.asks, a)
    ensures Lookup(OnReplica(r, f).asks, a) == Lookup(OnReplica(q, f).asks, a)
  {
    match f { case _ => }
  }

  lemma {:induction false} FoldSameAsk(r: Replica, q: Replica, fs: seq<DaemonFrame>, a: string)
    requires Lookup(r.asks, a) == Lookup(q.asks, a)
    ensures Lookup(Fold(r, fs).asks, a) == Lookup(Fold(q, fs).asks, a)
  {
    if fs != [] {
      var init := fs[..|fs| - 1];
      FoldSameAsk(r, q, init, a);
      StepSameAsk(Fold(r, init), Fold(q, init), fs[|fs| - 1], a);
    }
  }

  // ----- the invariant -----

  /** The question behind an id that is pending, or whose hook has gone without a word to the hub since. */
  function OpenQuestion(s: AskRelay.State, a: string): Option<Question> {
    if a in s.asks then Some(s.asks[a].question) else Lookup(s.gone, a)
  }

  /** The replica an observer of the daemon would hold, questions aside. */
  function Mirror(n: Node): Replica {
    Replica(FromList(n.live), map[], n.slash, n.handshake)
  }

  /** `r` agrees with the daemon on sessions and caches. */
  ghost predicate Agrees(r: Replica, n: Node) {
    && (forall id :: SessionAt(r, id) == EraseOption(Find(n.live, id)))
    && (forall id :: Lookup(r.slash, id) == Lookup(n.slash, id))
    && (forall id :: Lookup(r.handshake, id) == Lookup(n.handshake, id))
  }

  /** `r` holds exactly the announced questions that no frame has resolved. */
  ghost predicate AsksAgree(r: Replica, n: Node) {
    forall a :: Lookup(r.asks, a) == if a in n.announced then OpenQuestion(n.relay, a) else None
  }

  ghost predicate Target(r: Replica, n: Node) {
    Agrees(r, n) && AsksAgree(r, n)
  }

  /** What the queue does to the entry of one question: nothing to a known one it does not request,
      and what it requests of a settled one it also resolves. */
  ghost predicate QueueSettles(pending: seq<DaemonFrame>, s: AskRelay.State, a: string) {
    var q := OpenQuestion(s, a);
    && AskAfter(None, pending, a) == (if a in Requests(pending) then q else None)
    && (q.Some? ==> AskAfter(q, pending, a) == q)
  }

  function Holding(v: Option<Question>, a: string): Replica {
    Replica(map[], if v.Some? then map[a := v.value] else map[], map[], map[])
  }

  function AskAfter(v: Option<Question>, fs: seq<DaemonFrame>, a: string): Option<Question> {
    Lookup(Fold(Holding(v, a), fs).asks, a)
  }

  lemma AskAfterIs(r: Replica, fs: seq<DaemonFrame>, a: string)
    ensures Lookup(Fold(r, fs).asks, a) == AskAfter(Lookup(r.asks, a), fs, a)
  {
    FoldSameAsk(r, Holding(Lookup(r.asks, a), a), fs, a);
  }

  /** While frames queue up: replaying the queue over a fresh greeting changes nothing. */
  ghost predicate QueueHarmless(n: Node) {
    && Agrees(Fold(Mirror(n), n.client.pending), n)
    && (forall a :: QueueSettles(n.client.pending, n.relay, a))
    && (forall f | f in n.client.pending :: !f.Hello?)
  }

  ghost predicate NodeInv(n: Node) {
    && DistinctIds(n.live)
    && AskRelay.Apart(n.relay)
    && QueueHarmless(n)
    && (n.client.link.Open? ==>
          && n.client.pending == []
          && forall a | a in n.relay.asks && a !in n.announced :: n.relay.asks[a].question.expiresAt <= n.openedAt)
  }

  lemma MirrorAgrees(n: Node)
    requires DistinctIds(n.live)
    ensures Agrees(Mirror(n), n)
  {
    forall id ensures SessionAt(Mirror(n), id) == EraseOption(Find(n.live, id)) {
      FromListAt(n.live, id);
    }
  }

  lemma EmptyQueueHarmless(n: Node)
    requires DistinctIds(n.live) && n.client.pending == []
    ensures QueueHarmless(n)
  {
    MirrorAgrees(n);
  }

  // ----- a handler and the frame it sends agree -----

  lemma LiveAfter(n: Node, op: Op, id: string)
    requires DistinctIds(n.live)
    ensures Find(Handle(n, op).0.live, id) ==
      match op
      case Register(s, _) =>
        if Find(n.live, id).None? && s.sessionId == id then Some(s) else Find(n.live, id)
      case Unregister(x) => if x == id then None else Find(n.live, id)
      case Transition(x, st, _) =>
        if x == id && Find(n.live, x).Some? then Some(Find(n.live, x).value.(state := st)) else Find(n.live, id)
      case Bind(x, c) =>
        if x == id && Find(n.live, x).Some? then Some(Find(n.live, x).value.(claudeSessionId := Some(c)))
        else Find(n.live, id)
      case Rebind(x, c) =>
        if x == id && Find(n.live, x).Some? then Some(Find(n.live, x).value.(claudeSessionId := Some(c)))
        else Find(n.live, id)
      case _ => Find(n.live, id)
  {
    match op {
      case Register(s, _) => Registry.FindAdded(n.live, s, id);
      case Unregister(x) => FindWithout(n.live, x, id);
      case Transition(x, st, _) => Registry.FindUpdated(n.live, x, Registry.SetState(st), id);
      case Bind(x, c) => Registry.FindUpdated(n.live, x, Registry.SetClaude(c), id);
      case Rebind(x, c) => Registry.FindUpdated(n.live, x, Registry.SetClaude(c), id);
      case _ =>
    }
  }

  /** A handler sends at most one frame, and never a greeting. */
  lemma SingleFold(r: Replica, n: Node, op: Op)
    requires OpOk(n, op)
    ensures var out := Handle(n, op).1;
            if out == [] then Fold(r, out) == r
            else out == [out[0]] && !out[0].Hello? && Fold(r, out) == OnReplica(r, out[0])
  {
    var out := Handle(n, op).1;
    assert |out| <= 1;
    if out != [] {
      assert out == [out[0]] && out[..0] == [];
    }
  }

  lemma SetStateAt(r: Replica, x: Snapshot, id: string, st: SessionState, prev: SessionState)
    requires Stateless(SessionAt(r, id)) == Stateless(Some(Erase(x)))
    ensures SessionAt(OnReplica(r, StateChanged(id, st, prev)), id) == Some(Erase(x.(state := st)))
  {
    assert id in r.sessions;
    var y := r.sessions[id];
    assert Erase(y).(state := Idle) == Erase(x).(state := Idle);
    assert Erase(y.(state := st)) == Erase(y).(state := Idle).(state := st);
  }

  lemma KeyedSessionStep(r: Replica, n: Node, op: Op, id: string)
    requires DistinctIds(n.live) && (op.Register? || op.Unregister?)
    requires SessionAt(r, id) == EraseOption(Find(n.live, id))
    ensures SessionAt(Fold(r, Handle(n, op).1), id) == EraseOption(Find(Handle(n, op).0.live, id))
  {
    SingleFold(r, n, op);
    LiveAfter(n, op, id);
  }

  lemma FoldOne(r: Replica, f: DaemonFrame)
    ensures Fold(r, [f]) == OnReplica(r, f) && Fold(r, []) == r
  {
    assert [f][..0] == [];
  }

  lemma TransitionSessionStep(r: Replica, n: Node, op: Op, id: string)
    requires DistinctIds(n.live) && op.Transition?
    requires SessionAt(r, id) == EraseOption(Find(n.live, id))
    ensures SessionAt(Fold(r, Handle(n, op).1), id) == EraseOption(Find(Handle(n, op).0.live, id))
  {
    hide Fold, Find, Registry.Updated, FromList, AskRelay.Step;
    FoldOne(r, StateChanged(op.id, op.state, op.prev));
    Registry.FindUpdated(n.live, op.id, Registry.SetState(op.state), id);
    if id == op.id && Find(n.live, id).Some? {
      SetStateAt(r, Find(n.live, id).value, id, op.state, op.prev);
    }
  }

  lemma BoundSessionStep(r: Replica, n: Node, op: Op, id: string)
    requires DistinctIds(n.live) && (op.Bind? || op.Rebind?)
    requires SessionAt(r, id) == EraseOption(Find(n.live, id))
    ensures SessionAt(Fold(r, Handle(n, op).1), id) == EraseOption(Find(Handle(n, op).0.live, id))
  {
    hide Fold, Find, Registry.Updated, FromList, AskRelay.Step;
    FoldOne(r, SessionRebound(op.id, op.claude));
    Registry.FindUpdated(n.live, op.id, Registry.SetClaude(op.claude), id);
  }

  lemma SessionStep(r: Replica, n: Node, op: Op, id: string)
    requires DistinctIds(n.live) && OpOk(n, op)
    requires SessionAt(r, id) == EraseOption(Find(n.live, id))
    ensures SessionAt(Fold(r, Handle(n, op).1), id) == EraseOption(Find(Handle(n, op).0.live, id))
  {
    if op.Register? || op.Unregister? {
      KeyedSessionStep(r, n, op, id);
    } else if op.Transition? {
      TransitionSessionStep(r, n, op, id);
    } else if op.Bind? || op.Rebind? {
      BoundSessionStep(r, n, op, id);
    } else if op.HookAsk? || op.Settle? {
      AsksLeaveRest(r, n, op);
    } else {
      SingleFold(r, n, op);
    }
  }

  lemma AsksLeaveRest(r: Replica, n: Node, op: Op)
    requires OpOk(n, op) && (op.HookAsk? || op.Settle?)
    ensures Fold(r, Handle(n, op).1) == r.(asks := Fold(r, Handle(n, op).1).asks)
    ensures Handle(n, op).0 == n.(relay := Handle(n, op).0.relay)
  {
    SingleFold(r, n, op);
    var out := Handle(n, op).1;
    assert out != [] ==> out[0].AskRequest? || out[0].AskResolved?;
  }

  ghost predicate CachesMatch(r: Replica, n: Node, id: string) {
    Lookup(r.slash, id) == Lookup(n.slash, id) && Lookup(r.handshake, id) == Lookup(n.handshake, id)
  }

  lemma UnregisterCachesStep(r: Replica, n: Node, op: Op, id: string)
    requires op.Unregister? && CachesMatch(r, n, id)
    ensures CachesMatch(Fold(r, Handle(n, op).1), Handle(n, op).0, id)
  {
    FoldOne(r, SessionClose(op.id));
    hide Fold, Find;
  }

  lemma InventoryCachesStep(r: Replica, n: Node, op: Op, id: string)
    requires op.Inventory?
    ensures Lookup(r.handshake, id) == Lookup(n.handshake, id) && (id == op.id || Lookup(r.slash, id) == Lookup(n.slash, id))
        ==> CachesMatch(Fold(r, Handle(n, op).1), Handle(n, op).0, id)
  {
    FoldOne(r, SlashInventory(op.id, op.entries));
    hide Fold;
  }

  lemma ProbeCachesStep(r: Replica, n: Node, op: Op, id: string)
    requires op.Probe?
    ensures Lookup(r.slash, id) == Lookup(n.slash, id) && (id == op.id || Lookup(r.handshake, id) == Lookup(n.handshake, id))
        ==> CachesMatch(Fold(r, Handle(n, op).1), Handle(n, op).0, id)
  {
    FoldOne(r, AgentHandshake(op.id, op.payload));
    hide Fold;
  }

  lemma OtherCachesStep(r: Replica, n: Node, op: Op)
    requires OpOk(n, op) && !(op.Unregister? || op.Inventory? || op.Probe?)
    ensures Fold(r, Handle(n, op).1).slash == r.slash && Fold(r, Handle(n, op).1).handshake == r.handshake
    ensures Handle(n, op).0.slash == n.slash && Handle(n, op).0.handshake == n.handshake
  {
    hide AskRelay.Step, HookEvent, Fold;
    SingleFold(r, n, op);
    if op.HookAsk? || op.Settle? {
      AsksLeaveRest(r, n, op);
    }
  }

  lemma CachesStep(r: Replica, n: Node, op: Op, id: string)
    requires OpOk(n, op) && CachesMatch(r, n, id)
    ensures CachesMatch(Fold(r, Handle(n, op).1), Handle(n, op).0, id)
  {
    hide Handle, Fold, OpOk;
    if op.Unregister? {
      UnregisterCachesStep(r, n, op, id);
    } else if op.Inventory? {
      InventoryCachesStep(r, n, op, id);
    } else if op.Probe? {
      ProbeCachesStep(r, n, op, id);
    } else {
      OtherCachesStep(r, n, op);
    }
  }

  lemma AgreesStep(r: Replica, n: Node, op: Op)
    requires DistinctIds(n.live) && OpOk(n, op) && Agrees(r, n)
    ensures Agrees(Fold(r, Handle(n, op).1), Handle(n, op).0)
  {
    SingleFold(r, n, op);
    forall id {
      SessionStep(r, n, op, id);
    }
    forall id
      ensures Lookup(Fold(r, Handle(n, op).1).slash, id) == Lookup(Handle(n, op).0.slash, id)
      ensures Lookup(Fold(r, Handle(n, op).1).handshake, id) == Lookup(Handle(n, op).0.handshake, id)
    {
      CachesStep(r, n, op, id);
    }
  }

  ghost predicate Asks(out: seq<DaemonFrame>, a: string) {
    exists f :: f in out && f.AskRequest? && f.askId == a
  }

  ghost predicate Resolves(out: seq<DaemonFrame>, a: string) {
    exists f :: f in out && f.AskResolved? && f.askId == a
  }

  lemma RelayQuestionStep(s: AskRelay.State, ev: AskRelay.Ev, a: string)
    requires AskRelay.Apart(s)
    ensures var (t, out) := AskRelay.Step(s, ev);
            && (out == [] ==> OpenQuestion(t, a) == OpenQuestion(s, a))
            && (out != [] ==>
                  && out == [out[0]] && (out[0].AskRequest? || out[0].AskResolved?)
                  && OpenQuestion(t, a) ==
                       if out[0].askId != a then OpenQuestion(s, a)
                       else if out[0].AskRequest? then Some(out[0].question)
                       else None)
  {
  }

  lemma OpenQuestionStep(n: Node, op: Op, a: string)
    requires AskRelay.Apart(n.relay) && OpOk(n, op)
    ensures var (m, out) := Handle(n, op);
            OpenQuestion(m.relay, a) ==
              if Asks(out, a) then Some(out[0].question)
              else if Resolves(out, a) then None
              else OpenQuestion(n.relay, a)
  {
    var (m, out) := Handle(n, op);
    if op.HookAsk? || op.Settle? {
      RelayQuestionStep(n.relay, if op.HookAsk? then HookEvent(n, op) else op.ev, a);
      assert out != [] ==> out[0] in out;
    } else {
      SingleFold(Mirror(n), n, op);
    }
  }

  lemma AskEffect(r: Replica, n: Node, op: Op, a: string)
    requires OpOk(n, op)
    ensures var out := Handle(n, op).1;
            Lookup(Fold(r, out).asks, a) ==
              if Asks(out, a) then Some(out[0].question)
              else if Resolves(out, a) then None
              else Lookup(r.asks, a)
    ensures Asks(Handle(n, op).1, a) <==> a in Requests(Handle(n, op).1)
  {
    var out := Handle(n, op).1;
    SingleFold(r, n, op);
    if out != [] {
      assert out[0] in out;
      StepAsk(r, out[0], a);
    }
  }

  lemma StepAsk(r: Replica, f: DaemonFrame, a: string)
    ensures Lookup(OnReplica(r, f).asks, a) ==
      if f.AskRequest? && f.askId == a then Some(f.question)
      else if f.AskResolved? && f.askId == a then None
      else Lookup(r.asks, a)
  {
    match f { case _ => }
  }

  lemma AsksAgreeStep(r: Replica, n: Node, op: Op, a: string)
    requires AskRelay.Apart(n.relay) && OpOk(n, op)
    requires Lookup(r.asks, a) == if a in n.announced then OpenQuestion(n.relay, a) else None
    ensures var (m, out) := Handle(n, op);
            Lookup(Fold(r, out).asks, a) ==
              if a in n.announced + Requests(out) then OpenQuestion(m.relay, a) else None
  {
    AskEffect(r, n, op, a);
    OpenQuestionStep(n, op, a);
  }

  lemma RequestsConcat(a: seq<DaemonFrame>, b: seq<DaemonFrame>)
    ensures Requests(a + b) == Requests(a) + Requests(b)
  {
  }

  lemma QueueSettlesStep(n: Node, op: Op, a: string)
    requires AskRelay.Apart(n.relay) && OpOk(n, op)
    requires QueueSettles(n.client.pending, n.relay, a)
    ensures QueueSettles(n.client.pending + Handle(n, op).1, Handle(n, op).0.relay, a)
  {
    var p := n.client.pending;
    var (m, out) := Handle(n, op);
    var q, q' := OpenQuestion(n.relay, a), OpenQuestion(m.relay, a);
    OpenQuestionStep(n, op, a);
    RequestsConcat(p, out);
    FoldConcat(Holding(None, a), p, out);
    AskEffect(Fold(Holding(None, a), p), n, op, a);
    FoldConcat(Holding(q', a), p, out);
    AskEffect(Fold(Holding(q', a), p), n, op, a);
  }

  lemma MirrorSameSession(n: Node, op: Op, id: string)
    requires DistinctIds(n.live) && DistinctIds(Handle(n, op).0.live)
    ensures SessionAt(Mirror(n), id) == EraseOption(Find(n.live, id))
    ensures SessionAt(Mirror(Handle(n, op).0), id) == EraseOption(Find(Handle(n, op).0.live, id))
  {
    FromListAt(n.live, id);
    FromListAt(Handle(n, op).0.live, id);
  }

  ghost predicate QueueLeads(n: Node, pending: seq<DaemonFrame>, id: string) {
    SessionAt(Fold(Mirror(n), pending), id) == EraseOption(Find(n.live, id))
  }

  lemma QueueSessionSame(n: Node, op: Op, id: string)
    requires DistinctIds(n.live) && DistinctIds(Handle(n, op).0.live) && OpOk(n, op)
    requires QueueLeads(n, n.client.pending, id)
    requires EraseOption(Find(Handle(n, op).0.live, id)) == EraseOption(Find(n.live, id))
    ensures QueueLeads(Handle(n, op).0, n.client.pending + Handle(n, op).1, id)
  {
    var (m, out) := Handle(n, op);
    MirrorSameSession(n, op, id);
    FoldSameSession(Mirror(n), Mirror(m), n.client.pending, id);
    SessionStep(Fold(Mirror(m), n.client.pending), n, op, id);
    FoldConcat(Mirror(m), n.client.pending, out);
  }

  lemma QueueSessionTransition(n: Node, op: Op, id: string)
    requires DistinctIds(n.live) && op.Transition? && id == op.id
    requires QueueLeads(n, n.client.pending, id) && Find(n.live, id).Some?
    ensures QueueLeads(Handle(n, op).0, n.client.pending + Handle(n, op).1, id)
  {
    var m := Handle(n, op).0;
    var f := StateChanged(op.id, op.state, op.prev);
    var p := n.client.pending;
    Registry.UpdatedDistinct(n.live, op.id, Registry.SetState(op.state));
    MirrorSameSession(n, op, id);
    LiveAfter(n, op, id);
    FoldSameButState(Mirror(n), Mirror(m), p, id);
    SetStateAt(Fold(Mirror(m), p), Find(n.live, id).value, id, op.state, op.prev);
    FoldPush(Mirror(m), p, f);
  }

  lemma QueueSessionKeyed(n: Node, op: Op, id: string)
    requires DistinctIds(n.live) && DistinctIds(Handle(n, op).0.live)
    requires (op.Register? && id == op.session.sessionId && Find(n.live, id).None?)
          || (op.Unregister? && id == op.id && Find(n.live, id).Some?)
    ensures QueueLeads(Handle(n, op).0, n.client.pending + Handle(n, op).1, id)
  {
    var (m, out) := Handle(n, op);
    LiveAfter(n, op, id);
    SingleFold(Fold(Mirror(m), n.client.pending), n, op);
    FoldConcat(Mirror(m), n.client.pending, out);
  }

  /** The queue with the new frame still leads from a greeting to the daemon's sessions. */
  lemma QueueSession(n: Node, op: Op, id: string)
    requires DistinctIds(n.live) && DistinctIds(Handle(n, op).0.live) && OpOk(n, op)
    requires QueueLeads(n, n.client.pending, id)
    ensures QueueLeads(Handle(n, op).0, n.client.pending + Handle(n, op).1, id)
  {
    LiveAfter(n, op, id);
    if EraseOption(Find(Handle(n, op).0.live, id)) == EraseOption(Find(n.live, id)) {
      QueueSessionSame(n, op, id);
    } else if op.Transition? {
      QueueSessionTransition(n, op, id);
    } else {
      QueueSessionKeyed(n, op, id);
    }
  }

  lemma MirrorSlash(n: Node, op: Op, id: string)
    requires op.Inventory? || op.Probe? || op.Unregister?
    ensures var m := Handle(n, op).0;
            && (op.Inventory? ==> m.handshake == n.handshake && (id != op.id ==> Lookup(m.slash, id) == Lookup(n.slash, id)))
            && (op.Probe? ==> m.slash == n.slash && (id != op.id ==> Lookup(m.handshake, id) == Lookup(n.handshake, id)))
            && (op.Unregister? && id != op.id ==>
                  Lookup(m.slash, id) == Lookup(n.slash, id) && Lookup(m.handshake, id) == Lookup(n.handshake, id))
  {
  }

  lemma QueueCachesClosed(n: Node, op: Op, id: string)
    requires op.Unregister? && CachesMatch(Fold(Mirror(n), n.client.pending), n, id)
    ensures CachesMatch(Fold(Fold(Mirror(Handle(n, op).0), n.client.pending), Handle(n, op).1), Handle(n, op).0, id)
  {
    hide Fold, FromList, Find, Without, AskRelay.Step;
    var p, m := n.client.pending, Handle(n, op).0;
    FoldOne(Fold(Mirror(m), p), SessionClose(op.id));
    MirrorSlash(n, op, id);
    FoldSameCaches(Mirror(n), Mirror(m), p, id);
  }

  /** The queue with the new frame still leads from a greeting to the daemon's caches. */
  lemma QueueCaches(n: Node, op: Op, id: string)
    requires OpOk(n, op) && CachesMatch(Fold(Mirror(n), n.client.pending), n, id)
    ensures CachesMatch(Fold(Fold(Mirror(Handle(n, op).0), n.client.pending), Handle(n, op).1), Handle(n, op).0, id)
  {
    hide Handle, Fold, OpOk, FromList;
    var p, m := n.client.pending, Handle(n, op).0;
    if op.Unregister? {
      QueueCachesClosed(n, op, id);
    } else {
      FoldSameCaches(Mirror(n), Mirror(m), p, id);
      if op.Inventory? {
        MirrorSlash(n, op, id);
        InventoryCachesStep(Fold(Mirror(m), p), n, op, id);
      } else if op.Probe? {
        MirrorSlash(n, op, id);
        ProbeCachesStep(Fold(Mirror(m), p), n, op, id);
      } else {
        OtherCachesStep(Fold(Mirror(m), p), n, op);
      }
    }
  }

  lemma HandleKeepsNode(n: Node, op: Op)
    requires DistinctIds(n.live) && AskRelay.Apart(n.relay) && OpOk(n, op)
    ensures var m := Handle(n, op).0;
            && DistinctIds(m.live) && AskRelay.Apart(m.relay)
            && m.client == n.client && m.announced == n.announced && m.openedAt == n.openedAt && m.told == n.told
  {
    hide AskRelay.Apart, AskRelay.Step, HookEvent;
    match op {
      case Register(s, _) =>
      case Unregister(id) => WithoutDistinct(n.live, id);
      case Transition(id, x, _) => Registry.UpdatedDistinct(n.live, id, Registry.SetState(x));
      case Bind(id, c) => Registry.UpdatedDistinct(n.live, id, Registry.SetClaude(c));
      case Rebind(id, c) => Registry.UpdatedDistinct(n.live, id, Registry.SetClaude(c));
      case HookAsk(_, _, _, _, _) => AskRelay.ApartStep(n.relay, HookEvent(n, op));
      case Settle(ev) => AskRelay.ApartStep(n.relay, ev);
      case _ =>
    }
  }

  /** While the link is open the hub's replica follows the daemon frame by frame. */
  lemma DoOpen(r: Replica, n: Node, op: Op)
    requires NodeInv(n) && n.client.link.Open? && OpOk(n, op) && Target(r, n)
    ensures var (m, written) := Do(n, op);
            && NodeInv(m) && m.client.link.Open? && written == Handle(n, op).1
            && Target(Fold(r, written), m)
  {
    var (h, out) := Handle(n, op);
    HubClient.SentAllIs(n.client, out);
    HandleKeepsNode(n, op);
    var m := Do(n, op).0;
    AgreesStep(r, n, op);
    forall a ensures Lookup(Fold(r, out).asks, a) == if a in m.announced then OpenQuestion(m.relay, a) else None {
      AsksAgreeStep(r, n, op, a);
    }
    EmptyQueueHarmless(m);
    forall a | a in m.relay.asks && a !in m.announced
      ensures m.relay.asks[a].question.expiresAt <= m.openedAt
    {
      SkippedStay(n, op, a);
    }
  }

  lemma SkippedStay(n: Node, op: Op, a: string)
    requires AskRelay.Apart(n.relay) && OpOk(n, op)
    requires a in Handle(n, op).0.relay.asks && a !in Requests(Handle(n, op).1)
    ensures a in n.relay.asks && Handle(n, op).0.relay.asks[a].question == n.relay.asks[a].question
  {
    var out := Handle(n, op).1;
    if op.HookAsk? && out != [] {
      assert out[0] in out;
    }
  }

  /** While the link is down the queue stays harmless. */
  lemma DoClosed(n: Node, op: Op)
    requires NodeInv(n) && !n.client.link.Open? && OpOk(n, op)
    ensures var (m, written) := Do(n, op);
            NodeInv(m) && m.client.link == n.client.link && written == []
  {
    var (h, out) := Handle(n, op);
    HubClient.SentAllIs(n.client, out);
    HandleKeepsNode(n, op);
    var m := Do(n, op).0;
    var p := n.client.pending;
    assert m == h.(client := m.client, announced := m.announced, told := m.told) && m.client.pending == p + out;
    assert Mirror(m) == Mirror(h);
    forall id ensures SessionAt(Fold(Mirror(m), p + out), id) == EraseOption(Find(m.live, id)) {
      assert QueueLeads(n, p, id);
      QueueSession(n, op, id);
    }
    FoldConcat(Mirror(m), p, out);
    forall id
      ensures Lookup(Fold(Mirror(m), p + out).slash, id) == Lookup(m.slash, id)
      ensures Lookup(Fold(Mirror(m), p + out).handshake, id) == Lookup(m.handshake, id)
    {
      QueueCaches(n, op, id);
    }
    forall a ensures QueueSettles(p + out, m.relay, a) {
      QueueSettlesStep(n, op, a);
    }
    SingleFold(Mirror(n), n, op);
  }

  // ----- the open event -----

  /** The frames replayed after the greeting: unexpired questions and the two caches. */
  ghost predicate Replayable(n: Node, now: int, f: DaemonFrame) {
    || (f.AskRequest? && f.askId in n.relay.asks && n.relay.asks[f.askId].question == f.question
        && f.question.expiresAt > now)
    || (f.SlashInventory? && Lookup(n.slash, f.sessionId) == Some(f.entries))
    || (f.AgentHandshake? && Lookup(n.handshake, f.sessionId) == Some(f.payload))
  }

  /** `fs` is what `onOpen` returns, in some order. */
  ghost predicate IsOnOpen(n: Node, now: int, fs: seq<DaemonFrame>) {
    && (forall f | f in fs :: Replayable(n, now, f))
    && (forall f | Replayable(n, now, f) :: f in fs)
  }

  /** Replays restore what they carry. */
  lemma {:induction false} ReplaysRebuild(n: Node, now: int, r: Replica, fs: seq<DaemonFrame>)
    requires forall f | f in fs :: Replayable(n, now, f)
    ensures Fold(r, fs).sessions == r.sessions
    ensures forall f | f in fs ::
      && (f.AskRequest? ==> Lookup(Fold(r, fs).asks, f.askId) == Some(f.question))
      && (f.SlashInventory? ==> Lookup(Fold(r, fs).slash, f.sessionId) == Some(f.entries))
      && (f.AgentHandshake? ==> Lookup(Fold(r, fs).handshake, f.sessionId) == Some(f.payload))
  {
    if fs != [] {
      var init, last := fs[..|fs| - 1], fs[|fs| - 1];
      assert fs == init + [last];
      ReplaysRebuild(n, now, r, init);
      assert Replayable(n, now, last);
    }
  }

  /** They restore nothing else. */
  lemma {:induction false} ReplaysAddOnly(n: Node, now: int, r: Replica, fs: seq<DaemonFrame>)
    requires forall f | f in fs :: Replayable(n, now, f)
    ensures forall k | k in Fold(r, fs).asks && k !in r.asks :: exists f :: f in fs && f.AskRequest? && f.askId == k
    ensures forall k | k in Fold(r, fs).slash && k !in r.slash ::
      exists f :: f in fs && f.SlashInventory? && f.sessionId == k
    ensures forall k | k in Fold(r, fs).handshake && k !in r.handshake ::
      exists f :: f in fs && f.AgentHandshake? && f.sessionId == k
  {
    if fs != [] {
      var init, last := fs[..|fs| - 1], fs[|fs| - 1];
      assert fs == init + [last];
      ReplaysAddOnly(n, now, r, init);
      assert Replayable(n, now, last);
      assert last in fs;
      forall f | f in init ensures f in fs {}
    }
  }

  lemma AfterReplays(n: Node, now: int, fs: seq<DaemonFrame>)
    requires IsOnOpen(n, now, fs)
    ensures var w := Fold(FreshReplica(n.live), fs);
            && w.sessions == FromList(n.live)
            && (forall k :: Lookup(w.slash, k) == Lookup(n.slash, k))
            && (forall k :: Lookup(w.handshake, k) == Lookup(n.handshake, k))
            && (forall a :: Lookup(w.asks, a) ==
                  if a in n.relay.asks && n.relay.asks[a].question.expiresAt > now
                  then Some(n.relay.asks[a].question) else None)
  {
    var w := Fold(FreshReplica(n.live), fs);
    ReplaysRebuild(n, now, FreshReplica(n.live), fs);
    ReplaysAddOnly(n, now, FreshReplica(n.live), fs);
    forall k ensures Lookup(w.slash, k) == Lookup(n.slash, k) {
      if k in n.slash { assert Replayable(n, now, SlashInventory(k, n.slash[k])); }
    }
    forall k ensures Lookup(w.handshake, k) == Lookup(n.handshake, k) {
      if k in n.handshake { assert Replayable(n, now, AgentHandshake(k, n.handshake[k])); }
    }
    forall a ensures Lookup(w.asks, a) ==
        if a in n.relay.asks && n.relay.asks[a].question.expiresAt > now
        then Some(n.relay.asks[a].question) else None
    {
      if a in n.relay.asks && n.relay.asks[a].question.expiresAt > now {
        assert Replayable(n, now, AskRequest(a, n.relay.asks[a].question));
      }
    }
  }

  lemma ReplayedRequests(n: Node, now: int, fs: seq<DaemonFrame>, a: string)
    requires IsOnOpen(n, now, fs)
    ensures a in Requests(fs) <==> a in n.relay.asks && n.relay.asks[a].question.expiresAt > now
  {
    if a in n.relay.asks && n.relay.asks[a].question.expiresAt > now {
      assert Replayable(n, now, AskRequest(a, n.relay.asks[a].question));
    }
  }

  /** The node after the `open` event. */
  ghost function Greeted(n: Node, startMs: nat, now: int, fs: seq<DaemonFrame>): Node {
    n.(client := HubClient.Opened(n.client, startMs),
       announced := Requests(fs + n.client.pending), openedAt := now, told := ToldByGreeting(n))
  }

  lemma GreetingAsks(n: Node, startMs: nat, now: int, fs: seq<DaemonFrame>, a: string)
    requires NodeInv(n) && IsOnOpen(n, now, fs)
    ensures var m := Greeted(n, startMs, now, fs);
            Lookup(Fold(FreshReplica(n.live), fs + n.client.pending).asks, a) ==
              if a in m.announced then OpenQuestion(m.relay, a) else None
  {
    var p := n.client.pending;
    var w := Fold(FreshReplica(n.live), fs);
    AfterReplays(n, now, fs);
    FoldConcat(FreshReplica(n.live), fs, p);
    AskAfterIs(w, p, a);
    RequestsConcat(fs, p);
    ReplayedRequests(n, now, fs, a);
    assert QueueSettles(p, n.relay, a);
  }

  lemma GreetingAgrees(n: Node, now: int, fs: seq<DaemonFrame>)
    requires NodeInv(n) && IsOnOpen(n, now, fs)
    ensures Agrees(Fold(FreshReplica(n.live), fs + n.client.pending), n)
  {
    hide Fold, FromList, IsOnOpen, Find;
    var p := n.client.pending;
    var w := Fold(FreshReplica(n.live), fs);
    AfterReplays(n, now, fs);
    FoldConcat(FreshReplica(n.live), fs, p);
    forall id
      ensures SessionAt(Fold(w, p), id) == EraseOption(Find(n.live, id))
      ensures Lookup(Fold(w, p).slash, id) == Lookup(n.slash, id)
      ensures Lookup(Fold(w, p).handshake, id) == Lookup(n.handshake, id)
    {
      FoldSameSession(Mirror(n), w, p, id);
      FoldSameCaches(Mirror(n), w, p, id);
    }
  }

  lemma GreetedNodeInv(n: Node, startMs: nat, now: int, fs: seq<DaemonFrame>)
    requires NodeInv(n) && IsOnOpen(n, now, fs)
    ensures NodeInv(Greeted(n, startMs, now, fs))
  {
    hide QueueHarmless, IsOnOpen, ToldByGreeting, Requests;
    var m := Greeted(n, startMs, now, fs);
    EmptyQueueHarmless(m);
    forall a | a in m.relay.asks && a !in m.announced ensures m.relay.asks[a].question.expiresAt <= now {
      ReplayedRequests(n, now, fs, a);
      RequestsConcat(fs, n.client.pending);
    }
  }

  lemma AgreesSame(r: Replica, n: Node, m: Node)
    requires Agrees(r, n) && m.live == n.live && m.slash == n.slash && m.handshake == n.handshake
    ensures Agrees(r, m)
  {
  }

  /** A greeting, the replays and the queue, older frames last, bring the hub to the daemon's
      present state. */
  lemma GreetingReachesTarget(n: Node, startMs: nat, now: int, fs: seq<DaemonFrame>)
    requires NodeInv(n) && !n.client.link.Open? && IsOnOpen(n, now, fs)
    ensures var m := Greeted(n, startMs, now, fs);
            NodeInv(m) && Target(Fold(FreshReplica(n.live), fs + n.client.pending), m)
  {
    hide NodeInv, Agrees, IsOnOpen, Fold, ToldByGreeting, OpenQuestion, FreshReplica;
    var m := Greeted(n, startMs, now, fs);
    var r := Fold(FreshReplica(n.live), fs + n.client.pending);
    GreetedNodeInv(n, startMs, now, fs);
    GreetingAgrees(n, now, fs);
    AgreesSame(r, n, m);
    forall a ensures Lookup(r.asks, a) == if a in m.announced then OpenQuestion(m.relay, a) else None {
      GreetingAsks(n, startMs, now, fs, a);
    }
  }

  // ----- the link -----

  datatype Item = Frame(frame: DaemonFrame) | Closed

  /** `wire` holds what the daemon wrote and the hub has not read; `Closed` marks where a
      connection ended.  `entry` is the hub's replica, if it has one. */
  datatype Up = Up(node: Node, wire: seq<Item>, entry: Option<Replica>)

  function OnItem(e: Option<Replica>, i: Item): Option<Replica> {
    match i
    case Closed => None
    case Frame(f) =>
      if f.Hello? then Some(FreshReplica(f.sessions))
      else if e.Some? then Some(OnReplica(e.value, f))
      else None
  }

  function After(e: Option<Replica>, wire: seq<Item>): Option<Replica> {
    if wire == [] then e else OnItem(After(e, wire[..|wire| - 1]), wire[|wire| - 1])
  }

  function Framed(fs: seq<DaemonFrame>): (r: seq<Item>)
    ensures |r| == |fs|
    ensures forall i | 0 <= i < |fs| :: r[i] == Frame(fs[i])
  {
    seq(|fs|, i requires 0 <= i < |fs| => Frame(fs[i]))
  }

  datatype Ev =
    | Run(op: Op)
    | Opened(hostname: string, epoch: int, now: int, replays: seq<DaemonFrame>)
    | Client(ev: HubClient.Ev)
    | Drop(keep: nat)
    | Deliver
    | HubRestart
    | DaemonRestart(keep: nat)

  /** A fresh daemon process. */
  const BOOTED := Node([], AskRelay.INITIAL, map[], map[], HubClient.State(HubClient.NoSocket, [], 0, false), {}, 0, map[])

  /** What the end of a connection leaves unread: a prefix that still has every earlier `Closed`. */
  ghost predicate KeepOk(wire: seq<Item>, keep: nat) {
    keep <= |wire| && forall i | keep <= i < |wire| :: wire[i] != Closed
  }

  ghost predicate Enabled(u: Up, e: Ev) {
    match e
    case Run(op) => OpOk(u.node, op)
    case Opened(_, _, now, replays) => u.node.client.link.Connecting? && IsOnOpen(u.node, now, replays)
    case Client(ev) => (ev.Connect? && u.node.client.link.NoSocket?) || ev.Stop?
    case Drop(keep) => !u.node.client.link.NoSocket? && KeepOk(u.wire, keep)
    case Deliver => u.wire != []
    case HubRestart => true
    case DaemonRestart(keep) => KeepOk(u.wire, keep)
  }

  ghost function Next(u: Up, e: Ev, startMs: nat, capMs: nat): Up {
    match e
    case Run(op) =>
      var (n, written) := Do(u.node, op);
      u.(node := n, wire := u.wire + Framed(written))
    case Opened(h, epoch, now, replays) =>
      u.(node := Greeted(u.node, startMs, now, replays),
         wire := u.wire + [Frame(Hello(h, epoch, u.node.live))] + Framed(replays + u.node.client.pending))
    case Client(ev) => u.(node := u.node.(client := HubClient.Step(u.node.client, ev, startMs, capMs).0))
    case Drop(keep) =>
      if keep > |u.wire| then u
      else
        u.(node := u.node.(client := HubClient.Lost(u.node.client, capMs).0), wire := u.wire[..keep] + [Closed])
    case Deliver =>
      if u.wire == [] then u else u.(entry := OnItem(u.entry, u.wire[0]), wire := u.wire[1..])
    case HubRestart =>
      Up(u.node.(client := HubClient.Lost(u.node.client, capMs).0), [], None)
    case DaemonRestart(keep) =>
      if keep > |u.wire| then u else Up(BOOTED, u.wire[..keep] + [Closed], u.entry)
  }

  /** An open link leads the hub to the daemon's state, and no link leads it to nothing. */
  ghost predicate Inv(u: Up) {
    && NodeInv(u.node)
    && (u.node.client.link.Open? ==>
          var r := After(u.entry, u.wire);
          r.Some? && Target(r.value, u.node))
    && (u.node.client.link.NoSocket? || u.node.client.link.Connecting? ==> After(u.entry, u.wire).None?)
  }

  lemma WireAfterRun(u: Up, op: Op, startMs: nat, capMs: nat)
    ensures Next(u, Run(op), startMs, capMs).wire
         == u.wire + Framed(if u.node.client.link.Open? then Handle(u.node, op).1 else [])
  {
    hide AskRelay.Step;
    HubClient.SentAllIs(u.node.client, Handle(u.node, op).1);
  }

  lemma {:induction false} AfterConcat(e: Option<Replica>, a: seq<Item>, b: seq<Item>)
    ensures After(e, a + b) == After(After(e, a), b)
    decreases |b|
  {
    if b == [] {
      assert a + b == a;
    } else {
      var n := |b| - 1;
      assert (a + b)[..|a + b| - 1] == a + b[..n];
      AfterConcat(e, a, b[..n]);
    }
  }

  lemma {:induction false} AfterFramed(r: Replica, fs: seq<DaemonFrame>)
    requires forall f | f in fs :: !f.Hello?
    ensures After(Some(r), Framed(fs)) == Some(Fold(r, fs))
  {
    if fs != [] {
      var init := fs[..|fs| - 1];
      assert Framed(fs)[..|fs| - 1] == Framed(init);
      assert forall f | f in init :: f in fs;
      AfterFramed(r, init);
    }
  }

  lemma AfterOne(e: Option<Replica>, i: Item)
    ensures After(e, [i]) == OnItem(e, i)
  {
    assert [i][..0] == [];
  }

  lemma InvRun(u: Up, op: Op, startMs: nat, capMs: nat)
    requires Inv(u) && Enabled(u, Run(op))
    ensures Inv(Next(u, Run(op), startMs, capMs))
  {
    var (n, written) := Do(u.node, op);
    if u.node.client.link.Open? {
      var r := After(u.entry, u.wire).value;
      DoOpen(r, u.node, op);
      SingleFold(r, u.node, op);
      AfterConcat(u.entry, u.wire, Framed(written));
      AfterFramed(r, written);
    } else {
      DoClosed(u.node, op);
      assert u.wire + Framed([]) == u.wire;
    }
  }

  lemma InvOpened(u: Up, e: Ev, startMs: nat, capMs: nat)
    requires Inv(u) && Enabled(u, e) && e.Opened?
    ensures Inv(Next(u, e, startMs, capMs))
  {
    var n := u.node;
    var fs := e.replays + n.client.pending;
    GreetingReachesTarget(n, startMs, e.now, e.replays);
    var hello := Frame(Hello(e.hostname, e.epoch, n.live));
    AfterConcat(u.entry, u.wire, [hello]);
    AfterOne(After(u.entry, u.wire), hello);
    AfterConcat(u.entry, u.wire + [hello], Framed(fs));
    forall f | f in fs ensures !f.Hello? {
      assert f in e.replays ==> Replayable(n, e.now, f);
    }
    AfterFramed(FreshReplica(n.live), fs);
  }

  lemma LinkDownKeepsNode(n: Node, c: HubClient.State)
    requires NodeInv(n) && c.pending == n.client.pending && !c.link.Open?
    ensures NodeInv(n.(client := c))
  {
    var m := n.(client := c);
    assert Mirror(m) == Mirror(n);
    forall a ensures QueueSettles(m.client.pending, m.relay, a) {
      assert QueueSettles(n.client.pending, n.relay, a);
    }
  }

  lemma ClosedAtEnd(e: Option<Replica>, wire: seq<Item>)
    ensures After(e, wire + [Closed]).None?
  {
    assert (wire + [Closed])[..|wire|] == wire;
  }

  lemma InvStep(u: Up, e: Ev, startMs: nat, capMs: nat)
    requires Inv(u) && Enabled(u, e)
    ensures Inv(Next(u, e, startMs, capMs))
  {
    match e {
      case Run(op) => InvRun(u, op, startMs, capMs);
      case Opened(_, _, _, _) => InvOpened(u, e, startMs, capMs);
      case Client(ev) => LinkDownKeepsNode(u.node, HubClient.Step(u.node.client, ev, startMs, capMs).0);
      case Drop(keep) =>
        LinkDownKeepsNode(u.node, HubClient.Lost(u.node.client, capMs).0);
        ClosedAtEnd(u.entry, u.wire[..keep]);
      case Deliver =>
        AfterConcat(u.entry, [u.wire[0]], u.wire[1..]);
        AfterOne(u.entry, u.wire[0]);
        HeadTail(u.wire);
      case HubRestart => LinkDownKeepsNode(u.node, HubClient.Lost(u.node.client, capMs).0);
      case DaemonRestart(keep) =>
        EmptyQueueHarmless(BOOTED);
        ClosedAtEnd(u.entry, u.wire[..keep]);
    }
  }

  // ----- runs -----

  ghost predicate RunOk(u: Up, es: seq<Ev>, startMs: nat, capMs: nat)
    decreases |es|
  {
    es != [] ==> Enabled(u, es[0]) && RunOk(Next(u, es[0], startMs, capMs), es[1..], startMs, capMs)
  }

  ghost function RunEnd(u: Up, es: seq<Ev>, startMs: nat, capMs: nat): Up
    decreases |es|
  {
    if es == [] then u else RunEnd(Next(u, es[0], startMs, capMs), es[1..], startMs, capMs)
  }

  lemma {:induction false} InvOfRun(u: Up, es: seq<Ev>, startMs: nat, capMs: nat)
    requires Inv(u) && RunOk(u, es, startMs, capMs)
    ensures Inv(RunEnd(u, es, startMs, capMs))
    decreases |es|
  {
    if es != [] {
      InvStep(u, es[0], startMs, capMs);
      InvOfRun(Next(u, es[0], startMs, capMs), es[1..], startMs, capMs);
    }
  }

  const START := Up(BOOTED, [], None)

  lemma InvStart()
    ensures Inv(START)
  {
    EmptyQueueHarmless(BOOTED);
  }

  /** What the invariant says once everything is read. */
  lemma Drained(u: Up)
    requires Inv(u) && u.wire == []
    ensures u.node.client.link.Open? ==> u.entry.Some? && Target(u.entry.value, u.node)
    ensures u.node.client.link.NoSocket? || u.node.client.link.Connecting? ==> u.entry.None?
  {
    assert After(u.entry, u.wire) == u.entry;
  }

  /** The hub holds each question that had not expired when the link opened. */
  lemma DrainedAsks(u: Up, a: string)
    requires Inv(u) && u.wire == [] && u.node.client.link.Open?
    requires a in u.node.relay.asks && u.node.relay.asks[a].question.expiresAt > u.node.openedAt
    ensures u.entry.Some? && Lookup(u.entry.value.asks, a) == Some(u.node.relay.asks[a].question)
  {
    Drained(u);
    assert a in u.node.announced;
    assert Lookup(u.entry.value.asks, a) == OpenQuestion(u.node.relay, a);
  }

  /** Whatever registrations, transitions, removals, sends, drops, reconnects and restarts happen:
      with the link open and everything read, the hub's sessions are the daemon's, its two caches
      are the daemon's, and it holds every question that had not expired when the link opened. */
  lemma ConvergesWhenDrained(es: seq<Ev>, startMs: nat, capMs: nat)
    requires RunOk(START, es, startMs, capMs)
    ensures var u := RunEnd(START, es, startMs, capMs);
            u.node.client.link.Open? && u.wire == [] ==>
              && u.entry.Some?
              && (forall id :: SessionAt(u.entry.value, id) == EraseOption(Find(u.node.live, id)))
              && u.entry.value.slash == u.node.slash
              && u.entry.value.handshake == u.node.handshake
              && (forall a | a in u.node.relay.asks && u.node.relay.asks[a].question.expiresAt > u.node.openedAt ::
                    Lookup(u.entry.value.asks, a) == Some(u.node.relay.asks[a].question))
  {
    InvStart();
    InvOfRun(START, es, startMs, capMs);
    var u := RunEnd(START, es, startMs, capMs);
    if u.node.client.link.Open? && u.wire == [] {
      Drained(u);
      SameLookups(u.entry.value.slash, u.node.slash);
      SameLookups(u.entry.value.handshake, u.node.handshake);
      forall a | a in u.node.relay.asks && u.node.relay.asks[a].question.expiresAt > u.node.openedAt
        ensures Lookup(u.entry.value.asks, a) == Some(u.node.relay.asks[a].question)
      {
        DrainedAsks(u, a);
      }
    }
  }

  /** The other direction fails in exactly one way: a cached question that the daemon no longer
      holds is one whose hook client closed, and every announced one of those stays cached. */
  lemma StaleQuestionsAreOrphans(es: seq<Ev>, startMs: nat, capMs: nat, a: string)
    requires RunOk(START, es, startMs, capMs)
    ensures var u := RunEnd(START, es, startMs, capMs);
            u.node.client.link.Open? && u.wire == [] && u.entry.Some? ==>
              (a in u.entry.value.asks && a !in u.node.relay.asks <==>
               a in u.node.relay.gone && a in u.node.announced)
  {
    InvStart();
    InvOfRun(START, es, startMs, capMs);
    var u := RunEnd(START, es, startMs, capMs);
    if u.node.client.link.Open? && u.wire == [] && u.entry.Some? {
      Drained(u);
      assert Lookup(u.entry.value.asks, a) ==
        if a in u.node.announced then OpenQuestion(u.node.relay, a) else None;
      assert a in u.node.relay.gone ==> a !in u.node.relay.asks;
    }
  }

  /** A hook client that closes drops its questions without a frame, so the hub keeps them. */
  lemma HookGoneSaysNothing(u: Up, a: string, startMs: nat, capMs: nat)
    requires a in u.node.relay.asks && u.entry.Some? && a in u.entry.value.asks
    ensures var gone := Run(Settle(AskRelay.ClientClosed(u.node.relay.asks[a].client)));
            var v := Next(u, gone, startMs, capMs);
            && Enabled(u, gone)
            && a !in v.node.relay.asks && a in v.node.relay.gone
            && v.wire == u.wire && v.entry == u.entry
  {
    assert u.wire + Framed([]) == u.wire;
  }
}
