/** What the daemon's handlers say of a session on the wire: its opening, its transcript, its rebinds,
    its end (packages/daemon/src/index.ts).  An observer that reads only the frames holds what the
    daemon's registry holds. */
module SessionFrames {
  import opened Frames
  import opened Sequences
  import opened Uplink
  import Registry
  import AskRelay
  import Rebinds

  /** A run of handlers: the last state and every frame passed to `hub.send`, in order. */
  function HandleAll(n: Node, ops: seq<Op>): (Node, seq<DaemonFrame>) {
    if ops == [] then (n, [])
    else
      var (m, fs) := HandleAll(n, ops[..|ops| - 1]);
      var (k, out) := Handle(m, ops[|ops| - 1]);
      (k, fs + out)
  }

  ghost predicate OpsOk(n: Node, ops: seq<Op>) {
    forall op | op in ops :: OpOk(n, op)
  }

  // ----- the observer -----

  /** What an observer knows of one session. */
  datatype Belief = Absent | Present(claude: Option<string>)

  function Listen(b: Belief, f: DaemonFrame, id: string): Belief {
    if f.SessionOpen? && f.session.sessionId == id then Present(f.session.claudeSessionId)
    else if f.SessionClose? && f.sessionId == id then Absent
    else if f.SessionRebound? && f.sessionId == id && b.Present? then Present(Some(f.claudeSessionId))
    else b
  }

  function Heard(b: Belief, fs: seq<DaemonFrame>, id: string): Belief {
    if fs == [] then b else Listen(Heard(b, fs[..|fs| - 1], id), fs[|fs| - 1], id)
  }

  lemma {:induction false} HeardConcat(b: Belief, xs: seq<DaemonFrame>, ys: seq<DaemonFrame>, id: string)
    ensures Heard(b, xs + ys, id) == Heard(Heard(b, xs, id), ys, id)
    decreases |ys|
  {
    if ys == [] {
      assert xs + ys == xs;
    } else {
      var k := |ys| - 1;
      assert (xs + ys)[..|xs + ys| - 1] == xs + ys[..k];
      HeardConcat(b, xs, ys[..k], id);
    }
  }

  lemma HeardOne(b: Belief, fs: seq<DaemonFrame>, id: string)
    requires |fs| <= 1
    ensures Heard(b, fs, id) == if fs == [] then b else Listen(b, fs[0], id)
  {
    assert fs[..0] == [];
  }

  /** What the registry has for a session. */
  function Held(n: Node, id: string): Belief {
    var s := Find(n.live, id);
    if s.Some? then Present(s.value.claudeSessionId) else Absent
  }

  /** The transcript id that a `Bind` gave a live session and no later frame told. */
  function Unsaid(n: Node, ops: seq<Op>, id: string): Option<string> {
    if ops == [] then None
    else
      var init := ops[..|ops| - 1];
      match ops[|ops| - 1]
      case Bind(x, c) =>
        if x == id && Find(HandleAll(n, init).0.live, id).Some? then Some(c) else Unsaid(n, init, id)
      case Rebind(x, _) => if x == id then None else Unsaid(n, init, id)
      case Unregister(x) => if x == id then None else Unsaid(n, init, id)
      case _ => Unsaid(n, init, id)
  }

  /** What the observer should believe: the registry's entry, but with `heard` where a bind was silent. */
  predicate Matches(held: Belief, heard: Belief, unsaid: Option<string>) {
    match held
    case Absent => heard == Absent && unsaid == None
    case Present(c) => heard.Present? && c == if unsaid.Some? then unsaid else heard.claude
  }

  lemma AsksSilent(s: AskRelay.State, ev: AskRelay.Ev, b: Belief, id: string)
    ensures Heard(b, AskRelay.Step(s, ev).1, id) == b
  {
    HeardOne(b, AskRelay.Step(s, ev).1, id);
  }

  /** How a handler changes what the registry holds of a session. */
  lemma HeldStep(n: Node, op: Op, id: string)
    ensures Held(Handle(n, op).0, id) ==
      match op
      case Register(s, _) => if s.sessionId == id && Held(n, id) == Absent then Present(s.claudeSessionId) else Held(n, id)
      case Unregister(x) => if x == id then Absent else Held(n, id)
      case Bind(x, c) => if x == id && Held(n, id).Present? then Present(Some(c)) else Held(n, id)
      case Rebind(x, c) => if x == id && Held(n, id).Present? then Present(Some(c)) else Held(n, id)
      case _ => Held(n, id)
  {
    hide Registry.Updated, Registry.Added, AskRelay.Step, Without, HookEvent;
    match op {
      case Register(s, _) => Registry.FindAdded(n.live, s, id);
      case Unregister(x) => FindWithout(n.live, x, id);
      case Transition(x, st, _) => Registry.FindUpdated(n.live, x, Registry.SetState(st), id);
      case Bind(x, c) => Registry.FindUpdated(n.live, x, Registry.SetClaude(c), id);
      case Rebind(x, c) => Registry.FindUpdated(n.live, x, Registry.SetClaude(c), id);
      case _ =>
    }
  }

  /** What an observer hears of a session from one handler. */
  lemma HeardStep(n: Node, op: Op, b: Belief, id: string)
    requires OpOk(n, op)
    ensures Heard(b, Handle(n, op).1, id) ==
      match op
      case Register(s, _) => if s.sessionId == id && Held(n, id) == Absent then Present(s.claudeSessionId) else b
      case Unregister(x) => if x == id && Held(n, id).Present? then Absent else b
      case Rebind(x, c) => if x == id && Held(n, id).Present? && b.Present? then Present(Some(c)) else b
      case _ => b
  {
    hide AskRelay.Step, HookEvent, Registry.Updated, Registry.Added;
    match op {
      case HookAsk(_, _, _, _, _) => AsksSilent(n.relay, HookEvent(n, op), b, id);
      case Settle(ev) => AsksSilent(n.relay, ev, b, id);
      case _ => HeardOne(b, Handle(n, op).1, id);
    }
  }

  /** For every run of handlers from boot and every session: the observer has the session exactly while
      it is live, and has its transcript id unless a `Bind`, of which nothing is sent, came since the id
      was last told; then the registry has the bound id. */
  lemma {:induction false} ObserverFollows(n: Node, ops: seq<Op>, id: string)
    requires n.live == [] && OpsOk(n, ops)
    ensures var (m, fs) := HandleAll(n, ops);
            Matches(Held(m, id), Heard(Absent, fs, id), Unsaid(n, ops, id))
  {
    hide Handle;
    if ops != [] {
      var init, op := ops[..|ops| - 1], ops[|ops| - 1];
      assert op in ops && OpOk(n, op);
      assert OpsOk(n, init);
      var (m, fs) := HandleAll(n, init);
      ObserverFollows(n, init, id);
      HeldStep(m, op, id);
      HeardStep(m, op, Heard(Absent, fs, id), id);
      HeardConcat(Absent, fs, Handle(m, op).1, id);
    }
  }

  /** The observer is right about a session exactly if no bind is unsaid or the bound id is the one told. */
  lemma ObserverRightIff(n: Node, ops: seq<Op>, id: string)
    requires n.live == [] && OpsOk(n, ops)
    ensures var (m, fs) := HandleAll(n, ops);
            var unsaid := Unsaid(n, ops, id);
            Held(m, id) == Heard(Absent, fs, id) <==> unsaid == None || Heard(Absent, fs, id) == Present(unsaid)
  {
    ObserverFollows(n, ops, id);
  }

  // ----- rebinds -----

  /** The transcript ids that a session's rebound frames name. */
  function Rebounds(fs: seq<DaemonFrame>, id: string): seq<string> {
    if fs == [] then []
    else
      var f := fs[|fs| - 1];
      Rebounds(fs[..|fs| - 1], id) + if f.SessionRebound? && f.sessionId == id then [f.claudeSessionId] else []
  }

  /** The transcript ids of a session's rebinds that came while it was live. */
  function RebindsLive(n: Node, ops: seq<Op>, id: string): seq<string> {
    if ops == [] then []
    else
      var init, op := ops[..|ops| - 1], ops[|ops| - 1];
      RebindsLive(n, init, id)
        + if op.Rebind? && op.id == id && Find(HandleAll(n, init).0.live, id).Some? then [op.claude] else []
  }

  lemma {:induction false} ReboundsConcat(xs: seq<DaemonFrame>, ys: seq<DaemonFrame>, id: string)
    ensures Rebounds(xs + ys, id) == Rebounds(xs, id) + Rebounds(ys, id)
    decreases |ys|
  {
    if ys == [] {
      assert xs + ys == xs && Rebounds(xs, id) + [] == Rebounds(xs, id);
    } else {
      var k := |ys| - 1;
      assert (xs + ys)[..|xs + ys| - 1] == xs + ys[..k];
      ReboundsConcat(xs, ys[..k], id);
      var last := if ys[k].SessionRebound? && ys[k].sessionId == id then [ys[k].claudeSessionId] else [];
      Assoc(Rebounds(xs, id), Rebounds(ys[..k], id), last);
    }
  }

  lemma OneRebound(fs: seq<DaemonFrame>, id: string)
    requires |fs| <= 1
    ensures Rebounds(fs, id)
         == if fs != [] && fs[0].SessionRebound? && fs[0].sessionId == id then [fs[0].claudeSessionId] else []
  {
    assert fs[..0] == [];
  }

  lemma AsksNoRebound(s: AskRelay.State, ev: AskRelay.Ev, id: string)
    ensures Rebounds(AskRelay.Step(s, ev).1, id) == []
  {
    OneRebound(AskRelay.Step(s, ev).1, id);
  }

  lemma ReboundStep(n: Node, op: Op, id: string)
    requires OpOk(n, op)
    ensures Rebounds(Handle(n, op).1, id)
         == if op.Rebind? && op.id == id && Find(n.live, id).Some? then [op.claude] else []
  {
    hide AskRelay.Step, HookEvent, Registry.Updated, Registry.Added;
    match op {
      case HookAsk(_, _, _, _, _) => AsksNoRebound(n.relay, HookEvent(n, op), id);
      case Settle(ev) => AsksNoRebound(n.relay, ev, id);
      case _ => OneRebound(Handle(n, op).1, id);
    }
  }

  /** For every run: a session's rebound frames are one for each rebind of it while live, in order, with
      the new transcript's id. */
  lemma {:induction false} OneFramePerRebind(n: Node, ops: seq<Op>, id: string)
    requires OpsOk(n, ops)
    ensures Rebounds(HandleAll(n, ops).1, id) == RebindsLive(n, ops, id)
  {
    hide Handle;
    if ops != [] {
      var init, op := ops[..|ops| - 1], ops[|ops| - 1];
      assert op in ops && OpOk(n, op);
      assert OpsOk(n, init);
      var (m, fs) := HandleAll(n, init);
      OneFramePerRebind(n, init, id);
      ReboundStep(m, op, id);
      ReboundsConcat(fs, Handle(m, op).1, id);
    }
  }

  // ----- the other frames -----

  predicate PassedThrough(f: DaemonFrame) {
    f.Event? || f.Notice? || f.StateChanged? || f.SlashInventory? || f.AgentHandshake?
  }

  /** The frames that a handler makes of what it is given, whatever the daemon's state. */
  function Through(fs: seq<DaemonFrame>): seq<DaemonFrame> {
    if fs == [] then []
    else Through(fs[..|fs| - 1]) + if PassedThrough(fs[|fs| - 1]) then [fs[|fs| - 1]] else []
  }

  function GivenBy(op: Op): seq<DaemonFrame> {
    match op
    case Tell(f) => [f]
    case Transition(id, x, prev) => [StateChanged(id, x, prev)]
    case Inventory(id, entries) => [SlashInventory(id, entries)]
    case Probe(id, payload) => [AgentHandshake(id, payload)]
    case _ => []
  }

  function Given(ops: seq<Op>): seq<DaemonFrame> {
    if ops == [] then [] else Given(ops[..|ops| - 1]) + GivenBy(ops[|ops| - 1])
  }

  lemma {:induction false} ThroughConcat(xs: seq<DaemonFrame>, ys: seq<DaemonFrame>)
    ensures Through(xs + ys) == Through(xs) + Through(ys)
    decreases |ys|
  {
    if ys == [] {
      assert xs + ys == xs && Through(xs) + [] == Through(xs);
    } else {
      var k := |ys| - 1;
      assert (xs + ys)[..|xs + ys| - 1] == xs + ys[..k];
      ThroughConcat(xs, ys[..k]);
      Assoc(Through(xs), Through(ys[..k]), if PassedThrough(ys[k]) then [ys[k]] else []);
    }
  }

  lemma OneThrough(fs: seq<DaemonFrame>)
    requires |fs| <= 1
    ensures Through(fs) == if fs != [] && PassedThrough(fs[0]) then fs else []
  {
    if fs != [] { assert fs[..0] == [] && fs == [fs[0]]; }
  }

  lemma ThroughStep(n: Node, op: Op)
    requires OpOk(n, op)
    ensures Through(Handle(n, op).1) == GivenBy(op)
  {
    hide HookEvent, Registry.Updated, Registry.Added;
    OneThrough(Handle(n, op).1);
  }

  /** For every run: events, notices, states, inventories and handshakes go out as they were given, each
      once and in order, whatever the daemon's state. */
  lemma {:induction false} GivenFramesGoOut(n: Node, ops: seq<Op>)
    requires OpsOk(n, ops)
    ensures Through(HandleAll(n, ops).1) == Given(ops)
  {
    hide Handle;
    if ops != [] {
      var init, op := ops[..|ops| - 1], ops[|ops| - 1];
      assert op in ops && OpOk(n, op);
      assert OpsOk(n, init);
      var (m, fs) := HandleAll(n, init);
      GivenFramesGoOut(n, init);
      ThroughStep(m, op);
      ThroughConcat(fs, Handle(m, op).1);
    }
  }

  function Openings(fs: seq<DaemonFrame>): seq<DaemonFrame> {
    if fs == [] then []
    else Openings(fs[..|fs| - 1]) + if fs[|fs| - 1].SessionOpen? then [fs[|fs| - 1]] else []
  }

  function Registrations(n: Node, ops: seq<Op>): seq<DaemonFrame> {
    if ops == [] then []
    else
      var init, op := ops[..|ops| - 1], ops[|ops| - 1];
      Registrations(n, init)
        + if op.Register? && Find(HandleAll(n, init).0.live, op.session.sessionId).None? then
            [SessionOpen(op.session, op.requestId)]
          else []
  }

  lemma OpeningsPush(xs: seq<DaemonFrame>, ys: seq<DaemonFrame>)
    requires |ys| <= 1
    ensures Openings(xs + ys) == Openings(xs) + if ys != [] && ys[0].SessionOpen? then ys else []
  {
    if ys == [] {
      assert xs + ys == xs && Openings(xs) + [] == Openings(xs);
    } else {
      assert (xs + ys)[..|xs|] == xs && ys == [ys[0]];
    }
  }

  lemma OpeningStep(n: Node, op: Op)
    requires OpOk(n, op)
    ensures var out := Handle(n, op).1;
            |out| <= 1 && (if out != [] && out[0].SessionOpen? then out else [])
            == if op.Register? && Find(n.live, op.session.sessionId).None? then
                 [SessionOpen(op.session, op.requestId)]
               else []
  {
    hide HookEvent, Registry.Updated, Registry.Added;
  }

  /** For every run: each registration of a session that is not live goes out as it is, with the request
      it fulfils, and no other does. */
  lemma {:induction false} RegistrationsGoOut(n: Node, ops: seq<Op>)
    requires OpsOk(n, ops)
    ensures Openings(HandleAll(n, ops).1) == Registrations(n, ops)
  {
    hide Handle;
    if ops != [] {
      var init, op := ops[..|ops| - 1], ops[|ops| - 1];
      assert op in ops && OpOk(n, op);
      assert OpsOk(n, init);
      var (m, fs) := HandleAll(n, init);
      RegistrationsGoOut(n, init);
      OpeningStep(m, op);
      OpeningsPush(fs, Handle(m, op).1);
    }
  }

  // ----- the browser's transcripts -----

  function EndOf(v: Rebinds.View, es: seq<Rebinds.Sent>): Rebinds.View {
    if es == [] then v
    else
      var last := es[|es| - 1];
      Rebinds.Next(EndOf(v, es[..|es| - 1]), last.item, last.heard)
  }

  function Marks(es: seq<Rebinds.Sent>): nat {
    if es == [] then 0 else Marks(es[..|es| - 1]) + if es[|es| - 1].item.Rebound? then 1 else 0
  }

  lemma {:induction false} CurrentCounts(v: Rebinds.View, es: seq<Rebinds.Sent>)
    ensures EndOf(v, es).current == v.current + Marks(es)
  {
    if es != [] { CurrentCounts(v, es[..|es| - 1]); }
  }

  /** A browser whose items carry the rebound frames of a run of handlers, rows between them as they
      come and heard or not, numbers its present transcript by the rebinds the daemon made. */
  lemma BrowserNumbersRebinds(n: Node, ops: seq<Op>, id: string, es: seq<Rebinds.Sent>)
    requires OpsOk(n, ops) && Marks(es) == |Rebounds(HandleAll(n, ops).1, id)|
    ensures EndOf(Rebinds.ARRIVAL, es).current == |RebindsLive(n, ops, id)|
  {
    OneFramePerRebind(n, ops, id);
    CurrentCounts(Rebinds.ARRIVAL, es);
  }
}
