/** Any number of daemons, the hub and one browser client, with every queue between them. */
module EndToEnd {
  import opened Frames
  import opened Router
  import opened PwaReducer
  import AskRelay
  import HubClient
  import Registry
  import Transcripts
  import Uplink
  import Downlink

  datatype Sys = Sys(nodes: map<string, Uplink.Node>, wires: map<string, seq<Uplink.Item>>, down: Downlink.Link)

  datatype Ev =
    | Node(d: string, ev: Uplink.Ev)
    | Deliver(d: string, dbName: Option<string>)
    | Rename(d: string, name: Option<string>)
    | HubRestart
    | Browser(bev: Downlink.Ev)

  /** The reconnect delays. */
  datatype World = World(startMs: nat, capMs: nat)

  function EntryOf(hub: Hub, d: string): Option<Replica> {
    if d in hub then Some(hub[d].replica) else None
  }

  function UpOf(s: Sys, d: string): Uplink.Up
    requires d in s.nodes && d in s.wires
  {
    Uplink.Up(s.nodes[d], s.wires[d], EntryOf(s.down.hub, d))
  }

  function InputOf(d: string, dbName: Option<string>, i: Uplink.Item): Downlink.HubInput {
    match i
    case Closed => Downlink.Disconnected(d)
    case Frame(f) => Downlink.FromDaemon(d, dbName, f)
  }

  ghost predicate Enabled(w: World, s: Sys, e: Ev) {
    match e
    case Node(d, ev) =>
      d in s.nodes && d in s.wires && !ev.Deliver? && !ev.HubRestart?
      && Uplink.Enabled(UpOf(s, d), ev)
    case Deliver(d, _) => d in s.wires && s.wires[d] != []
    case Rename(_, _) => true
    case HubRestart => true
    case Browser(ev) => !ev.HubIn? && Downlink.Enabled(s.down, ev)
  }

  ghost function Next(w: World, s: Sys, e: Ev): Sys
    requires Enabled(w, s, e)
  {
    match e
    case Node(d, ev) =>
      var u := Uplink.Next(UpOf(s, d), ev, w.startMs, w.capMs);
      s.(nodes := s.nodes[d := u.node], wires := s.wires[d := u.wire])
    case Deliver(d, dbName) =>
      s.(wires := s.wires[d := s.wires[d][1..]],
         down := Downlink.Next(s.down, Downlink.HubIn(InputOf(d, dbName, s.wires[d][0]))))
    case Rename(d, n) => s.(down := Downlink.Next(s.down, Downlink.HubIn(Downlink.Renamed(d, n))))
    case HubRestart =>
      Sys(map d | d in s.nodes :: s.nodes[d].(client := HubClient.Lost(s.nodes[d].client, w.capMs).0),
          map d | d in s.wires :: [],
          Downlink.Next(s.down, Downlink.Close).(hub := map[]))
    case Browser(ev) => s.(down := Downlink.Next(s.down, ev))
  }

  // ----- sessions, whatever the question ids -----

  /** The greetings under way list each session once. */
  ghost predicate GreetingsOnce(wire: seq<Uplink.Item>) {
    forall i | i in wire && i.Frame? && i.frame.Hello? :: DistinctIds(i.frame.sessions)
  }

  ghost predicate Inv(s: Sys) {
    && s.wires.Keys == s.nodes.Keys && s.down.hub.Keys <= s.nodes.Keys
    && (forall d | d in s.nodes :: Transcripts.FullInv(UpOf(s, d)) && GreetingsOnce(s.wires[d]))
    && Downlink.SessionsInv(s.down)
  }

  lemma RunGreetsOnce(w: World, u: Uplink.Up, op: Uplink.Op)
    requires Uplink.OpOk(u.node, op) && GreetingsOnce(u.wire)
    ensures GreetingsOnce(Uplink.Next(u, Uplink.Run(op), w.startMs, w.capMs).wire)
  {
    hide Uplink.Handle, Uplink.OpOk, Uplink.Fold, Uplink.Mirror, Uplink.Next;
    Uplink.SingleFold(Uplink.Mirror(u.node), u.node, op);
    Uplink.WireAfterRun(u, op, w.startMs, w.capMs);
  }

  lemma OpenedGreetsOnce(w: World, u: Uplink.Up, ev: Uplink.Ev)
    requires DistinctIds(u.node.live) && Uplink.Enabled(u, ev) && ev.Opened? && GreetingsOnce(u.wire)
    requires forall f | f in u.node.client.pending :: !f.Hello?
    ensures GreetingsOnce(Uplink.Next(u, ev, w.startMs, w.capMs).wire)
  {
    forall f | f in ev.replays + u.node.client.pending ensures !f.Hello? {
      assert f in ev.replays ==> Uplink.Replayable(u.node, ev.now, f);
    }
  }

  lemma NodeGreetsOnce(w: World, u: Uplink.Up, ev: Uplink.Ev)
    requires Transcripts.FullInv(u) && Uplink.Enabled(u, ev) && GreetingsOnce(u.wire)
    ensures GreetingsOnce(Uplink.Next(u, ev, w.startMs, w.capMs).wire)
  {
    NodeFacts(u);
    hide Transcripts.FullInv;
    if ev.Run? {
      hide Uplink.Next, GreetingsOnce;
      RunGreetsOnce(w, u, ev.op);
    } else if ev.Opened? {
      hide Uplink.Next, GreetingsOnce;
      OpenedGreetsOnce(w, u, ev);
    }
  }

  lemma NodeFacts(u: Uplink.Up)
    requires Transcripts.FullInv(u)
    ensures DistinctIds(u.node.live) && forall f | f in u.node.client.pending :: !f.Hello?
  {
  }

  /** The hub's handling of one queued item is the item's effect on that daemon's entry alone. */
  lemma DeliveredEntry(hub: Hub, d: string, dbName: Option<string>, i: Uplink.Item, e: string)
    ensures var next := Downlink.HubStep(hub, InputOf(d, dbName, i)).0;
            EntryOf(next, e) == if e == d then Uplink.OnItem(EntryOf(hub, d), i) else EntryOf(hub, e)
  {
  }

  lemma InvNode(w: World, s: Sys, d: string, ev: Uplink.Ev)
    requires Inv(s) && Enabled(w, s, Node(d, ev))
    ensures Inv(Next(w, s, Node(d, ev)))
  {
    hide Transcripts.FullInv, Downlink.SessionsInv, Uplink.Next, GreetingsOnce;
    var t := Next(w, s, Node(d, ev));
    var u := UpOf(s, d);
    Transcripts.FullInvStep(u, ev, w.startMs, w.capMs);
    NodeGreetsOnce(w, u, ev);
    EntryKept(w, u, ev);
    forall e | e in t.nodes ensures Transcripts.FullInv(UpOf(t, e)) && GreetingsOnce(t.wires[e]) {
      assert e == d || UpOf(t, e) == UpOf(s, e);
      assert UpOf(t, d) == Uplink.Next(u, ev, w.startMs, w.capMs);
    }
  }

  lemma EntryKept(w: World, u: Uplink.Up, ev: Uplink.Ev)
    requires !ev.Deliver? && !ev.HubRestart?
    ensures Uplink.Next(u, ev, w.startMs, w.capMs).entry == u.entry
  {
  }

  lemma HubAfterInput(s: Downlink.Link, i: Downlink.HubInput)
    ensures Downlink.Next(s, Downlink.HubIn(i)).hub == Downlink.HubStep(s.hub, i).0
  {
  }

  lemma DeliverGreetsOnce(d: string, dbName: Option<string>, wire: seq<Uplink.Item>)
    requires wire != [] && GreetingsOnce(wire)
    ensures Downlink.GreetsOnce(Downlink.HubIn(InputOf(d, dbName, wire[0]))) && GreetingsOnce(wire[1..])
  {
    assert wire[0] in wire;
  }

  lemma InvDeliver(w: World, s: Sys, d: string, dbName: Option<string>)
    requires Inv(s) && Enabled(w, s, Deliver(d, dbName))
    ensures Inv(Next(w, s, Deliver(d, dbName)))
  {
    hide Transcripts.FullInv, Downlink.SessionsInv, Downlink.HubStep, Uplink.OnItem, Downlink.Next, GreetingsOnce;
    var t := Next(w, s, Deliver(d, dbName));
    var i := s.wires[d][0];
    var input := InputOf(d, dbName, i);
    HubAfterInput(s.down, input);
    DeliverGreetsOnce(d, dbName, s.wires[d]);
    Downlink.SessionsInvStep(s.down, Downlink.HubIn(input));
    Transcripts.FullInvStep(UpOf(s, d), Uplink.Deliver, w.startMs, w.capMs);
    forall e ensures EntryOf(t.down.hub, e) == if e == d then Uplink.OnItem(EntryOf(s.down.hub, d), i) else EntryOf(s.down.hub, e) {
      DeliveredEntry(s.down.hub, d, dbName, i, e);
    }
    forall e | e in t.nodes ensures Transcripts.FullInv(UpOf(t, e)) && GreetingsOnce(t.wires[e]) {
      if e == d {
        assert UpOf(t, d) == Uplink.Next(UpOf(s, d), Uplink.Deliver, w.startMs, w.capMs);
      } else {
        assert UpOf(t, e) == UpOf(s, e);
      }
    }
    assert forall e | e in t.down.hub && e != d :: EntryOf(t.down.hub, e) == EntryOf(s.down.hub, e);
  }

  lemma ClosedInv(l: Downlink.Link)
    requires !l.subscribed && l.hub == map[]
    ensures Downlink.SessionsInv(l) && Downlink.QuestionsInv(l)
  {
  }

  lemma InvHubRestart(w: World, s: Sys)
    requires Inv(s)
    ensures Inv(Next(w, s, HubRestart))
  {
    hide Transcripts.FullInv, Downlink.SessionsInv;
    var t := Next(w, s, HubRestart);
    forall e | e in t.nodes ensures Transcripts.FullInv(UpOf(t, e)) {
      Transcripts.FullInvStep(UpOf(s, e), Uplink.HubRestart, w.startMs, w.capMs);
      assert UpOf(t, e) == Uplink.Next(UpOf(s, e), Uplink.HubRestart, w.startMs, w.capMs);
    }
    ClosedInv(t.down);
  }

  lemma BrowserKeepsHub(s: Downlink.Link, e: Downlink.Ev)
    requires !e.HubIn? && Downlink.Enabled(s, e)
    ensures Downlink.Next(s, e).hub == s.hub
  {
  }

  lemma RenameKeepsReplicas(s: Downlink.Link, d: string, n: Option<string>)
    ensures var hub := Downlink.Next(s, Downlink.HubIn(Downlink.Renamed(d, n))).hub;
            hub.Keys == s.hub.Keys && forall x | x in hub :: hub[x].replica == s.hub[x].replica
  {
  }

  /** Moves of the browser's side that leave every replica alone. */
  lemma InvDownOnly(s: Sys, down: Downlink.Link)
    requires Inv(s) && Downlink.SessionsInv(down) && down.hub.Keys == s.down.hub.Keys
    requires forall x | x in down.hub :: down.hub[x].replica == s.down.hub[x].replica
    ensures Inv(s.(down := down))
  {
    hide Transcripts.FullInv, Downlink.SessionsInv;
    var t := s.(down := down);
    forall x | x in t.nodes ensures Transcripts.FullInv(UpOf(t, x)) {
      assert UpOf(t, x) == UpOf(s, x);
    }
  }

  lemma InvRename(w: World, s: Sys, e: Ev)
    requires Inv(s) && e.Rename?
    ensures Inv(Next(w, s, e))
  {
    hide Transcripts.FullInv, Downlink.SessionsInv, Downlink.Next, GreetingsOnce;
    Downlink.SessionsInvStep(s.down, Downlink.HubIn(Downlink.Renamed(e.d, e.name)));
    RenameKeepsReplicas(s.down, e.d, e.name);
    InvDownOnly(s, Next(w, s, e).down);
  }

  lemma InvBrowser(w: World, s: Sys, e: Ev)
    requires Inv(s) && Enabled(w, s, e) && e.Browser?
    ensures Inv(Next(w, s, e))
  {
    hide Transcripts.FullInv, Downlink.SessionsInv, Downlink.Next, Downlink.Enabled, GreetingsOnce;
    Downlink.SessionsInvStep(s.down, e.bev);
    BrowserKeepsHub(s.down, e.bev);
    InvDownOnly(s, Next(w, s, e).down);
  }

  lemma InvStep(w: World, s: Sys, e: Ev)
    requires Inv(s) && Enabled(w, s, e)
    ensures Inv(Next(w, s, e))
  {
    hide Inv;
    match e {
      case Node(d, ev) => InvNode(w, s, d, ev);
      case Deliver(d, dbName) => InvDeliver(w, s, d, dbName);
      case Rename(_, _) => InvRename(w, s, e);
      case HubRestart => InvHubRestart(w, s);
      case Browser(_) => InvBrowser(w, s, e);
    }
  }

  // ----- questions, where daemons share no ids -----

  /** Which daemon issues a question id. */
  type Owner = string -> string

  /** A hook's request comes to the daemon that issues its id. */
  ghost predicate OwnId(o: Owner, e: Ev) {
    e.Node? && e.ev.Run? && e.ev.op.HookAsk? ==> o(e.ev.op.askId) == e.d
  }

  ghost predicate FrameOwned(o: Owner, d: string, f: DaemonFrame) {
    f.AskRequest? || f.AskResolved? ==> o(f.askId) == d
  }

  ghost predicate ItemOwned(o: Owner, d: string, i: Uplink.Item) {
    i.Frame? ==> FrameOwned(o, d, i.frame)
  }

  ghost predicate RelayOwns(o: Owner, d: string, s: AskRelay.State) {
    (forall a | a in s.asks :: o(a) == d) && (forall t | t in s.timers :: o(s.timers[t].askId) == d)
  }

  ghost predicate NodeOwns(o: Owner, d: string, n: Uplink.Node) {
    && RelayOwns(o, d, n.relay)
    && (forall f | f in n.client.pending :: FrameOwned(o, d, f))
  }

  ghost predicate HubOwns(o: Owner, hub: Hub) {
    forall d, a | d in hub && a in hub[d].replica.asks :: o(a) == d
  }

  ghost predicate Owned(o: Owner, s: Sys) {
    && (forall d | d in s.nodes :: NodeOwns(o, d, s.nodes[d]))
    && (forall d, i | d in s.wires && i in s.wires[d] :: ItemOwned(o, d, i))
    && HubOwns(o, s.down.hub)
  }

  ghost predicate AskInv(o: Owner, s: Sys) {
    Owned(o, s) && Downlink.QuestionsInv(s.down)
  }

  lemma RelayStepOwned(o: Owner, d: string, s: AskRelay.State, ev: AskRelay.Ev)
    requires RelayOwns(o, d, s) && (ev.Request? ==> o(ev.askId) == d)
    ensures RelayOwns(o, d, AskRelay.Step(s, ev).0)
    ensures forall f | f in AskRelay.Step(s, ev).1 :: FrameOwned(o, d, f)
  {
  }

  lemma HandledOwned(o: Owner, d: string, n: Uplink.Node, op: Uplink.Op)
    requires NodeOwns(o, d, n) && Uplink.OpOk(n, op) && OwnId(o, Node(d, Uplink.Run(op)))
    ensures var m := Uplink.Handle(n, op).0; m.client == n.client && NodeOwns(o, d, m)
    ensures forall f | f in Uplink.Handle(n, op).1 :: FrameOwned(o, d, f)
  {
    hide AskRelay.Step, RelayOwns, Registry.FindByClaude, Find;
    if op.HookAsk? {
      RelayStepOwned(o, d, n.relay, Uplink.HookEvent(n, op));
    } else if op.Settle? {
      RelayStepOwned(o, d, n.relay, op.ev);
    }
  }

  lemma RunOwned(w: World, o: Owner, d: string, u: Uplink.Up, op: Uplink.Op)
    requires NodeOwns(o, d, u.node) && Uplink.OpOk(u.node, op) && OwnId(o, Node(d, Uplink.Run(op)))
    requires forall i | i in u.wire :: ItemOwned(o, d, i)
    ensures var v := Uplink.Next(u, Uplink.Run(op), w.startMs, w.capMs);
            && NodeOwns(o, d, v.node) && forall i | i in v.wire :: ItemOwned(o, d, i)
  {
    hide Uplink.Handle;
    HandledOwned(o, d, u.node, op);
    HubClient.SentAllIs(u.node.client, Uplink.Handle(u.node, op).1);
  }

  lemma NodeStepOwned(w: World, o: Owner, d: string, u: Uplink.Up, ev: Uplink.Ev)
    requires Uplink.Enabled(u, ev) && OwnId(o, Node(d, ev)) && !ev.Deliver? && !ev.HubRestart?
    requires NodeOwns(o, d, u.node) && forall i | i in u.wire :: ItemOwned(o, d, i)
    ensures var v := Uplink.Next(u, ev, w.startMs, w.capMs);
            && NodeOwns(o, d, v.node) && forall i | i in v.wire :: ItemOwned(o, d, i)
  {
    match ev {
      case Run(op) => RunOwned(w, o, d, u, op);
      case Opened(h, ep, now, replays) =>
        var fs := replays + u.node.client.pending;
        forall f | f in fs ensures FrameOwned(o, d, f) {
          assert f in replays ==> Uplink.Replayable(u.node, now, f);
        }
      case _ =>
    }
  }

  lemma DeliveredOwns(o: Owner, hub: Hub, d: string, dbName: Option<string>, i: Uplink.Item)
    requires HubOwns(o, hub) && ItemOwned(o, d, i)
    ensures Downlink.InputOk(hub, InputOf(d, dbName, i))
    ensures HubOwns(o, Downlink.HubStep(hub, InputOf(d, dbName, i)).0)
  {
    if i.Frame? && d in hub && !i.frame.Hello? {
      forall a | a in OnReplica(hub[d].replica, i.frame).asks ensures o(a) == d {
        Uplink.StepAsk(hub[d].replica, i.frame, a);
      }
    }
  }

  lemma AskInvNode(w: World, o: Owner, s: Sys, d: string, ev: Uplink.Ev)
    requires AskInv(o, s) && Enabled(w, s, Node(d, ev)) && OwnId(o, Node(d, ev))
    ensures AskInv(o, Next(w, s, Node(d, ev)))
  {
    hide Downlink.QuestionsInv, Uplink.Next, Uplink.Enabled, NodeOwns, ItemOwned;
    NodeStepOwned(w, o, d, UpOf(s, d), ev);
  }

  lemma AskInvDeliver(w: World, o: Owner, s: Sys, d: string, dbName: Option<string>)
    requires AskInv(o, s) && Enabled(w, s, Deliver(d, dbName))
    ensures AskInv(o, Next(w, s, Deliver(d, dbName)))
  {
    hide Downlink.QuestionsInv, Downlink.HubStep, Downlink.InputOk, NodeOwns, ItemOwned, HubOwns;
    var i := s.wires[d][0];
    assert i in s.wires[d] && ItemOwned(o, d, i);
    DeliveredOwns(o, s.down.hub, d, dbName, i);
    Downlink.QuestionsInvStep(s.down, Downlink.HubIn(InputOf(d, dbName, i)));
  }

  lemma AskInvHubRestart(w: World, o: Owner, s: Sys)
    requires AskInv(o, s)
    ensures AskInv(o, Next(w, s, HubRestart))
  {
    var t := Next(w, s, HubRestart);
    forall d | d in t.nodes ensures NodeOwns(o, d, t.nodes[d]) {
      assert NodeOwns(o, d, s.nodes[d]);
    }
    hide NodeOwns, Downlink.QuestionsInv;
    ClosedInv(t.down);
  }

  lemma AskInvRename(w: World, o: Owner, s: Sys, e: Ev)
    requires AskInv(o, s) && e.Rename?
    ensures AskInv(o, Next(w, s, e))
  {
    hide Downlink.QuestionsInv, Downlink.Next, NodeOwns, ItemOwned;
    Downlink.QuestionsInvStep(s.down, Downlink.HubIn(Downlink.Renamed(e.d, e.name)));
    RenameKeepsReplicas(s.down, e.d, e.name);
  }

  lemma AskInvBrowser(w: World, o: Owner, s: Sys, e: Ev)
    requires AskInv(o, s) && Enabled(w, s, e) && e.Browser?
    ensures AskInv(o, Next(w, s, e))
  {
    hide Downlink.QuestionsInv, Downlink.Next, Downlink.Enabled, NodeOwns, ItemOwned;
    Downlink.QuestionsInvStep(s.down, e.bev);
    BrowserKeepsHub(s.down, e.bev);
  }

  lemma AskInvStep(w: World, o: Owner, s: Sys, e: Ev)
    requires AskInv(o, s) && Enabled(w, s, e) && OwnId(o, e)
    ensures AskInv(o, Next(w, s, e))
  {
    hide AskInv;
    match e {
      case Node(d, ev) => AskInvNode(w, o, s, d, ev);
      case Deliver(d, dbName) => AskInvDeliver(w, o, s, d, dbName);
      case HubRestart => AskInvHubRestart(w, o, s);
      case Rename(_, _) => AskInvRename(w, o, s, e);
      case Browser(_) => AskInvBrowser(w, o, s, e);
    }
  }

  // ----- runs -----

  ghost predicate RunOk(w: World, s: Sys, es: seq<Ev>)
    decreases |es|
  {
    es != [] ==> Enabled(w, s, es[0]) && RunOk(w, Next(w, s, es[0]), es[1..])
  }

  ghost function RunEnd(w: World, s: Sys, es: seq<Ev>): Sys
    requires RunOk(w, s, es)
    decreases |es|
  {
    if es == [] then s else RunEnd(w, Next(w, s, es[0]), es[1..])
  }

  /** Booted daemons, an empty hub, a browser that may remember anything. */
  ghost predicate Start(s: Sys) {
    && s.wires.Keys == s.nodes.Keys
    && (forall d | d in s.nodes :: s.nodes[d] == Uplink.BOOTED && s.wires[d] == [])
    && Downlink.Fresh(s.down)
  }

  lemma {:induction false} InvRun(w: World, s: Sys, es: seq<Ev>)
    requires Inv(s) && RunOk(w, s, es)
    ensures Inv(RunEnd(w, s, es))
    decreases |es|
  {
    hide Inv, Next, Enabled;
    if es != [] {
      InvStep(w, s, es[0]);
      InvRun(w, Next(w, s, es[0]), es[1..]);
    }
  }

  lemma {:induction false} AskInvRun(w: World, o: Owner, s: Sys, es: seq<Ev>)
    requires AskInv(o, s) && RunOk(w, s, es) && forall e | e in es :: OwnId(o, e)
    ensures AskInv(o, RunEnd(w, s, es))
    decreases |es|
  {
    hide AskInv, Next, Enabled, OwnId;
    if es != [] {
      AskInvStep(w, o, s, es[0]);
      AskInvRun(w, o, Next(w, s, es[0]), es[1..]);
    }
  }

  lemma InvStart(s: Sys)
    requires Start(s)
    ensures Inv(s) && forall o :: AskInv(o, s)
  {
    Uplink.InvStart();
    Transcripts.TInvStart();
  }

  /** The browser has read its snapshot and everything behind it. */
  ghost predicate BrowserCurrent(s: Sys) {
    s.down.subscribed && s.down.lead == 0 && s.down.fifo == []
  }

  ghost predicate DaemonCurrent(s: Sys, d: string) {
    d in s.nodes && d in s.wires && s.nodes[d].client.link.Open? && s.wires[d] == []
  }

  /** End to end, for every run: once a daemon's link is open and both queues are empty, the browser
      shows that daemon online with exactly its live sessions in their present states, each once,
      with the transcript ids last told. */
  lemma BrowserShowsDaemon(w: World, s: Sys, es: seq<Ev>, d: string)
    requires Start(s) && RunOk(w, s, es)
    ensures var t := RunEnd(w, s, es);
            DaemonCurrent(t, d) && BrowserCurrent(t) ==>
              && DistinctDaemons(t.down.pwa.daemons) && EachOnce(t.down.pwa.daemons)
              && d in OnlineView(t.down.pwa.daemons)
              && (forall id :: Lookup(OnlineView(t.down.pwa.daemons)[d].sessions, id)
                            == Transcripts.ToldSession(t.nodes[d], id))
  {
    hide Transcripts.FullInv, Downlink.SessionsInv, AskInv, Next, Enabled;
    InvStart(s);
    InvRun(w, s, es);
    var t := RunEnd(w, s, es);
    if DaemonCurrent(t, d) && BrowserCurrent(t) {
      ShownAt(t, d);
    }
  }

  lemma ShownAt(t: Sys, d: string)
    requires Inv(t) && DaemonCurrent(t, d) && BrowserCurrent(t)
    ensures DistinctDaemons(t.down.pwa.daemons) && EachOnce(t.down.pwa.daemons)
    ensures OnlineView(t.down.pwa.daemons) == HubView(t.down.hub) && d in OnlineView(t.down.pwa.daemons)
    ensures forall id :: Lookup(OnlineView(t.down.pwa.daemons)[d].sessions, id) == Transcripts.ToldSession(t.nodes[d], id)
  {
    hide Uplink.Inv, Transcripts.TInv, Downlink.SessionsInv, Uplink.After;
    var u := UpOf(t, d);
    Downlink.Current(t.down);
    Transcripts.ExactWhenDrained(u);
  }

  /** If each hook's request comes to the daemon that issues its id, and no two daemons issue the same,
      the browser then also holds every question of the daemon that had not expired when the link opened. */
  lemma BrowserHoldsQuestions(w: World, o: Owner, s: Sys, es: seq<Ev>, d: string, a: string)
    requires Start(s) && RunOk(w, s, es) && forall e | e in es :: OwnId(o, e)
    ensures var t := RunEnd(w, s, es);
            && DaemonCurrent(t, d) && BrowserCurrent(t)
            && a in t.nodes[d].relay.asks && t.nodes[d].relay.asks[a].question.expiresAt > t.nodes[d].openedAt ==>
              Lookup(t.down.pwa.questions, a) == Some(Asked(d, t.nodes[d].relay.asks[a].question))
  {
    hide Transcripts.FullInv, Downlink.SessionsInv, Downlink.QuestionsInv, Next, Enabled, OwnId, Owned, Transcripts.TInv, Uplink.Inv;
    InvStart(s);
    InvRun(w, s, es);
    AskInvRun(w, o, s, es);
    var t := RunEnd(w, s, es);
    if DaemonCurrent(t, d) && BrowserCurrent(t) && a in t.nodes[d].relay.asks
       && t.nodes[d].relay.asks[a].question.expiresAt > t.nodes[d].openedAt {
      Downlink.Current(t.down);
      UpInv(t, d);
      Uplink.DrainedAsks(UpOf(t, d), a);
    }
  }

  lemma UpInv(t: Sys, d: string)
    requires Inv(t) && d in t.nodes
    ensures Uplink.Inv(UpOf(t, d))
  {
  }

  ghost predicate Settled(t: Sys) {
    && BrowserCurrent(t)
    && forall d | d in t.nodes :: d in t.wires && t.wires[d] == [] && !t.nodes[d].client.link.Closing?
  }

  lemma HubHasOpen(t: Sys, d: string)
    requires Inv(t) && Settled(t)
    ensures d in t.down.hub <==> d in t.nodes && t.nodes[d].client.link.Open?
  {
    hide Uplink.Inv, Transcripts.TInv, Downlink.SessionsInv;
    if d in t.nodes {
      UpInv(t, d);
      Uplink.Drained(UpOf(t, d));
    }
  }

  /** With every queue empty and no socket half closed, the browser shows as online exactly the
      daemons whose link is open. */
  lemma BrowserShowsOnlyConnected(w: World, s: Sys, es: seq<Ev>)
    requires Start(s) && RunOk(w, s, es)
    ensures var t := RunEnd(w, s, es);
            Settled(t) ==>
              && DistinctDaemons(t.down.pwa.daemons)
              && forall d :: d in OnlineView(t.down.pwa.daemons) <==> d in t.nodes && t.nodes[d].client.link.Open?
  {
    hide Transcripts.FullInv, Downlink.SessionsInv, AskInv, Next, Enabled;
    InvStart(s);
    InvRun(w, s, es);
    var t := RunEnd(w, s, es);
    if Settled(t) {
      Downlink.Current(t.down);
      forall d ensures d in HubView(t.down.hub) <==> d in t.nodes && t.nodes[d].client.link.Open? {
        HubHasOpen(t, d);
      }
    }
  }
}
