/** The one session field that no frame refreshes: the transcript id.  What the hub holds of it is
    what it was told by the session's registration or by a greeting
    (packages/daemon/src/index.ts, packages/daemon/src/hub-client.ts). */
module Transcripts {
  import opened Frames
  import opened Sequences
  import opened Router
  import opened Uplink
  import Registry
  import HubClient
  import AskRelay

  /** The transcript id a replica has for a session, if it has the session. */
  function IdAt(r: Replica, id: string): Option<Option<string>> {
    if id in r.sessions then Some(r.sessions[id].claudeSessionId) else None
  }

  function Hear(v: Option<Option<string>>, w: Word): Option<Option<string>> {
    match w
    case Silent => v
    case Gone => None
    case Says(c) => Some(c)
  }

  lemma StepId(r: Replica, f: DaemonFrame, id: string)
    ensures IdAt(OnReplica(r, f), id) == Hear(IdAt(r, id), WordOf(f, id))
  {
    match f { case _ => }
  }

  lemma {:induction false} FoldId(r: Replica, fs: seq<DaemonFrame>, id: string)
    ensures IdAt(Fold(r, fs), id) == Hear(IdAt(r, id), LastWord(fs, id))
  {
    if fs != [] {
      FoldId(r, fs[..|fs| - 1], id);
      StepId(Fold(r, fs[..|fs| - 1]), fs[|fs| - 1], id);
    }
  }

  lemma {:induction false} LastWordConcat(a: seq<DaemonFrame>, b: seq<DaemonFrame>, id: string)
    ensures LastWord(a + b, id) == if LastWord(b, id).Silent? then LastWord(a, id) else LastWord(b, id)
    decreases |b|
  {
    if b == [] {
      assert a + b == a;
    } else {
      var n := |b| - 1;
      assert (a + b)[..|a + b| - 1] == a + b[..n];
      LastWordConcat(a, b[..n], id);
    }
  }

  lemma {:induction false} SilentFrames(fs: seq<DaemonFrame>, id: string)
    requires forall f | f in fs :: !f.SessionOpen? && !f.SessionClose?
    ensures LastWord(fs, id) == Silent
  {
    if fs != [] {
      var n := |fs| - 1;
      assert fs[n] in fs && forall f | f in fs[..n] :: f in fs;
      SilentFrames(fs[..n], id);
    }
  }

  /** What a handler tells is what it sends. */
  lemma OneWord(fs: seq<DaemonFrame>, id: string)
    requires |fs| <= 1
    ensures LastWord(fs, id) == if fs == [] then Silent else WordOf(fs[0], id)
  {
    if fs != [] { assert fs[..0] == []; }
  }

  lemma AskWords(s: AskRelay.State, ev: AskRelay.Ev, id: string)
    ensures forall f | f in AskRelay.Step(s, ev).1 :: WordOf(f, id).Silent?
  {
  }

  lemma ToldStep(n: Node, op: Op, id: string)
    requires DistinctIds(n.live) && OpOk(n, op) && n.told.Keys == Registry.Ids(n.live)
    ensures Lookup(ToldAfter(n, op), id) == Hear(Lookup(n.told, id), LastWord(Handle(n, op).1, id))
  {
    hide AskRelay.Step, Fold, FromList;
    var out := Handle(n, op).1;
    SingleFold(Mirror(n), n, op);
    OneWord(out, id);
    if op.HookAsk? {
      AskWords(n.relay, HookEvent(n, op), id);
    } else if op.Settle? {
      AskWords(n.relay, op.ev, id);
    }
    if op.Unregister? && out == [] {
      assert op.id !in Registry.Ids(n.live);
    }
  }

  lemma ToldKeys(n: Node, op: Op)
    requires n.told.Keys == Registry.Ids(n.live)
    ensures ToldAfter(n, op).Keys == Registry.Ids(Handle(n, op).0.live)
  {
    match op {
      case Register(s, _) =>
        if Find(n.live, s.sessionId).Some? {
          assert Handle(n, op).0.live == n.live;
        } else {
          var live := n.live + [s];
          assert Handle(n, op).0.live == live && s in live;
          assert forall x | x in n.live :: x in live;
        }
      case Unregister(id) =>
        if Find(n.live, id).None? { assert id !in Registry.Ids(n.live); } else { Registry.IdsWithout(n.live, id); }
      case Transition(id, x, _) => Registry.IdsUpdated(n.live, id, Registry.SetState(x));
      case Bind(id, c) => Registry.IdsUpdated(n.live, id, Registry.SetClaude(c));
      case Rebind(id, c) => Registry.IdsUpdated(n.live, id, Registry.SetClaude(c));
      case _ =>
    }
  }

  // ----- the invariant -----

  /** The queue's last word on a session, if it has one, is what the daemon means to have told. */
  ghost predicate WordOk(n: Node, id: string) {
    var w := LastWord(n.client.pending, id);
    if id in n.told then w == Silent || w == Says(n.told[id]) else !w.Says?
  }

  ghost predicate ToldInv(n: Node) {
    n.told.Keys == Registry.Ids(n.live) && forall id :: WordOk(n, id)
  }

  /** The replica has exactly the transcript ids it was told. */
  ghost predicate Knows(r: Replica, n: Node) {
    forall id :: IdAt(r, id) == Lookup(n.told, id)
  }

  ghost predicate TInv(u: Up) {
    && ToldInv(u.node)
    && (u.node.client.link.Open? ==>
          var r := After(u.entry, u.wire);
          r.Some? && Knows(r.value, u.node))
  }

  lemma WordStep(n: Node, op: Op, id: string)
    requires NodeInv(n) && OpOk(n, op) && ToldInv(n)
    ensures var m := Do(n, op).0; WordOk(m, id)
  {
    var out := Handle(n, op).1;
    HubClient.SentAllIs(n.client, out);
    HandleKeepsNode(n, op);
    ToldStep(n, op, id);
    LastWordConcat(n.client.pending, out, id);
    assert WordOk(n, id);
    assert n.client.link.Open? ==> n.client.pending == [];
  }

  lemma DoTold(n: Node, op: Op)
    requires NodeInv(n) && OpOk(n, op) && ToldInv(n)
    ensures ToldInv(Do(n, op).0)
  {
    ToldKeys(n, op);
    forall id ensures WordOk(Do(n, op).0, id) {
      WordStep(n, op, id);
    }
  }

  lemma DoKnows(r: Replica, n: Node, op: Op)
    requires NodeInv(n) && OpOk(n, op) && ToldInv(n) && Knows(r, n)
    ensures Knows(Fold(r, Handle(n, op).1), Do(n, op).0)
  {
    forall id ensures IdAt(Fold(r, Handle(n, op).1), id) == Lookup(ToldAfter(n, op), id) {
      FoldId(r, Handle(n, op).1, id);
      ToldStep(n, op, id);
    }
  }

  lemma ReplaysSilent(n: Node, now: int, fs: seq<DaemonFrame>, id: string)
    requires IsOnOpen(n, now, fs)
    ensures LastWord(fs, id) == Silent
  {
    forall f | f in fs ensures !f.SessionOpen? && !f.SessionClose? {
      assert Replayable(n, now, f);
    }
    SilentFrames(fs, id);
  }

  lemma GreetedAt(n: Node, id: string)
    requires DistinctIds(n.live) && WordOk(n, id) && n.told.Keys == Registry.Ids(n.live)
    ensures Lookup(ToldByGreeting(n), id) == Hear(IdAt(FreshReplica(n.live), id), LastWord(n.client.pending, id))
  {
    FromListAt(n.live, id);
    if Find(n.live, id).Some? {
      var s := Find(n.live, id).value;
      assert s in n.live && id in Registry.Ids(n.live);
      assert id in ToldByGreeting(n);
      assert forall x | x in n.live && x.sessionId == id && Find(n.live, id) == Some(x) :: x == s;
    }
  }

  lemma GreetedKnows(n: Node, startMs: nat, now: int, fs: seq<DaemonFrame>)
    requires NodeInv(n) && ToldInv(n) && IsOnOpen(n, now, fs)
    ensures var m := Greeted(n, startMs, now, fs);
            ToldInv(m) && Knows(Fold(FreshReplica(n.live), fs + n.client.pending), m)
  {
    var m := Greeted(n, startMs, now, fs);
    var p := n.client.pending;
    forall id ensures IdAt(Fold(FreshReplica(n.live), fs + p), id) == Lookup(m.told, id) {
      FoldId(FreshReplica(n.live), fs + p, id);
      LastWordConcat(fs, p, id);
      ReplaysSilent(n, now, fs, id);
      assert WordOk(n, id);
      GreetedAt(n, id);
    }
    GreetedKeys(n);
  }

  lemma GreetedKeys(n: Node)
    ensures ToldByGreeting(n).Keys == Registry.Ids(n.live)
  {
    forall id | id in Registry.Ids(n.live) ensures id in ToldByGreeting(n) {
      var s :| s in n.live && s.sessionId == id;
      var t := Find(n.live, id).value;
      assert t in n.live && Find(n.live, t.sessionId) == Some(t);
    }
  }

  lemma TInvRun(u: Up, op: Op, startMs: nat, capMs: nat)
    requires Uplink.Inv(u) && TInv(u) && Uplink.Enabled(u, Run(op))
    ensures TInv(Uplink.Next(u, Run(op), startMs, capMs))
  {
    var (m, written) := Do(u.node, op);
    var out := Handle(u.node, op).1;
    HubClient.SentAllIs(u.node.client, out);
    HandleKeepsNode(u.node, op);
    DoTold(u.node, op);
    if u.node.client.link.Open? {
      var r := After(u.entry, u.wire).value;
      DoKnows(r, u.node, op);
      SingleFold(r, u.node, op);
      AfterConcat(u.entry, u.wire, Framed(written));
      AfterFramed(r, written);
    }
  }

  lemma TInvOpened(u: Up, e: Uplink.Ev, startMs: nat, capMs: nat)
    requires Uplink.Inv(u) && TInv(u) && Uplink.Enabled(u, e) && e.Opened?
    ensures TInv(Uplink.Next(u, e, startMs, capMs))
  {
    var n := u.node;
    var fs := e.replays + n.client.pending;
    GreetedKnows(n, startMs, e.now, e.replays);
    var hello := Frame(Hello(e.hostname, e.epoch, n.live));
    AfterConcat(u.entry, u.wire, [hello]);
    AfterOne(After(u.entry, u.wire), hello);
    AfterConcat(u.entry, u.wire + [hello], Framed(fs));
    forall f | f in fs ensures !f.Hello? {
      assert f in e.replays ==> Replayable(n, e.now, f);
    }
    AfterFramed(FreshReplica(n.live), fs);
  }

  lemma LinkKeepsTold(n: Node, c: HubClient.State)
    requires ToldInv(n) && c.pending == n.client.pending
    ensures ToldInv(n.(client := c))
  {
    forall id ensures WordOk(n.(client := c), id) {
      assert WordOk(n, id);
    }
  }

  lemma TInvStep(u: Up, e: Uplink.Ev, startMs: nat, capMs: nat)
    requires Uplink.Inv(u) && TInv(u) && Uplink.Enabled(u, e)
    ensures TInv(Uplink.Next(u, e, startMs, capMs))
  {
    hide ToldInv, Knows, Uplink.Inv, After;
    match e {
      case Run(op) => TInvRun(u, op, startMs, capMs);
      case Opened(_, _, _, _) => TInvOpened(u, e, startMs, capMs);
      case Client(ev) => LinkKeepsTold(u.node, HubClient.Step(u.node.client, ev, startMs, capMs).0);
      case Drop(_) => LinkKeepsTold(u.node, HubClient.Lost(u.node.client, capMs).0);
      case Deliver =>
        AfterConcat(u.entry, [u.wire[0]], u.wire[1..]);
        AfterOne(u.entry, u.wire[0]);
        HeadTail(u.wire);
      case HubRestart => LinkKeepsTold(u.node, HubClient.Lost(u.node.client, capMs).0);
      case DaemonRestart(_) => NothingTold();
    }
  }

  ghost predicate FullInv(u: Up) {
    Uplink.Inv(u) && TInv(u)
  }

  lemma FullInvStep(u: Up, e: Uplink.Ev, startMs: nat, capMs: nat)
    requires FullInv(u) && Uplink.Enabled(u, e)
    ensures FullInv(Uplink.Next(u, e, startMs, capMs))
  {
    hide Uplink.Inv, TInv, Uplink.Next, Uplink.Enabled;
    Uplink.InvStep(u, e, startMs, capMs);
    TInvStep(u, e, startMs, capMs);
  }

  lemma NothingTold()
    ensures ToldInv(BOOTED)
  {
    assert BOOTED.told.Keys == Registry.Ids(BOOTED.live);
  }

  lemma {:induction false} TInvOfRun(u: Up, es: seq<Uplink.Ev>, startMs: nat, capMs: nat)
    requires Uplink.Inv(u) && TInv(u) && RunOk(u, es, startMs, capMs)
    ensures TInv(RunEnd(u, es, startMs, capMs))
    decreases |es|
  {
    hide TInv, Uplink.Inv, Uplink.Enabled, Uplink.Next;
    if es != [] {
      Uplink.InvStep(u, es[0], startMs, capMs);
      TInvStep(u, es[0], startMs, capMs);
      TInvOfRun(Uplink.Next(u, es[0], startMs, capMs), es[1..], startMs, capMs);
    }
  }

  // ----- the hub's sessions, transcript ids included -----

  /** A live session as the hub was told of it. */
  function ToldSession(n: Node, id: string): Option<Snapshot> {
    var s := Find(n.live, id);
    if s.Some? && id in n.told then Some(s.value.(claudeSessionId := n.told[id])) else None
  }

  lemma ExactAt(r: Replica, n: Node, id: string)
    requires SessionAt(r, id) == EraseOption(Find(n.live, id)) && IdAt(r, id) == Lookup(n.told, id)
    ensures Lookup(r.sessions, id) == ToldSession(n, id)
  {
    if id in r.sessions {
      var a, b := r.sessions[id], Find(n.live, id).value;
      assert Erase(a) == Erase(b);
      assert a == Erase(a).(claudeSessionId := a.claudeSessionId);
      assert b.(claudeSessionId := a.claudeSessionId) == Erase(b).(claudeSessionId := a.claudeSessionId);
    }
  }

  lemma ExactWhenDrained(u: Up)
    requires Uplink.Inv(u) && TInv(u) && u.wire == [] && u.node.client.link.Open?
    ensures u.entry.Some? && forall id :: Lookup(u.entry.value.sessions, id) == ToldSession(u.node, id)
    ensures forall id :: Lookup(u.entry.value.sessions, id) == Find(u.node.live, id)
              <==> (Find(u.node.live, id).Some? ==> Lookup(u.node.told, id) == Some(Find(u.node.live, id).value.claudeSessionId))
  {
    hide Uplink.Inv;
    Drained(u);
    assert After(u.entry, u.wire) == u.entry;
    forall id ensures Lookup(u.entry.value.sessions, id) == ToldSession(u.node, id) {
      ExactAt(u.entry.value, u.node, id);
    }
    hide Target, TInv;
    forall id ensures Lookup(u.entry.value.sessions, id) == Find(u.node.live, id)
        <==> (Find(u.node.live, id).Some? ==> Lookup(u.node.told, id) == Some(Find(u.node.live, id).value.claudeSessionId))
    {
      assert Lookup(u.entry.value.sessions, id) == ToldSession(u.node, id);
    }
  }

  /** For every run: with the link open and everything read, the hub's sessions are the daemon's in
      every field, the transcript id as last told; and a session is the daemon's own exactly when the
      id it was told, at its registration or by a greeting, is the one it still has. */
  lemma HubHoldsWhatItWasTold(es: seq<Uplink.Ev>, startMs: nat, capMs: nat)
    requires RunOk(START, es, startMs, capMs)
    ensures var u := RunEnd(START, es, startMs, capMs);
            u.node.client.link.Open? && u.wire == [] ==>
              && u.entry.Some?
              && (forall id :: Lookup(u.entry.value.sessions, id) == ToldSession(u.node, id))
              && (forall id :: Lookup(u.entry.value.sessions, id) == Find(u.node.live, id)
                    <==> (Find(u.node.live, id).Some? ==>
                            Lookup(u.node.told, id) == Some(Find(u.node.live, id).value.claudeSessionId)))
  {
    hide Uplink.Inv, TInv;
    InvStart();
    TInvStart();
    InvOfRun(START, es, startMs, capMs);
    TInvOfRun(START, es, startMs, capMs);
    var u := RunEnd(START, es, startMs, capMs);
    if u.node.client.link.Open? && u.wire == [] {
      ExactWhenDrained(u);
    }
  }

  lemma TInvStart()
    ensures TInv(START)
  {
    NothingTold();
  }

  // ----- one step, and two ways to fall behind -----

  ghost predicate Renames(n: Node, op: Op, id: string) {
    && (op.Bind? || op.Rebind?) && op.id == id
    && Find(n.live, id).Some? && Find(n.live, id).value.claudeSessionId != Some(op.claude)
  }

  /** A hub that has a session right keeps it right over a handler and its frames exactly when the
      handler does not give the session another transcript id. */
  lemma TranscriptStepIff(r: Replica, n: Node, op: Op, id: string)
    requires DistinctIds(n.live) && OpOk(n, op) && Lookup(r.sessions, id) == Find(n.live, id)
    ensures Lookup(Fold(r, Handle(n, op).1).sessions, id) == Find(Handle(n, op).0.live, id) <==> !Renames(n, op, id)
  {
    LiveAfter(n, op, id);
    SessionStep(r, n, op, id);
    FoldId(r, Handle(n, op).1, id);
    SingleFold(r, n, op);
    SilentUnless(n, op, id);
    hide Fold, Find;
  }

  lemma SilentUnless(n: Node, op: Op, id: string)
    requires OpOk(n, op)
    ensures LastWord(Handle(n, op).1, id) ==
      if op.Register? && op.session.sessionId == id && Find(n.live, id).None? then Says(op.session.claudeSessionId)
      else if op.Unregister? && op.id == id && Find(n.live, id).Some? then Gone
      else Silent
  {
    var out := Handle(n, op).1;
    SingleFold(Mirror(n), n, op);
    if out != [] {
      assert out[..0] == [] && LastWord(out, id) == WordOf(out[0], id);
    }
  }

  lemma BindDoes(n: Node, id: string, claude: string)
    ensures Do(n, Bind(id, claude)) == (n.(live := Registry.Updated(n.live, id, Registry.SetClaude(claude))), [])
  {
    assert HubClient.SentAll(n.client, []) == (n.client, []);
    assert n.announced + Requests([]) == n.announced;
  }

  /** On a drained open link, finding a session's transcript leaves the hub behind: nothing is sent. */
  lemma BindLeavesHubBehind(u: Up, id: string, claude: string, startMs: nat, capMs: nat)
    requires u.node.client.link.Open? && u.wire == [] && u.entry.Some?
    requires Lookup(u.entry.value.sessions, id) == Find(u.node.live, id) && Renames(u.node, Bind(id, claude), id)
    ensures var v := Uplink.Next(u, Run(Bind(id, claude)), startMs, capMs);
            && Uplink.Enabled(u, Run(Bind(id, claude)))
            && v.node.client.link.Open? && v.wire == [] && v.entry == u.entry
            && Lookup(v.entry.value.sessions, id) != Find(v.node.live, id)
  {
    hide Do, Handle, Find, Registry.Updated, ToldAfter;
    BindDoes(u.node, id, claude);
    Registry.FindUpdated(u.node.live, id, Registry.SetClaude(claude), id);
    assert u.wire + Framed([]) == u.wire;
  }

  /** A registration still queued when the link opens undoes what the greeting tells: the hub ends
      with the transcript id of the registration, whatever the greeting carried. */
  lemma QueuedRegistrationWins(n: Node, now: int, fs: seq<DaemonFrame>, id: string)
    requires NodeInv(n) && IsOnOpen(n, now, fs) && LastWord(n.client.pending, id).Says?
    ensures IdAt(FreshReplica(n.live), id) == (if Find(n.live, id).Some? then Some(Find(n.live, id).value.claudeSessionId) else None)
    ensures IdAt(Fold(FreshReplica(n.live), fs + n.client.pending), id) == Some(LastWord(n.client.pending, id).claude)
  {
    FromListAt(n.live, id);
    FoldId(FreshReplica(n.live), fs + n.client.pending, id);
    LastWordConcat(fs, n.client.pending, id);
    ReplaysSilent(n, now, fs, id);
  }

  /** A daemon with one session registered before the link opened. */
  function Early(live: seq<Snapshot>, link: HubClient.Link): Node {
    BOOTED.(live := live, told := map["s" := None],
            client := BOOTED.client.(link := link, pending := [SessionOpen(BARE, None)]))
  }

  const BARE := Snapshot("s", None, "/", "", Idle)
  const BOUND := Snapshot("s", Some("c"), "/", "", Idle)

  lemma EarlyRegister()
    ensures Uplink.Next(START, Run(Register(BARE, None)), 1, 1) == Up(Early([BARE], HubClient.NoSocket), [], None)
  {
    var first := SessionOpen(BARE, None);
    HubClient.SentAllIs(BOOTED.client, [first]);
    assert [] + [BARE] == [BARE] && [] + [first] == [first];
    assert {} + Requests([]) == {};
  }

  lemma EarlyBind()
    ensures Uplink.Next(Up(Early([BARE], HubClient.NoSocket), [], None), Run(Bind("s", "c")), 1, 1)
         == Up(Early([BOUND], HubClient.NoSocket), [], None)
  {
    BindDoes(Early([BARE], HubClient.NoSocket), "s", "c");
    assert Registry.Updated([BARE], "s", Registry.SetClaude("c")) == [BOUND];
    hide Do;
  }

  lemma EarlyConnect()
    ensures var u := Up(Early([BOUND], HubClient.NoSocket), [], None);
            && Uplink.Enabled(START, Run(Register(BARE, None)))
            && Uplink.Enabled(Up(Early([BARE], HubClient.NoSocket), [], None), Run(Bind("s", "c")))
            && Uplink.Enabled(u, Client(HubClient.Connect))
            && Uplink.Next(u, Client(HubClient.Connect), 1, 1) == Up(Early([BOUND], HubClient.Connecting), [], None)
  {
  }

  lemma EarlyOpen()
    ensures var u := Up(Early([BOUND], HubClient.Connecting), [], None);
            var v := Uplink.Next(u, Uplink.Opened("h", 0, 0, []), 1, 1);
            && Uplink.Enabled(u, Uplink.Opened("h", 0, 0, []))
            && v.node.live == [BOUND] && v.node.client.link == HubClient.Open && v.entry == None
            && v.wire == [Frame(Hello("h", 0, [BOUND])), Frame(SessionOpen(BARE, None))]
  {
    var n := Early([BOUND], HubClient.Connecting);
    assert IsOnOpen(n, 0, []);
    assert [] + n.client.pending == n.client.pending;
    hide IsOnOpen, ToldByGreeting;
  }

  lemma EarlyRead()
    ensures OnItem(None, Frame(Hello("h", 0, [BOUND]))) == Some(FreshReplica([BOUND]))
    ensures var e := OnItem(Some(FreshReplica([BOUND])), Frame(SessionOpen(BARE, None)));
            e.Some? && e.value.sessions == map["s" := BARE]
  {
    assert [BOUND][..0] == [] && FromList([BOUND]) == map["s" := BOUND];
  }

  lemma TwoReads(u: Up, a: Item, b: Item)
    requires u.wire == [a, b]
    ensures Uplink.Enabled(u, Deliver) && Uplink.Enabled(Uplink.Next(u, Deliver, 1, 1), Deliver)
    ensures Uplink.Next(u, Deliver, 1, 1) == u.(entry := OnItem(u.entry, a), wire := [b])
    ensures Uplink.Next(Uplink.Next(u, Deliver, 1, 1), Deliver, 1, 1) == u.(entry := OnItem(OnItem(u.entry, a), b), wire := [])
  {
    assert u.wire[1..] == [b] && [b][1..] == [];
  }

  /** Such a run: a session registers and its transcript is found before the link opens; with
      everything read the hub has no transcript id for it, although the greeting had one. */
  lemma HubFallsBehind()
    ensures var es := [Run(Register(BARE, None)), Run(Bind("s", "c")), Client(HubClient.Connect),
                       Uplink.Opened("h", 0, 0, []), Deliver, Deliver];
            var u := RunEnd(START, es, 1, 1);
            && RunOk(START, es, 1, 1)
            && u.node.client.link.Open? && u.wire == [] && u.node.live == [BOUND]
            && u.entry.Some? && u.entry.value.sessions == map["s" := BARE]
  {
    hide RunOk, RunEnd, Uplink.Next, Uplink.Enabled, OnItem, FreshReplica, Early;
    var e1, e2, e3, e4 := Run(Register(BARE, None)), Run(Bind("s", "c")), Client(HubClient.Connect), Uplink.Opened("h", 0, 0, []);
    var u1 := Up(Early([BARE], HubClient.NoSocket), [], None);
    var u2 := Up(Early([BOUND], HubClient.NoSocket), [], None);
    var u3 := Up(Early([BOUND], HubClient.Connecting), [], None);
    var u4 := Uplink.Next(u3, e4, 1, 1);
    var u5 := Uplink.Next(u4, Deliver, 1, 1);
    EarlyRegister();
    EarlyBind();
    EarlyConnect();
    EarlyOpen();
    TwoReads(u4, Frame(Hello("h", 0, [BOUND])), Frame(SessionOpen(BARE, None)));
    EarlyRead();
    Unroll(START, e1, [e2, e3, e4, Deliver, Deliver]);
    Unroll(u1, e2, [e3, e4, Deliver, Deliver]);
    Unroll(u2, e3, [e4, Deliver, Deliver]);
    Unroll(u3, e4, [Deliver, Deliver]);
    Unroll(u4, Deliver, [Deliver]);
    Unroll(u5, Deliver, []);
    RunNothing(Uplink.Next(u5, Deliver, 1, 1), []);
    assert [e1] + [e2, e3, e4, Deliver, Deliver] == [e1, e2, e3, e4, Deliver, Deliver];
    assert [e2] + [e3, e4, Deliver, Deliver] == [e2, e3, e4, Deliver, Deliver];
    assert [e3] + [e4, Deliver, Deliver] == [e3, e4, Deliver, Deliver];
    assert [e4] + [Deliver, Deliver] == [e4, Deliver, Deliver];
    assert [Deliver] + [Deliver] == [Deliver, Deliver] && [Deliver] + [] == [Deliver];
  }

  lemma RunNothing(u: Up, es: seq<Uplink.Ev>)
    requires es == []
    ensures RunOk(u, es, 1, 1) && RunEnd(u, es, 1, 1) == u
  {
  }

  lemma Unroll(u: Up, e: Uplink.Ev, es: seq<Uplink.Ev>)
    ensures RunOk(u, [e] + es, 1, 1) <==> Uplink.Enabled(u, e) && RunOk(Uplink.Next(u, e, 1, 1), es, 1, 1)
    ensures RunEnd(u, [e] + es, 1, 1) == RunEnd(Uplink.Next(u, e, 1, 1), es, 1, 1)
  {
    assert ([e] + es)[1..] == es;
  }
}
