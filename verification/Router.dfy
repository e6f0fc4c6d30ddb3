/** The hub's authoritative replica of every connected daemon (packages/hub/src/router.ts). */
module Router {
  import opened Frames
  import opened Sequences

  const RING_BUFFER_SIZE: nat := 200

  /** The part of a daemon's state that its frames keep up to date. */
  datatype Replica = Replica(
    sessions: map<string, Snapshot>, asks: map<string, Question>,
    slash: map<string, string>, handshake: map<string, string>)

  datatype DaemonState = DaemonState(
    hostname: string, displayName: Option<string>, epoch: int, replica: Replica, events: seq<DaemonFrame>)

  type Hub = map<string, DaemonState>

  /** `new Map(list.map(s => [s.session_id, s]))`: a later entry replaces an earlier one. */
  function FromList(list: seq<Snapshot>): map<string, Snapshot> {
    if list == [] then map[]
    else
      var last := list[|list| - 1];
      FromList(list[..|list| - 1])[last.sessionId := last]
  }

  /** The last entry of `list` with the id. */
  ghost predicate LastOf(list: seq<Snapshot>, id: string, s: Snapshot) {
    exists i :: 0 <= i < |list| && list[i] == s && s.sessionId == id
                && forall j | i < j < |list| :: list[j].sessionId != id
  }

  /** The map holds exactly the last entry of every id in the list. */
  lemma {:induction false} FromListHolds(list: seq<Snapshot>)
    ensures forall k | k in FromList(list) :: LastOf(list, k, FromList(list)[k])
    ensures forall k | k in FromList(list) :: FromList(list)[k] in list && FromList(list)[k].sessionId == k
    ensures forall s | s in list :: s.sessionId in FromList(list)
  {
    if list != [] {
      var init, last := list[..|list| - 1], list[|list| - 1];
      FromListHolds(init);
      assert list == init + [last];
      forall k | k in FromList(list) ensures LastOf(list, k, FromList(list)[k]) {
        if k == last.sessionId {
          assert list[|list| - 1] == last;
        } else {
          var i :| 0 <= i < |init| && init[i] == FromList(init)[k] && FromList(init)[k].sessionId == k
                   && forall j | i < j < |init| :: init[j].sessionId != k;
          assert list[i] == FromList(list)[k];
        }
      }
    }
  }

  function FreshReplica(sessions: seq<Snapshot>): Replica {
    Replica(FromList(sessions), map[], map[], map[])
  }

  /** What a frame other than `hello` does to the replica of its daemon. */
  function OnReplica(r: Replica, f: DaemonFrame): Replica {
    match f
    case SessionOpen(s, _) => r.(sessions := r.sessions[s.sessionId := s])
    case SessionClose(id) =>
      r.(sessions := r.sessions - {id}, slash := r.slash - {id}, handshake := r.handshake - {id})
    case StateChanged(id, x, _) =>
      if id in r.sessions then r.(sessions := r.sessions[id := r.sessions[id].(state := x)]) else r
    case AskRequest(a, q) => r.(asks := r.asks[a := q])
    case AskResolved(_, a, _) => r.(asks := r.asks - {a})
    case SlashInventory(id, e) => r.(slash := r.slash[id := e])
    case AgentHandshake(id, p) => r.(handshake := r.handshake[id := p])
    case Hello(_, _, _) => r
    case SessionRebound(_, _) => r
    case Event(_, _, _) => r
    case Notice(_, _) => r
  }

  predicate EventOf(e: DaemonFrame, id: string) {
    e.Event? && e.sessionId == id
  }

  /** `events.filter((e) => e.session_id !== id)`. */
  function NotOf(events: seq<DaemonFrame>, id: string): (r: seq<DaemonFrame>)
    ensures |r| <= |events|
  {
    if events == [] then [] else (if EventOf(events[0], id) then [] else [events[0]]) + NotOf(events[1..], id)
  }

  lemma {:induction false} NotOfConcat(a: seq<DaemonFrame>, b: seq<DaemonFrame>, id: string)
    ensures NotOf(a + b, id) == NotOf(a, id) + NotOf(b, id)
  {
    if a == [] {
      assert a + b == b;
    } else {
      var kept := if EventOf(a[0], id) then [] else [a[0]];
      assert (a + b)[1..] == a[1..] + b && (a + b)[0] == a[0];
      NotOfConcat(a[1..], b, id);
      Assoc(kept, NotOf(a[1..], id), NotOf(b, id));
    }
  }

  /** Wherever a frame stands, the filter keeps or drops it in its place. */
  lemma NotOfKeepsOrder(before: seq<DaemonFrame>, e: DaemonFrame, after: seq<DaemonFrame>, id: string)
    ensures NotOf(before + [e] + after, id)
         == NotOf(before, id) + (if EventOf(e, id) then [] else [e]) + NotOf(after, id)
  {
    NotOfConcat(before + [e], after, id);
    NotOfConcat(before, [e], id);
    assert [e][1..] == [];
  }

  /** The ring of recent events: a rebound session loses its own, and at most 200 are kept. */
  function OnRing(events: seq<DaemonFrame>, f: DaemonFrame): (r: seq<DaemonFrame>)
    ensures |events| <= RING_BUFFER_SIZE ==> |r| <= RING_BUFFER_SIZE
  {
    match f
    case Event(_, _, _) =>
      if |events| < RING_BUFFER_SIZE then events + [f] else (events + [f])[1..]
    case SessionRebound(id, _) => NotOf(events, id)
    case Hello(_, _, _) => events
    case SessionOpen(_, _) => events
    case SessionClose(_) => events
    case StateChanged(_, _, _) => events
    case AskRequest(_, _) => events
    case AskResolved(_, _, _) => events
    case SlashInventory(_, _) => events
    case AgentHandshake(_, _) => events
    case Notice(_, _) => events
  }

  // ----- what the ring holds -----

  function Ring(events: seq<DaemonFrame>, fs: seq<DaemonFrame>): (r: seq<DaemonFrame>)
    ensures |events| <= RING_BUFFER_SIZE ==> |r| <= RING_BUFFER_SIZE
  {
    if fs == [] then events else OnRing(Ring(events, fs[..|fs| - 1]), fs[|fs| - 1])
  }

  /** The events of some frames that no rebind of their session follows. */
  function Current(fs: seq<DaemonFrame>): seq<DaemonFrame> {
    if fs == [] then []
    else
      var before, f := Current(fs[..|fs| - 1]), fs[|fs| - 1];
      if f.Event? then before + [f]
      else if f.SessionRebound? then NotOf(before, f.sessionId)
      else before
  }

  function CountEvents(fs: seq<DaemonFrame>): nat {
    if fs == [] then 0 else CountEvents(fs[..|fs| - 1]) + if fs[|fs| - 1].Event? then 1 else 0
  }

  lemma {:induction false} CurrentAtMost(fs: seq<DaemonFrame>)
    ensures |Current(fs)| <= CountEvents(fs)
  {
    if fs != [] { CurrentAtMost(fs[..|fs| - 1]); }
  }

  /** Two hundred events do not push out each other: what they leave stands at the end of the ring. */
  lemma {:induction false} RingEndsWith(events: seq<DaemonFrame>, fs: seq<DaemonFrame>) returns (older: seq<DaemonFrame>)
    requires |events| <= RING_BUFFER_SIZE && CountEvents(fs) <= RING_BUFFER_SIZE
    ensures Ring(events, fs) == older + Current(fs)
  {
    if fs == [] {
      older := events;
    } else {
      var init, f := fs[..|fs| - 1], fs[|fs| - 1];
      var before := RingEndsWith(events, init);
      CurrentAtMost(init);
      match f {
        case Event(_, _, _) =>
          Assoc(before, Current(init), [f]);
          older := if |Ring(events, init)| < RING_BUFFER_SIZE then before else before[1..];
        case SessionRebound(id, _) =>
          NotOfConcat(before, Current(init), id);
          older := NotOf(before, id);
        case _ => older := before;
      }
    }
  }

  /** Nothing else is in the ring, and in order: it is the end of all that was not rebound since. */
  lemma {:induction false} RingIsEnd(fs: seq<DaemonFrame>) returns (dropped: seq<DaemonFrame>)
    ensures Current(fs) == dropped + Ring([], fs)
  {
    if fs == [] {
      dropped := [];
    } else {
      var init, f := fs[..|fs| - 1], fs[|fs| - 1];
      var before := RingIsEnd(init);
      var ring := Ring([], init);
      match f {
        case Event(_, _, _) =>
          Assoc(before, ring, [f]);
          dropped := if |ring| < RING_BUFFER_SIZE then before else before + [(ring + [f])[0]];
        case SessionRebound(id, _) =>
          NotOfConcat(before, ring, id);
          dropped := NotOf(before, id);
        case _ => dropped := before;
      }
    }
  }

  lemma {:induction false} RingConcat(events: seq<DaemonFrame>, a: seq<DaemonFrame>, b: seq<DaemonFrame>)
    ensures Ring(events, a + b) == Ring(Ring(events, a), b)
    decreases |b|
  {
    if b == [] {
      assert a + b == a;
    } else {
      var k := |b| - 1;
      assert (a + b)[..|a + b| - 1] == a + b[..k];
      RingConcat(events, a, b[..k]);
    }
  }

  /** After any frames the ring is, in order, the newest of the events that no rebind of their session
      followed: it ends with all of them that are among the last 200 events, and has no others but
      those just before. */
  lemma RingIsNewest(earlier: seq<DaemonFrame>, latest: seq<DaemonFrame>)
    requires CountEvents(latest) <= RING_BUFFER_SIZE
    ensures exists older :: Ring([], earlier + latest) == older + Current(latest)
    ensures exists dropped :: Current(earlier + latest) == dropped + Ring([], earlier + latest)
  {
    RingConcat([], earlier, latest);
    var older := RingEndsWith(Ring([], earlier), latest);
    var dropped := RingIsEnd(earlier + latest);
  }

  /** `onDaemonFrame`: the new hub and the frames broadcast.  `dbName` is the display name found in
      the database. */
  function OnFrame(hub: Hub, d: string, dbName: Option<string>, f: DaemonFrame): (Hub, seq<PwaFrame>) {
    if f.Hello? then
      (hub[d := DaemonState(f.hostname, dbName, f.epoch, FreshReplica(f.sessions), [])],
       [DaemonOnline(d, f.hostname, dbName, f.sessions)])
    else if d !in hub then (hub, [])
    else
      (hub[d := hub[d].(replica := OnReplica(hub[d].replica, f), events := OnRing(hub[d].events, f))],
       [Forward(d, f)])
  }

  /** A run of frames from one daemon. */
  function OnFrames(hub: Hub, d: string, dbName: Option<string>, fs: seq<DaemonFrame>): (Hub, seq<PwaFrame>) {
    if fs == [] then (hub, [])
    else
      var (h, out) := OnFrames(hub, d, dbName, fs[..|fs| - 1]);
      var (k, more) := OnFrame(h, d, dbName, fs[|fs| - 1]);
      (k, out + more)
  }

  function Forwarded(d: string, fs: seq<DaemonFrame>): (r: seq<PwaFrame>)
    ensures |r| == |fs| && forall i | 0 <= i < |fs| :: r[i] == Forward(d, fs[i])
  {
    if fs == [] then [] else Forwarded(d, fs[..|fs| - 1]) + [Forward(d, fs[|fs| - 1])]
  }

  /** A daemon's connection as the hub keeps and passes it on: the greeting starts it afresh and is
      announced, every frame after it is broadcast once and in order, and the ring is that of these
      frames alone. */
  lemma {:induction false} ConnectionForwarded(hub: Hub, d: string, dbName: Option<string>, hello: DaemonFrame, fs: seq<DaemonFrame>)
    requires hello.Hello? && forall f | f in fs :: !f.Hello?
    ensures var (h, out) := OnFrames(OnFrame(hub, d, dbName, hello).0, d, dbName, fs);
            && h.Keys == hub.Keys + {d} && (forall x | x in hub && x != d :: h[x] == hub[x])
            && h[d].hostname == hello.hostname && h[d].displayName == dbName && h[d].epoch == hello.epoch
            && h[d].events == Ring([], fs)
            && out == Forwarded(d, fs)
            && OnFrame(hub, d, dbName, hello).1 == [DaemonOnline(d, hello.hostname, dbName, hello.sessions)]
  {
    hide OnRing, OnReplica, FreshReplica;
    if fs != [] {
      assert fs[|fs| - 1] in fs;
      ConnectionForwarded(hub, d, dbName, hello, fs[..|fs| - 1]);
    }
  }

  /** Before a greeting nothing is kept or passed on. */
  lemma {:induction false} UnknownIgnored(hub: Hub, d: string, dbName: Option<string>, fs: seq<DaemonFrame>)
    requires d !in hub && forall f | f in fs :: !f.Hello?
    ensures OnFrames(hub, d, dbName, fs) == (hub, [])
  {
    if fs != [] {
      assert fs[|fs| - 1] in fs;
      UnknownIgnored(hub, d, dbName, fs[..|fs| - 1]);
      var nothing: seq<PwaFrame> := [];
      assert nothing + nothing == nothing;
    }
  }

  function OnDisconnect(hub: Hub, d: string): (Hub, seq<PwaFrame>) {
    if d in hub then (hub - {d}, [DaemonOffline(d)]) else (hub, [])
  }

  function OnRenamed(hub: Hub, d: string, name: Option<string>): (Hub, seq<PwaFrame>) {
    (if d in hub then hub[d := hub[d].(displayName := name)] else hub, [DaemonRenamed(d, name)])
  }

  // ----- what a subscriber is sent -----

  /** `v` describes daemon `d` of the hub, its sessions listed once each in some order. */
  ghost predicate Describes(v: DaemonView, d: string, st: DaemonState) {
    && v.daemonId == d && v.hostname == st.hostname && v.displayName == st.displayName && v.online
    && DistinctIds(v.sessions) && FromList(v.sessions) == st.replica.sessions
  }

  lemma DescribesId(v: DaemonView, d: string, st: DaemonState)
    requires Describes(v, d, st)
    ensures v.daemonId == d
  {
  }

  ghost predicate IsSnapshot(hub: Hub, list: seq<DaemonView>) {
    && (forall i, j | 0 <= i < j < |list| :: list[i].daemonId != list[j].daemonId)
    && (forall v | v in list :: v.daemonId in hub && Describes(v, v.daemonId, hub[v.daemonId]))
    && (set v | v in list :: v.daemonId) == hub.Keys
  }

  /** The cached frames of one daemon. */
  ghost predicate Cached(r: Replica, f: DaemonFrame) {
    || (f.AskRequest? && Lookup(r.asks, f.askId) == Some(f.question))
    || (f.SlashInventory? && Lookup(r.slash, f.sessionId) == Some(f.entries))
    || (f.AgentHandshake? && Lookup(r.handshake, f.sessionId) == Some(f.payload))
  }

  /** `frames` are exactly the cached frames of the hub, in some order. */
  ghost predicate IsReplay(hub: Hub, frames: seq<PwaFrame>) {
    && (forall f | f in frames :: f.Forward? && f.daemonId in hub && Cached(hub[f.daemonId].replica, f.frame))
    && (forall d, f | d in hub && Cached(hub[d].replica, f) :: Forward(d, f) in frames)
  }

  ghost predicate WellKeyed(hub: Hub) {
    forall d | d in hub :: forall k | k in hub[d].replica.sessions :: hub[d].replica.sessions[k].sessionId == k
  }

  lemma WellKeyedOnFrame(hub: Hub, d: string, dbName: Option<string>, f: DaemonFrame)
    requires WellKeyed(hub)
    ensures WellKeyed(OnFrame(hub, d, dbName, f).0)
  {
    if f.Hello? { FromListHolds(f.sessions); }
  }

  /** Distinct snapshots are what their map holds, whatever their order. */
  lemma FromListAt(list: seq<Snapshot>, id: string)
    requires DistinctIds(list)
    ensures Lookup(FromList(list), id) == Find(list, id)
  {
    FromListHolds(list);
    if id in FromList(list) {
      FindUnique(list, FromList(list)[id]);
    }
  }

  class Hubs {
    var daemons: Hub
    var broadcast: seq<PwaFrame>

    ghost predicate Valid()
      reads this
    {
      WellKeyed(daemons)
    }

    constructor ()
      ensures Valid() && daemons == map[] && broadcast == []
    {
      daemons, broadcast := map[], [];
    }

    method OnDaemonFrame(d: string, dbName: Option<string>, f: DaemonFrame)
      requires Valid()
      modifies this
      ensures Valid()
      ensures daemons == old(OnFrame(daemons, d, dbName, f).0)
      ensures broadcast == old(broadcast + OnFrame(daemons, d, dbName, f).1)
      ensures f.Hello? ==> broadcast == old(broadcast) + [DaemonOnline(d, f.hostname, dbName, f.sessions)]
      ensures !f.Hello? && d in old(daemons) ==> broadcast == old(broadcast) + [Forward(d, f)]
      ensures !f.Hello? && d !in old(daemons) ==> unchanged(this)
    {
      WellKeyedOnFrame(daemons, d, dbName, f);
      if f.Hello? {
        var sessions := MapOf(f.sessions);
        var state := DaemonState(f.hostname, dbName, f.epoch, Replica(sessions, map[], map[], map[]), []);
        daemons := daemons[d := state];
        broadcast := broadcast + [DaemonOnline(d, f.hostname, dbName, f.sessions)];
        return;
      }
      if d !in daemons { return; }
      var state := daemons[d];
      var r, events := state.replica, state.events;
      match f {
        case SessionOpen(s, _) =>
          r := r.(sessions := r.sessions[s.sessionId := s]);
        case SessionClose(id) =>
          r := r.(sessions := r.sessions - {id});
          r := r.(slash := r.slash - {id});
          r := r.(handshake := r.handshake - {id});
        case StateChanged(id, x, _) =>
          if id in r.sessions {
            r := r.(sessions := r.sessions[id := r.sessions[id].(state := x)]);
          }
        case AskRequest(a, q) =>
          r := r.(asks := r.asks[a := q]);
        case AskResolved(_, a, _) =>
          r := r.(asks := r.asks - {a});
        case SlashInventory(id, e) =>
          r := r.(slash := r.slash[id := e]);
        case AgentHandshake(id, p) =>
          r := r.(handshake := r.handshake[id := p]);
        case Event(_, _, _) =>
          events := events + [f];
          if |events| > RING_BUFFER_SIZE { events := events[1..]; }
        case SessionRebound(id, _) =>
          events := NotOf(events, id);
        case Notice(_, _) =>
      }
      daemons := daemons[d := state.(replica := r, events := events)];
      broadcast := broadcast + [Forward(d, f)];
    }

    method MapOf(list: seq<Snapshot>) returns (m: map<string, Snapshot>)
      ensures m == FromList(list)
      ensures forall k | k in m :: LastOf(list, k, m[k])
    {
      FromListHolds(list);
      m := map[];
      for i := 0 to |list|
        invariant m == FromList(list[..i])
      {
        assert list[..i + 1][..i] == list[..i];
        m := m[list[i].sessionId := list[i]];
      }
      assert list[..|list|] == list;
    }

    method OnDaemonDisconnect(d: string)
      requires Valid()
      modifies this
      ensures Valid()
      ensures daemons == old(OnDisconnect(daemons, d).0)
      ensures broadcast == old(broadcast + OnDisconnect(daemons, d).1)
      ensures d in old(daemons) ==> daemons == old(daemons) - {d} && broadcast == old(broadcast) + [DaemonOffline(d)]
      ensures d !in old(daemons) ==> unchanged(this)
    {
      if d !in daemons { return; }
      daemons := daemons - {d};
      broadcast := broadcast + [DaemonOffline(d)];
    }

    method OnDaemonRenamed(d: string, name: Option<string>)
      requires Valid()
      modifies this
      ensures Valid()
      ensures daemons == old(OnRenamed(daemons, d, name).0)
      ensures broadcast == old(broadcast + OnRenamed(daemons, d, name).1)
      ensures broadcast == old(broadcast) + [DaemonRenamed(d, name)]
      ensures daemons.Keys == old(daemons).Keys
      ensures forall x | x in daemons ::
                daemons[x] == if x == d then old(daemons)[x].(displayName := name) else old(daemons)[x]
    {
      if d in daemons {
        daemons := daemons[d := daemons[d].(displayName := name)];
      }
      broadcast := broadcast + [DaemonRenamed(d, name)];
    }

    /** `[...sessions.values()]`. */
    method SessionList(m: map<string, Snapshot>) returns (list: seq<Snapshot>)
      requires forall k | k in m :: m[k].sessionId == k
      ensures DistinctIds(list) && FromList(list) == m
    {
      list := [];
      var todo := m.Keys;
      while todo != {}
        invariant todo <= m.Keys
        invariant forall s | s in list :: s.sessionId in m.Keys - todo && s == m[s.sessionId]
        invariant forall k | k in m.Keys - todo :: m[k] in list
        invariant DistinctIds(list)
        decreases todo
      {
        var k :| k in todo;
        todo := todo - {k};
        list := list + [m[k]];
      }
      FromListHolds(list);
      assert FromList(list).Keys == m.Keys;
    }

    method ViewOf(d: string) returns (v: DaemonView)
      requires Valid() && d in daemons
      ensures Describes(v, d, daemons[d])
    {
      var st := daemons[d];
      var sessions := SessionList(st.replica.sessions);
      v := DaemonView(d, st.hostname, st.displayName, true, sessions);
    }

    method Snapshot() returns (list: seq<DaemonView>)
      requires Valid()
      ensures IsSnapshot(daemons, list)
    {
      hide Describes, WellKeyed;
      list := [];
      var todo := daemons.Keys;
      while todo != {}
        invariant todo <= daemons.Keys
        invariant forall v | v in list :: v.daemonId in daemons.Keys - todo && Describes(v, v.daemonId, daemons[v.daemonId])
        invariant forall i, j | 0 <= i < j < |list| :: list[i].daemonId != list[j].daemonId
        invariant (set v | v in list :: v.daemonId) == daemons.Keys - todo
        decreases todo
      {
        var d :| d in todo;
        todo := todo - {d};
        var v := ViewOf(d);
        assert v.daemonId == d by { DescribesId(v, d, daemons[d]); }
        ghost var before := list;
        list := list + [v];
        assert (set w | w in list :: w.daemonId) == (set w | w in before :: w.daemonId) + {d};
      }
    }

    /** The cached frames of one daemon, questions first. */
    method CachedFrames(d: string, r: Replica) returns (out: seq<PwaFrame>)
      ensures forall f | f in out :: f.Forward? && f.daemonId == d && Cached(r, f.frame)
      ensures forall f | Cached(r, f) :: Forward(d, f) in out
    {
      out := [];
      var asks := r.asks.Keys;
      while asks != {}
        invariant asks <= r.asks.Keys
        invariant forall f | f in out :: f.Forward? && f.daemonId == d && Cached(r, f.frame)
        invariant forall a | a in r.asks.Keys - asks :: Forward(d, AskRequest(a, r.asks[a])) in out
        decreases asks
      {
        var a :| a in asks;
        asks := asks - {a};
        out := out + [Forward(d, AskRequest(a, r.asks[a]))];
      }
      var slash := r.slash.Keys;
      while slash != {}
        invariant slash <= r.slash.Keys
        invariant forall f | f in out :: f.Forward? && f.daemonId == d && Cached(r, f.frame)
        invariant forall a | a in r.asks.Keys :: Forward(d, AskRequest(a, r.asks[a])) in out
        invariant forall k | k in r.slash.Keys - slash :: Forward(d, SlashInventory(k, r.slash[k])) in out
        decreases slash
      {
        var k :| k in slash;
        slash := slash - {k};
        out := out + [Forward(d, SlashInventory(k, r.slash[k]))];
      }
      var hands := r.handshake.Keys;
      while hands != {}
        invariant hands <= r.handshake.Keys
        invariant forall f | f in out :: f.Forward? && f.daemonId == d && Cached(r, f.frame)
        invariant forall a | a in r.asks.Keys :: Forward(d, AskRequest(a, r.asks[a])) in out
        invariant forall k | k in r.slash.Keys :: Forward(d, SlashInventory(k, r.slash[k])) in out
        invariant forall k | k in r.handshake.Keys - hands :: Forward(d, AgentHandshake(k, r.handshake[k])) in out
        decreases hands
      {
        var k :| k in hands;
        hands := hands - {k};
        out := out + [Forward(d, AgentHandshake(k, r.handshake[k]))];
      }
    }

    /** `onPwaSubscribe`: the snapshot, then every cached frame. */
    method OnPwaSubscribe() returns (list: seq<DaemonView>, replays: seq<PwaFrame>)
      requires Valid()
      ensures IsSnapshot(daemons, list) && IsReplay(daemons, replays)
    {
      list := Snapshot();
      replays := [];
      var todo := daemons.Keys;
      while todo != {}
        invariant todo <= daemons.Keys
        invariant forall f | f in replays ::
            f.Forward? && f.daemonId in daemons && Cached(daemons[f.daemonId].replica, f.frame)
        invariant forall d, f | d in daemons.Keys - todo && Cached(daemons[d].replica, f) :: Forward(d, f) in replays
        decreases todo
      {
        var d :| d in todo;
        todo := todo - {d};
        var frames := CachedFrames(d, daemons[d].replica);
        replays := replays + frames;
      }
    }
  }
}
