/** The browser client's copy of the sessions: the frame cases of the reducer that touch daemons,
    sessions and pending questions (packages/pwa/src/hooks/useHub.ts). */
module PwaReducer {
  import opened Frames
  import opened Router
  import Registry

  datatype Asked = Asked(daemonId: string, question: Question)

  datatype PwaState = PwaState(daemons: seq<DaemonView>, questions: map<string, Asked>)

  function OnSessions(list: seq<Snapshot>, f: DaemonFrame): seq<Snapshot> {
    match f
    case SessionOpen(s, _) => Without(list, s.sessionId) + [s]
    case SessionClose(id) => Without(list, id)
    case StateChanged(id, x, _) => Registry.Updated(list, id, Registry.SetState(x))
    case Hello(_, _, _) => list
    case SessionRebound(_, _) => list
    case AskRequest(_, _) => list
    case AskResolved(_, _, _) => list
    case SlashInventory(_, _) => list
    case AgentHandshake(_, _) => list
    case Event(_, _, _) => list
    case Notice(_, _) => list
  }

  /** What a frame about daemon `d` does to one entry of the daemon list. */
  function OnView(v: DaemonView, f: PwaFrame): DaemonView {
    match f
    case DaemonOffline(d) => if v.daemonId == d then v.(online := false) else v
    case DaemonRenamed(d, n) => if v.daemonId == d then v.(displayName := n) else v
    case Forward(d, df) => if v.daemonId == d then v.(sessions := OnSessions(v.sessions, df)) else v
    case SnapshotFrame(_) => v
    case DaemonOnline(_, _, _, _) => v
  }

  function OnViews(list: seq<DaemonView>, f: PwaFrame): (r: seq<DaemonView>)
    ensures |r| == |list| && forall i | 0 <= i < |list| :: r[i] == OnView(list[i], f)
  {
    if list == [] then [] else [OnView(list[0], f)] + OnViews(list[1..], f)
  }

  function WithoutDaemon(list: seq<DaemonView>, d: string): (r: seq<DaemonView>)
    ensures forall v :: v in r <==> v in list && v.daemonId != d
  {
    if list == [] then []
    else (if list[0].daemonId == d then [] else [list[0]]) + WithoutDaemon(list[1..], d)
  }

  function OnQuestions(qs: map<string, Asked>, d: string, f: DaemonFrame): map<string, Asked> {
    if f.AskRequest? then qs[f.askId := Asked(d, f.question)]
    else if f.AskResolved? then qs - {f.askId}
    else qs
  }

  function Reduce(p: PwaState, f: PwaFrame): PwaState {
    match f
    case SnapshotFrame(list) => p.(daemons := list)
    case DaemonOnline(d, h, n, ss) =>
      p.(daemons := WithoutDaemon(p.daemons, d) + [DaemonView(d, h, n, true, ss)])
    case DaemonOffline(_) => p.(daemons := OnViews(p.daemons, f))
    case DaemonRenamed(_, _) => p.(daemons := OnViews(p.daemons, f))
    case Forward(d, df) =>
      p.(daemons := OnViews(p.daemons, f), questions := OnQuestions(p.questions, d, df))
  }

  // ----- the common abstraction of the hub and of the client -----

  datatype Online = Online(hostname: string, displayName: Option<string>, sessions: map<string, Snapshot>)

  /** The online daemons by id, with their sessions by id. */
  type View = map<string, Online>

  function OnlineOf(v: DaemonView): Online {
    Online(v.hostname, v.displayName, FromList(v.sessions))
  }

  ghost predicate DistinctDaemons(list: seq<DaemonView>) {
    forall i, j | 0 <= i < j < |list| :: list[i].daemonId != list[j].daemonId
  }

  ghost function OnlineView(list: seq<DaemonView>): View
    requires DistinctDaemons(list)
  {
    map v | v in list && v.online :: v.daemonId := OnlineOf(v)
  }

  ghost function HubView(hub: Hub): View {
    map d | d in hub :: Online(hub[d].hostname, hub[d].displayName, hub[d].replica.sessions)
  }

  function SessionsStep(m: map<string, Snapshot>, f: DaemonFrame): map<string, Snapshot> {
    OnReplica(Replica(m, map[], map[], map[]), f).sessions
  }

  /** How a frame moves the abstract view. */
  ghost function ViewStep(view: View, f: PwaFrame): View {
    match f
    case SnapshotFrame(list) => if DistinctDaemons(list) then OnlineView(list) else view
    case DaemonOnline(d, h, n, ss) => view[d := Online(h, n, FromList(ss))]
    case DaemonOffline(d) => view - {d}
    case DaemonRenamed(d, n) => if d in view then view[d := view[d].(displayName := n)] else view
    case Forward(d, df) =>
      if d in view then view[d := view[d].(sessions := SessionsStep(view[d].sessions, df))] else view
  }

  /** A snapshot that lists each daemon once, as the hub's do. */
  ghost predicate Tidy(f: PwaFrame) {
    f.SnapshotFrame? ==> DistinctDaemons(f.daemons)
  }

  // ----- list surgery against map surgery -----

  lemma FromListPush(list: seq<Snapshot>, s: Snapshot)
    ensures FromList(list + [s]) == FromList(list)[s.sessionId := s]
  {
    assert (list + [s])[..|list|] == list;
  }

  lemma PutDrop<K, V>(m: map<K, V>, k: K, v: V, id: K)
    ensures m[k := v] - {id} == if k == id then m - {id} else (m - {id})[k := v]
  {
  }

  lemma NoSessions(list: seq<Snapshot>, id: string, p: Registry.Patch)
    requires list == []
    ensures Without(list, id) == [] && Registry.Updated(list, id, p) == [] && FromList(list) == map[]
  {
  }

  /** Filtering a list, repeated ids or not, deletes from its map. */
  lemma {:induction false} FromListWithout(list: seq<Snapshot>, id: string)
    ensures FromList(Without(list, id)) == FromList(list) - {id}
  {
    hide Without, FromList;
    if list == [] {
      NoSessions(list, id, Registry.SetState(Idle));
      NoSessions([], id, Registry.SetState(Idle));
    } else {
      var init, last := list[..|list| - 1], list[|list| - 1];
      FromListWithout(init, id);
      assert list == init + [last];
      var m := FromList(init);
      FromListPush(init, last);
      WithoutPush(init, last, id);
      FromListPush(Without(init, id), last);
      PutDrop(m, last.sessionId, last, id);
    }
  }

  lemma {:induction false} WithoutPush(list: seq<Snapshot>, s: Snapshot, id: string)
    ensures Without(list + [s], id) == if s.sessionId == id then Without(list, id) else Without(list, id) + [s]
  {
    if list == [] {
      assert [] + [s] == [s] && [s][1..] == [];
    } else {
      assert (list + [s])[1..] == list[1..] + [s];
      WithoutPush(list[1..], s, id);
    }
  }

  lemma UpdatedPush(list: seq<Snapshot>, s: Snapshot, id: string, p: Registry.Patch)
    ensures Registry.Updated(list + [s], id, p) ==
      Registry.Updated(list, id, p) + [if s.sessionId == id then Registry.Apply(s, p) else s]
  {
    hide Registry.Apply;
  }

  /** Setting the state of every session of an id sets it in the map. */
  lemma {:induction false} FromListUpdated(list: seq<Snapshot>, id: string, x: SessionState)
    ensures FromList(Registry.Updated(list, id, Registry.SetState(x))) ==
      var m := FromList(list);
      if id in m then m[id := m[id].(state := x)] else m
  {
    hide FromList, Registry.Updated;
    var p := Registry.SetState(x);
    if list == [] {
      NoSessions(list, id, p);
      NoSessions([], id, p);
    } else {
      var init, last := list[..|list| - 1], list[|list| - 1];
      FromListUpdated(init, id, x);
      assert list == init + [last];
      FromListPush(init, last);
      UpdatedPush(init, last, id, p);
      FromListPush(Registry.Updated(init, id, p), if last.sessionId == id then Registry.Apply(last, p) else last);
    }
  }

  /** The client's list surgery and the hub's map surgery agree on every list. */
  lemma OnSessionsIsStep(list: seq<Snapshot>, f: DaemonFrame)
    ensures FromList(OnSessions(list, f)) == SessionsStep(FromList(list), f)
  {
    hide FromList;
    match f {
      case SessionOpen(s, _) =>
        FromListPush(Without(list, s.sessionId), s);
        FromListWithout(list, s.sessionId);
      case SessionClose(id) => FromListWithout(list, id);
      case StateChanged(id, x, _) => FromListUpdated(list, id, x);
      case _ =>
    }
  }

  lemma OnViewsDistinct(list: seq<DaemonView>, f: PwaFrame)
    requires DistinctDaemons(list)
    ensures DistinctDaemons(OnViews(list, f))
  {
    var r := OnViews(list, f);
    assert forall i | 0 <= i < |list| :: r[i].daemonId == list[i].daemonId;
  }

  lemma {:induction false} WithoutDaemonDistinct(list: seq<DaemonView>, d: string)
    requires DistinctDaemons(list)
    ensures DistinctDaemons(WithoutDaemon(list, d))
  {
    if list != [] {
      WithoutDaemonDistinct(list[1..], d);
      forall v | v in WithoutDaemon(list[1..], d) ensures v.daemonId != list[0].daemonId {
        assert v in list[1..];
      }
    }
  }

  lemma ReduceDistinct(p: PwaState, f: PwaFrame)
    requires DistinctDaemons(p.daemons) && Tidy(f)
    ensures DistinctDaemons(Reduce(p, f).daemons)
  {
    if f.DaemonOnline? {
      WithoutDaemonDistinct(p.daemons, f.daemonId);
      var w := WithoutDaemon(p.daemons, f.daemonId);
      forall i | 0 <= i < |w| ensures w[i].daemonId != f.daemonId { assert w[i] in w; }
    } else if !f.SnapshotFrame? {
      OnViewsDistinct(p.daemons, f);
    }
  }

  lemma OnlineViewAt(list: seq<DaemonView>, v: DaemonView)
    requires DistinctDaemons(list) && v in list
    ensures Lookup(OnlineView(list), v.daemonId) == if v.online then Some(OnlineOf(v)) else None
  {
  }

  lemma OnViewView(v: DaemonView, view: View, f: PwaFrame)
    requires !f.SnapshotFrame? && !f.DaemonOnline?
    requires Lookup(view, v.daemonId) == if v.online then Some(OnlineOf(v)) else None
    ensures Lookup(ViewStep(view, f), v.daemonId) ==
      if OnView(v, f).online then Some(OnlineOf(OnView(v, f))) else None
  {
    if f.Forward? { OnSessionsIsStep(v.sessions, f.frame); }
  }

  lemma NoDaemonNoView(list: seq<DaemonView>, k: string)
    requires DistinctDaemons(list) && forall v | v in list :: v.daemonId != k
    ensures k !in OnlineView(list)
  {
  }

  lemma OnViewKeepsId(v: DaemonView, f: PwaFrame)
    ensures OnView(v, f).daemonId == v.daemonId
  {
  }

  lemma OnViewsAt(list: seq<DaemonView>, f: PwaFrame, k: string)
    requires DistinctDaemons(list) && !f.SnapshotFrame? && !f.DaemonOnline? && DistinctDaemons(OnViews(list, f))
    ensures Lookup(OnlineView(OnViews(list, f)), k) == Lookup(ViewStep(OnlineView(list), f), k)
  {
    hide ViewStep, OnlineView, OnView, OnViews;
    var r := OnViews(list, f);
    forall i | 0 <= i < |r| ensures r[i] == OnView(list[i], f) && r[i].daemonId == list[i].daemonId {
      OnViewKeepsId(list[i], f);
    }
    if i :| 0 <= i < |list| && list[i].daemonId == k {
      assert list[i] in list && r[i] in r;
      OnlineViewAt(list, list[i]);
      OnlineViewAt(r, r[i]);
      OnViewView(list[i], OnlineView(list), f);
    } else {
      NoDaemonNoView(r, k);
      NoDaemonNoView(list, k);
      ViewStepElsewhere(OnlineView(list), f, k);
    }
  }

  lemma OnViewsView(list: seq<DaemonView>, f: PwaFrame)
    requires DistinctDaemons(list) && !f.SnapshotFrame? && !f.DaemonOnline?
    ensures DistinctDaemons(OnViews(list, f))
    ensures OnlineView(OnViews(list, f)) == ViewStep(OnlineView(list), f)
  {
    hide ViewStep, OnlineView, OnViews;
    OnViewsDistinct(list, f);
    forall k ensures Lookup(OnlineView(OnViews(list, f)), k) == Lookup(ViewStep(OnlineView(list), f), k) {
      OnViewsAt(list, f, k);
    }
    SameLookups(OnlineView(OnViews(list, f)), ViewStep(OnlineView(list), f));
  }

  lemma ViewStepElsewhere(view: View, f: PwaFrame, k: string)
    requires k !in view && !f.SnapshotFrame? && !f.DaemonOnline?
    ensures k !in ViewStep(view, f)
  {
  }

  /** The reducer moves the client's online daemons exactly as the abstract view moves. */
  lemma ReduceIsViewStep(p: PwaState, f: PwaFrame)
    requires DistinctDaemons(p.daemons) && Tidy(f)
    ensures DistinctDaemons(Reduce(p, f).daemons)
    ensures OnlineView(Reduce(p, f).daemons) == ViewStep(OnlineView(p.daemons), f)
  {
    ReduceDistinct(p, f);
    if f.DaemonOnline? {
      var w := WithoutDaemon(p.daemons, f.daemonId);
      var r := Reduce(p, f).daemons;
      var v := DaemonView(f.daemonId, f.hostname, f.displayName, true, f.sessions);
      assert r == w + [v];
      forall k ensures Lookup(OnlineView(r), k) == Lookup(ViewStep(OnlineView(p.daemons), f), k) {
        if k == f.daemonId {
          assert v in r;
          OnlineViewAt(r, v);
        } else {
          assert forall u: DaemonView | u.daemonId == k :: u in r <==> u in p.daemons;
        }
      }
      SameLookups(OnlineView(r), ViewStep(OnlineView(p.daemons), f));
    } else if !f.SnapshotFrame? {
      OnViewsView(p.daemons, f);
    }
  }

  // ----- the hub broadcasts its own moves -----

  lemma SessionsStepOf(r: Replica, f: DaemonFrame)
    ensures OnReplica(r, f).sessions == SessionsStep(r.sessions, f)
  {
  }

  lemma HubFrameView(hub: Hub, d: string, dbName: Option<string>, f: DaemonFrame)
    ensures var (next, out) := OnFrame(hub, d, dbName, f);
            if out == [] then next == hub else |out| == 1 && HubView(next) == ViewStep(HubView(hub), out[0])
  {
    if d in hub && !f.Hello? {
      SessionsStepOf(hub[d].replica, f);
    }
  }

  lemma HubDisconnectView(hub: Hub, d: string)
    ensures var (next, out) := OnDisconnect(hub, d);
            if out == [] then next == hub else |out| == 1 && HubView(next) == ViewStep(HubView(hub), out[0])
  {
  }

  lemma HubRenameView(hub: Hub, d: string, name: Option<string>)
    ensures var (next, out) := OnRenamed(hub, d, name);
            |out| == 1 && HubView(next) == ViewStep(HubView(hub), out[0])
  {
  }

  /** A snapshot shows a client exactly what the hub holds. */
  lemma SnapshotShowsHub(hub: Hub, list: seq<DaemonView>)
    requires IsSnapshot(hub, list)
    ensures DistinctDaemons(list) && OnlineView(list) == HubView(hub)
  {
    forall k ensures Lookup(OnlineView(list), k) == Lookup(HubView(hub), k) {
      if k in hub {
        assert k in set v | v in list :: v.daemonId;
        var v :| v in list && v.daemonId == k;
        OnlineViewAt(list, v);
      } else {
        assert forall v | v in list :: v.daemonId != k;
      }
    }
    SameLookups(OnlineView(list), HubView(hub));
  }

  // ----- one daemon, online or not -----

  /** The entry of a daemon in the browser's list. */
  function EntryOf(list: seq<DaemonView>, d: string): (v: Option<DaemonView>)
    ensures v.Some? ==> v.value.daemonId == d
  {
    if list == [] then None else if list[0].daemonId == d then Some(list[0]) else EntryOf(list[1..], d)
  }

  /** What a frame tells of one daemon: a snapshot and a greeting say all of it, its leaving leaves the
      sessions as they were last shown. */
  function HearOf(v: Option<DaemonView>, f: PwaFrame, d: string): Option<DaemonView> {
    match f
    case SnapshotFrame(list) => EntryOf(list, d)
    case DaemonOnline(x, hostname, name, sessions) =>
      if x == d then Some(DaemonView(d, hostname, name, true, sessions)) else v
    case DaemonOffline(x) =>
      if x == d && v.Some? then
        Some(DaemonView(d, v.value.hostname, v.value.displayName, false, v.value.sessions))
      else v
    case DaemonRenamed(x, name) =>
      if x == d && v.Some? then
        Some(DaemonView(d, v.value.hostname, name, v.value.online, v.value.sessions))
      else v
    case Forward(x, df) =>
      if x == d && v.Some? then
        Some(DaemonView(d, v.value.hostname, v.value.displayName, v.value.online, OnSessions(v.value.sessions, df)))
      else v
  }

  function HeardOf(v: Option<DaemonView>, fs: seq<PwaFrame>, d: string): Option<DaemonView> {
    if fs == [] then v else HearOf(HeardOf(v, fs[..|fs| - 1], d), fs[|fs| - 1], d)
  }

  lemma {:induction false} EntryAppend(list: seq<DaemonView>, v: DaemonView, d: string)
    ensures EntryOf(list + [v], d)
         == if EntryOf(list, d).Some? then EntryOf(list, d) else if v.daemonId == d then Some(v) else None
  {
    if list == [] {
      assert list + [v] == [v] && [v][1..] == [];
    } else {
      assert (list + [v])[1..] == list[1..] + [v] && (list + [v])[0] == list[0];
      EntryAppend(list[1..], v, d);
    }
  }

  lemma {:induction false} EntryWithout(list: seq<DaemonView>, gone: string, d: string)
    ensures EntryOf(WithoutDaemon(list, gone), d) == if d == gone then None else EntryOf(list, d)
  {
    if list != [] {
      EntryWithout(list[1..], gone, d);
      if list[0].daemonId == gone {
        assert WithoutDaemon(list, gone) == [] + WithoutDaemon(list[1..], gone) == WithoutDaemon(list[1..], gone);
      } else {
        var w := WithoutDaemon(list, gone);
        assert w == [list[0]] + WithoutDaemon(list[1..], gone);
        assert w[1..] == WithoutDaemon(list[1..], gone);
      }
    }
  }

  lemma {:induction false} EntryOnViews(list: seq<DaemonView>, f: PwaFrame, d: string)
    ensures EntryOf(OnViews(list, f), d)
         == if EntryOf(list, d).Some? then Some(OnView(EntryOf(list, d).value, f)) else None
  {
    hide OnSessions;
    if list != [] {
      assert OnViews(list, f)[1..] == OnViews(list[1..], f);
      EntryOnViews(list[1..], f, d);
    }
  }

  lemma EntryStep(p: PwaState, f: PwaFrame, d: string)
    ensures EntryOf(Reduce(p, f).daemons, d) == HearOf(EntryOf(p.daemons, d), f, d)
  {
    hide OnSessions, OnViews, WithoutDaemon, EntryOf;
    match f {
      case SnapshotFrame(_) =>
      case DaemonOnline(x, h, n, ss) =>
        EntryWithout(p.daemons, x, d);
        EntryAppend(WithoutDaemon(p.daemons, x), DaemonView(x, h, n, true, ss), d);
      case DaemonOffline(_) => EntryOnViews(p.daemons, f, d);
      case DaemonRenamed(_, _) => EntryOnViews(p.daemons, f, d);
      case Forward(_, _) => EntryOnViews(p.daemons, f, d);
    }
  }

  /** For every run of frames and every daemon, repeated entries or not: the browser's entry of it is what
      the frames told of it; one that left is shown as it last was, but offline. */
  lemma {:induction false} EntryIsWhatWasHeard(p: PwaState, fs: seq<PwaFrame>, d: string)
    ensures EntryOf(ReduceAll(p, fs).daemons, d) == HeardOf(EntryOf(p.daemons, d), fs, d)
  {
    hide Reduce, HearOf, EntryOf;
    if fs != [] {
      EntryIsWhatWasHeard(p, fs[..|fs| - 1], d);
      EntryStep(ReduceAll(p, fs[..|fs| - 1]), fs[|fs| - 1], d);
    }
  }

  // ----- each session once -----

  ghost predicate EachOnce(list: seq<DaemonView>) {
    forall i | 0 <= i < |list| :: DistinctIds(list[i].sessions)
  }

  /** The frame brings no list of sessions with a repeated id. */
  ghost predicate ListsOnce(f: PwaFrame) {
    match f
    case SnapshotFrame(list) => EachOnce(list)
    case DaemonOnline(_, _, _, ss) => DistinctIds(ss)
    case _ => true
  }

  lemma OnSessionsDistinct(list: seq<Snapshot>, f: DaemonFrame)
    requires DistinctIds(list)
    ensures DistinctIds(OnSessions(list, f))
  {
    match f {
      case SessionOpen(s, _) =>
        WithoutDistinct(list, s.sessionId);
        var w := Without(list, s.sessionId);
        forall i | 0 <= i < |w| ensures w[i].sessionId != s.sessionId { assert w[i] in w; }
      case SessionClose(id) => WithoutDistinct(list, id);
      case StateChanged(id, x, _) => Registry.UpdatedDistinct(list, id, Registry.SetState(x));
      case _ =>
    }
  }

  /** From a state that shows each session once, a frame leads to one that does exactly when it
      brings no list with a repeated id. */
  lemma OnceStepIff(p: PwaState, f: PwaFrame)
    requires EachOnce(p.daemons)
    ensures EachOnce(Reduce(p, f).daemons) <==> ListsOnce(f)
  {
    var r := Reduce(p, f).daemons;
    if f.DaemonOnline? {
      var w := WithoutDaemon(p.daemons, f.daemonId);
      assert r[|w|].sessions == f.sessions;
      forall i | 0 <= i < |w| ensures DistinctIds(r[i].sessions) {
        assert r[i] == w[i] && w[i] in w && w[i] in p.daemons;
      }
    } else if !f.SnapshotFrame? {
      forall i | 0 <= i < |r| ensures DistinctIds(r[i].sessions) {
        if f.Forward? { OnSessionsDistinct(p.daemons[i].sessions, f.frame); }
      }
    }
  }

  /** The client after reading some frames. */
  function ReduceAll(p: PwaState, fs: seq<PwaFrame>): PwaState {
    if fs == [] then p else Reduce(ReduceAll(p, fs[..|fs| - 1]), fs[|fs| - 1])
  }

  ghost predicate OnceThroughout(p: PwaState, fs: seq<PwaFrame>) {
    forall k | 0 <= k <= |fs| :: EachOnce(ReduceAll(p, fs[..k]).daemons)
  }

  lemma ReduceNext(p: PwaState, fs: seq<PwaFrame>, k: nat)
    requires k < |fs|
    ensures ReduceAll(p, fs[..k + 1]) == Reduce(ReduceAll(p, fs[..k]), fs[k])
  {
    assert fs[..k + 1][..k] == fs[..k];
  }

  lemma {:induction false} OnceUpTo(p: PwaState, fs: seq<PwaFrame>, k: nat)
    requires EachOnce(p.daemons) && k <= |fs| && forall i | 0 <= i < |fs| :: ListsOnce(fs[i])
    ensures EachOnce(ReduceAll(p, fs[..k]).daemons)
  {
    hide EachOnce, ListsOnce, Reduce;
    if k > 0 {
      OnceUpTo(p, fs, k - 1);
      ReduceNext(p, fs, k - 1);
      OnceStepIff(ReduceAll(p, fs[..k - 1]), fs[k - 1]);
    }
  }

  /** Over every run of frames the client shows each session once throughout exactly when no
      snapshot and no greeting in it lists a session twice. */
  lemma OnceThroughoutIff(p: PwaState, fs: seq<PwaFrame>)
    requires EachOnce(p.daemons)
    ensures OnceThroughout(p, fs) <==> forall i | 0 <= i < |fs| :: ListsOnce(fs[i])
  {
    hide EachOnce, ListsOnce, Reduce, ReduceAll;
    if forall i | 0 <= i < |fs| :: ListsOnce(fs[i]) {
      forall k | 0 <= k <= |fs| ensures EachOnce(ReduceAll(p, fs[..k]).daemons) {
        OnceUpTo(p, fs, k);
      }
    }
    if OnceThroughout(p, fs) {
      forall i | 0 <= i < |fs| ensures ListsOnce(fs[i]) {
        assert EachOnce(ReduceAll(p, fs[..i]).daemons);
        assert EachOnce(ReduceAll(p, fs[..i + 1]).daemons);
        ReduceNext(p, fs, i);
        OnceStepIff(ReduceAll(p, fs[..i]), fs[i]);
      }
    }
  }

  /** A greeting with a session listed twice: the hub holds one, the client shows two, and by id
      the two still agree. */
  lemma DuplicateShownTwice()
    ensures var a := Snapshot("s", None, "/", "", Idle);
            var b := a.(state := Working);
            var hub := OnFrame(map[], "d", None, Hello("h", 0, [a, b])).0;
            var shown := Reduce(PwaState([], map[]), DaemonOnline("d", "h", None, [a, b])).daemons;
            && |hub["d"].replica.sessions| == 1
            && |shown| == 1 && shown[0].sessions == [a, b]
            && DistinctDaemons(shown) && OnlineView(shown) == HubView(hub)
  {
    var a := Snapshot("s", None, "/", "", Idle);
    var b := a.(state := Working);
    FromListPush([], a);
    FromListPush([a], b);
    NoSessions([], "s", Registry.SetState(Idle));
    assert [] + [a] == [a] && [a] + [b] == [a, b];
    hide FromList;
    assert FromList([a, b]) == map["s" := b];
    var p := Reduce(PwaState([], map[]), DaemonOnline("d", "h", None, [a, b]));
    assert p.daemons == [] + [DaemonView("d", "h", None, true, [a, b])];
  }
}
