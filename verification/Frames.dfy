/** Values shared by the daemon, the hub and the browser client. */
module Frames {

  datatype Option<+T> = None | Some(value: T)

  datatype SessionState = Idle | Working | Waiting

  /** A live session as the daemon describes it.  `info` stands for the fields that never change
      after registration (tmux names, model, pid, versions). */
  datatype Snapshot = Snapshot(
    sessionId: string, claudeSessionId: Option<string>, cwd: string, info: string, state: SessionState)

  /** The body of an AskUserQuestion request. */
  datatype Question = Question(sessionId: string, questions: seq<string>, expiresAt: int)

  datatype Resolution = Answered | Expired | SessionUnknown

  /** Daemon to hub.  `Notice` is every frame the hub forwards without keeping anything of it. */
  datatype DaemonFrame =
    | Hello(hostname: string, epoch: int, sessions: seq<Snapshot>)
    | SessionOpen(session: Snapshot, requestId: Option<string>)
    | SessionClose(sessionId: string)
    | StateChanged(sessionId: string, state: SessionState, prev: SessionState)
    | SessionRebound(sessionId: string, claudeSessionId: string)
    | AskRequest(askId: string, question: Question)
    | AskResolved(sessionId: string, askId: string, resolution: Resolution)
    | SlashInventory(sessionId: string, entries: string)
    | AgentHandshake(sessionId: string, payload: string)
    | Event(sessionId: string, offset: int, payload: string)
    | Notice(sessionId: string, body: string)

  datatype DaemonView = DaemonView(
    daemonId: string, hostname: string, displayName: Option<string>, online: bool, sessions: seq<Snapshot>)

  /** Hub to browser client.  `Forward` is a daemon frame with the daemon's id added. */
  datatype PwaFrame =
    | SnapshotFrame(daemons: seq<DaemonView>)
    | DaemonOnline(daemonId: string, hostname: string, displayName: Option<string>, sessions: seq<Snapshot>)
    | DaemonOffline(daemonId: string)
    | DaemonRenamed(daemonId: string, displayName: Option<string>)
    | Forward(daemonId: string, frame: DaemonFrame)

  /** The value a map holds for a key, if any. */
  function Lookup<K, V>(m: map<K, V>, k: K): (r: Option<V>)
    ensures r.Some? <==> k in m
    ensures r.Some? ==> r.value == m[k]
  {
    if k in m then Some(m[k]) else None
  }

  lemma SameLookups<K, V>(a: map<K, V>, b: map<K, V>)
    requires forall k :: Lookup(a, k) == Lookup(b, k)
    ensures a == b
  {
    forall k ensures k in a <==> k in b {
      assert Lookup(a, k) == Lookup(b, k);
    }
    forall k | k in a ensures a[k] == b[k] {
      assert Lookup(a, k) == Lookup(b, k);
    }
  }

  /** A snapshot without the one field that no frame keeps up to date on the hub. */
  function Erase(s: Snapshot): Snapshot {
    s.(claudeSessionId := None)
  }

  function EraseOption(s: Option<Snapshot>): Option<Snapshot> {
    if s.Some? then Some(Erase(s.value)) else None
  }

  // ----- lists of sessions keyed by session id -----

  /** The first session of `list` with that id. */
  function Find(list: seq<Snapshot>, id: string): (r: Option<Snapshot>)
    ensures r.Some? ==> r.value in list && r.value.sessionId == id
    ensures r.None? ==> forall s | s in list :: s.sessionId != id
  {
    if list == [] then None
    else if list[0].sessionId == id then Some(list[0])
    else Find(list[1..], id)
  }

  /** `list` without the sessions of that id. */
  function Without(list: seq<Snapshot>, id: string): (r: seq<Snapshot>)
    ensures forall s :: s in r <==> s in list && s.sessionId != id
  {
    if list == [] then []
    else (if list[0].sessionId == id then [] else [list[0]]) + Without(list[1..], id)
  }

  ghost predicate DistinctIds(list: seq<Snapshot>) {
    forall i, j | 0 <= i < j < |list| :: list[i].sessionId != list[j].sessionId
  }

  lemma {:induction false} FindAppend(a: seq<Snapshot>, b: seq<Snapshot>, id: string)
    ensures Find(a + b, id) == if Find(a, id).Some? then Find(a, id) else Find(b, id)
  {
    if a == [] {
      assert a + b == b;
    } else {
      assert (a + b)[1..] == a[1..] + b;
      FindAppend(a[1..], b, id);
    }
  }

  lemma {:induction false} FindWithout(list: seq<Snapshot>, gone: string, id: string)
    ensures Find(Without(list, gone), id) == if id == gone then None else Find(list, id)
  {
    if list != [] {
      FindWithout(list[1..], gone, id);
      var head := if list[0].sessionId == gone then [] else [list[0]];
      assert Without(list, gone) == head + Without(list[1..], gone);
      FindAppend(head, Without(list[1..], gone), id);
    }
  }

  lemma {:induction false} WithoutDistinct(list: seq<Snapshot>, gone: string)
    requires DistinctIds(list)
    ensures DistinctIds(Without(list, gone))
  {
    if list != [] {
      var rest := list[1..];
      WithoutDistinct(rest, gone);
      forall s | s in Without(rest, gone) ensures s.sessionId != list[0].sessionId {
        assert s in rest;
      }
    }
  }

  /** With distinct ids the first match is the only one. */
  lemma {:induction false} FindUnique(list: seq<Snapshot>, s: Snapshot)
    requires DistinctIds(list) && s in list
    ensures Find(list, s.sessionId) == Some(s)
  {
    if list[0] != s {
      assert s in list[1..];
      FindUnique(list[1..], s);
    }
  }
}
