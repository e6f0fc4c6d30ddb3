/** The daemon's live sessions (packages/daemon/src/registry.ts). */
module Registry {
  import opened Frames

  datatype Patch = SetState(state: SessionState) | SetClaude(claudeSessionId: string)

  function Apply(s: Snapshot, p: Patch): Snapshot {
    match p
    case SetState(x) => s.(state := x)
    case SetClaude(c) => s.(claudeSessionId := Some(c))
  }

  function Added(list: seq<Snapshot>, s: Snapshot): seq<Snapshot> {
    if Find(list, s.sessionId).Some? then list else list + [s]
  }

  function Updated(list: seq<Snapshot>, id: string, p: Patch): (r: seq<Snapshot>)
    ensures |r| == |list|
    ensures forall i | 0 <= i < |list| :: r[i] == if list[i].sessionId == id then Apply(list[i], p) else list[i]
  {
    if list == [] then []
    else [if list[0].sessionId == id then Apply(list[0], p) else list[0]] + Updated(list[1..], id, p)
  }

  /** The session whose transcript has this id, first match in registration order. */
  function FindByClaude(list: seq<Snapshot>, claude: string): (r: Option<Snapshot>)
    ensures r.Some? ==> r.value in list && r.value.claudeSessionId == Some(claude)
    ensures r.None? ==> forall s | s in list :: s.claudeSessionId != Some(claude)
  {
    if list == [] then None
    else if list[0].claudeSessionId == Some(claude) then Some(list[0])
    else FindByClaude(list[1..], claude)
  }

  /** Of several sessions on one transcript the one registered first is found. */
  lemma {:induction false} FindByClaudeFirst(list: seq<Snapshot>, claude: string, i: nat)
    requires i < |list| && list[i].claudeSessionId == Some(claude)
    requires forall j | 0 <= j < i :: list[j].claudeSessionId != Some(claude)
    ensures FindByClaude(list, claude) == Some(list[i])
  {
    if i > 0 { FindByClaudeFirst(list[1..], claude, i - 1); }
  }

  lemma FindAdded(list: seq<Snapshot>, s: Snapshot, id: string)
    ensures Find(Added(list, s), id) ==
      if Find(list, id).None? && id == s.sessionId then Some(s) else Find(list, id)
  {
    FindAppend(list, [s], id);
    assert [s][1..] == [];
  }

  lemma {:induction false} FindUpdated(list: seq<Snapshot>, id: string, p: Patch, other: string)
    ensures Find(Updated(list, id, p), other) ==
      if other == id && Find(list, id).Some? then Some(Apply(Find(list, id).value, p)) else Find(list, other)
  {
    if list != [] {
      assert Updated(list, id, p)[1..] == Updated(list[1..], id, p);
      FindUpdated(list[1..], id, p, other);
    }
  }

  /** What a listener of the registry is told. */
  datatype Fired = OnAdd(session: Snapshot) | OnRemove(id: string)

  /** The ids a listener believes live after hearing `log`. */
  ghost function Heard(log: seq<Fired>): set<string> {
    if log == [] then {} else Hear(Heard(log[..|log| - 1]), log[|log| - 1])
  }

  ghost function Hear(known: set<string>, e: Fired): set<string> {
    if e.OnAdd? then known + {e.session.sessionId} else known - {e.id}
  }

  lemma HeardNext(log: seq<Fired>, e: Fired)
    ensures Heard(log + [e]) == Hear(Heard(log), e)
  {
    assert (log + [e])[..|log|] == log;
  }

  ghost function Ids(list: seq<Snapshot>): set<string> {
    set s | s in list :: s.sessionId
  }

  lemma IdsWithout(list: seq<Snapshot>, id: string)
    ensures Ids(Without(list, id)) == Ids(list) - {id}
  {
    forall x | x in Ids(list) - {id} ensures x in Ids(Without(list, id)) {
      var s :| s in list && s.sessionId == x;
      assert s in Without(list, id);
    }
  }

  lemma UpdatedDistinct(list: seq<Snapshot>, id: string, p: Patch)
    requires DistinctIds(list)
    ensures DistinctIds(Updated(list, id, p))
  {
    var r := Updated(list, id, p);
    assert forall i | 0 <= i < |list| :: r[i].sessionId == list[i].sessionId;
  }

  lemma IdsUpdated(list: seq<Snapshot>, id: string, p: Patch)
    ensures Ids(Updated(list, id, p)) == Ids(list)
  {
    var r := Updated(list, id, p);
    assert forall i | 0 <= i < |list| :: r[i].sessionId == list[i].sessionId;
    forall x | x in Ids(list) ensures x in Ids(r) {
      var i :| 0 <= i < |list| && list[i].sessionId == x;
      assert r[i] in r;
    }
    forall x | x in Ids(r) ensures x in Ids(list) {
      var i :| 0 <= i < |r| && r[i].sessionId == x;
      assert list[i] in list;
    }
  }

  class LiveSessions {
    // The JavaScript Map keeps insertion order; its keys are the snapshots' own ids.
    var sessions: seq<Snapshot>
    var fired: seq<Fired>

    /** No id twice, and a listener that heard everything knows exactly the live ids. */
    ghost predicate Valid()
      reads this
    {
      DistinctIds(sessions) && Heard(fired) == Ids(sessions)
    }

    constructor ()
      ensures Valid() && sessions == [] && fired == []
    {
      sessions, fired := [], [];
    }

    method Add(s: Snapshot)
      requires Valid()
      modifies this
      ensures Valid()
      ensures sessions == Added(old(sessions), s)
      ensures fired == old(fired) + (if Find(old(sessions), s.sessionId).Some? then [] else [OnAdd(s)])
    {
      if Find(sessions, s.sessionId).Some? { return; }
      sessions := sessions + [s];
      HeardNext(fired, OnAdd(s));
      fired := fired + [OnAdd(s)];
    }

    method Update(id: string, p: Patch)
      requires Valid()
      modifies `sessions
      ensures Valid()
      ensures sessions == Updated(old(sessions), id, p)
    {
      if Find(sessions, id).None? {
        assert Updated(sessions, id, p) == sessions;
        return;
      }
      IdsUpdated(sessions, id, p);
      sessions := Updated(sessions, id, p);
    }

    method Remove(id: string)
      requires Valid()
      modifies this
      ensures Valid()
      ensures sessions == Without(old(sessions), id)
      ensures fired == old(fired) + (if Find(old(sessions), id).Some? then [OnRemove(id)] else [])
    {
      if Find(sessions, id).None? {
        WithoutNone(sessions, id);
        return;
      }
      WithoutDistinct(sessions, id);
      IdsWithout(sessions, id);
      sessions := Without(sessions, id);
      HeardNext(fired, OnRemove(id));
      fired := fired + [OnRemove(id)];
    }
  }

  lemma {:induction false} WithoutNone(list: seq<Snapshot>, id: string)
    requires forall s | s in list :: s.sessionId != id
    ensures Without(list, id) == list
  {
    if list != [] {
      WithoutNone(list[1..], id);
    }
  }
}
