/** The daemon's handlers as written (packages/daemon/src/index.ts): the registry's and the state
    machine's listeners, the two per-session caches, and the replays of the `open` event.  Each does
    to the objects it works on what one step of the replication model does to the daemon. */
module Daemon {
  import opened Frames
  import opened Sequences
  import Registry
  import AskRelay
  import HubClient
  import PendingStarts
  import SessionFsm
  import Uplink

  const PENDING_START_TTL_MS := 60_000

  class Daemon {
    const sessions: Registry.LiveSessions
    const asks: AskRelay.AskHandlers
    const hub: HubClient.Client
    const fsm: SessionFsm.Machine
    const starts: PendingStarts.Pending
    var slashInventory: map<string, string>
    var agentHandshake: map<string, string>
    // History: the questions written since the last greeting, when that was, and the transcript ids told.
    ghost var announced: set<string>
    ghost var openedAt: int
    ghost var told: map<string, Option<string>>

    ghost predicate Valid()
      reads this, sessions
    {
      sessions.Valid()
    }

    ghost function View(): Uplink.Node
      reads this, sessions, asks, hub
    {
      Uplink.Node(sessions.sessions, asks.View(), slashInventory, agentHandshake, hub.View(), announced, openedAt, told)
    }

    constructor (startMs: nat, capMs: nat)
      ensures Valid() && fresh(sessions) && fresh(asks) && fresh(hub) && fresh(fsm) && fresh(starts)
      ensures fsm.entries == map[] && starts.queue == [] && starts.ttlMs == PENDING_START_TTL_MS
      ensures View() == Uplink.BOOTED.(client := Uplink.BOOTED.client.(backoff := startMs))
      ensures hub.written == [] && hub.startMs == startMs && hub.capMs == capMs
    {
      sessions := new Registry.LiveSessions();
      asks := new AskRelay.AskHandlers();
      hub := new HubClient.Client(startMs, capMs);
      fsm := new SessionFsm.Machine();
      starts := new PendingStarts.Pending(PENDING_START_TTL_MS);
      slashInventory, agentHandshake, announced, openedAt, told := map[], map[], {}, 0, map[];
    }

    /** The frames were passed on: written to an open socket, queued for any other. */
    twostate predicate Passed(frames: seq<DaemonFrame>)
      reads hub
    {
      && hub.written == old(hub.written) + (if old(hub.link.Open?) then frames else [])
      && hub.pending == old(hub.pending) + (if old(hub.link.Open?) then [] else frames)
    }

    /** `hub.send` for each frame in turn. */
    method SendAll(frames: seq<DaemonFrame>)
      requires Valid()
      modifies this`announced, hub
      ensures View() == old(View().(client := HubClient.SentAll(hub.View(), frames).0,
                                    announced := announced + Uplink.Requests(HubClient.SentAll(hub.View(), frames).1)))
      ensures hub.written == old(hub.written + HubClient.SentAll(hub.View(), frames).1)
      ensures Passed(frames)
    {
      ghost var was, wrote := hub.View(), hub.written;
      HubClient.SentAllIs(was, frames);
      var i := 0;
      assert frames[..0] == [] && wrote + [] == wrote && was.pending + [] == was.pending;
      while i < |frames|
        invariant 0 <= i <= |frames| && announced == old(announced)
        invariant hub.View() == if was.link.Open? then was else was.(pending := was.pending + frames[..i])
        invariant hub.written == wrote + (if was.link.Open? then frames[..i] else [])
      {
        var _ := hub.Send(frames[i]);
        Assoc(wrote, frames[..i], [frames[i]]);
        Assoc(was.pending, frames[..i], [frames[i]]);
        assert frames[..i + 1] == frames[..i] + [frames[i]];
        i := i + 1;
      }
      assert frames[..|frames|] == frames;
      announced := announced + Uplink.Requests(HubClient.SentAll(was, frames).1);
    }

    /** The waiting starts after a registration, and the request it fulfils: an empty id is no id. */
    static function Consumed(queue: seq<PendingStarts.Entry>, ttl: int, session: Snapshot, now: int)
      : (seq<PendingStarts.Entry>, Option<string>)
    {
      var (left, found) := PendingStarts.Step(PendingStarts.PurgeFront, ttl, queue, PendingStarts.Consume(session.cwd, now));
      (left, if found == Some("") then None else found)
    }

    /** `register` from a plugin; the registry's add listener runs for a new session only. */
    method OnRegister(session: Snapshot, now: int) returns (ghost requestId: Option<string>)
      requires Valid()
      modifies this, sessions, hub, fsm`entries, starts
      ensures Valid()
      ensures old(Find(sessions.sessions, session.sessionId).None?) ==>
        && (starts.queue, requestId) == old(Consumed(starts.queue, starts.ttlMs, session, now))
        && requestId != Some("")
        && fsm.entries == old(SessionFsm.Step(fsm.entries, SessionFsm.Register(session.sessionId)).entries)
      ensures old(Find(sessions.sessions, session.sessionId).Some?) ==>
        starts.queue == old(starts.queue) && fsm.entries == old(fsm.entries)
      ensures View() == old(Uplink.Do(View(), Uplink.Register(session, requestId)).0)
      ensures hub.written == old(hub.written + Uplink.Do(View(), Uplink.Register(session, requestId)).1)
      ensures Passed(if old(Find(sessions.sessions, session.sessionId).None?) then [SessionOpen(session, requestId)] else [])
    {
      var heard := |sessions.fired|;
      requestId := None;
      sessions.Add(session);
      if |sessions.fired| > heard {
        fsm.OnRegister(session.sessionId);
        var matched := starts.ConsumeStart(session.cwd, now);
        if matched == Some("") { matched := None; }
        requestId := matched;
        told := old(Uplink.ToldAfter(View(), Uplink.Register(session, matched)));
        SendAll([SessionOpen(session, matched)]);
      } else {
        told := old(Uplink.ToldAfter(View(), Uplink.Register(session, None)));
        SendAll([]);
      }
    }

    /** `bye`, or the plugin's socket closing; the remove listener runs for a live session only. */
    method OnUnregister(id: string)
      requires Valid()
      modifies this, sessions, hub, fsm`entries
      ensures Valid()
      ensures fsm.entries == old(if Find(sessions.sessions, id).Some?
                                 then SessionFsm.Step(fsm.entries, SessionFsm.Remove(id)).entries else fsm.entries)
      ensures View() == old(Uplink.Do(View(), Uplink.Unregister(id)).0)
      ensures hub.written == old(hub.written + Uplink.Do(View(), Uplink.Unregister(id)).1)
      ensures Passed(if old(Find(sessions.sessions, id).Some?) then [SessionClose(id)] else [])
      ensures sessions.sessions == Without(old(sessions.sessions), id)
    {
      var heard := |sessions.fired|;
      told := Uplink.ToldAfter(View(), Uplink.Unregister(id));
      sessions.Remove(id);
      if |sessions.fired| > heard {
        SendAll([SessionClose(id)]);
        slashInventory := slashInventory - {id};
        agentHandshake := agentHandshake - {id};
        fsm.OnRemove(id);
      } else {
        Registry.WithoutNone(old(sessions.sessions), id);
        SendAll([]);
      }
    }

    /** The state machine's transition listener. */
    method OnTransition(id: string, state: SessionState, prev: SessionState)
      requires Valid()
      modifies this, sessions, hub
      ensures Valid()
      ensures View() == old(Uplink.Do(View(), Uplink.Transition(id, state, prev)).0)
      ensures hub.written == old(hub.written + Uplink.Do(View(), Uplink.Transition(id, state, prev)).1)
      ensures Passed([StateChanged(id, state, prev)])
      ensures sessions.sessions == Registry.Updated(old(sessions.sessions), id, Registry.SetState(state))
    {
      sessions.Update(id, Registry.SetState(state));
      SendAll([StateChanged(id, state, prev)]);
    }

    /** The transcript of a session was found. */
    method OnBound(id: string, claude: string)
      requires Valid()
      modifies this, sessions, hub
      ensures Valid()
      ensures View() == old(Uplink.Do(View(), Uplink.Bind(id, claude)).0)
      ensures hub.written == old(hub.written + Uplink.Do(View(), Uplink.Bind(id, claude)).1)
      ensures Passed([])
      ensures sessions.sessions == Registry.Updated(old(sessions.sessions), id, Registry.SetClaude(claude))
    {
      sessions.Update(id, Registry.SetClaude(claude));
      SendAll([]);
    }

    /** A session moved to a new transcript. */
    method OnRebound(id: string, claude: string)
      requires Valid()
      modifies this, sessions, hub
      ensures Valid()
      ensures View() == old(Uplink.Do(View(), Uplink.Rebind(id, claude)).0)
      ensures hub.written == old(hub.written + Uplink.Do(View(), Uplink.Rebind(id, claude)).1)
      ensures Passed(if old(Find(sessions.sessions, id).Some?) then [SessionRebound(id, claude)] else [])
      ensures sessions.sessions == Registry.Updated(old(sessions.sessions), id, Registry.SetClaude(claude))
    {
      if Find(sessions.sessions, id).None? {
        SendAll([]);
        return;
      }
      sessions.Update(id, Registry.SetClaude(claude));
      SendAll([SessionRebound(id, claude)]);
    }

    method OnInventory(id: string, entries: string)
      requires Valid()
      modifies this, hub
      ensures Valid()
      ensures View() == old(Uplink.Do(View(), Uplink.Inventory(id, entries)).0)
      ensures hub.written == old(hub.written + Uplink.Do(View(), Uplink.Inventory(id, entries)).1)
      ensures Passed([SlashInventory(id, entries)]) && slashInventory == old(slashInventory)[id := entries]
    {
      slashInventory := slashInventory[id := entries];
      SendAll([SlashInventory(id, entries)]);
    }

    method OnProbe(id: string, payload: string)
      requires Valid()
      modifies this, hub
      ensures Valid()
      ensures View() == old(Uplink.Do(View(), Uplink.Probe(id, payload)).0)
      ensures hub.written == old(hub.written + Uplink.Do(View(), Uplink.Probe(id, payload)).1)
      ensures Passed([AgentHandshake(id, payload)]) && agentHandshake == old(agentHandshake)[id := payload]
    {
      agentHandshake := agentHandshake[id := payload];
      SendAll([AgentHandshake(id, payload)]);
    }

    /** A hook asks; it knows its transcript's id only. */
    method OnHookAsk(askId: string, hook: int, claude: string, questions: seq<string>, expiresAt: int)
      requires Valid()
      modifies this, asks, hub
      ensures Valid()
      ensures View() == old(Uplink.Do(View(), Uplink.HookAsk(askId, hook, claude, questions, expiresAt)).0)
      ensures hub.written ==
        old(hub.written + Uplink.Do(View(), Uplink.HookAsk(askId, hook, claude, questions, expiresAt)).1)
      ensures var session := old(Registry.FindByClaude(sessions.sessions, claude));
              Passed(if session.None? then []
                     else [AskRequest(askId, Question(session.value.sessionId, questions, expiresAt))])
    {
      var session := Registry.FindByClaude(sessions.sessions, claude);
      var known := |asks.sent|;
      ghost var was := asks.sent;
      asks.OnHookRequest(askId, hook, if session.Some? then Some(session.value.sessionId) else None, questions, expiresAt);
      assert asks.sent[..known] == was && asks.sent[known..] + [] == asks.sent[known..];
      SendAll(asks.sent[known..]);
    }

    /** The hub brings an answer. */
    method OnAnswer(askId: string, claimed: string)
      requires Valid()
      modifies this, asks, hub
      ensures Valid()
      ensures View() == old(Uplink.Do(View(), Uplink.Settle(AskRelay.Answer(askId, claimed))).0)
      ensures hub.written == old(hub.written + Uplink.Do(View(), Uplink.Settle(AskRelay.Answer(askId, claimed))).1)
      ensures Passed(if askId in old(asks.askToClient) then [AskResolved(claimed, askId, Answered)] else [])
    {
      var known := |asks.sent|;
      ghost var was := asks.sent;
      asks.OnAnswer(askId, claimed);
      assert asks.sent[..known] == was;
      SendAll(asks.sent[known..]);
    }

    // ----- the link opens -----

    /** `onOpen`: the unexpired questions, then the two caches. */
    method OnOpen(now: int) returns (out: seq<DaemonFrame>)
      ensures Uplink.IsOnOpen(View(), now, out)
      ensures forall a, q :: AskRequest(a, q) in out <==>
                a in asks.askToClient && asks.askToClient[a].question == q && q.expiresAt > now
    {
      var questions := QuestionFrames(now);
      var caches := CacheFrames();
      out := questions + caches;
    }

    method QuestionFrames(now: int) returns (out: seq<DaemonFrame>)
      ensures forall f | f in out :: f.AskRequest? && Uplink.Replayable(View(), now, f)
      ensures forall f: DaemonFrame | f.AskRequest? && Uplink.Replayable(View(), now, f) :: f in out
    {
      out := [];
      var todo := asks.askToClient.Keys;
      while todo != {}
        invariant todo <= asks.askToClient.Keys
        invariant forall f | f in out :: f.AskRequest? && Uplink.Replayable(View(), now, f)
        invariant forall a | a in asks.askToClient.Keys - todo && asks.askToClient[a].question.expiresAt > now ::
                    AskRequest(a, asks.askToClient[a].question) in out
        decreases todo
      {
        var a :| a in todo;
        todo := todo - {a};
        var p := asks.askToClient[a];
        if p.question.expiresAt > now {
          out := out + [AskRequest(a, p.question)];
        }
      }
    }

    method CacheFrames() returns (out: seq<DaemonFrame>)
      ensures forall f: DaemonFrame, now: int | f in out :: !f.AskRequest? && Uplink.Replayable(View(), now, f)
      ensures forall f: DaemonFrame, now: int | !f.AskRequest? && Uplink.Replayable(View(), now, f) :: f in out
    {
      out := [];
      var todo := slashInventory.Keys;
      while todo != {}
        invariant todo <= slashInventory.Keys
        invariant forall f | f in out :: f.SlashInventory? && Lookup(slashInventory, f.sessionId) == Some(f.entries)
        invariant forall k | k in slashInventory.Keys - todo :: SlashInventory(k, slashInventory[k]) in out
        decreases todo
      {
        var k :| k in todo;
        todo := todo - {k};
        out := out + [SlashInventory(k, slashInventory[k])];
      }
      ghost var slash := out;
      todo := agentHandshake.Keys;
      while todo != {}
        invariant todo <= agentHandshake.Keys
        invariant forall f | f in slash :: f in out
        invariant forall f | f in out :: f in slash
                    || (f.AgentHandshake? && Lookup(agentHandshake, f.sessionId) == Some(f.payload))
        invariant forall k | k in agentHandshake.Keys - todo :: AgentHandshake(k, agentHandshake[k]) in out
        decreases todo
      {
        var k :| k in todo;
        todo := todo - {k};
        out := out + [AgentHandshake(k, agentHandshake[k])];
      }
    }

    /** The socket opens: the greeting, the replays, the queue. */
    method OnLinkOpen(hostname: string, epoch: int, now: int) returns (ghost replays: seq<DaemonFrame>)
      requires Valid()
      modifies this, hub
      ensures Valid() && old(Uplink.IsOnOpen(View(), now, replays))
      ensures View() == old(Uplink.Greeted(View(), hub.startMs, now, replays))
      ensures hub.written == old(hub.written) + [Hello(hostname, epoch, sessions.sessions)] + replays + old(hub.pending)
    {
      var frames := OnOpen(now);
      replays := frames;
      announced, openedAt, told := Uplink.Requests(frames + hub.pending), now, Uplink.ToldByGreeting(View());
      hub.OnOpen(Hello(hostname, epoch, sessions.sessions), frames);
    }
  }
}
