/** The daemon's session state machine (packages/daemon/src/session-fsm.ts). */
module SessionFsm {
  import opened Frames
  import opened Sequences

  datatype Entry = Entry(state: SessionState, pendingCount: nat, prevBeforeWaiting: SessionState)

  /** What transition listeners are told. */
  datatype Note = Note(id: string, state: SessionState, prev: SessionState)

  datatype RunEvent = RunStarted(id: string) | RunFinished(id: string) | RunError(id: string, message: string)

  type Entries = map<string, Entry>

  datatype Ev =
    | Register(id: string)
    | Remove(id: string)
    | JsonlLine(id: string)
    | IdleTimer(id: string)
    | Request(id: string)
    | Resolved(id: string)
    | Failed(id: string, message: string)

  datatype Out = Out(entries: Entries, notes: seq<Note>, runs: seq<RunEvent>)

  const FRESH := Entry(Idle, 0, Idle)

  function Transition(es: Entries, id: string, next: SessionState): Out
    requires id in es
  {
    var prev := es[id].state;
    if prev == next then Out(es, [], [])
    else
      Out(es[id := es[id].(state := next)], [Note(id, next, prev)],
          if prev == Idle && next == Working then [RunStarted(id)]
          else if prev == Working && next == Idle then [RunFinished(id)]
          else [])
  }

  function Registered(es: Entries, id: string): Entries {
    if id in es then es else es[id := FRESH]
  }

  function Step(es: Entries, e: Ev): Out {
    match e
    case Register(id) => Out(Registered(es, id), [], [])
    case Remove(id) => Out(es - {id}, [], [])
    case JsonlLine(id) =>
      if id !in es then Out(es, [], [])
      else if es[id].state == Waiting then Out(es[id := es[id].(prevBeforeWaiting := Working)], [], [])
      else Transition(es, id, Working)
    case IdleTimer(id) =>
      if id !in es then Out(es, [], [])
      else if es[id].state == Waiting then Out(es[id := es[id].(prevBeforeWaiting := Idle)], [], [])
      else Transition(es, id, Idle)
    case Request(id) =>
      var r := Registered(es, id);
      var counted := r[id := r[id].(pendingCount := r[id].pendingCount + 1)];
      if r[id].state == Waiting then Out(counted, [], [])
      else Transition(counted[id := counted[id].(prevBeforeWaiting := r[id].state)], id, Waiting)
    case Resolved(id) =>
      if id !in es then Out(es, [], [])
      else
        var left := if es[id].pendingCount > 0 then es[id].pendingCount - 1 else 0;
        var counted := es[id := es[id].(pendingCount := left)];
        if left > 0 || es[id].state != Waiting then Out(counted, [], [])
        else Transition(counted, id, es[id].prevBeforeWaiting)
    case Failed(id, m) => Out(es, [], [RunError(id, m)])
  }

  class Machine {
    var entries: map<string, Entry>
    var notes: seq<Note>
    var runs: seq<RunEvent>

    constructor ()
      ensures entries == map[] && notes == [] && runs == []
    {
      entries, notes, runs := map[], [], [];
    }

    method OnRegister(id: string)
      modifies `entries
      ensures entries == old(Step(entries, Register(id)).entries)
    {
      if id in entries { return; }
      entries := entries[id := Entry(Idle, 0, Idle)];
    }

    method OnRemove(id: string)
      modifies `entries
      ensures entries == old(Step(entries, Remove(id)).entries)
    {
      entries := entries - {id};
    }

    method OnJsonlLine(id: string)
      modifies this
      ensures entries == old(Step(entries, JsonlLine(id)).entries)
      ensures notes == old(notes + Step(entries, JsonlLine(id)).notes)
      ensures runs == old(runs + Step(entries, JsonlLine(id)).runs)
    {
      if id !in entries { return; }
      if entries[id].state == Waiting {
        entries := entries[id := entries[id].(prevBeforeWaiting := Working)];
        return;
      }
      GoTo(id, Working);
    }

    method OnIdleTimer(id: string)
      modifies this
      ensures entries == old(Step(entries, IdleTimer(id)).entries)
      ensures notes == old(notes + Step(entries, IdleTimer(id)).notes)
      ensures runs == old(runs + Step(entries, IdleTimer(id)).runs)
    {
      if id !in entries { return; }
      if entries[id].state == Waiting {
        entries := entries[id := entries[id].(prevBeforeWaiting := Idle)];
        return;
      }
      GoTo(id, Idle);
    }

    method OnPermissionRequest(id: string)
      modifies this
      ensures entries == old(Step(entries, Request(id)).entries)
      ensures notes == old(notes + Step(entries, Request(id)).notes)
      ensures runs == old(runs + Step(entries, Request(id)).runs)
    {
      if id !in entries {
        OnRegister(id);
      }
      entries := entries[id := entries[id].(pendingCount := entries[id].pendingCount + 1)];
      if entries[id].state == Waiting { return; }
      entries := entries[id := entries[id].(prevBeforeWaiting := entries[id].state)];
      GoTo(id, Waiting);
    }

    method OnPermissionResolved(id: string)
      modifies this
      ensures entries == old(Step(entries, Resolved(id)).entries)
      ensures notes == old(notes + Step(entries, Resolved(id)).notes)
      ensures runs == old(runs + Step(entries, Resolved(id)).runs)
    {
      if id !in entries { return; }
      var cur := entries[id];
      cur := cur.(pendingCount := if cur.pendingCount >= 1 then cur.pendingCount - 1 else 0);
      entries := entries[id := cur];
      if cur.pendingCount > 0 { return; }
      if cur.state != Waiting { return; }
      GoTo(id, cur.prevBeforeWaiting);
    }

    method OnError(id: string, message: string)
      modifies `runs
      ensures runs == old(runs + Step(entries, Failed(id, message)).runs)
      ensures runs == old(runs) + [RunError(id, message)]
    {
      runs := runs + [RunError(id, message)];
    }

    method GoTo(id: string, next: SessionState)
      requires id in entries
      modifies this
      ensures entries == old(Transition(entries, id, next).entries)
      ensures notes == old(notes + Transition(entries, id, next).notes)
      ensures runs == old(runs + Transition(entries, id, next).runs)
    {
      var prev := entries[id].state;
      if prev == next { return; }
      entries := entries[id := entries[id].(state := next)];
      notes := notes + [Note(id, next, prev)];
      if prev == Idle && next == Working {
        runs := runs + [RunStarted(id)];
      } else if prev == Working && next == Idle {
        runs := runs + [RunFinished(id)];
      }
    }
  }

  // ----- refinement of a machine that knows no permissions -----

  /** The two-state machine: the sessions, and whether each is working. */
  type Base = map<string, bool>

  function BaseStep(b: Base, e: Ev): Base {
    match e
    case Register(id) => if id in b then b else b[id := false]
    case Remove(id) => b - {id}
    case JsonlLine(id) => if id in b then b[id := true] else b
    case IdleTimer(id) => if id in b then b[id := false] else b
    case Request(id) => if id in b then b else b[id := false]
    case Resolved(_) => b
    case Failed(_, _) => b
  }

  /** The state a session has, or will have once its permissions are settled. */
  function Mode(e: Entry): SessionState {
    if e.state == Waiting then e.prevBeforeWaiting else e.state
  }

  ghost predicate EntryOk(e: Entry) {
    (e.state == Waiting <==> e.pendingCount > 0) && e.prevBeforeWaiting != Waiting
  }

  ghost predicate Refines(es: Entries, b: Base) {
    && es.Keys == b.Keys
    && forall id | id in es :: EntryOk(es[id]) && Mode(es[id]) == (if b[id] then Working else Idle)
  }

  function RunOf(es: Entries, evs: seq<Ev>): Out {
    if evs == [] then Out(es, [], [])
    else
      var before := RunOf(es, evs[..|evs| - 1]);
      var last := Step(before.entries, evs[|evs| - 1]);
      Out(last.entries, before.notes + last.notes, before.runs + last.runs)
  }

  function BaseRun(b: Base, evs: seq<Ev>): Base {
    if evs == [] then b else BaseStep(BaseRun(b, evs[..|evs| - 1]), evs[|evs| - 1])
  }

  lemma RefinesStepAt(es: Entries, b: Base, e: Ev, id: string)
    requires Refines(es, b)
    ensures id in Step(es, e).entries <==> id in BaseStep(b, e)
    ensures id in Step(es, e).entries ==>
      var x := Step(es, e).entries[id];
      EntryOk(x) && Mode(x) == (if BaseStep(b, e)[id] then Working else Idle)
  {
  }

  lemma RefinesStep(es: Entries, b: Base, e: Ev)
    requires Refines(es, b)
    ensures Refines(Step(es, e).entries, BaseStep(b, e))
  {
    hide Step, BaseStep, EntryOk, Mode;
    forall id ensures id in Step(es, e).entries <==> id in BaseStep(b, e) {
      RefinesStepAt(es, b, e, id);
    }
    forall id | id in Step(es, e).entries
      ensures EntryOk(Step(es, e).entries[id])
      ensures Mode(Step(es, e).entries[id]) == (if BaseStep(b, e)[id] then Working else Idle)
    {
      RefinesStepAt(es, b, e, id);
    }
  }

  /** After any events at all: a session waits exactly while it has pending permissions, what it
      stashed is never `waiting`, and, permissions aside, it is where the two-state machine is. */
  lemma {:induction false} PermissionsOnlyMask(evs: seq<Ev>)
    ensures Refines(RunOf(map[], evs).entries, BaseRun(map[], evs))
  {
    if evs != [] {
      PermissionsOnlyMask(evs[..|evs| - 1]);
      RefinesStep(RunOf(map[], evs[..|evs| - 1]).entries, BaseRun(map[], evs[..|evs| - 1]), evs[|evs| - 1]);
    }
  }

  // ----- the notifications of one session -----

  /** The state reached from `from` by the notes of one session, if they form a path without
      self-steps. */
  ghost function PathEnd(id: string, from: SessionState, notes: seq<Note>): Option<SessionState> {
    if notes == [] then Some(from)
    else
      var n := notes[|notes| - 1];
      var before := PathEnd(id, from, notes[..|notes| - 1]);
      if n.id != id then before
      else if before == Some(n.prev) && n.prev != n.state then Some(n.state)
      else None
  }

  lemma PathPush(id: string, from: SessionState, notes: seq<Note>, n: Note)
    ensures PathEnd(id, from, notes + [n]) ==
      var before := PathEnd(id, from, notes);
      if n.id != id then before
      else if before == Some(n.prev) && n.prev != n.state then Some(n.state)
      else None
  {
    assert (notes + [n])[..|notes|] == notes;
  }

  lemma StepNotes(es: Entries, e: Ev, id: string)
    requires id in es && e != Remove(id)
    ensures var out := Step(es, e);
            && id in out.entries && |out.notes| <= 1
            && (out.notes == [] ==> out.entries[id].state == es[id].state)
            && (out.notes != [] ==>
                  var n := out.notes[0];
                  if n.id == id then n == Note(id, out.entries[id].state, es[id].state) && n.state != n.prev
                  else out.entries[id].state == es[id].state)
  {
  }

  /** While a session stays registered its notifications form one path, without self-steps, from the
      state it had to the state it has. */
  lemma {:induction false} NotesReplay(es: Entries, evs: seq<Ev>, id: string)
    requires id in es && Remove(id) !in evs
    ensures id in RunOf(es, evs).entries
    ensures PathEnd(id, es[id].state, RunOf(es, evs).notes) == Some(RunOf(es, evs).entries[id].state)
  {
    if evs != [] {
      var init, last := evs[..|evs| - 1], evs[|evs| - 1];
      NotesReplay(es, init, id);
      var before := RunOf(es, init);
      assert last in evs;
      StepNotes(before.entries, last, id);
      var notes := Step(before.entries, last).notes;
      if notes == [] {
        assert before.notes + notes == before.notes;
      } else {
        assert notes == [notes[0]];
        PathPush(id, es[id].state, before.notes, notes[0]);
      }
    }
  }

  // ----- when the run events alternate -----

  /** The changes of one session's two-state machine: for each made while no permission was pending,
      whether it was a start, and how many had been masked by then, that is, made while one was. */
  datatype Track = Track(starts: seq<bool>, maskedBefore: seq<nat>, masked: nat)

  ghost predicate Works(b: Base, id: string) {
    id in b && b[id]
  }

  /** The event changes whether the session is working. */
  ghost predicate Moves(id: string, b: Base, e: Ev) {
    id in b && id in BaseStep(b, e) && b[id] != BaseStep(b, e)[id]
  }

  /** A permission of the session is pending. */
  ghost predicate Masked(es: Entries, id: string) {
    id in es && es[id].pendingCount > 0
  }

  ghost function Tracked(t: Track, moves: bool, masked: bool, start: bool): Track {
    if !moves then t
    else if masked then t.(masked := t.masked + 1)
    else Track(t.starts + [start], t.maskedBefore + [t.masked], t.masked)
  }

  ghost function TrackOf(id: string, evs: seq<Ev>): Track {
    if evs == [] then Track([], [], 0)
    else
      var init, e := evs[..|evs| - 1], evs[|evs| - 1];
      var es, b := RunOf(map[], init).entries, BaseRun(map[], init);
      Tracked(TrackOf(id, init), Moves(id, b, e), Masked(es, id), !Works(b, id))
  }

  /** The session's run events: true for a start, false for a finish. */
  // ----- errors -----

  function ErrorsOf(runs: seq<RunEvent>): seq<RunEvent> {
    if runs == [] then []
    else ErrorsOf(runs[..|runs| - 1]) + if runs[|runs| - 1].RunError? then [runs[|runs| - 1]] else []
  }

  /** The errors that were reported to the machine, as it is to pass them on. */
  function Reported(evs: seq<Ev>): seq<RunEvent> {
    if evs == [] then []
    else
      var e := evs[|evs| - 1];
      Reported(evs[..|evs| - 1]) + if e.Failed? then [RunError(e.id, e.message)] else []
  }

  lemma ErrorsPush(runs: seq<RunEvent>, more: seq<RunEvent>)
    requires |more| <= 1
    ensures ErrorsOf(runs + more) == ErrorsOf(runs) + if more != [] && more[0].RunError? then more else []
  {
    if more == [] {
      assert runs + more == runs && ErrorsOf(runs) + [] == ErrorsOf(runs);
    } else {
      assert (runs + more)[..|runs|] == runs && more == [more[0]];
    }
  }

  lemma NoErrors()
    ensures ErrorsOf([]) == []
  {
  }

  lemma ErrorStep(es: Entries, e: Ev)
    ensures var more := Step(es, e).runs;
            |more| <= 1 && (more != [] && more[0].RunError? <==> e.Failed?)
            && (e.Failed? ==> more == [RunError(e.id, e.message)])
  {
  }

  /** Every error is passed on once, in order, under its own session, known or not, and no other is made. */
  lemma {:induction false} ErrorsPassedOn(es: Entries, evs: seq<Ev>)
    ensures ErrorsOf(RunOf(es, evs).runs) == Reported(evs)
  {
    hide Step, ErrorsOf;
    if evs == [] {
      assert ErrorsOf([]) == [] by { NoErrors(); }
    } else {
      var init, e := evs[..|evs| - 1], evs[|evs| - 1];
      ErrorsPassedOn(es, init);
      var before := RunOf(es, init);
      ErrorStep(before.entries, e);
      ErrorsPush(before.runs, Step(before.entries, e).runs);
    }
  }

  function RunEventsOf(id: string, runs: seq<RunEvent>): seq<bool> {
    if runs == [] then []
    else
      var last := runs[|runs| - 1];
      RunEventsOf(id, runs[..|runs| - 1])
        + (if last == RunStarted(id) then [true] else if last == RunFinished(id) then [false] else [])
  }

  lemma {:induction false} RunEventsConcat(id: string, a: seq<RunEvent>, b: seq<RunEvent>)
    ensures RunEventsOf(id, a + b) == RunEventsOf(id, a) + RunEventsOf(id, b)
    decreases |b|
  {
    if b == [] {
      assert a + b == a && RunEventsOf(id, a) + [] == RunEventsOf(id, a);
    } else {
      var init, last := b[..|b| - 1], b[|b| - 1];
      assert (a + b)[..|a + b| - 1] == a + init && (a + b)[|a + b| - 1] == last;
      RunEventsConcat(id, a, init);
      var one := if last == RunStarted(id) then [true] else if last == RunFinished(id) then [false] else [];
      Assoc(RunEventsOf(id, a), RunEventsOf(id, init), one);
    }
  }

  /** A step emits a run event of the session exactly when it changes the two-state machine and no
      permission of the session is pending; a start if the session was not working. */
  lemma EmitsIff(es: Entries, b: Base, e: Ev, id: string)
    requires Refines(es, b) && e != Remove(id)
    ensures RunEventsOf(id, Step(es, e).runs) ==
      if Moves(id, b, e) && !Masked(es, id) then [!Works(b, id)] else []
  {
    var runs := Step(es, e).runs;
    assert |runs| <= 1;
    if runs != [] {
      assert runs[..0] == [] && RunEventsOf(id, runs[..0]) == [];
    }
  }

  ghost predicate Alternates(starts: seq<bool>) {
    forall i | 0 <= i < |starts| :: starts[i] <==> i % 2 == 0
  }

  ghost predicate AllEven(s: seq<nat>) {
    forall i | 0 <= i < |s| :: s[i] % 2 == 0
  }

  /** The track so far tells whether the session is working, by parity. */
  ghost predicate InPhase(t: Track, works: bool) {
    && |t.starts| == |t.maskedBefore|
    && (works <==> (|t.starts| + t.masked) % 2 == 1)
    && forall i | 0 <= i < |t.starts| :: t.starts[i] <==> (i + t.maskedBefore[i]) % 2 == 0
  }

  lemma InPhaseNext(t: Track, works: bool, moves: bool, masked: bool)
    requires InPhase(t, works)
    ensures InPhase(Tracked(t, moves, masked, !works), works != moves)
  {
  }

  lemma WorksAfter(b: Base, e: Ev, id: string)
    requires e != Remove(id)
    ensures Works(BaseStep(b, e), id) == (Works(b, id) != Moves(id, b, e))
  {
  }

  /** Over every run that never removes the session: the run events emitted are exactly the changes
      made while no permission was pending; and the session works exactly when an odd number of
      changes, shown or masked, lies behind it, each shown one being a start exactly when that number
      was even. */
  lemma {:induction false} TrackParity(id: string, evs: seq<Ev>)
    requires Remove(id) !in evs
    ensures RunEventsOf(id, RunOf(map[], evs).runs) == TrackOf(id, evs).starts
    ensures InPhase(TrackOf(id, evs), Works(BaseRun(map[], evs), id))
  {
    hide InPhase, Works, Moves, Masked, Step, BaseStep, Refines, RunEventsOf;
    if evs != [] {
      var init, e := evs[..|evs| - 1], evs[|evs| - 1];
      var es, b := RunOf(map[], init).entries, BaseRun(map[], init);
      assert Remove(id) !in init && e != Remove(id) by { assert e in evs; }
      TrackParity(id, init);
      PermissionsOnlyMask(init);
      EmitsIff(es, b, e, id);
      RunEventsConcat(id, RunOf(map[], init).runs, Step(es, e).runs);
      WorksAfter(b, e, id);
      InPhaseNext(TrackOf(id, init), Works(b, id), Moves(id, b, e), Masked(es, id));
      assert TrackOf(id, init).starts + [] == TrackOf(id, init).starts;
    } else {
      NothingYet(id, []);
    }
  }

  lemma NothingYet(id: string, runs: seq<RunEvent>)
    ensures InPhase(Track([], [], 0), Works(map[], id)) && (runs == [] ==> RunEventsOf(id, runs) == [])
  {
  }

  lemma AlternatesIff(t: Track, works: bool)
    requires InPhase(t, works)
    ensures Alternates(t.starts) <==> AllEven(t.maskedBefore)
  {
    if Alternates(t.starts) {
      forall i | 0 <= i < |t.maskedBefore| ensures t.maskedBefore[i] % 2 == 0 {
        assert t.starts[i] <==> i % 2 == 0;
      }
    }
    if AllEven(t.maskedBefore) {
      forall i | 0 <= i < |t.starts| ensures t.starts[i] <==> i % 2 == 0 {
        assert t.maskedBefore[i] % 2 == 0;
      }
    }
  }

  /** A session's emitted start and finish events alternate, start first, exactly when before each of
      them an even number of its changes fell into times with a permission pending. */
  lemma RunEventsAlternateIff(id: string, evs: seq<Ev>)
    requires Remove(id) !in evs
    ensures Alternates(RunEventsOf(id, RunOf(map[], evs).runs)) <==> AllEven(TrackOf(id, evs).maskedBefore)
  {
    hide InPhase, Alternates, AllEven, TrackOf;
    TrackParity(id, evs);
    AlternatesIff(TrackOf(id, evs), Works(BaseRun(map[], evs), id));
  }

  lemma RunPush(es: Entries, evs: seq<Ev>, e: Ev)
    ensures var before := RunOf(es, evs);
            var last := Step(before.entries, e);
            RunOf(es, evs + [e]) == Out(last.entries, before.notes + last.notes, before.runs + last.runs)
  {
    assert (evs + [e])[..|evs|] == evs;
  }

  /** A line that arrives while a permission is pending starts the work unannounced; the finish
      then has no start before it. */
  lemma FinishWithoutStart()
    ensures RunOf(map[], [Register("s"), Request("s"), JsonlLine("s"), Resolved("s"), IdleTimer("s")]).runs
         == [RunFinished("s")]
  {
    var a, b, c, d := Register("s"), Request("s"), JsonlLine("s"), Resolved("s");
    RunPush(map[], [], a);
    RunPush(map[], [a], b);
    RunPush(map[], [a, b], c);
    RunPush(map[], [a, b, c], d);
    RunPush(map[], [a, b, c, d], IdleTimer("s"));
    hide RunOf;
    assert [] + [a] == [a] && [a] + [b] == [a, b] && [a, b] + [c] == [a, b, c] && [a, b, c] + [d] == [a, b, c, d];
    assert RunOf(map[], []).entries == map[] && RunOf(map[], []).runs == [] by { Empty(); }
    assert [a, b, c, d] + [IdleTimer("s")] == [a, b, c, d, IdleTimer("s")];
    assert RunOf(map[], [a]).entries["s"] == FRESH;
    assert RunOf(map[], [a, b]).entries["s"] == Entry(Waiting, 1, Idle);
    assert RunOf(map[], [a, b, c]).entries["s"] == Entry(Waiting, 1, Working);
    assert RunOf(map[], [a, b, c, d]).entries["s"] == Entry(Working, 0, Working);
  }

  lemma Empty()
    ensures RunOf(map[], []) == Out(map[], [], [])
  {
  }
}
