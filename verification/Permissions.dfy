/** Permission requests: the table of packages/daemon/src/repos/permissions.ts and the handlers of
    packages/daemon/src/index.ts that keep it in step with the session state machine. */
module Permissions {
  import opened Frames
  import SessionFsm

  /** A row of the table, without its timestamps. */
  datatype Row = Row(session: string, tool: string, args: string, decision: Option<string>)

  type Table = map<string, Row>

  /** One frame written to a plugin's socket. */
  datatype Answer = Answer(client: int, requestId: string, decision: string)

  datatype HubFrame =
    | Requested(requestId: string, session: string, tool: string, args: string)
    | Settled(requestId: string, session: string, decision: string)

  datatype State = State(
    rows: Table, clients: map<string, int>, entries: SessionFsm.Entries, answers: seq<Answer>, out: seq<HubFrame>)

  const INITIAL := State(map[], map[], map[], [], [])

  /** `Ask` carries the session its client registered, if it did; `Reply` the session the browser
      names.  The rest drive the session state machine alone. */
  datatype Ev =
    | Ask(requestId: string, client: int, session: Option<string>, tool: string, args: string)
    | Reply(requestId: string, claimed: string, decision: string)
    | Added(id: string)
    | Removed(id: string)
    | Line(id: string)
    | IdleFired(id: string)

  /** Insert or ignore. */
  function Recorded(rows: Table, requestId: string, row: Row): Table {
    if requestId in rows then rows else rows[requestId := row]
  }

  predicate Open(rows: Table, requestId: string) {
    requestId in rows && rows[requestId].decision.None?
  }

  /** Update where not resolved. */
  function Resolved(rows: Table, requestId: string, decision: string): Table {
    if Open(rows, requestId) then rows[requestId := rows[requestId].(decision := Some(decision))] else rows
  }

  function Step(s: State, e: Ev): State {
    match e
    case Ask(r, client, session, tool, args) =>
      if session.None? then s
      else
        s.(rows := Recorded(s.rows, r, Row(session.value, tool, args, None)),
           clients := s.clients[r := client],
           entries := SessionFsm.Step(s.entries, SessionFsm.Request(session.value)).entries,
           out := s.out + [Requested(r, session.value, tool, args)])
    case Reply(r, claimed, decision) =>
      if !Open(s.rows, r) then s
      else
        s.(rows := Resolved(s.rows, r, decision),
           clients := s.clients - {r},
           entries := SessionFsm.Step(s.entries, SessionFsm.Resolved(claimed)).entries,
           answers := if r in s.clients then s.answers + [Answer(s.clients[r], r, decision)] else s.answers,
           out := s.out + [Settled(r, claimed, decision)])
    case Added(id) => s.(entries := SessionFsm.Step(s.entries, SessionFsm.Register(id)).entries)
    case Removed(id) => s.(entries := SessionFsm.Step(s.entries, SessionFsm.Remove(id)).entries)
    case Line(id) => s.(entries := SessionFsm.Step(s.entries, SessionFsm.JsonlLine(id)).entries)
    case IdleFired(id) => s.(entries := SessionFsm.Step(s.entries, SessionFsm.IdleTimer(id)).entries)
  }

  function Run(s: State, es: seq<Ev>): State {
    if es == [] then s else Step(Run(s, es[..|es| - 1]), es[|es| - 1])
  }

  // ----- the code -----

  class PermissionTable {
    var rows: map<string, Row>

    constructor ()
      ensures rows == map[]
    {
      rows := map[];
    }

    method RecordRequest(requestId: string, session: string, tool: string, args: string)
      modifies this
      ensures rows == Recorded(old(rows), requestId, Row(session, tool, args, None))
    {
      if requestId !in rows {
        rows := rows[requestId := Row(session, tool, args, None)];
      }
    }

    /** Whether this call is the one that decided the request. */
    method ResolveRequest(requestId: string, decision: string) returns (ok: bool)
      modifies this
      ensures ok <==> old(requestId in rows && rows[requestId].decision == None)
      ensures rows == Resolved(old(rows), requestId, decision)
    {
      ok := false;
      if requestId in rows {
        var row := rows[requestId];
        if row.decision.None? {
          rows := rows[requestId := row.(decision := Some(decision))];
          ok := true;
        }
      }
    }
  }

  class Handlers {
    const table: PermissionTable
    const fsm: SessionFsm.Machine
    var clients: map<string, int>
    var answers: seq<Answer>
    var out: seq<HubFrame>

    constructor ()
      ensures View() == INITIAL && fresh(table) && fresh(fsm)
    {
      table := new PermissionTable();
      fsm := new SessionFsm.Machine();
      clients, answers, out := map[], [], [];
    }

    ghost function View(): State
      reads this, table, fsm
    {
      State(table.rows, clients, fsm.entries, answers, out)
    }

    method OnPermissionRequest(requestId: string, client: int, session: Option<string>, tool: string, args: string)
      modifies this, table, fsm
      ensures View() == Step(old(View()), Ask(requestId, client, session, tool, args))
      ensures session.Some? ==>
                clients == old(clients)[requestId := client] && answers == old(answers)
                && out == old(out) + [Requested(requestId, session.value, tool, args)]
    {
      if session.None? { return; }
      table.RecordRequest(requestId, session.value, tool, args);
      clients := clients[requestId := client];
      fsm.OnPermissionRequest(session.value);
      out := out + [Requested(requestId, session.value, tool, args)];
    }

    method OnPermissionReply(requestId: string, claimed: string, decision: string)
      modifies this, table, fsm
      ensures View() == Step(old(View()), Reply(requestId, claimed, decision))
      ensures old(Open(table.rows, requestId)) ==>
                clients == old(clients) - {requestId} && out == old(out) + [Settled(requestId, claimed, decision)]
      ensures !old(Open(table.rows, requestId)) ==> clients == old(clients) && answers == old(answers) && out == old(out)
    {
      var ok := table.ResolveRequest(requestId, decision);
      if !ok { return; }
      if requestId in clients {
        answers := answers + [Answer(clients[requestId], requestId, decision)];
        clients := clients - {requestId};
      }
      out := out + [Settled(requestId, claimed, decision)];
      assert clients == old(clients) - {requestId};
      fsm.OnPermissionResolved(claimed);
    }
  }

  // ----- the first decision -----

  lemma RowsKeptStep(s: State, e: Ev, r: string)
    requires r in s.rows
    ensures r in Step(s, e).rows
    ensures Step(s, e).rows[r].(decision := None) == s.rows[r].(decision := None)
    ensures s.rows[r].decision.Some? ==> Step(s, e).rows[r] == s.rows[r]
  {
    hide SessionFsm.Step;
  }

  /** A row, once inserted, keeps its session, tool and arguments for ever, and the first decision
      taken on it, whatever requests and replies repeat its id later. */
  lemma {:induction false} FirstDecisionKept(s: State, es: seq<Ev>, r: string)
    requires r in s.rows
    ensures r in Run(s, es).rows
    ensures Run(s, es).rows[r].(decision := None) == s.rows[r].(decision := None)
    ensures s.rows[r].decision.Some? ==> Run(s, es).rows[r] == s.rows[r]
  {
    hide Step;
    if es != [] {
      FirstDecisionKept(s, es[..|es| - 1], r);
      RowsKeptStep(Run(s, es[..|es| - 1]), es[|es| - 1], r);
    }
  }

  // ----- one answer per decision -----

  function SettledOf(out: seq<HubFrame>): seq<(string, string)> {
    if out == [] then []
    else
      var last := out[|out| - 1];
      SettledOf(out[..|out| - 1]) + (if last.Settled? then [(last.requestId, last.decision)] else [])
  }

  function AnsweredOf(answers: seq<Answer>): seq<(string, string)> {
    if answers == [] then []
    else
      var last := answers[|answers| - 1];
      AnsweredOf(answers[..|answers| - 1]) + [(last.requestId, last.decision)]
  }

  lemma SettledPush(out: seq<HubFrame>, f: HubFrame)
    ensures SettledOf(out + [f]) == SettledOf(out) + (if f.Settled? then [(f.requestId, f.decision)] else [])
  {
    assert (out + [f])[..|out|] == out;
  }

  lemma AnsweredPush(answers: seq<Answer>, a: Answer)
    ensures AnsweredOf(answers + [a]) == AnsweredOf(answers) + [(a.requestId, a.decision)]
  {
    assert (answers + [a])[..|answers|] == answers;
  }

  /** The log of decisions is one entry per decided row. */
  ghost predicate Logged(rows: Table, log: seq<(string, string)>) {
    && (forall i | 0 <= i < |log| :: log[i].0 in rows && rows[log[i].0].decision == Some(log[i].1))
    && (forall r | r in rows && rows[r].decision.Some? :: (r, rows[r].decision.value) in log)
    && (forall i, j | 0 <= i < j < |log| :: log[i].0 != log[j].0)
  }

  ghost predicate Inv(s: State) {
    && (forall r | Open(s.rows, r) :: r in s.clients)
    && SettledOf(s.out) == AnsweredOf(s.answers)
    && Logged(s.rows, SettledOf(s.out))
  }

  lemma LoggedRecorded(rows: Table, log: seq<(string, string)>, r: string, row: Row)
    requires Logged(rows, log) && row.decision == None
    ensures Logged(Recorded(rows, r, row), log)
  {
  }

  lemma LoggedResolved(rows: Table, log: seq<(string, string)>, r: string, d: string)
    requires Logged(rows, log) && Open(rows, r)
    ensures Logged(Resolved(rows, r, d), log + [(r, d)])
  {
    assert (log + [(r, d)])[|log|] == (r, d);
    forall i | 0 <= i < |log| ensures log[i].0 != r {}
    var after := Resolved(rows, r, d);
    forall x | x in after && after[x].decision.Some? ensures (x, after[x].decision.value) in log + [(r, d)] {
      if x != r {
        assert (x, rows[x].decision.value) in log;
      }
    }
  }

  lemma InvAsk(s: State, e: Ev)
    requires Inv(s) && e.Ask?
    ensures Inv(Step(s, e))
  {
    hide Logged, SessionFsm.Step;
    if e.session.Some? {
      var row := Row(e.session.value, e.tool, e.args, None);
      LoggedRecorded(s.rows, SettledOf(s.out), e.requestId, row);
      SettledPush(s.out, Requested(e.requestId, e.session.value, e.tool, e.args));
      var t := Step(s, e);
      assert SettledOf(s.out) + [] == SettledOf(s.out);
      assert SettledOf(t.out) == SettledOf(s.out);
      assert forall r | Open(t.rows, r) && r != e.requestId :: Open(s.rows, r);
    }
  }

  lemma InvReply(s: State, e: Ev)
    requires Inv(s) && e.Reply?
    ensures Inv(Step(s, e))
  {
    hide Logged, SessionFsm.Step, SettledOf, AnsweredOf;
    if Open(s.rows, e.requestId) {
      var r, d := e.requestId, e.decision;
      LoggedResolved(s.rows, SettledOf(s.out), r, d);
      SettledPush(s.out, Settled(r, e.claimed, d));
      AnsweredPush(s.answers, Answer(s.clients[r], r, d));
      var t := Step(s, e);
      assert forall x | Open(t.rows, x) :: x != r && Open(s.rows, x);
    }
  }

  lemma InvStep(s: State, e: Ev)
    requires Inv(s)
    ensures Inv(Step(s, e))
  {
    hide Logged, SessionFsm.Step, SettledOf, AnsweredOf;
    if e.Ask? {
      InvAsk(s, e);
    } else if e.Reply? {
      InvReply(s, e);
    }
  }

  /** In every run the plugins are answered exactly as the hub is told: one answer and one
      resolution per decided request, in the same order, with the decision the table keeps. */
  lemma {:induction false} OneAnswerPerDecision(es: seq<Ev>)
    ensures var s := Run(INITIAL, es); SettledOf(s.out) == AnsweredOf(s.answers) && Logged(s.rows, SettledOf(s.out))
    ensures Inv(Run(INITIAL, es))
  {
    if es != [] {
      OneAnswerPerDecision(es[..|es| - 1]);
      InvStep(Run(INITIAL, es[..|es| - 1]), es[|es| - 1]);
    }
  }

  /** Reuse of a decided id: whoever asks with it is never answered. */
  lemma {:induction false} DecidedIdNeverAnswered(s: State, es: seq<Ev>, r: string)
    requires r in s.rows && s.rows[r].decision.Some?
    ensures forall a | a in Run(s, es).answers && a !in s.answers :: a.requestId != r
  {
    if es != [] {
      DecidedIdNeverAnswered(s, es[..|es| - 1], r);
      FirstDecisionKept(s, es[..|es| - 1], r);
      NoAnswerStep(Run(s, es[..|es| - 1]), es[|es| - 1], r);
    }
  }

  lemma NoAnswerStep(s: State, e: Ev, r: string)
    requires r in s.rows && s.rows[r].decision.Some?
    ensures forall a | a in Step(s, e).answers && a !in s.answers :: a.requestId != r
  {
    hide SessionFsm.Step;
  }

  // ----- what a run leaves, told from its requests and replies -----

  /** A request that is known: its client registered a session. */
  predicate Asks(e: Ev, r: string) {
    e.Ask? && e.requestId == r && e.session.Some?
  }

  function FirstAsk(es: seq<Ev>, r: string): (e: Option<Ev>)
    ensures e.Some? ==> Asks(e.value, r)
  {
    if es == [] then None
    else
      var before := FirstAsk(es[..|es| - 1], r);
      if before.None? && Asks(es[|es| - 1], r) then Some(es[|es| - 1]) else before
  }

  function LastAsk(es: seq<Ev>, r: string): (e: Option<Ev>)
    ensures e.Some? ==> Asks(e.value, r)
    ensures e.Some? <==> FirstAsk(es, r).Some?
  {
    if es == [] then None
    else if Asks(es[|es| - 1], r) then Some(es[|es| - 1])
    else LastAsk(es[..|es| - 1], r)
  }

  /** The first reply that came once the id had been asked with. */
  function Decider(es: seq<Ev>, r: string): (e: Option<Ev>)
    ensures e.Some? ==> e.value.Reply? && e.value.requestId == r && FirstAsk(es, r).Some?
  {
    if es == [] then None
    else
      var init, last := es[..|es| - 1], es[|es| - 1];
      var before := Decider(init, r);
      if before.None? && last.Reply? && last.requestId == r && FirstAsk(init, r).Some? then Some(last) else before
  }

  predicate Decides(es: seq<Ev>, e: Ev) {
    e.Reply? && FirstAsk(es, e.requestId).Some? && Decider(es, e.requestId).None?
  }

  function RowOf(es: seq<Ev>, r: string): Option<Row> {
    match FirstAsk(es, r)
    case None => None
    case Some(ask) =>
      var d := Decider(es, r);
      Some(Row(ask.session.value, ask.tool, ask.args, if d.Some? then Some(d.value.decision) else None))
  }

  /** What the hub is to hear: every known request, and the reply that decided it as it came. */
  function ToHub(es: seq<Ev>): seq<HubFrame> {
    if es == [] then []
    else
      var init, last := es[..|es| - 1], es[|es| - 1];
      ToHub(init)
        + if last.Ask? && last.session.Some? then
            [Requested(last.requestId, last.session.value, last.tool, last.args)]
          else if Decides(init, last) then [Settled(last.requestId, last.claimed, last.decision)]
          else []
  }

  /** What the plugins are to hear: the decision, told to whoever asked with the id last before it. */
  function ToPlugins(es: seq<Ev>): seq<Answer> {
    if es == [] then []
    else
      var init, last := es[..|es| - 1], es[|es| - 1];
      ToPlugins(init)
        + if Decides(init, last) then
            [Answer(LastAsk(init, last.requestId).value.client, last.requestId, last.decision)]
          else []
  }

  ghost predicate Told(es: seq<Ev>, s: State) {
    && (forall r :: Lookup(s.rows, r) == RowOf(es, r))
    && (forall r | Open(s.rows, r) :: LastAsk(es, r).Some? && Lookup(s.clients, r) == Some(LastAsk(es, r).value.client))
    && s.out == ToHub(es) && s.answers == ToPlugins(es)
  }

  lemma HistoryPush(es: seq<Ev>, e: Ev, r: string)
    ensures FirstAsk(es + [e], r) == if FirstAsk(es, r).None? && Asks(e, r) then Some(e) else FirstAsk(es, r)
    ensures LastAsk(es + [e], r) == if Asks(e, r) then Some(e) else LastAsk(es, r)
    ensures Decider(es + [e], r) == if Decides(es, e) && e.requestId == r then Some(e) else Decider(es, r)
  {
    assert (es + [e])[..|es|] == es;
  }

  lemma FramesPush(es: seq<Ev>, e: Ev)
    ensures ToHub(es + [e]) == ToHub(es)
      + if e.Ask? && e.session.Some? then [Requested(e.requestId, e.session.value, e.tool, e.args)]
        else if Decides(es, e) then [Settled(e.requestId, e.claimed, e.decision)]
        else []
    ensures ToPlugins(es + [e]) == ToPlugins(es)
      + if Decides(es, e) then [Answer(LastAsk(es, e.requestId).value.client, e.requestId, e.decision)] else []
  {
    assert (es + [e])[..|es|] == es;
  }

  /** A reply decides exactly if its row is open. */
  lemma DecidesIff(es: seq<Ev>, s: State, e: Ev)
    requires Told(es, s) && e.Reply?
    ensures Decides(es, e) <==> Open(s.rows, e.requestId)
  {
    hide FirstAsk, LastAsk, Decider, ToHub, ToPlugins;
    assert Lookup(s.rows, e.requestId) == RowOf(es, e.requestId);
  }

  lemma RowStep(es: seq<Ev>, s: State, e: Ev, r: string)
    requires Told(es, s)
    ensures Lookup(Step(s, e).rows, r) == RowOf(es + [e], r)
    ensures var t := Step(s, e);
            Open(t.rows, r) ==>
              var last := LastAsk(es + [e], r); last.Some? && Lookup(t.clients, r) == Some(last.value.client)
  {
    hide FirstAsk, LastAsk, Decider, ToHub, ToPlugins, SessionFsm.Step;
    HistoryPush(es, e, r);
    assert Lookup(s.rows, r) == RowOf(es, r);
    if e.Reply? { DecidesIff(es, s, e); }
  }

  lemma FramesStep(es: seq<Ev>, s: State, e: Ev)
    requires Told(es, s)
    ensures Step(s, e).out == ToHub(es + [e]) && Step(s, e).answers == ToPlugins(es + [e])
  {
    hide FirstAsk, LastAsk, Decider, ToHub, ToPlugins, SessionFsm.Step, RowOf;
    FramesPush(es, e);
    if e.Reply? { DecidesIff(es, s, e); }
  }

  /** For every run: a row holds the session, tool and arguments of the first known request under its id
      and the decision of the first reply after it; the hub hears every known request as it was made
      and every deciding reply under the session it names; and the plugin answered is the one that
      asked with the id last before the decision. */
  lemma {:induction false} RunIsTold(es: seq<Ev>)
    ensures Told(es, Run(INITIAL, es))
  {
    hide Step, RowOf, LastAsk;
    if es == [] {
      NothingTold(es);
    } else {
      var init, e := es[..|es| - 1], es[|es| - 1];
      RunIsTold(init);
      assert init + [e] == es;
      var s := Run(INITIAL, init);
      FramesStep(init, s, e);
      forall r ensures Lookup(Step(s, e).rows, r) == RowOf(es, r) {
        RowStep(init, s, e, r);
      }
      forall r | Open(Step(s, e).rows, r)
        ensures LastAsk(es, r).Some? && Lookup(Step(s, e).clients, r) == Some(LastAsk(es, r).value.client)
      {
        RowStep(init, s, e, r);
      }
    }
  }

  lemma NothingTold(es: seq<Ev>)
    requires es == []
    ensures Told(es, Run(INITIAL, es))
  {
  }

  // ----- accounting -----

  ghost function Unresolved(rows: Table, id: string): set<string> {
    set r | r in rows && rows[r].session == id && rows[r].decision.None?
  }

  ghost function PendingOf(es: SessionFsm.Entries, id: string): nat {
    if id in es then es[id].pendingCount else 0
  }

  /** Every session's pending count is the number of its unresolved rows. */
  ghost predicate Balanced(s: State) {
    forall id :: PendingOf(s.entries, id) == |Unresolved(s.rows, id)|
  }

  /** What keeps the books straight: a new request id, a reply that names the request's own
      session, no removal of a session with pending requests. */
  ghost predicate Careful(s: State, e: Ev) {
    match e
    case Ask(r, _, session, _, _) => session.Some? ==> r !in s.rows
    case Reply(r, claimed, _) => Open(s.rows, r) ==> s.rows[r].session == claimed
    case Removed(id) => PendingOf(s.entries, id) == 0
    case _ => true
  }

  lemma PendingAfter(es: SessionFsm.Entries, e: SessionFsm.Ev, id: string)
    ensures var n, m := PendingOf(es, id), PendingOf(SessionFsm.Step(es, e).entries, id);
            m == (if e == SessionFsm.Request(id) then n + 1
                  else if e == SessionFsm.Resolved(id) then (if n > 0 then n - 1 else 0)
                  else if e == SessionFsm.Remove(id) then 0
                  else n)
  {
  }

  lemma UnresolvedRecorded(rows: Table, r: string, row: Row, id: string)
    requires row.decision == None
    ensures |Unresolved(Recorded(rows, r, row), id)|
         == |Unresolved(rows, id)| + (if r !in rows && row.session == id then 1 else 0)
  {
    if r !in rows {
      var before, after := Unresolved(rows, id), Unresolved(Recorded(rows, r, row), id);
      forall x | x != r ensures x in after <==> x in before {}
      assert r !in before && (r in after <==> row.session == id);
      if row.session == id {
        assert after == before + {r};
      } else {
        assert after == before;
      }
    }
  }

  lemma UnresolvedResolved(rows: Table, r: string, d: string, id: string)
    requires Open(rows, r)
    ensures |Unresolved(Resolved(rows, r, d), id)|
         == |Unresolved(rows, id)| - (if rows[r].session == id then 1 else 0)
  {
    if rows[r].session == id {
      assert Unresolved(rows, id) == Unresolved(Resolved(rows, r, d), id) + {r};
    } else {
      assert Unresolved(rows, id) == Unresolved(Resolved(rows, r, d), id);
    }
  }

  lemma BalanceAsk(s: State, e: Ev)
    requires Balanced(s) && e.Ask?
    ensures Balanced(Step(s, e)) <==> Careful(s, e)
  {
    hide SessionFsm.Step, Unresolved, PendingOf, Recorded;
    if e.session.Some? {
      var row := Row(e.session.value, e.tool, e.args, None);
      forall id ensures PendingOf(Step(s, e).entries, id) - |Unresolved(Step(s, e).rows, id)|
                     == (if id == e.session.value && e.requestId in s.rows then 1 else 0) {
        PendingAfter(s.entries, SessionFsm.Request(e.session.value), id);
        UnresolvedRecorded(s.rows, e.requestId, row, id);
      }
      assert e.requestId in s.rows ==>
          PendingOf(Step(s, e).entries, e.session.value) != |Unresolved(Step(s, e).rows, e.session.value)|;
    }
  }

  lemma BalanceReply(s: State, e: Ev)
    requires Balanced(s) && e.Reply?
    ensures Balanced(Step(s, e)) <==> Careful(s, e)
  {
    hide SessionFsm.Step, Unresolved, PendingOf, Resolved;
    if Open(s.rows, e.requestId) {
      var own := s.rows[e.requestId].session;
      forall id ensures Careful(s, e) ==> PendingOf(Step(s, e).entries, id) == |Unresolved(Step(s, e).rows, id)| {
        PendingAfter(s.entries, SessionFsm.Resolved(e.claimed), id);
        UnresolvedResolved(s.rows, e.requestId, e.decision, id);
      }
      PendingAfter(s.entries, SessionFsm.Resolved(e.claimed), own);
      UnresolvedResolved(s.rows, e.requestId, e.decision, own);
      assert !Careful(s, e) ==> PendingOf(Step(s, e).entries, own) != |Unresolved(Step(s, e).rows, own)|;
    }
  }

  lemma BalanceOther(s: State, e: Ev)
    requires Balanced(s) && !e.Ask? && !e.Reply?
    ensures Balanced(Step(s, e)) <==> Careful(s, e)
  {
    hide SessionFsm.Step, Unresolved, PendingOf;
    var f := if e.Added? then SessionFsm.Register(e.id)
             else if e.Removed? then SessionFsm.Remove(e.id)
             else if e.Line? then SessionFsm.JsonlLine(e.id)
             else SessionFsm.IdleTimer(e.id);
    assert Step(s, e) == s.(entries := SessionFsm.Step(s.entries, f).entries);
    forall id ensures PendingOf(Step(s, e).entries, id) == if e == Removed(id) then 0 else PendingOf(s.entries, id) {
      PendingAfter(s.entries, f, id);
    }
  }

  /** One step from balanced books leaves them balanced exactly when it is a careful one. */
  lemma BalanceStep(s: State, e: Ev)
    requires Balanced(s)
    ensures Balanced(Step(s, e)) <==> Careful(s, e)
  {
    hide Balanced, Careful, Step;
    if e.Ask? {
      BalanceAsk(s, e);
    } else if e.Reply? {
      BalanceReply(s, e);
    } else {
      BalanceOther(s, e);
    }
  }

  ghost predicate AlwaysBalanced(es: seq<Ev>) {
    forall k | 0 <= k <= |es| :: Balanced(Run(INITIAL, es[..k]))
  }

  ghost predicate AlwaysCareful(es: seq<Ev>) {
    forall k | 0 <= k < |es| :: Careful(Run(INITIAL, es[..k]), es[k])
  }

  lemma RunNext(es: seq<Ev>, k: nat)
    requires k < |es|
    ensures Run(INITIAL, es[..k + 1]) == Step(Run(INITIAL, es[..k]), es[k])
  {
    assert es[..k + 1][..k] == es[..k];
  }

  lemma {:induction false} CarefulBalances(es: seq<Ev>, k: nat)
    requires AlwaysCareful(es) && k <= |es|
    ensures Balanced(Run(INITIAL, es[..k]))
  {
    hide Balanced, Careful, Step, Run;
    if k == 0 {
      NothingOwed(es[..0]);
    } else {
      CarefulBalances(es, k - 1);
      BalanceStep(Run(INITIAL, es[..k - 1]), es[k - 1]);
      RunNext(es, k - 1);
    }
  }

  lemma NothingOwed(es: seq<Ev>)
    requires es == []
    ensures Balanced(Run(INITIAL, es))
  {
    assert forall id :: Unresolved(map[], id) == {};
  }

  /** The books balance throughout a run exactly when every step of it is careful. */
  lemma BooksBalanceIff(es: seq<Ev>)
    ensures AlwaysBalanced(es) <==> AlwaysCareful(es)
  {
    hide Balanced, Careful, Step, Run;
    if AlwaysCareful(es) {
      forall k | 0 <= k <= |es| ensures Balanced(Run(INITIAL, es[..k])) {
        CarefulBalances(es, k);
      }
    }
    if AlwaysBalanced(es) {
      forall k | 0 <= k < |es| ensures Careful(Run(INITIAL, es[..k]), es[k]) {
        assert Balanced(Run(INITIAL, es[..k]));
        assert Balanced(Run(INITIAL, es[..k + 1]));
        BalanceStep(Run(INITIAL, es[..k]), es[k]);
        RunNext(es, k);
      }
    }
  }

  ghost predicate EntriesOk(es: SessionFsm.Entries) {
    forall id | id in es :: SessionFsm.EntryOk(es[id])
  }

  lemma FsmKeepsOk(es: SessionFsm.Entries, e: SessionFsm.Ev)
    requires EntriesOk(es)
    ensures EntriesOk(SessionFsm.Step(es, e).entries)
  {
    var b := map id | id in es :: SessionFsm.Mode(es[id]) == Working;
    assert SessionFsm.Refines(es, b);
    SessionFsm.RefinesStep(es, b, e);
  }

  lemma OkStep(s: State, e: Ev)
    requires EntriesOk(s.entries)
    ensures EntriesOk(Step(s, e).entries)
  {
    hide SessionFsm.Step, EntriesOk;
    match e {
      case Ask(_, _, session, _, _) => if session.Some? { FsmKeepsOk(s.entries, SessionFsm.Request(session.value)); }
      case Reply(_, claimed, _) => FsmKeepsOk(s.entries, SessionFsm.Resolved(claimed));
      case Added(id) => FsmKeepsOk(s.entries, SessionFsm.Register(id));
      case Removed(id) => FsmKeepsOk(s.entries, SessionFsm.Remove(id));
      case Line(id) => FsmKeepsOk(s.entries, SessionFsm.JsonlLine(id));
      case IdleFired(id) => FsmKeepsOk(s.entries, SessionFsm.IdleTimer(id));
    }
  }

  lemma {:induction false} OkRun(es: seq<Ev>)
    ensures EntriesOk(Run(INITIAL, es).entries)
  {
    hide Step;
    if es != [] {
      OkRun(es[..|es| - 1]);
      OkStep(Run(INITIAL, es[..|es| - 1]), es[|es| - 1]);
    }
  }

  /** After a careful run a session shows `waiting` exactly while one of its requests is undecided. */
  lemma WaitingIffUnresolved(es: seq<Ev>, id: string)
    requires AlwaysCareful(es)
    ensures var s := Run(INITIAL, es);
            (id in s.entries && s.entries[id].state == Waiting)
            <==> exists r :: r in s.rows && s.rows[r].session == id && s.rows[r].decision.None?
  {
    hide Step, Run, Careful;
    OkRun(es);
    CarefulBalances(es, |es|);
    assert es[..|es|] == es;
    var s := Run(INITIAL, es);
    assert PendingOf(s.entries, id) == |Unresolved(s.rows, id)|;
    if r :| r in s.rows && s.rows[r].session == id && s.rows[r].decision.None? {
      assert r in Unresolved(s.rows, id);
    } else {
      assert Unresolved(s.rows, id) == {};
    }
  }
}
