/** The promise chain behind which the process registry queues its calls
    (`enqueue` in packages/daemon/src/process-registry.ts), with its reactions run in any order. */
module PromiseChain {

  datatype Status = Waiting | Running | Settled(ok: bool)

  /** What a promise does once its parent has settled, either way. */
  datatype Kind = Root | Call(call: nat) | Swallow

  datatype Promise = Promise(kind: Kind, parent: nat, status: Status)

  /** All promises made, which of them `chain` names, and how many calls there were. */
  datatype State = State(promises: seq<Promise>, chain: nat, calls: nat)

  datatype Ev = Enqueue | React(promise: nat) | Finish(promise: nat, ok: bool)

  const INITIAL := State([Promise(Root, 0, Settled(true))], 0, 0)

  /** The parent of a waiting promise has settled, so its reaction is due. */
  predicate Due(s: State, i: nat) {
    && i < |s.promises| && s.promises[i].status.Waiting?
    && s.promises[i].parent < |s.promises| && s.promises[s.promises[i].parent].status.Settled?
  }

  predicate Runs(s: State, i: nat) {
    i < |s.promises| && s.promises[i].status.Running?
  }

  function WithStatus(s: State, i: nat, status: Status): State
    requires i < |s.promises|
  {
    s.(promises := s.promises[i := s.promises[i].(status := status)])
  }

  /** `enqueue`: `then` with the call as both handlers, and a `catch` that the chain goes on from. */
  function Next(s: State, e: Ev): State {
    match e
    case Enqueue =>
      State(s.promises + [Promise(Call(s.calls), s.chain, Waiting), Promise(Swallow, |s.promises|, Waiting)],
            |s.promises| + 1, s.calls + 1)
    case React(i) =>
      if !Due(s, i) then s else WithStatus(s, i, if s.promises[i].kind.Call? then Running else Settled(true))
    case Finish(i, ok) => if !Runs(s, i) then s else WithStatus(s, i, Settled(ok))
  }

  function Run(es: seq<Ev>): State {
    if es == [] then INITIAL else Next(Run(es[..|es| - 1]), es[|es| - 1])
  }

  /** The promise of a call. */
  function PromiseOf(call: nat): nat {
    2 * call + 1
  }

  ghost predicate Shape(s: State) {
    && |s.promises| == 2 * s.calls + 1 && s.chain == 2 * s.calls
    && s.promises[0].kind.Root? && s.promises[0].status.Settled?
    && (forall i | 0 < i < |s.promises| ::
          s.promises[i].parent == i - 1 && s.promises[i].kind == if i % 2 == 1 then Call(i / 2) else Swallow)
  }

  ghost predicate InTurn(s: State) {
    && (forall i | 0 < i < |s.promises| && !s.promises[i].status.Waiting? :: s.promises[i - 1].status.Settled?)
    && (forall i | 0 <= i < |s.promises| && s.promises[i].kind.Swallow? :: !s.promises[i].status.Running?)
  }

  lemma ShapeStep(s: State, e: Ev)
    requires Shape(s)
    ensures Shape(Next(s, e))
  {
  }

  lemma InTurnStep(s: State, e: Ev)
    requires Shape(s) && InTurn(s)
    ensures InTurn(Next(s, e))
  {
    if e.Enqueue? {
      var t := Next(s, e);
      assert forall i | 0 <= i < |s.promises| :: t.promises[i] == s.promises[i];
    }
  }

  lemma {:induction false} InTurnRun(es: seq<Ev>)
    ensures Shape(Run(es)) && InTurn(Run(es))
  {
    hide Next, Shape, InTurn;
    if es == [] {
      InitialInTurn();
    } else {
      InTurnRun(es[..|es| - 1]);
      ShapeStep(Run(es[..|es| - 1]), es[|es| - 1]);
      InTurnStep(Run(es[..|es| - 1]), es[|es| - 1]);
    }
  }

  lemma InitialInTurn()
    ensures Shape(INITIAL) && InTurn(INITIAL)
  {
  }

  lemma {:induction false} EarlierSettled(s: State, i: nat, j: nat)
    requires Shape(s) && InTurn(s) && i < j < |s.promises| && !s.promises[j].status.Waiting?
    ensures s.promises[i].status.Settled?
    decreases j - i
  {
    if i < j - 1 { EarlierSettled(s, i, j - 1); }
  }

  /** How many promises from the front have settled. */
  function SettledFrom(promises: seq<Promise>, i: nat): (n: nat)
    requires i <= |promises|
    ensures i <= n <= |promises|
    ensures forall k | i <= k < n :: promises[k].status.Settled?
    ensures n < |promises| ==> !promises[n].status.Settled?
    decreases |promises| - i
  {
    if i < |promises| && promises[i].status.Settled? then SettledFrom(promises, i + 1) else i
  }

  /** How many calls have ended. */
  function Ended(s: State): nat {
    SettledFrom(s.promises, 0) / 2
  }

  /** The calls that have ended are the first ones made, whichever way each ended; only the next can be
      running; and if there is a next one that is not running, a reaction is due, so that it or the
      promise in front of it moves on. */
  lemma CallsTakeTurns(es: seq<Ev>, call: nat)
    requires call < Run(es).calls
    ensures var s := Run(es);
            && PromiseOf(call) < |s.promises| && s.promises[PromiseOf(call)].kind == Call(call)
            && (s.promises[PromiseOf(call)].status.Settled? <==> call < Ended(s))
            && (Runs(s, PromiseOf(call)) ==> call == Ended(s))
            && (call == Ended(s) && !Runs(s, PromiseOf(call)) ==>
                  Due(s, PromiseOf(call)) || Due(s, PromiseOf(call) - 1))
  {
    hide Run;
    InTurnRun(es);
    var s := Run(es);
    var i, n := PromiseOf(call), SettledFrom(s.promises, 0);
    if !s.promises[i].status.Waiting? { EarlierSettled(s, i - 1, i); }
    if n < i && !s.promises[i].status.Waiting? { EarlierSettled(s, n, i); }
    if call == Ended(s) { assert n == i || n == i - 1; }
  }

  /** A step of the chain is a step of a first-in-first-out queue: a call joins at the end, the call
      that ends is the first one still waiting, and every other step leaves both alone. */
  lemma ChainIsQueue(es: seq<Ev>, e: Ev)
    ensures var s, t := Run(es), Run(es + [e]);
            && Ended(s) <= s.calls
            && t.calls == (if e.Enqueue? then s.calls + 1 else s.calls)
            && Ended(t) == (if e.Finish? && Runs(s, e.promise) then Ended(s) + 1 else Ended(s))
            && (e.Finish? && Runs(s, e.promise) ==> s.promises[e.promise].kind == Call(Ended(s)))
  {
    hide Run;
    InTurnRun(es);
    InTurnRun(es + [e]);
    var s, t := Run(es), Run(es + [e]);
    assert t == Next(s, e) by { RunPush(es, e); }
    EndedBy(s, e);
  }

  lemma RunPush(es: seq<Ev>, e: Ev)
    ensures Run(es + [e]) == Next(Run(es), e)
  {
    assert (es + [e])[..|es|] == es;
  }

  lemma SettledUpTo(promises: seq<Promise>, n: nat)
    requires n <= |promises| && forall k | 0 <= k < n :: promises[k].status.Settled?
    requires n < |promises| ==> !promises[n].status.Settled?
    ensures SettledFrom(promises, 0) == n
  {
  }

  lemma EndedBy(s: State, e: Ev)
    requires Shape(s) && InTurn(s)
    ensures Ended(s) <= s.calls
    ensures Ended(Next(s, e)) == if e.Finish? && Runs(s, e.promise) then Ended(s) + 1 else Ended(s)
    ensures e.Finish? && Runs(s, e.promise) ==> s.promises[e.promise].kind == Call(Ended(s))
  {
    hide SettledFrom;
    var n := SettledFrom(s.promises, 0);
    var t := Next(s, e);
    match e
    case Enqueue =>
      SettledUpTo(t.promises, n);
    case React(i) =>
      if Due(s, i) {
        if n < i - 1 { EarlierSettled(s, n, i - 1); }
        assert n == i;
        SettledUpTo(t.promises, if s.promises[i].kind.Call? then i else i + 1);
      }
    case Finish(i, _) =>
      if Runs(s, i) {
        if n < i { EarlierSettled(s, n, i); }
        assert n == i;
        SettledUpTo(t.promises, i + 1);
      }
  }
}
