/** The daemon's reconnecting link to the hub (packages/daemon/src/hub-client.ts). */
module HubClient {
  import opened Arithmetic
  import opened Frames
  import opened Sequences

  /** The readyState of the current WebSocket; `NoSocket` when `ws` is null. */
  datatype Link = NoSocket | Connecting | Open | Closing

  datatype State = State(link: Link, pending: seq<DaemonFrame>, backoff: nat, stopped: bool)

  /** `send`: what reaches the socket now. */
  function Sent(c: State, f: DaemonFrame): (State, seq<DaemonFrame>) {
    if c.link.Open? then (c, [f]) else (c.(pending := c.pending + [f]), [])
  }

  function SentAll(c: State, fs: seq<DaemonFrame>): (State, seq<DaemonFrame>)
    decreases |fs|
  {
    if fs == [] then (c, [])
    else
      var (c1, out) := Sent(c, fs[0]);
      var (c2, rest) := SentAll(c1, fs[1..]);
      (c2, out + rest)
  }

  lemma {:induction false} SentAllIs(c: State, fs: seq<DaemonFrame>)
    ensures SentAll(c, fs).0 == if c.link.Open? then c else c.(pending := c.pending + fs)
    ensures SentAll(c, fs).1 == if c.link.Open? then fs else []
    decreases |fs|
  {
    if fs == [] {
      assert c.pending + fs == c.pending;
    } else {
      var c1 := Sent(c, fs[0]).0;
      SentAllIs(c1, fs[1..]);
      HeadTail(fs);
      if !c.link.Open? {
        Assoc(c.pending, [fs[0]], fs[1..]);
        assert SentAll(c, fs).1 == [] + SentAll(c1, fs[1..]).1;
      }
    }
  }

  /** The `open` event: greeting first, then the replays, then the queue, oldest first. */
  function Opened(c: State, startMs: nat): State {
    c.(link := Open, backoff := startMs, pending := [])
  }

  /** `scheduleReconnect`: the state, and the delay after which `connect` runs again. */
  function Lost(c: State, capMs: nat): (State, Option<nat>) {
    if c.stopped then (c.(link := NoSocket), None)
    else (c.(link := NoSocket, backoff := Min(c.backoff * 2, capMs)), Some(c.backoff))
  }

  function ConnectStarted(c: State): State {
    if c.stopped then c else c.(link := Connecting)
  }

  function Stopped(c: State): State {
    c.(stopped := true, link := if c.link.NoSocket? then NoSocket else Closing)
  }

  // ----- every frame is handed over once, in order -----

  datatype Ev =
    | Send(frame: DaemonFrame)
    | OpenEvent
    | CloseEvent
    | Connect
    | Stop

  /** The state after an event and the caller's frames it hands to a socket, greetings and replays
      not counted. */
  function Step(c: State, e: Ev, startMs: nat, capMs: nat): (State, seq<DaemonFrame>) {
    match e
    case Send(f) => Sent(c, f)
    case OpenEvent => (Opened(c, startMs), c.pending)
    case CloseEvent => (Lost(c, capMs).0, [])
    case Connect => (ConnectStarted(c), [])
    case Stop => (Stopped(c), [])
  }

  function Run(c: State, es: seq<Ev>, startMs: nat, capMs: nat): (State, seq<DaemonFrame>)
    decreases |es|
  {
    if es == [] then (c, [])
    else
      var (c1, out) := Step(c, es[0], startMs, capMs);
      var (c2, rest) := Run(c1, es[1..], startMs, capMs);
      (c2, out + rest)
  }

  function Requested(es: seq<Ev>): seq<DaemonFrame> {
    if es == [] then [] else (if es[0].Send? then [es[0].frame] else []) + Requested(es[1..])
  }

  lemma StepConserves(c: State, e: Ev, startMs: nat, capMs: nat)
    requires c.link.Open? ==> c.pending == []
    ensures var (d, out) := Step(c, e, startMs, capMs);
            && out + d.pending == c.pending + (if e.Send? then [e.frame] else [])
            && (d.link.Open? ==> d.pending == [])
  {
  }

  /** No frame is dropped, repeated or overtaken by the client itself: whatever the link does, the
      frames handed to sockets followed by the queue are the frames that `send` was given. */
  lemma {:induction false} HandedOnceInOrder(c: State, es: seq<Ev>, startMs: nat, capMs: nat)
    requires c.link.Open? ==> c.pending == []
    ensures Run(c, es, startMs, capMs).1 + Run(c, es, startMs, capMs).0.pending == c.pending + Requested(es)
    decreases |es|
  {
    if es != [] {
      var (c1, out) := Step(c, es[0], startMs, capMs);
      StepConserves(c, es[0], startMs, capMs);
      HandedOnceInOrder(c1, es[1..], startMs, capMs);
      var (d, rest) := Run(c1, es[1..], startMs, capMs);
      var now := if es[0].Send? then [es[0].frame] else [];
      Assoc(out, rest, d.pending);
      Assoc(out, c1.pending, Requested(es[1..]));
      Assoc(c.pending, now, Requested(es[1..]));
    }
  }

  // ----- backoff -----

  /** The delays scheduled by `n` failed attempts in a row. */
  function Delays(backoff: nat, capMs: nat, n: nat): seq<nat>
    decreases n
  {
    if n == 0 then [] else [backoff] + Delays(Min(backoff * 2, capMs), capMs, n - 1)
  }

  lemma {:induction false} DelaysLength(start: nat, capMs: nat, n: nat)
    ensures |Delays(start, capMs, n)| == n
    decreases n
  {
    if n > 0 {
      DelaysLength(Min(start * 2, capMs), capMs, n - 1);
    }
  }

  lemma Doubling(start: nat, capMs: nat, p: nat)
    requires p >= 1
    ensures Min(Min(start * 2, capMs) * p, capMs) == Min(start * (2 * p), capMs)
  {
    assert start * (2 * p) == (start * 2) * p;
    if start * 2 >= capMs {
      assert (start * 2) * p >= capMs * p >= capMs by {
        assert capMs * p >= capMs * 1;
        assert (start * 2 - capMs) * p >= 0;
      }
    }
  }

  /** The k-th delay doubles until the cap; only the first may exceed it, when the start does. */
  lemma {:induction false} DelayDoublesToCap(start: nat, capMs: nat, n: nat, k: nat)
    requires k < n
    ensures |Delays(start, capMs, n)| == n
    ensures Delays(start, capMs, n)[k] == if k == 0 then start else Min(start * Pow2(k), capMs)
    decreases n
  {
    DelaysLength(start, capMs, n);
    if k > 0 {
      var next := Min(start * 2, capMs);
      DelayDoublesToCap(next, capMs, n - 1, k - 1);
      if k == 1 {
        assert start * Pow2(1) == start * 2;
      } else {
        Doubling(start, capMs, Pow2(k - 1));
      }
    }
  }

  /** The closings, failing constructors among them, since the link last opened. */
  function Failures(es: seq<Ev>): nat {
    if es == [] || es[|es| - 1].OpenEvent? then 0
    else Failures(es[..|es| - 1]) + if es[|es| - 1].CloseEvent? then 1 else 0
  }

  /** The delay after some failures in a row. */
  function Wait(startMs: nat, capMs: nat, failures: nat): nat {
    if failures == 0 then startMs else Min(startMs * Pow2(failures), capMs)
  }

  lemma WaitDoubles(startMs: nat, capMs: nat, k: nat)
    ensures Min(Wait(startMs, capMs, k) * 2, capMs) == Wait(startMs, capMs, k + 1)
  {
    DelayDoublesToCap(startMs, capMs, k + 2, k);
    DelayDoublesToCap(startMs, capMs, k + 2, k + 1);
    DelaysNext(startMs, capMs, k + 2, k);
  }

  lemma {:induction false} DelaysNext(start: nat, capMs: nat, n: nat, k: nat)
    requires k + 1 < n
    ensures |Delays(start, capMs, n)| == n
    ensures Delays(start, capMs, n)[k + 1] == Min(Delays(start, capMs, n)[k] * 2, capMs)
    decreases n
  {
    DelaysLength(start, capMs, n);
    if k == 0 {
      DelaysLength(Min(start * 2, capMs), capMs, n - 1);
    } else {
      DelaysNext(Min(start * 2, capMs), capMs, n - 1, k - 1);
    }
  }

  lemma {:induction false} RunLast(c: State, es: seq<Ev>, startMs: nat, capMs: nat)
    requires es != []
    ensures Run(c, es, startMs, capMs).0
         == Step(Run(c, es[..|es| - 1], startMs, capMs).0, es[|es| - 1], startMs, capMs).0
    decreases |es|
  {
    hide Step;
    if |es| == 1 {
      assert es[1..] == [] && es[..0] == [];
    } else {
      var init := es[..|es| - 1];
      assert init[1..] == es[1..][..|es| - 2] && init[0] == es[0];
      RunLast(Step(c, es[0], startMs, capMs).0, es[1..], startMs, capMs);
    }
  }

  /** After every run: a closing now schedules a reconnect after the start delay, doubled once for each
      closing since the link last opened and cut off at the cap, and none once the client was stopped. */
  lemma {:induction false} DelayAfterRun(c: State, es: seq<Ev>, startMs: nat, capMs: nat)
    requires c.backoff == startMs && !c.stopped
    ensures Lost(Run(c, es, startMs, capMs).0, capMs).1
         == if Stop in es then None else Some(Wait(startMs, capMs, Failures(es)))
    ensures Run(c, es, startMs, capMs).0.stopped <==> Stop in es
    decreases |es|
  {
    if es != [] {
      var init, e := es[..|es| - 1], es[|es| - 1];
      assert es == init + [e];
      hide Run, Wait;
      DelayAfterRun(c, init, startMs, capMs);
      RunLast(c, es, startMs, capMs);
      WaitDoubles(startMs, capMs, Failures(init));
      assert Wait(startMs, capMs, 0) == startMs by { WaitFirst(startMs, capMs); }
    }
  }

  lemma WaitFirst(startMs: nat, capMs: nat)
    ensures Wait(startMs, capMs, 0) == startMs
  {
  }

  /** The delays scheduled in a run. */
  function Scheduled(c: State, es: seq<Ev>, startMs: nat, capMs: nat): seq<nat> {
    if es == [] then []
    else
      var init := es[..|es| - 1];
      var delay := Lost(Run(c, init, startMs, capMs).0, capMs).1;
      Scheduled(c, init, startMs, capMs) + if es[|es| - 1].CloseEvent? && delay.Some? then [delay.value] else []
  }

  /** One event more. */
  lemma PushEvent(c: State, es: seq<Ev>, e: Ev, startMs: nat, capMs: nat)
    ensures var d := Run(c, es, startMs, capMs).0;
            && Run(c, es + [e], startMs, capMs).0 == Step(d, e, startMs, capMs).0
            && Scheduled(c, es + [e], startMs, capMs)
               == Scheduled(c, es, startMs, capMs)
                  + if e.CloseEvent? && Lost(d, capMs).1.Some? then [Lost(d, capMs).1.value] else []
  {
    hide Run, Step, Lost;
    assert (es + [e])[..|es|] == es;
    RunLast(c, es + [e], startMs, capMs);
  }

  class Client {
    const startMs: nat
    const capMs: nat
    var link: Link
    var pending: seq<DaemonFrame>
    var backoff: nat
    var stopped: bool
    // What was written to sockets, and the delays handed to setTimeout.
    var written: seq<DaemonFrame>
    var delays: seq<nat>
    // History: what has happened to this client.
    ghost var seen: seq<Ev>

    ghost function View(): State
      reads this
    {
      State(link, pending, backoff, stopped)
    }

    /** The state and the delays are those of the run so far, so `DelayAfterRun` speaks of this client. */
    ghost predicate Follows()
      reads this
    {
      View() == Run(Start(), seen, startMs, capMs).0 && delays == Scheduled(Start(), seen, startMs, capMs)
    }

    ghost function Start(): State {
      State(NoSocket, [], startMs, false)
    }

    constructor (startMs: nat, capMs: nat)
      ensures View() == State(NoSocket, [], startMs, false) && written == [] && delays == []
      ensures Follows() && seen == []
      ensures this.startMs == startMs && this.capMs == capMs
    {
      this.startMs, this.capMs := startMs, capMs;
      link, pending, backoff, stopped, written, delays, seen := NoSocket, [], startMs, false, [], [], [];
    }

    /** `ctorFails`: the WebSocket constructor, or signing its proof, throws. */
    method Connect(ctorFails: bool)
      modifies this
      ensures View() == old(if stopped || !ctorFails then ConnectStarted(View()) else Lost(View(), capMs).0)
      ensures written == old(written)
      ensures delays == old(delays) + (if old(stopped) || !ctorFails then [] else [old(backoff)])
      ensures old(stopped) ==> link == old(link)
      ensures seen == old(seen) + [if old(stopped) || !ctorFails then Ev.Connect else CloseEvent]
      ensures old(Follows()) ==> Follows()
    {
      if ctorFails && !stopped {
        ScheduleReconnect();
        return;
      }
      PushEvent(Start(), seen, Ev.Connect, startMs, capMs);
      hide Run, Scheduled;
      seen := seen + [Ev.Connect];
      assert delays + [] == delays;
      if stopped { return; }
      link := Connecting;
    }

    method OnOpen(hello: DaemonFrame, replays: seq<DaemonFrame>)
      modifies this
      ensures View() == old(Opened(View(), startMs))
      ensures written == old(written) + [hello] + replays + old(pending)
      ensures delays == old(delays) && seen == old(seen) + [OpenEvent]
      ensures old(Follows()) ==> Follows()
    {
      PushEvent(Start(), seen, OpenEvent, startMs, capMs);
      hide Run, Scheduled;
      seen := seen + [OpenEvent];
      assert delays + [] == delays;
      backoff := startMs;
      link := Open;
      written := written + [hello];
      ghost var greeted := written;
      for i := 0 to |replays|
        invariant written == greeted + replays[..i]
        invariant pending == old(pending) && link == Open && backoff == startMs
        invariant stopped == old(stopped) && delays == old(delays) && seen == old(seen) + [OpenEvent]
      {
        assert replays[..i + 1] == replays[..i] + [replays[i]];
        written := written + [replays[i]];
      }
      assert replays[..|replays|] == replays;
      while |pending| > 0
        invariant written + pending == greeted + replays + old(pending)
        invariant link == Open && backoff == startMs && stopped == old(stopped) && delays == old(delays)
        invariant seen == old(seen) + [OpenEvent]
        decreases |pending|
      {
        var f := pending[0];
        pending := pending[1..];
        written := written + [f];
      }
      assert written == written + pending;
    }

    method Send(f: DaemonFrame) returns (delivered: bool)
      modifies this
      ensures View() == old(Sent(View(), f).0)
      ensures written == old(written + Sent(View(), f).1)
      ensures delivered == old(link.Open?)
      ensures delays == old(delays) && seen == old(seen) + [Ev.Send(f)]
      ensures old(Follows()) ==> Follows()
    {
      PushEvent(Start(), seen, Ev.Send(f), startMs, capMs);
      hide Run, Scheduled;
      seen := seen + [Ev.Send(f)];
      assert delays + [] == delays;
      if link == Open {
        written := written + [f];
        return true;
      }
      pending := pending + [f];
      return false;
    }

    /** The `close` event, also reached when the constructor throws. */
    method ScheduleReconnect()
      modifies this
      ensures View() == old(Lost(View(), capMs).0)
      ensures delays == old(delays) + (if old(stopped) then [] else [old(backoff)])
      ensures !old(stopped) ==> backoff == Min(old(backoff) * 2, capMs)
      ensures written == old(written) && seen == old(seen) + [CloseEvent]
      ensures old(Follows()) ==> Follows()
    {
      PushEvent(Start(), seen, CloseEvent, startMs, capMs);
      hide Run, Scheduled;
      seen := seen + [CloseEvent];
      assert delays + [] == delays;
      link := NoSocket;
      if stopped { return; }
      delays := delays + [backoff];
      backoff := Min(backoff * 2, capMs);
    }

    method Close()
      modifies this
      ensures View() == old(Stopped(View()))
      ensures written == old(written) && delays == old(delays) && seen == old(seen) + [Stop]
      ensures old(Follows()) ==> Follows()
    {
      PushEvent(Start(), seen, Stop, startMs, capMs);
      hide Run, Scheduled;
      seen := seen + [Stop];
      assert delays + [] == delays;
      stopped := true;
      if link != NoSocket { link := Closing; }
    }
  }
}
