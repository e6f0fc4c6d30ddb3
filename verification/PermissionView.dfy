/** Which permission requests a browser shows as pending: they are broadcast once, neither cached at the
    hub nor replayed (packages/hub/src/router.ts, packages/pwa/src/hooks/useHub.ts). */
module PermissionView {
  import opened Permissions

  /** The browser's pending permissions.  `heard` are the places of the frames that reached it: those the
      link carried, of a daemon the hub knew, while the browser was subscribed. */
  function Shown(out: seq<HubFrame>, heard: set<nat>): map<string, HubFrame> {
    if out == [] then map[]
    else
      var n := |out| - 1;
      var before := Shown(out[..n], heard);
      if n !in heard then before
      else if out[n].Requested? then before[out[n].requestId := out[n]]
      else before - {out[n].requestId}
  }

  predicate RequestAt(out: seq<HubFrame>, i: nat, r: string) {
    i < |out| && out[i].Requested? && out[i].requestId == r
  }

  predicate SettledAt(out: seq<HubFrame>, i: nat, r: string) {
    i < |out| && out[i].Settled? && out[i].requestId == r
  }

  /** A heard request after which no resolution was heard. */
  ghost predicate Standing(out: seq<HubFrame>, heard: set<nat>, i: nat, r: string) {
    RequestAt(out, i, r) && i in heard && forall j: nat | j in heard && SettledAt(out, j, r) :: j < i
  }

  lemma {:induction false} ShownIff(out: seq<HubFrame>, heard: set<nat>, r: string)
    ensures r in Shown(out, heard) <==> exists i :: Standing(out, heard, i, r)
  {
    if out != [] {
      var n := |out| - 1;
      var init := out[..n];
      ShownIff(init, heard, r);
      forall i: nat | i < n ensures RequestAt(init, i, r) == RequestAt(out, i, r) && SettledAt(init, i, r) == SettledAt(out, i, r) {}
      if n in heard && out[n].requestId == r {
        if out[n].Requested? {
          assert Standing(out, heard, n, r);
        } else {
          assert SettledAt(out, n, r);
        }
      } else {
        forall i: nat ensures Standing(out, heard, i, r) <==> Standing(init, heard, i, r) {
          forall j: nat | j in heard ensures SettledAt(out, j, r) <==> SettledAt(init, j, r) {}
        }
      }
    }
  }

  lemma {:induction false} SettledLogged(out: seq<HubFrame>, i: nat)
    requires i < |out| && out[i].Settled?
    ensures (out[i].requestId, out[i].decision) in SettledOf(out)
  {
    if i < |out| - 1 {
      SettledLogged(out[..|out| - 1], i);
      assert out[..|out| - 1][i] == out[i];
    }
  }

  /** No resolution of an undecided request was ever sent. */
  lemma UndecidedUnsettled(es: seq<Ev>, r: string, i: nat)
    requires var s := Run(INITIAL, es); Open(s.rows, r)
    ensures !SettledAt(Run(INITIAL, es).out, i, r)
  {
    hide Run, SettledOf;
    var s := Run(INITIAL, es);
    OneAnswerPerDecision(es);
    if SettledAt(s.out, i, r) {
      SettledLogged(s.out, i);
      LoggedIsDecided(s.rows, SettledOf(s.out), r, s.out[i].decision);
    }
  }

  lemma LoggedIsDecided(rows: Table, log: seq<(string, string)>, r: string, d: string)
    requires Logged(rows, log) && (r, d) in log
    ensures !Open(rows, r)
  {
    var k :| 0 <= k < |log| && log[k] == (r, d);
    assert log[k].0 == r;
  }

  /** For every run and whatever frames get through: a browser shows an undecided request as pending
      exactly when a frame that asked it reached the browser. */
  lemma UndecidedShownIff(es: seq<Ev>, heard: set<nat>, r: string)
    requires Open(Run(INITIAL, es).rows, r)
    ensures var out := Run(INITIAL, es).out;
            r in Shown(out, heard) <==> exists i :: i in heard && RequestAt(out, i, r)
  {
    hide Run, Shown;
    var out := Run(INITIAL, es).out;
    ShownIff(out, heard, r);
    forall j: nat ensures !SettledAt(out, j, r) { UndecidedUnsettled(es, r, j); }
    if i :| i in heard && RequestAt(out, i, r) {
      assert Standing(out, heard, i, r);
    }
    if i :| Standing(out, heard, i, r) {
      assert i in heard && RequestAt(out, i, r);
    }
  }

  lemma {:induction false} SettledPlace(out: seq<HubFrame>, r: string, d: string)
    requires (r, d) in SettledOf(out)
    ensures exists k :: SettledAt(out, k, r)
  {
    var n := |out| - 1;
    var last := out[n];
    if last.Settled? && last.requestId == r {
      assert SettledAt(out, n, r);
    } else {
      SettledPlace(out[..n], r, d);
      var k :| SettledAt(out[..n], k, r);
      assert SettledAt(out, k, r);
    }
  }

  /** Some id stands twice in the log. */
  ghost predicate Repeats(log: seq<(string, string)>) {
    exists x, y :: 0 <= x < y < |log| && log[x].0 == log[y].0
  }

  lemma {:induction false} SettledTwice(out: seq<HubFrame>, i: nat, j: nat, r: string)
    requires i < j && SettledAt(out, i, r) && SettledAt(out, j, r)
    ensures Repeats(SettledOf(out))
  {
    var n := |out| - 1;
    var init := out[..n];
    var log, all := SettledOf(init), SettledOf(out);
    assert forall x | 0 <= x < |log| :: all[x] == log[x];
    if j < n {
      SettledTwice(init, i, j, r);
      var x, y :| 0 <= x < y < |log| && log[x].0 == log[y].0;
      assert all[x].0 == all[y].0;
    } else {
      SettledLogged(init, i);
      var x :| 0 <= x < |log| && log[x] == (r, init[i].decision);
      assert all[x].0 == all[|log|].0;
    }
  }

  lemma OneSettled(out: seq<HubFrame>, i: nat, j: nat, r: string)
    requires SettledAt(out, i, r) && SettledAt(out, j, r) && !Repeats(SettledOf(out))
    ensures i == j
  {
    if i < j {
      SettledTwice(out, i, j, r);
    } else if j < i {
      SettledTwice(out, j, i, r);
    }
  }

  /** A decided request has exactly one resolution frame.  A browser still shows the request as pending
      exactly when a request under its id reached the browser after that frame was sent, or one reached
      it and that frame did not. */
  lemma DecidedShownIff(es: seq<Ev>, heard: set<nat>, r: string) returns (k: nat)
    requires var s := Run(INITIAL, es); r in s.rows && s.rows[r].decision.Some?
    ensures var out := Run(INITIAL, es).out;
            && SettledAt(out, k, r) && (forall j: nat | SettledAt(out, j, r) :: j == k)
            && (r in Shown(out, heard) <==>
                  exists i :: i in heard && RequestAt(out, i, r) && (k !in heard || k < i))
  {
    hide Run, Shown, SettledOf;
    var s := Run(INITIAL, es);
    var out := s.out;
    OneAnswerPerDecision(es);
    SettledPlace(out, r, s.rows[r].decision.value);
    k :| SettledAt(out, k, r);
    forall j: nat | SettledAt(out, j, r) ensures j == k { OneSettled(out, j, k, r); }
    ShownIff(out, heard, r);
    forall i: nat ensures Standing(out, heard, i, r) <==> i in heard && RequestAt(out, i, r) && (k !in heard || k < i) {}
  }
}
