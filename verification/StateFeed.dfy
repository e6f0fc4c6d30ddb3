/** The state machine's notifications fed into the live sessions: the transition listener of
    packages/daemon/src/index.ts between packages/daemon/src/session-fsm.ts and registry.ts. */
module StateFeed {
  import opened Frames
  import Registry
  import SessionFsm

  /** The live sessions after the listener has heard some notifications. */
  function Fed(list: seq<Snapshot>, notes: seq<SessionFsm.Note>): seq<Snapshot> {
    if notes == [] then list
    else
      var n := notes[|notes| - 1];
      Registry.Updated(Fed(list, notes[..|notes| - 1]), n.id, Registry.SetState(n.state))
  }

  ghost predicate Notified(notes: seq<SessionFsm.Note>, id: string) {
    exists i :: 0 <= i < |notes| && notes[i].id == id
  }

  lemma FedPush(list: seq<Snapshot>, notes: seq<SessionFsm.Note>, n: SessionFsm.Note)
    ensures Fed(list, notes + [n]) == Registry.Updated(Fed(list, notes), n.id, Registry.SetState(n.state))
  {
    assert (notes + [n])[..|notes|] == notes;
  }

  lemma NotifiedPush(notes: seq<SessionFsm.Note>, n: SessionFsm.Note, id: string)
    ensures Notified(notes + [n], id) <==> Notified(notes, id) || n.id == id
  {
    var all := notes + [n];
    assert all[|notes|] == n;
    if Notified(notes, id) {
      var i :| 0 <= i < |notes| && notes[i].id == id;
      assert all[i].id == id;
    }
  }

  ghost predicate InStep(list: seq<Snapshot>, es: SessionFsm.Entries, id: string) {
    Find(list, id).Some? && id in es && Find(list, id).value.state == es[id].state
  }

  /** Whatever the machine is told while the session stays registered: its live state is the machine's
      state exactly when the two agreed at registration or the machine has made any transition since. */
  lemma {:induction false} LiveStateFollows(list: seq<Snapshot>, es: SessionFsm.Entries, evs: seq<SessionFsm.Ev>, id: string)
    requires Find(list, id).Some? && id in es && SessionFsm.Remove(id) !in evs
    ensures var out := SessionFsm.RunOf(es, evs);
            && id in out.entries && Find(Fed(list, out.notes), id).Some?
            && (!Notified(out.notes, id) ==>
                  Find(Fed(list, out.notes), id) == Find(list, id) && out.entries[id].state == es[id].state)
            && (Notified(out.notes, id) ==> InStep(Fed(list, out.notes), out.entries, id))
            && (InStep(Fed(list, out.notes), out.entries, id) <==>
                  InStep(list, es, id) || Notified(out.notes, id))
  {
    hide SessionFsm.Step, Fed, Notified, Find;
    if evs == [] {
      NothingFed(list, id);
    } else {
      var init, e := evs[..|evs| - 1], evs[|evs| - 1];
      assert e in evs;
      LiveStateFollows(list, es, init, id);
      var before := SessionFsm.RunOf(es, init);
      var notes := SessionFsm.Step(before.entries, e).notes;
      SessionFsm.StepNotes(before.entries, e, id);
      if notes == [] {
        assert before.notes + notes == before.notes;
      } else {
        var n := notes[0];
        assert notes == [n];
        FedPush(list, before.notes, n);
        NotifiedPush(before.notes, n, id);
        Registry.FindUpdated(Fed(list, before.notes), n.id, Registry.SetState(n.state), id);
      }
    }
  }

  lemma NothingFed(list: seq<Snapshot>, id: string)
    ensures Fed(list, []) == list && !Notified([], id)
  {
  }
}
