/** The browser's event buffer of a session that moves from one transcript to the next
    (`session_rebound` in packages/pwa/src/hooks/useHub.ts, sent by packages/daemon/src/index.ts). */
module Rebinds {
  import opened MergeBuffer
  import opened Sequences
  import opened StableSort

  /** What every transcript of the session contains, by number: offset and events of each row. */
  type Files = nat -> map<int, seq<string>>

  /** A frame of the session, in the order of sending.  A live row comes from the present transcript, an
      answer perhaps from an earlier one, whose reading began before the rebind. */
  datatype Item = Rows(of: nat, delivery: Delivery) | Rebound

  /** `current` counts the rebinds sent.  History: the transcripts that brought something to the buffer
      since it was last cleared. */
  datatype View = View(current: nat, session: Session, from: set<nat>)

  const ARRIVAL := View(0, EMPTY, {})

  /** The events a delivery brings that the buffer does not have. */
  function News(s: Session, d: Delivery): seq<Buffered> {
    match d
    case Live(row) => FlatIfNew(s.events, row)
    case Chunk(rows) => NewFlat(s.events, rows)
  }

  /** A frame is sent, and reaches the browser or not. */
  function Next(v: View, i: Item, heard: bool): View {
    match i
    case Rebound =>
      v.(current := v.current + 1, session := if heard then EMPTY else v.session, from := if heard then {} else v.from)
    case Rows(of, d) =>
      if !heard then v
      else v.(session := Deliver(v.session, d), from := if News(v.session, d) == [] then v.from else v.from + {of})
  }

  ghost predicate InFile(file: map<int, seq<string>>, e: Buffered) {
    e.offset in file && e.index < |file[e.offset]| && file[e.offset][e.index] == e.event
  }

  /** The rows are of the transcript they come from, live ones of the present one, and the buffer has
      room for them. */
  ghost predicate ItemOk(files: Files, v: View, i: Item) {
    i.Rows? ==>
      && i.of <= v.current && (i.delivery.Live? ==> i.of == v.current)
      && FromFile(files(i.of), i.delivery)
      && |v.session.events| + |News(v.session, i.delivery)| <= PER_SESSION_BUFFER
  }

  /** No event is in two transcripts. */
  ghost predicate Apart(files: Files) {
    forall t: nat, u: nat, e | InFile(files(t), e) && InFile(files(u), e) :: t == u
  }

  /** The buffer holds events of the present transcript and no others. */
  ghost predicate Alone(files: Files, v: View) {
    forall e | e in v.session.events :: InFile(files(v.current), e)
  }

  ghost predicate Inv(files: Files, v: View) {
    && (forall e | e in v.session.events :: exists t :: t in v.from && InFile(files(t), e))
    && (forall t | t in v.from :: exists e :: e in v.session.events && InFile(files(t), e))
  }

  lemma NewsInFile(files: Files, v: View, i: Item, e: Buffered)
    requires ItemOk(files, v, i) && i.Rows? && e in News(v.session, i.delivery)
    ensures InFile(files(i.of), e)
  {
    match i.delivery {
      case Live(row) =>
      case Chunk(rows) =>
        NewFlatMembers(v.session.events, rows, e);
        var r :| r in rows && e in Flat(r);
    }
  }

  /** A delivery adds its news and loses nothing. */
  lemma DeliverAdds(files: Files, v: View, i: Item)
    requires ItemOk(files, v, i) && i.Rows?
    ensures forall e :: e in Deliver(v.session, i.delivery).events
                    <==> e in v.session.events || e in News(v.session, i.delivery)
  {
    hide FromFile, NewFlat, FlatIfNew, Flat;
    var s := v.session;
    match i.delivery {
      case Live(row) => LiveAdds(s, row);
      case Chunk(rows) =>
        if rows == [] {
          NoNews(s.events);
        } else if NewFlat(s.events, rows) != [] {
          SortMembers(ByOffset, NewFlat(s.events, rows) + s.events);
        }
    }
  }

  lemma LiveAdds(s: Session, row: EventRow)
    requires |s.events| + |FlatIfNew(s.events, row)| <= PER_SESSION_BUFFER
    ensures forall e :: e in OnEvent(s, row).events <==> e in s.events || e in FlatIfNew(s.events, row)
  {
    if !Has(s.events, row.offset) {
      assert LastN(s.events + Flat(row), PER_SESSION_BUFFER) == s.events + Flat(row);
    }
  }

  lemma InvRows(files: Files, v: View, i: Item)
    requires Inv(files, v) && ItemOk(files, v, i) && i.Rows?
    ensures Inv(files, Next(v, i, true))
  {
    hide ItemOk, InFile, Deliver, News;
    hide Next;
    var w := Next(v, i, true);
    forall e | e in w.session.events ensures exists t :: t in w.from && InFile(files(t), e) {
      EventHasSource(files, v, i, e);
    }
    forall t | t in w.from ensures exists e :: e in w.session.events && InFile(files(t), e) {
      SourceHasEvent(files, v, i, t);
    }
  }

  lemma EventHasSource(files: Files, v: View, i: Item, e: Buffered)
    requires Inv(files, v) && ItemOk(files, v, i) && i.Rows? && e in Next(v, i, true).session.events
    ensures exists t :: t in Next(v, i, true).from && InFile(files(t), e)
  {
    hide ItemOk, InFile, Deliver, News;
    DeliverAdds(files, v, i);
    if e in News(v.session, i.delivery) {
      NewsInFile(files, v, i, e);
      assert i.of in Next(v, i, true).from;
    } else {
      var t :| t in v.from && InFile(files(t), e);
      assert t in Next(v, i, true).from;
    }
  }

  lemma SourceHasEvent(files: Files, v: View, i: Item, t: nat)
    requires Inv(files, v) && ItemOk(files, v, i) && i.Rows? && t in Next(v, i, true).from
    ensures exists e :: e in Next(v, i, true).session.events && InFile(files(t), e)
  {
    hide ItemOk, InFile, Deliver, News;
    var news := News(v.session, i.delivery);
    DeliverAdds(files, v, i);
    if t in v.from {
      var e :| e in v.session.events && InFile(files(t), e);
      assert e in Next(v, i, true).session.events;
    } else {
      assert news[0] in news;
      NewsInFile(files, v, i, news[0]);
      assert news[0] in Next(v, i, true).session.events;
    }
  }

  lemma InvStep(files: Files, v: View, i: Item, heard: bool)
    requires Inv(files, v) && ItemOk(files, v, i)
    ensures Inv(files, Next(v, i, heard))
  {
    hide ItemOk, InFile;
    if heard && i.Rows? { InvRows(files, v, i); }
  }

  /** The buffer is of the present transcript alone exactly if nothing came to it from another since it
      was last cleared. */
  lemma AloneIff(files: Files, v: View)
    requires Apart(files) && Inv(files, v)
    ensures Alone(files, v) <==> forall t | t in v.from :: t == v.current
  {
    hide InFile;
    if Alone(files, v) {
      forall t | t in v.from ensures t == v.current {
        var e :| e in v.session.events && InFile(files(t), e);
      }
    }
  }

  /** A rebind passes unheard over a buffer that is not empty, or an answer from an earlier transcript
      brings something. */
  predicate Mixes(v: View, i: Item, heard: bool) {
    if i.Rebound? then !heard && v.session.events != []
    else heard && i.of != v.current && News(v.session, i.delivery) != []
  }

  /** A frame leaves the buffer of the present transcript alone exactly if it does not mix. */
  lemma AloneStepIff(files: Files, v: View, i: Item, heard: bool)
    requires Apart(files) && Inv(files, v) && ItemOk(files, v, i) && Alone(files, v)
    ensures Alone(files, Next(v, i, heard)) <==> !Mixes(v, i, heard)
  {
    hide ItemOk, InFile, Deliver, News, Apart, Alone;
    InvStep(files, v, i, heard);
    AloneIff(files, v);
    AloneIff(files, Next(v, i, heard));
    if v.session.events != [] {
      assert v.session.events[0] in v.session.events;
    }
  }

  // ----- runs -----

  datatype Sent = Sent(item: Item, heard: bool)

  ghost predicate RunOk(files: Files, v: View, es: seq<Sent>)
    decreases |es|
  {
    es != [] ==> ItemOk(files, v, es[0].item) && RunOk(files, Next(v, es[0].item, es[0].heard), es[1..])
  }

  ghost predicate AloneThroughout(files: Files, v: View, es: seq<Sent>)
    decreases |es|
  {
    Alone(files, v) && (es != [] ==> AloneThroughout(files, Next(v, es[0].item, es[0].heard), es[1..]))
  }

  predicate NeverMixes(v: View, es: seq<Sent>)
    decreases |es|
  {
    es != [] ==> !Mixes(v, es[0].item, es[0].heard) && NeverMixes(Next(v, es[0].item, es[0].heard), es[1..])
  }

  lemma {:induction false} AloneRunIff(files: Files, v: View, es: seq<Sent>)
    requires Apart(files) && Inv(files, v) && RunOk(files, v, es) && Alone(files, v)
    ensures AloneThroughout(files, v, es) <==> NeverMixes(v, es)
    decreases |es|
  {
    hide Apart, Inv, Alone, ItemOk, Next, Mixes;
    if es != [] {
      var w := Next(v, es[0].item, es[0].heard);
      AloneStepIff(files, v, es[0].item, es[0].heard);
      InvStep(files, v, es[0].item, es[0].heard);
      if Alone(files, w) { AloneRunIff(files, w, es[1..]); }
    }
  }

  /** From the browser's arrival on, its buffer holds rows of the present transcript alone at every point
      exactly if no rebind passes unheard over a filled buffer and no answer from an earlier
      transcript brings anything. */
  lemma AloneThroughoutIff(files: Files, es: seq<Sent>)
    requires Apart(files) && RunOk(files, ARRIVAL, es)
    ensures AloneThroughout(files, ARRIVAL, es) <==> NeverMixes(ARRIVAL, es)
  {
    hide Apart, RunOk, Mixes;
    AloneRunIff(files, ARRIVAL, es);
  }

  /** After such a rebind a row of the new transcript at an offset that the old one left in the buffer
      is dropped: none of its events is shown. */
  lemma MissedRebindHidesRow(files: Files, v: View, row: EventRow)
    requires Apart(files) && Inv(files, v) && Alone(files, v) && Has(v.session.events, row.offset)
    requires ItemOk(files, Next(v, Rebound, false), Rows(v.current + 1, Live(row)))
    ensures var w := Next(Next(v, Rebound, false), Rows(v.current + 1, Live(row)), true);
            w.session == v.session && forall e | e in Flat(row) :: e !in w.session.events
  {
    var w := Next(Next(v, Rebound, false), Rows(v.current + 1, Live(row)), true);
    forall e | e in Flat(row) ensures e !in w.session.events {
      assert InFile(files(v.current + 1), e);
    }
  }
}
