/** The file of tmux sessions the daemon started (packages/daemon/src/process-registry.ts): calls
    queued one after another, each a read, a write of a scratch file and a rename. */
module ProcessRegistry {
  import opened Frames

  datatype Entry = Entry(tmuxName: string, details: string)

  /** A file: absent, cut short by a failed write, or the whole text of a list of entries. */
  datatype Content = Missing | Torn | Whole(entries: seq<Entry>)

  datatype Op = Add(entry: Entry) | Remove(name: string) | Reconcile | List

  /** What a call does to the entries, once a reconcile has probed for live sessions (`None` when
      the probe failed). */
  datatype Change = Put(added: Entry) | Drop(dropped: string) | Probed(alive: Option<set<string>>)

  datatype Outcome = Done | Failed | Reported(kept: nat, lost: int) | Listed(listed: seq<Entry>)

  predicate Keeps(c: Change, e: Entry) {
    match c
    case Put(x) => e.tmuxName != x.tmuxName
    case Drop(name) => e.tmuxName != name
    case Probed(alive) => alive.None? || e.tmuxName in alive.value
  }

  function Kept(es: seq<Entry>, c: Change): seq<Entry> {
    if es == [] then []
    else
      var before := Kept(es[..|es| - 1], c);
      if Keeps(c, es[|es| - 1]) then before + [es[|es| - 1]] else before
  }

  function Apply(es: seq<Entry>, c: Change): seq<Entry> {
    Kept(es, c) + (if c.Put? then [c.added] else [])
  }

  /** What the reader makes of the file; `fault` is a read error other than absence. */
  function ReadBack(file: Content, fault: bool): seq<Entry> {
    if fault || !file.Whole? then [] else file.entries
  }

  function OutcomeOf(c: Change, cur: seq<Entry>): Outcome {
    if c.Probed? then Reported(|Apply(cur, c)|, |cur| - |Apply(cur, c)|) else Done
  }

  // ----- single calls -----

  /** What the environment does during one call. */
  datatype Weather = Weather(readFault: bool, alive: Option<set<string>>, writeOk: bool, torn: bool, renameOk: bool)

  function ChangeOf(op: Op, alive: Option<set<string>>): Change
    requires !op.List?
  {
    match op
    case Add(e) => Put(e)
    case Remove(n) => Drop(n)
    case Reconcile => Probed(alive)
  }

  class Registry {
    var file: Content
    var tmp: Content

    method ReadFileSafe(fault: bool) returns (entries: seq<Entry>)
      ensures entries == ReadBack(file, fault)
    {
      if fault { return []; }
      match file {
        case Missing => entries := [];
        case Torn => entries := [];
        case Whole(es) => entries := es;
      }
    }

    method WriteFileAtomic(entries: seq<Entry>, w: Weather) returns (ok: bool)
      modifies this
      ensures ok <==> w.writeOk && w.renameOk
      ensures file == if ok then Whole(entries) else old(file)
      ensures ok ==> tmp == Missing
    {
      if !w.writeOk {
        if w.torn { tmp := Torn; }
        return false;
      }
      tmp := Whole(entries);
      if !w.renameOk { return false; }
      file, tmp := tmp, Missing;
      return true;
    }

    method AddEntry(entry: Entry, w: Weather) returns (out: Outcome)
      modifies this
      ensures var cur := old(ReadBack(file, w.readFault));
              out == (if w.writeOk && w.renameOk then Done else Failed)
              && file == (if out.Done? then Whole(Apply(cur, Put(entry))) else old(file))
    {
      var cur := ReadFileSafe(w.readFault);
      var filtered := Kept(cur, Put(entry));
      var ok := WriteFileAtomic(filtered + [entry], w);
      out := if ok then Done else Failed;
    }

    method RemoveEntry(name: string, w: Weather) returns (out: Outcome)
      modifies this
      ensures var cur := old(ReadBack(file, w.readFault));
              out == (if w.writeOk && w.renameOk then Done else Failed)
              && file == (if out.Done? then Whole(Apply(cur, Drop(name))) else old(file))
    {
      var cur := ReadFileSafe(w.readFault);
      var next := Kept(cur, Drop(name));
      assert next + [] == next;
      var ok := WriteFileAtomic(next, w);
      out := if ok then Done else Failed;
    }

    method ReconcileEntries(w: Weather) returns (out: Outcome)
      modifies this
      ensures var cur := old(ReadBack(file, w.readFault));
              && (w.writeOk && w.renameOk ==>
                    && file == Whole(Apply(cur, Probed(w.alive)))
                    && out == Reported(|file.entries|, |cur| - |file.entries|))
              && (!(w.writeOk && w.renameOk) ==> out == Failed && file == old(file))
    {
      var cur := ReadFileSafe(w.readFault);
      KeptLength(cur, Probed(w.alive));
      if w.alive.None? {
        KeepsAll(cur, Probed(None));
        assert cur + [] == cur;
        var ok := WriteFileAtomic(cur, w);
        out := if ok then Reported(|cur|, 0) else Failed;
      } else {
        var survivors := Kept(cur, Probed(w.alive));
        assert survivors + [] == survivors;
        var ok := WriteFileAtomic(survivors, w);
        out := if ok then Reported(|survivors|, |cur| - |survivors|) else Failed;
      }
    }
  }

  lemma {:induction false} KeptLength(es: seq<Entry>, c: Change)
    ensures |Kept(es, c)| <= |es|
  {
    if es != [] {
      KeptLength(es[..|es| - 1], c);
    }
  }

  /** A change that keeps every entry keeps the list; a failed probe is such a change. */
  lemma {:induction false} KeepsAll(es: seq<Entry>, c: Change)
    requires forall e | e in es :: Keeps(c, e)
    ensures Kept(es, c) == es
  {
    if es != [] {
      KeepsAll(es[..|es| - 1], c);
    }
  }

  // ----- the micro-steps of queued calls -----

  datatype Job = Job(call: nat, op: Op)

  /** `blind` marks a call whose read failed and was taken for an empty file. */
  datatype Phase =
    | Resting
    | Probing(cur: seq<Entry>, blind: bool)
    | Writing(change: Change, cur: seq<Entry>, blind: bool)
    | Renaming(change: Change, cur: seq<Entry>, blind: bool)

  datatype Commit = Commit(call: nat, change: Change, blind: bool)

  /** `calls`, `commits` and `outcomes` are history: every call made, the completed renames in
      order, and what the callers were told. */
  datatype State = State(
    file: Content, tmp: Content, queue: seq<Job>, phase: Phase,
    calls: seq<Op>, commits: seq<Commit>, outcomes: map<nat, Outcome>)

  /** One micro-step: a call is made, the running call reads, probes, writes or renames, or the
      daemon dies. */
  datatype Ev =
    | Call(op: Op)
    | Read(fault: bool)
    | Probe(alive: Option<set<string>>)
    | Write(ok: bool, torn: bool)
    | Rename(ok: bool)
    | Crash(torn: bool)

  function Initial(file: Content): State {
    State(file, Missing, [], Resting, [], [], map[])
  }

  /** The running call ends: the next one may start, whatever became of this one. */
  function Ended(s: State, outcome: Outcome): State
    requires s.queue != []
  {
    s.(queue := s.queue[1..], phase := Resting, outcomes := s.outcomes[s.queue[0].call := outcome])
  }

  function Next(s: State, e: Ev): State {
    match e
    case Call(op) => s.(queue := s.queue + [Job(|s.calls|, op)], calls := s.calls + [op])
    case Read(fault) =>
      if s.phase != Resting || s.queue == [] then s
      else
        var cur := ReadBack(s.file, fault);
        (match s.queue[0].op
         case List => Ended(s, Listed(cur))
         case Reconcile => s.(phase := Probing(cur, fault))
         case Add(x) => s.(phase := Writing(Put(x), cur, fault))
         case Remove(n) => s.(phase := Writing(Drop(n), cur, fault)))
    case Probe(alive) =>
      if !s.phase.Probing? then s else s.(phase := Writing(Probed(alive), s.phase.cur, s.phase.blind))
    case Write(ok, torn) =>
      if !s.phase.Writing? || s.queue == [] then s
      else if ok then
        s.(tmp := Whole(Apply(s.phase.cur, s.phase.change)),
           phase := Renaming(s.phase.change, s.phase.cur, s.phase.blind))
      else Ended(s.(tmp := if torn then Torn else s.tmp), Failed)
    case Rename(ok) =>
      if !s.phase.Renaming? || s.queue == [] then s
      else if ok then
        Ended(s.(file := s.tmp, tmp := Missing,
                 commits := s.commits + [Commit(s.queue[0].call, s.phase.change, s.phase.blind)]),
              OutcomeOf(s.phase.change, s.phase.cur))
      else Ended(s, Failed)
    case Crash(torn) =>
      s.(queue := [], phase := Resting, tmp := if s.phase.Writing? && torn then Torn else s.tmp)
  }

  function Run(s: State, es: seq<Ev>): State {
    if es == [] then s else Next(Run(s, es[..|es| - 1]), es[|es| - 1])
  }

  /** The micro-steps of one undisturbed call. */
  function StepsOf(op: Op, w: Weather): seq<Ev> {
    if op.List? then [Read(w.readFault)]
    else if op.Reconcile? then [Read(w.readFault), Probe(w.alive), Write(w.writeOk, w.torn), Rename(w.renameOk)]
    else [Read(w.readFault), Write(w.writeOk, w.torn), Rename(w.renameOk)]
  }

  /** Run undisturbed, the micro-steps of a call do to the file what the call's method does. */
  lemma UndisturbedCall(s: State, op: Op, w: Weather)
    requires s.phase == Resting && |s.queue| == 1 && s.queue[0].op == op && !op.List?
    ensures var t := Run(s, StepsOf(op, w));
            && t.phase == Resting && t.queue == []
            && t.file == (if w.writeOk && w.renameOk
                          then Whole(Apply(ReadBack(s.file, w.readFault), ChangeOf(op, w.alive)))
                          else s.file)
            && Lookup(t.outcomes, s.queue[0].call)
               == Some(if !(w.writeOk && w.renameOk) then Failed
                       else if op.Reconcile? then
                         Reported(|t.file.entries|, |ReadBack(s.file, w.readFault)| - |t.file.entries|)
                       else Done)
  {
    hide Run, Apply;
    var write, rename := Write(w.writeOk, w.torn), Rename(w.renameOk);
    var before := if op.Reconcile? then [Read(w.readFault), Probe(w.alive)] else [Read(w.readFault)];
    assert StepsOf(op, w) == before + [write] + [rename];
    RunPush(s, before + [write], rename);
    RunPush(s, before, write);
    RunPush(s, [], Read(w.readFault));
    RunPush(s, [Read(w.readFault)], Probe(w.alive));
    assert [] + [Read(w.readFault)] == [Read(w.readFault)];
    assert [Read(w.readFault)] + [Probe(w.alive)] == [Read(w.readFault), Probe(w.alive)];
    assert Run(s, []) == s by { RunNone(s, []); }
    assert Run(s, before).phase == Writing(ChangeOf(op, w.alive), ReadBack(s.file, w.readFault), w.readFault);
  }

  /** A listing tells what the file holds, or nothing if it cannot be read, and leaves the file alone. */
  lemma UndisturbedList(s: State, w: Weather)
    requires s.phase == Resting && |s.queue| == 1 && s.queue[0].op == List
    ensures var t := Run(s, StepsOf(List, w));
            && t.phase == Resting && t.queue == [] && t.file == s.file && t.tmp == s.tmp
            && Lookup(t.outcomes, s.queue[0].call)
               == Some(Listed(if !w.readFault && s.file.Whole? then s.file.entries else []))
  {
    RunPush(s, [], Read(w.readFault));
    assert [] + [Read(w.readFault)] == [Read(w.readFault)];
    assert Run(s, []) == s by { RunNone(s, []); }
  }

  lemma RunPush(s: State, es: seq<Ev>, e: Ev)
    ensures Run(s, es + [e]) == Next(Run(s, es), e)
  {
    assert (es + [e])[..|es|] == es;
  }

  lemma RunNone(s: State, es: seq<Ev>)
    requires es == []
    ensures Run(s, es) == s
  {
  }

  // ----- the file is the fold of the completed renames -----

  function Fold(base: seq<Entry>, commits: seq<Commit>): seq<Entry> {
    if commits == [] then base
    else
      var last := commits[|commits| - 1];
      Apply(if last.blind then [] else Fold(base, commits[..|commits| - 1]), last.change)
  }

  ghost predicate Settled(base: Content, s: State) {
    if s.commits == [] then s.file == base
    else s.file == Whole(Fold(ReadBack(base, false), s.commits))
  }

  /** What the running call holds in memory is what it read. */
  ghost predicate InHand(s: State) {
    && (s.phase != Resting ==> s.queue != [] && s.phase.cur == ReadBack(s.file, s.phase.blind))
    && (s.phase.Renaming? ==> s.tmp == Whole(Apply(s.phase.cur, s.phase.change)))
  }

  lemma FoldPush(base: seq<Entry>, commits: seq<Commit>, c: Commit)
    ensures Fold(base, commits + [c]) == Apply(if c.blind then [] else Fold(base, commits), c.change)
  {
    assert (commits + [c])[..|commits|] == commits;
  }

  lemma SettledRename(base: Content, s: State)
    requires Settled(base, s) && InHand(s) && s.phase.Renaming?
    ensures Settled(base, Next(s, Rename(true)))
  {
    hide Apply, Fold, OutcomeOf;
    var commit := Commit(s.queue[0].call, s.phase.change, s.phase.blind);
    FoldPush(ReadBack(base, false), s.commits, commit);
    assert Next(s, Rename(true)).commits == s.commits + [commit];
    assert s.commits == [] ==> Fold(ReadBack(base, false), s.commits) == ReadBack(base, false) by {
      FoldNone(ReadBack(base, false), s.commits);
    }
  }

  lemma FoldNone(base: seq<Entry>, commits: seq<Commit>)
    ensures commits == [] ==> Fold(base, commits) == base
  {
  }

  lemma SettledStep(base: Content, s: State, e: Ev)
    requires Settled(base, s) && InHand(s)
    ensures Settled(base, Next(s, e)) && InHand(Next(s, e))
  {
    hide Apply, Fold, OutcomeOf;
    if e == Rename(true) && s.phase.Renaming? {
      SettledRename(base, s);
    } else {
      assert Next(s, e).commits == s.commits && Next(s, e).file == s.file;
    }
  }

  /** At every point of every run, crashes included, the file holds what the calls whose rename
      completed make of the first file, one after the other, and nothing of any other call.  A call
      whose read failed starts from nothing instead. */
  lemma {:induction false} FileIsFold(base: Content, es: seq<Ev>)
    ensures Settled(base, Run(Initial(base), es)) && InHand(Run(Initial(base), es))
  {
    hide Settled, InHand, Next;
    if es == [] {
      StartsSettled(base);
    } else {
      FileIsFold(base, es[..|es| - 1]);
      SettledStep(base, Run(Initial(base), es[..|es| - 1]), es[|es| - 1]);
    }
  }

  lemma StartsSettled(base: Content)
    ensures Settled(base, Initial(base)) && InHand(Initial(base))
  {
  }

  // ----- the renames complete in the order of the calls -----

  ghost predicate Of(c: Change, op: Op) {
    match op
    case Add(e) => c == Put(e)
    case Remove(n) => c == Drop(n)
    case Reconcile => c.Probed?
    case List => false
  }

  ghost predicate JobsOk(queue: seq<Job>, calls: seq<Op>) {
    && (forall i | 0 <= i < |queue| :: queue[i].call < |calls| && queue[i].op == calls[queue[i].call])
    && (forall i, j | 0 <= i < j < |queue| :: queue[i].call < queue[j].call)
  }

  ghost predicate QueueOk(s: State) {
    && JobsOk(s.queue, s.calls)
    && (s.phase.Probing? ==> s.queue != [] && s.queue[0].op == Reconcile)
    && (s.phase.Writing? || s.phase.Renaming? ==> s.queue != [] && Of(s.phase.change, s.queue[0].op))
  }

  ghost predicate CommitsOk(s: State) {
    && (forall i | 0 <= i < |s.commits| ::
          s.commits[i].call < |s.calls| && Of(s.commits[i].change, s.calls[s.commits[i].call]))
    && (forall i, j | 0 <= i < j < |s.commits| :: s.commits[i].call < s.commits[j].call)
    && (forall i, j | 0 <= i < |s.commits| && 0 <= j < |s.queue| :: s.commits[i].call < s.queue[j].call)
  }

  ghost predicate Committed(s: State, call: nat) {
    exists i :: 0 <= i < |s.commits| && s.commits[i].call == call
  }

  /** A caller is told of success exactly when its rename completed. */
  ghost predicate OutcomesOk(s: State) {
    && (forall j | 0 <= j < |s.queue| :: s.queue[j].call !in s.outcomes)
    && (forall k | k in s.outcomes :: k < |s.calls|)
    && (forall k | k in s.outcomes :: (s.outcomes[k].Done? || s.outcomes[k].Reported?) <==> Committed(s, k))
    && (forall i | 0 <= i < |s.commits| :: s.commits[i].call in s.outcomes)
  }

  lemma JobsShrink(queue: seq<Job>, calls: seq<Op>)
    requires JobsOk(queue, calls) && queue != []
    ensures JobsOk(queue[1..], calls)
  {
  }

  lemma JobsGrow(queue: seq<Job>, calls: seq<Op>, op: Op)
    requires JobsOk(queue, calls)
    ensures JobsOk(queue + [Job(|calls|, op)], calls + [op])
  {
  }

  lemma QueueStep(s: State, e: Ev)
    requires QueueOk(s)
    ensures QueueOk(Next(s, e))
  {
    hide Apply, OutcomeOf, JobsOk;
    if e.Call? {
      JobsGrow(s.queue, s.calls, e.op);
    } else if s.queue != [] {
      JobsShrink(s.queue, s.calls);
    }
    assert JobsOk([], s.calls) by { NoJobs(s.calls); }
  }

  lemma NoJobs(calls: seq<Op>)
    ensures JobsOk([], calls)
  {
  }

  lemma CommitsStep(s: State, e: Ev)
    requires QueueOk(s) && CommitsOk(s)
    ensures CommitsOk(Next(s, e))
  {
    hide Apply, OutcomeOf;
  }

  lemma OutcomesRename(s: State)
    requires QueueOk(s) && CommitsOk(s) && OutcomesOk(s) && s.phase.Renaming?
    ensures OutcomesOk(Next(s, Rename(true)))
  {
    hide Apply;
    var t := Next(s, Rename(true));
    var call := s.queue[0].call;
    assert t.commits[|s.commits|].call == call;
    forall k | k in t.outcomes && k != call ensures Committed(t, k) <==> Committed(s, k) {
      if i :| 0 <= i < |s.commits| && s.commits[i].call == k {
        assert t.commits[i].call == k;
      }
    }
  }

  lemma OutcomesStep(s: State, e: Ev)
    requires QueueOk(s) && CommitsOk(s) && OutcomesOk(s)
    ensures OutcomesOk(Next(s, e))
  {
    hide Apply, OutcomeOf, Committed;
    if e == Rename(true) && s.phase.Renaming? {
      OutcomesRename(s);
    } else {
      CommittedSame(s, Next(s, e));
      if s.queue != [] { CommittedOnce(s); }
    }
  }

  lemma CommittedSame(s: State, t: State)
    requires t.commits == s.commits
    ensures forall k :: Committed(t, k) <==> Committed(s, k)
  {
  }

  lemma CommittedOnce(s: State)
    requires CommitsOk(s) && s.queue != []
    ensures !Committed(s, s.queue[0].call)
  {
  }

  lemma {:induction false} CallsInOrder(base: Content, es: seq<Ev>)
    ensures var s := Run(Initial(base), es); QueueOk(s) && CommitsOk(s) && OutcomesOk(s)
  {
    hide QueueOk, CommitsOk, OutcomesOk, Next;
    if es == [] {
      NoCalls(base);
    } else {
      CallsInOrder(base, es[..|es| - 1]);
      var s := Run(Initial(base), es[..|es| - 1]);
      QueueStep(s, es[|es| - 1]);
      CommitsStep(s, es[|es| - 1]);
      OutcomesStep(s, es[|es| - 1]);
    }
  }

  lemma NoCalls(base: Content)
    ensures var s := Initial(base); QueueOk(s) && CommitsOk(s) && OutcomesOk(s)
  {
  }

  // ----- what the callers are told -----

  /** The first `i` renames are those of calls made before call `k`, the others of calls made after it. */
  ghost predicate Splits(s: State, k: nat, i: nat) {
    && i <= |s.commits|
    && (forall j | 0 <= j < i :: s.commits[j].call < k)
    && (forall j | i <= j < |s.commits| :: s.commits[j].call > k)
  }

  function ReadAt(base: seq<Entry>, s: State, i: nat): seq<Entry>
    requires i < |s.commits|
  {
    if s.commits[i].blind then [] else Fold(base, s.commits[..i])
  }

  /** A listing is what the calls made before it left, or empty; a report counts what its own rename left
      and what it dropped of what it had read. */
  ghost predicate Truthful(base: seq<Entry>, s: State, k: nat)
    requires k in s.outcomes
  {
    match s.outcomes[k]
    case Listed(es) => es == [] || exists i: nat :: Splits(s, k, i) && es == Fold(base, s.commits[..i])
    case Reported(kept, dropped) =>
      exists i: nat :: i < |s.commits| && s.commits[i].call == k
        && kept == |Fold(base, s.commits[..i + 1])| && kept + dropped == |ReadAt(base, s, i)|
    case Done => exists i: nat :: i < |s.commits| && s.commits[i].call == k && !s.commits[i].change.Probed?
    case Failed => true
  }

  ghost predicate Past(s: State) {
    && (forall k | k in s.outcomes :: k < |s.calls|)
    && (forall k, j | k in s.outcomes && 0 <= j < |s.queue| :: k < s.queue[j].call)
  }

  lemma PastStep(s: State, e: Ev)
    requires QueueOk(s) && Past(s)
    ensures Past(Next(s, e))
  {
    hide Apply, OutcomeOf;
  }

  /** What is in hand or in the file is the fold of the renames. */
  lemma ReadIsFold(base: Content, s: State)
    requires Settled(base, s)
    ensures ReadBack(s.file, false) == Fold(ReadBack(base, false), s.commits)
  {
    hide Apply;
    FoldNone(ReadBack(base, false), s.commits);
  }

  lemma SplitsKept(s: State, t: State, k: nat, i: nat)
    requires Splits(s, k, i)
    requires t.commits == s.commits || (|t.commits| == |s.commits| + 1 && t.commits[..|s.commits|] == s.commits
                                        && k < t.commits[|s.commits|].call)
    ensures Splits(t, k, i) && t.commits[..i] == s.commits[..i]
  {
  }

  lemma ReadKept(base: seq<Entry>, s: State, t: State, i: nat)
    requires i < |s.commits|
    requires t.commits == s.commits || (|t.commits| == |s.commits| + 1 && t.commits[..|s.commits|] == s.commits)
    ensures i < |t.commits| && t.commits[i] == s.commits[i] && t.commits[..i + 1] == s.commits[..i + 1]
    ensures ReadAt(base, t, i) == ReadAt(base, s, i)
  {
    hide Fold;
    assert t.commits[..i] == s.commits[..i];
  }

  lemma TruthKept(base: seq<Entry>, s: State, t: State, k: nat)
    requires k in s.outcomes && k in t.outcomes && t.outcomes[k] == s.outcomes[k] && Truthful(base, s, k)
    requires t.commits == s.commits || (|t.commits| == |s.commits| + 1 && t.commits[..|s.commits|] == s.commits
                                        && k < t.commits[|s.commits|].call)
    ensures Truthful(base, t, k)
  {
    hide Fold, ReadAt;
    match s.outcomes[k] {
      case Listed(es) =>
        if es != [] {
          var i: nat :| Splits(s, k, i) && es == Fold(base, s.commits[..i]);
          SplitsKept(s, t, k, i);
        }
      case Reported(kept, dropped) =>
        var i: nat :| i < |s.commits| && s.commits[i].call == k
          && kept == |Fold(base, s.commits[..i + 1])| && kept + dropped == |ReadAt(base, s, i)|;
        ReadKept(base, s, t, i);
      case Done =>
        var i: nat :| i < |s.commits| && s.commits[i].call == k && !s.commits[i].change.Probed?;
        assert t.commits[i] == s.commits[i];
      case Failed =>
    }
  }

  lemma ListedTruth(base: Content, s: State, fault: bool)
    requires Settled(base, s) && QueueOk(s) && CommitsOk(s)
    requires s.phase == Resting && s.queue != [] && s.queue[0].op == List
    ensures Truthful(ReadBack(base, false), Next(s, Read(fault)), s.queue[0].call)
  {
    hide Fold;
    var t := Next(s, Read(fault));
    ReadIsFold(base, s);
    assert s.commits[..|s.commits|] == s.commits;
    assert Splits(t, s.queue[0].call, |s.commits|);
  }

  lemma ReportTruth(base: Content, s: State)
    requires Settled(base, s) && InHand(s) && s.phase.Renaming?
    ensures Truthful(ReadBack(base, false), Next(s, Rename(true)), s.queue[0].call)
  {
    hide Apply, Fold;
    var b, t, n := ReadBack(base, false), Next(s, Rename(true)), |s.commits|;
    var commit := Commit(s.queue[0].call, s.phase.change, s.phase.blind);
    ReadIsFold(base, s);
    FoldPush(b, s.commits, commit);
    assert t.commits[n] == commit && t.commits[..n] == s.commits && t.commits[..n + 1] == s.commits + [commit];
    assert ReadAt(b, t, n) == s.phase.cur;
  }

  lemma TruthStep(base: Content, s: State, e: Ev, k: nat)
    requires Settled(base, s) && InHand(s) && QueueOk(s) && CommitsOk(s) && Past(s) && k in Next(s, e).outcomes
    requires k in s.outcomes ==> Truthful(ReadBack(base, false), s, k)
    ensures Truthful(ReadBack(base, false), Next(s, e), k)
  {
    hide Truthful, Settled, Apply, OutcomeOf;
    var t := Next(s, e);
    if k in s.outcomes {
      TruthKept(ReadBack(base, false), s, t, k);
    } else if e == Rename(true) {
      ReportTruth(base, s);
    } else if e.Read? {
      ListedTruth(base, s, e.fault);
    } else {
      FailedTruth(ReadBack(base, false), t, k);
    }
  }

  lemma FailedTruth(base: seq<Entry>, s: State, k: nat)
    requires k in s.outcomes && s.outcomes[k].Failed?
    ensures Truthful(base, s, k)
  {
  }

  /** At every point of every run callers are told the truth: a listing is what the calls made before it
      left, a report counts what its rename kept and dropped, and success is a rename of the call's own. */
  lemma {:induction false} CallersToldTruth(base: Content, es: seq<Ev>)
    ensures var s := Run(Initial(base), es);
            Past(s) && forall k | k in s.outcomes :: Truthful(ReadBack(base, false), s, k)
  {
    hide Truthful, Settled, InHand, QueueOk, CommitsOk, OutcomesOk, Past, Next;
    if es == [] {
      NothingTold(base);
    } else {
      var init, e := es[..|es| - 1], es[|es| - 1];
      var s := Run(Initial(base), init);
      CallersToldTruth(base, init);
      FileIsFold(base, init);
      CallsInOrder(base, init);
      PastStep(s, e);
      forall k | k in Next(s, e).outcomes ensures Truthful(ReadBack(base, false), Next(s, e), k) {
        TruthStep(base, s, e, k);
      }
    }
  }

  lemma NothingTold(base: Content)
    ensures Initial(base).outcomes == map[] && Past(Initial(base))
  {
  }

  // ----- a crash -----

  /** Only calls from `n` on are queued, and of the earlier ones as many were told and completed as in `c`. */
  ghost predicate Forgot(c: State, s: State, n: nat) {
    && n <= |s.calls|
    && (forall j | 0 <= j < |s.queue| :: s.queue[j].call >= n)
    && (forall k: nat | k < n :: Lookup(s.outcomes, k) == Lookup(c.outcomes, k) && (Committed(s, k) <==> Committed(c, k)))
  }

  lemma CommittedPush(s: State, t: State, call: nat)
    requires t.commits == s.commits
          || (|t.commits| == |s.commits| + 1 && t.commits[..|s.commits|] == s.commits && t.commits[|s.commits|].call == call)
    ensures forall k: nat | k != call :: Committed(t, k) <==> Committed(s, k)
    ensures t.commits == s.commits ==> (Committed(t, call) <==> Committed(s, call))
  {
    forall k: nat | Committed(s, k) ensures Committed(t, k) {
      var i :| 0 <= i < |s.commits| && s.commits[i].call == k;
      assert t.commits[i].call == k;
    }
  }

  lemma ForgotStep(c: State, s: State, n: nat, e: Ev)
    requires Forgot(c, s, n)
    ensures Forgot(c, Next(s, e), n)
  {
    hide Committed, Apply, OutcomeOf;
    var t := Next(s, e);
    CommittedPush(s, t, if s.queue != [] then s.queue[0].call else n);
  }

  /** The daemon dies and starts again: the calls that were queued are forgotten.  Whatever happens later,
      none of them completes and none of their callers is told anything. */
  lemma {:induction false} CrashForgets(s: State, torn: bool, es: seq<Ev>)
    ensures var c := Next(s, Crash(torn));
            var t := Run(c, es);
            && c.outcomes == s.outcomes && c.commits == s.commits && c.file == s.file
            && forall k: nat | k < |s.calls| ::
                 Lookup(t.outcomes, k) == Lookup(s.outcomes, k) && (Committed(t, k) <==> Committed(s, k))
  {
    hide Committed, Run, Apply, OutcomeOf;
    var c := Next(s, Crash(torn));
    CommittedPush(s, c, 0);
    ForgotRun(c, |s.calls|, es);
  }

  lemma {:induction false} ForgotRun(c: State, n: nat, es: seq<Ev>)
    requires c.queue == [] && n <= |c.calls|
    ensures Forgot(c, Run(c, es), n)
  {
    hide Committed, Next;
    if es != [] {
      ForgotRun(c, n, es[..|es| - 1]);
      ForgotStep(c, Run(c, es[..|es| - 1]), n, es[|es| - 1]);
    }
  }

  // ----- what the fold holds -----

  lemma {:induction false} KeptMembers(es: seq<Entry>, c: Change, e: Entry)
    ensures e in Kept(es, c) <==> e in es && Keeps(c, e)
  {
    if es != [] {
      KeptMembers(es[..|es| - 1], c, e);
      assert es == es[..|es| - 1] + [es[|es| - 1]];
    }
  }

  ghost predicate UniqueNames(es: seq<Entry>) {
    forall i, j | 0 <= i < j < |es| :: es[i].tmuxName != es[j].tmuxName
  }

  lemma {:induction false} KeptUnique(es: seq<Entry>, c: Change)
    requires UniqueNames(es)
    ensures UniqueNames(Kept(es, c))
  {
    if es != [] {
      var init, last := es[..|es| - 1], es[|es| - 1];
      KeptUnique(init, c);
      forall e | e in Kept(init, c) ensures e.tmuxName != last.tmuxName {
        KeptMembers(init, c, e);
      }
    }
  }

  lemma ApplyUnique(es: seq<Entry>, c: Change)
    requires UniqueNames(es)
    ensures UniqueNames(Apply(es, c))
  {
    KeptUnique(es, c);
    if c.Put? {
      forall e | e in Kept(es, c) ensures e.tmuxName != c.added.tmuxName {
        KeptMembers(es, c, e);
      }
    }
  }

  lemma {:induction false} FoldUnique(base: seq<Entry>, commits: seq<Commit>)
    requires UniqueNames(base)
    ensures UniqueNames(Fold(base, commits))
  {
    hide Apply;
    if commits != [] {
      var last := commits[|commits| - 1];
      FoldUnique(base, commits[..|commits| - 1]);
      ApplyUnique(if last.blind then [] else Fold(base, commits[..|commits| - 1]), last.change);
    }
  }

  /** At every point, crashes and read faults included, the file is whole or as it was found, and no
      two of its entries have the same name. */
  lemma NamesStayUnique(base: Content, es: seq<Ev>)
    requires UniqueNames(ReadBack(base, false))
    ensures var s := Run(Initial(base), es);
            (s.file == base || s.file.Whole?) && UniqueNames(ReadBack(s.file, false))
  {
    hide Run, Fold, UniqueNames;
    FileIsFold(base, es);
    FoldUnique(ReadBack(base, false), Run(Initial(base), es).commits);
  }

  /** An entry survives the commits from the `i`-th on. */
  ghost predicate Survives(commits: seq<Commit>, i: nat, e: Entry) {
    forall j | i <= j < |commits| :: !commits[j].blind && Keeps(commits[j].change, e)
  }

  /** An entry is in the file exactly when it was there or was added, and no later completed call
      removed it, replaced it, found it dead or failed to read it. */
  lemma {:induction false} PresentIff(base: seq<Entry>, commits: seq<Commit>, e: Entry)
    ensures e in Fold(base, commits) <==>
              || (e in base && Survives(commits, 0, e))
              || (exists i :: 0 <= i < |commits| && commits[i].change == Put(e) && Survives(commits, i + 1, e))
  {
    if commits != [] {
      var n := |commits| - 1;
      var init, last := commits[..n], commits[n];
      PresentIff(base, init, e);
      KeptMembers(if last.blind then [] else Fold(base, init), last.change, e);
      PresentStep(base, commits, e);
    }
  }

  lemma PresentStep(base: seq<Entry>, commits: seq<Commit>, e: Entry)
    requires commits != []
    ensures var n := |commits| - 1;
            var init, last := commits[..n], commits[n];
            var keeps := !last.blind && Keeps(last.change, e);
            && (Survives(commits, 0, e) <==> Survives(init, 0, e) && keeps)
            && ((exists i :: 0 <= i < |commits| && commits[i].change == Put(e) && Survives(commits, i + 1, e))
                <==> last.change == Put(e)
                     || ((exists i :: 0 <= i < n && init[i].change == Put(e) && Survives(init, i + 1, e)) && keeps))
  {
    var n := |commits| - 1;
    var init, last := commits[..n], commits[n];
    var keeps := !last.blind && Keeps(last.change, e);
    forall i | 0 <= i <= n ensures Survives(commits, i, e) <==> Survives(init, i, e) && keeps {
      if Survives(commits, i, e) {
        assert forall j | i <= j < n :: init[j] == commits[j];
      }
    }
    if last.change == Put(e) {
      assert Survives(commits, n + 1, e);
    }
    if i :| 0 <= i < n && init[i].change == Put(e) && Survives(init, i + 1, e) {
      assert commits[i].change == Put(e) && (keeps ==> Survives(commits, i + 1, e));
    }
    if i :| 0 <= i < |commits| && commits[i].change == Put(e) && Survives(commits, i + 1, e) {
      assert i < n ==> init[i].change == Put(e) && Survives(init, i + 1, e);
    }
  }

  // ----- reads that fail -----

  /** A call whose read fails does what it should exactly when there was no entry for it to keep. */
  lemma FaultHarmlessIff(cur: seq<Entry>, c: Change)
    ensures Apply([], c) == Apply(cur, c) <==> (forall e | e in cur :: !Keeps(c, e))
  {
    var extra := if c.Put? then [c.added] else [];
    assert |Apply(cur, c)| == |Kept(cur, c)| + |extra| && |Apply([], c)| == |extra|;
    if e :| e in cur && Keeps(c, e) {
      KeptMembers(cur, c, e);
    } else {
      if Kept(cur, c) != [] {
        KeptMembers(cur, c, Kept(cur, c)[0]);
      }
      assert Kept(cur, c) == [];
    }
  }

  /** One unlucky read while a session is added forgets the session recorded before it. */
  lemma UnluckyReadForgets()
    ensures var a, b := Entry("a", ""), Entry("b", "");
            var adding := Next(Initial(Whole([a])), Call(Add(b)));
            Run(adding, [Read(true), Write(true, false), Rename(true)]).file == Whole([b])
  {
    var a, b := Entry("a", ""), Entry("b", "");
    UndisturbedCall(Next(Initial(Whole([a])), Call(Add(b))), Add(b), Weather(true, None, true, false, true));
    assert Apply([], Put(b)) == [b];
  }
}
