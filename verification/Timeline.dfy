/** The chat timeline (packages/pwa/src/lib/timeline.ts): tool-call chunks and results folded into one
    item a call, hidden rows dropped, resolutions added, and a three-key sort. */
module Timeline {
  import opened Frames
  import opened StableSort

  const MAX_SAFE_INTEGER: int := 9007199254740991

  const HIDDEN_PAYLOAD_TYPES: set<string> :=
    {"attachment", "summary", "queue-operation", "mcp_instructions_data", "ai-title", "last-prompt",
     "permission-mode", "mode", "pr-link"}

  /** An agent event.  An absent tool id and an empty one are the same to the code. */
  datatype AgentEvent =
    | Raw(rawType: Option<string>)
    | Chunk(toolId: string, delta: string)
    | Result(toolId: string, content: string)
    | Plain(text: string)

  datatype Buffered = Buffered(
    daemonId: string, sessionId: string, offset: int, index: nat, ts: int, event: AgentEvent)

  /** A resolution frame.  `readAt` is what the clock would say where the frame has no time. */
  datatype Resolved = Resolved(requestId: string, ts: Option<int>, readAt: int, body: string)

  datatype ItemId = EventId(daemonId: string, sessionId: string, offset: int, index: nat) | RequestId(requestId: string)

  datatype Item =
    | Tool(id: ItemId, ts: int, chunk: AgentEvent, result: Option<AgentEvent>)
    | Agui(id: ItemId, ts: int, event: AgentEvent)
    | PermissionResolved(id: ItemId, ts: int, resolved: Resolved)
    | QuestionResolved(id: ItemId, ts: int, resolved: Resolved)

  datatype Timed = Timed(tsMs: int, rank: int, offset: int, item: Item)

  predicate ByTime(a: Timed, b: Timed) {
    a.tsMs < b.tsMs
    || (a.tsMs == b.tsMs && (a.rank < b.rank || (a.rank == b.rank && a.offset <= b.offset)))
  }

  predicate Hidden(e: AgentEvent) {
    e.Raw? && e.rawType.Some? && e.rawType.value in HIDDEN_PAYLOAD_TYPES
  }

  // ----- what the items should be -----

  predicate IsChunkOf(events: seq<Buffered>, i: nat, id: string) {
    i < |events| && events[i].event.Chunk? && events[i].event.toolId == id
  }

  predicate IsResultOf(events: seq<Buffered>, i: nat, id: string) {
    i < |events| && events[i].event.Result? && events[i].event.toolId == id
  }

  /** The last chunk of a call before `upto`. */
  function LastChunk(events: seq<Buffered>, id: string, upto: nat): (r: Option<nat>)
    requires upto <= |events|
    ensures r.Some? ==> r.value < upto && IsChunkOf(events, r.value, id)
  {
    if upto == 0 then None
    else if IsChunkOf(events, upto - 1, id) then Some(upto - 1)
    else LastChunk(events, id, upto - 1)
  }

  /** The last result of a call before `upto`. */
  function LastResult(events: seq<Buffered>, id: string, upto: nat): (r: Option<nat>)
    requires upto <= |events|
    ensures r.Some? ==> r.value < upto && IsResultOf(events, r.value, id)
  {
    if upto == 0 then None
    else if IsResultOf(events, upto - 1, id) then Some(upto - 1)
    else LastResult(events, id, upto - 1)
  }

  /** Nothing of the call lies after what the two functions find, and nothing at all if they find none. */
  lemma {:induction false} LastOnes(events: seq<Buffered>, id: string, upto: nat, j: nat)
    requires j < upto <= |events|
    ensures var c := LastChunk(events, id, upto); IsChunkOf(events, j, id) ==> c.Some? && j <= c.value
    ensures var r := LastResult(events, id, upto); IsResultOf(events, j, id) ==> r.Some? && j <= r.value
  {
    if j < upto - 1 {
      LastOnes(events, id, upto - 1, j);
    }
  }

  /** The events with an item of their own: what is neither hidden nor a result, and of the chunks
      of one call the first. */
  predicate Starts(events: seq<Buffered>, i: nat)
    requires i < |events|
  {
    var e := events[i].event;
    && !Hidden(e) && !e.Result?
    && (e.Chunk? && e.toolId != "" ==> LastChunk(events, e.toolId, i).None?)
  }

  function IdOf(b: Buffered): ItemId {
    EventId(b.daemonId, b.sessionId, b.offset, b.index)
  }

  /** The item of an event once the chunks before `upto` are known: the time and the name of the
      call's first chunk, the text of its last, and its last result wherever that lies. */
  function ItemOf(events: seq<Buffered>, i: nat, upto: nat): Timed
    requires i < upto <= |events|
  {
    var b := events[i];
    Timed(b.ts, 0, b.offset,
      if !b.event.Chunk? then Agui(IdOf(b), b.ts, b.event)
      else if b.event.toolId == "" then Tool(IdOf(b), b.ts, b.event, None)
      else
        var last := LastChunk(events, b.event.toolId, upto);
        var result := LastResult(events, b.event.toolId, |events|);
        Tool(IdOf(b), b.ts, if last.Some? then events[last.value].event else b.event,
             if result.Some? then Some(events[result.value].event) else None))
  }

  function StartsBefore(events: seq<Buffered>, k: nat): (idx: seq<nat>)
    requires k <= |events|
    ensures forall j | 0 <= j < |idx| :: idx[j] < k
  {
    if k == 0 then [] else StartsBefore(events, k - 1) + (if Starts(events, k - 1) then [k - 1] else [])
  }

  lemma {:induction false} StartsAre(events: seq<Buffered>, k: nat)
    requires k <= |events|
    ensures var idx := StartsBefore(events, k);
            && (forall j | 0 <= j < |idx| :: Starts(events, idx[j]))
            && (forall j, l | 0 <= j < l < |idx| :: idx[j] < idx[l])
            && (forall i: nat | i < k && Starts(events, i) :: i in idx)
  {
    hide Starts;
    if k > 0 {
      StartsAre(events, k - 1);
    }
  }

  function EventItems(events: seq<Buffered>, k: nat): seq<Timed>
    requires k <= |events|
  {
    var idx := StartsBefore(events, k);
    seq(|idx|, j requires 0 <= j < |idx| => ItemOf(events, idx[j], k))
  }

  function Stamp(r: Resolved): int {
    if r.ts.Some? then r.ts.value else r.readAt
  }

  function PermissionItem(r: Resolved): Timed {
    Timed(Stamp(r), 3, MAX_SAFE_INTEGER, PermissionResolved(RequestId(r.requestId), Stamp(r), r))
  }

  function AskItem(r: Resolved): Timed {
    Timed(Stamp(r), 3, MAX_SAFE_INTEGER, QuestionResolved(RequestId(r.requestId), Stamp(r), r))
  }

  function Mapped<A, B>(f: A -> B, s: seq<A>): (r: seq<B>)
    ensures |r| == |s|
    ensures forall i | 0 <= i < |s| :: r[i] == f(s[i])
  {
    seq(|s|, i requires 0 <= i < |s| => f(s[i]))
  }

  /** Everything the timeline shows, before sorting. */
  function Shown(events: seq<Buffered>, resolved: seq<Resolved>, asks: seq<Resolved>): seq<Timed> {
    EventItems(events, |events|) + Mapped(PermissionItem, resolved) + Mapped(AskItem, asks)
  }

  // ----- the code -----

  /** `resultsByToolId`: the last result of every call. */
  ghost predicate Indexed(events: seq<Buffered>, results: map<string, AgentEvent>) {
    && (forall id :: id in results <==> id != "" && LastResult(events, id, |events|).Some?)
    && (forall id | id in results :: results[id] == events[LastResult(events, id, |events|).value].event)
  }

  method IndexResults(events: seq<Buffered>) returns (results: map<string, AgentEvent>)
    ensures Indexed(events, results)
  {
    results := map[];
    var i := 0;
    while i < |events|
      invariant 0 <= i <= |events|
      invariant forall id :: id in results <==> id != "" && LastResult(events, id, i).Some?
      invariant forall id | id in results :: results[id] == events[LastResult(events, id, i).value].event
    {
      var e := events[i].event;
      if e.Result? {
        if e.toolId != "" { results := results[e.toolId := e]; }
      }
      i := i + 1;
    }
  }

  /** While a call's later chunks only replace its text, no other item changes. */
  lemma ItemAfter(events: seq<Buffered>, i: nat, k: nat)
    requires i < k < |events|
    ensures var e := events[k].event;
            ItemOf(events, i, k + 1) ==
              if e.Chunk? && e.toolId != "" && IsChunkOf(events, i, e.toolId)
              then ItemOf(events, i, k).(item := ItemOf(events, i, k).item.(chunk := e))
              else ItemOf(events, i, k)
  {
  }

  lemma ItemAtOnce(events: seq<Buffered>, k: nat, results: map<string, AgentEvent>)
    requires k < |events| && Starts(events, k) && Indexed(events, results)
    ensures ItemOf(events, k, k + 1) ==
      var b := events[k];
      Timed(b.ts, 0, b.offset,
        if !b.event.Chunk? then Agui(IdOf(b), b.ts, b.event)
        else
          var id := b.event.toolId;
          Tool(IdOf(b), b.ts, b.event, if id != "" && id in results then Some(results[id]) else None))
  {
  }

  lemma ItemsPush(events: seq<Buffered>, k: nat)
    requires k < |events| && Starts(events, k)
    ensures EventItems(events, k + 1) == EventItems(events, k) + [ItemOf(events, k, k + 1)]
  {
    var idx := StartsBefore(events, k);
    forall j | 0 <= j < |idx| ensures ItemOf(events, idx[j], k + 1) == ItemOf(events, idx[j], k) {
      ItemAfter(events, idx[j], k);
      if events[k].event.Chunk? {
        LastOnes(events, events[k].event.toolId, k, idx[j]);
      }
    }
  }

  lemma ItemsSame(events: seq<Buffered>, k: nat)
    requires k < |events| && !Starts(events, k) && !(events[k].event.Chunk? && events[k].event.toolId != "")
    ensures EventItems(events, k + 1) == EventItems(events, k)
  {
    var idx := StartsBefore(events, k);
    forall j | 0 <= j < |idx| ensures ItemOf(events, idx[j], k + 1) == ItemOf(events, idx[j], k) {
      ItemAfter(events, idx[j], k);
    }
  }

  lemma ItemsContinue(events: seq<Buffered>, k: nat, at: nat)
    requires k < |events| && events[k].event.Chunk? && events[k].event.toolId != "" && !Starts(events, k)
    requires at < |StartsBefore(events, k)|
    requires IsChunkOf(events, StartsBefore(events, k)[at], events[k].event.toolId)
    ensures var items, e := EventItems(events, k), events[k].event;
            at < |items| && items[at].item.Tool?
            && EventItems(events, k + 1) == items[at := items[at].(item := items[at].item.(chunk := e))]
  {
    var idx, id := StartsBefore(events, k), events[k].event.toolId;
    StartsAre(events, k);
    ToolAt(events, k, idx[at], id);
    assert StartsBefore(events, k + 1) == idx;
    hide Starts, StartsBefore, ItemOf, LastChunk, LastResult;
    forall j | 0 <= j < |idx|
      ensures j != at ==> !IsChunkOf(events, idx[j], id)
      ensures ItemOf(events, idx[j], k + 1)
           == if j == at then ItemOf(events, idx[j], k).(item := ItemOf(events, idx[j], k).item.(chunk := events[k].event))
              else ItemOf(events, idx[j], k)
    {
      OneStart(events, idx[j], idx[at], id);
      ItemAfter(events, idx[j], k);
    }
  }

  lemma ToolAt(events: seq<Buffered>, k: nat, i: nat, id: string)
    requires i < k <= |events| && IsChunkOf(events, i, id)
    ensures ItemOf(events, i, k).item.Tool?
  {
  }

  lemma OneStart(events: seq<Buffered>, i: nat, j: nat, id: string)
    requires i < |events| && j < |events| && Starts(events, i) && Starts(events, j) && id != ""
    ensures IsChunkOf(events, i, id) && IsChunkOf(events, j, id) ==> i == j
  {
    if i < j {
      LastOnes(events, id, j, i);
    } else if j < i {
      LastOnes(events, id, i, j);
    }
  }

  /** `emittedToolIds`: for each call met, the place of its item. */
  ghost predicate Emitted(events: seq<Buffered>, k: nat, emitted: map<string, nat>)
    requires k <= |events|
  {
    && (forall id :: id in emitted <==> id != "" && LastChunk(events, id, k).Some?)
    && (forall id | id in emitted ::
          emitted[id] < |StartsBefore(events, k)| && IsChunkOf(events, StartsBefore(events, k)[emitted[id]], id))
  }

  lemma EmittedSays(events: seq<Buffered>, k: nat, emitted: map<string, nat>)
    requires k < |events| && Emitted(events, k, emitted)
    ensures var e := events[k].event;
            var again := e.Chunk? && e.toolId != "" && e.toolId in emitted;
            && (Starts(events, k) <==> !Hidden(e) && !e.Result? && !again)
            && (again ==> emitted[e.toolId] < |StartsBefore(events, k)|
                          && IsChunkOf(events, StartsBefore(events, k)[emitted[e.toolId]], e.toolId))
  {
  }

  lemma ChunkSeen(events: seq<Buffered>, k: nat, id: string)
    requires k < |events|
    ensures LastChunk(events, id, k + 1).Some? <==> IsChunkOf(events, k, id) || LastChunk(events, id, k).Some?
  {
  }

  lemma StartsKept(events: seq<Buffered>, k: nat)
    requires k < |events|
    ensures StartsBefore(events, k + 1) == StartsBefore(events, k) + (if Starts(events, k) then [k] else [])
  {
  }

  lemma EmittedNext(events: seq<Buffered>, k: nat, emitted: map<string, nat>)
    requires k < |events| && Emitted(events, k, emitted)
    ensures var e := events[k].event;
            Emitted(events, k + 1,
              if e.Chunk? && e.toolId != "" && e.toolId !in emitted
              then emitted[e.toolId := |StartsBefore(events, k)|] else emitted)
  {
    EmittedSays(events, k, emitted);
    StartsKept(events, k);
    forall id ensures LastChunk(events, id, k + 1).Some? <==> IsChunkOf(events, k, id) || LastChunk(events, id, k).Some? {
      ChunkSeen(events, k, id);
    }
    hide LastChunk, StartsBefore, Starts, Hidden;
  }

  lemma ItemCount(events: seq<Buffered>, k: nat)
    requires k <= |events|
    ensures |EventItems(events, k)| == |StartsBefore(events, k)|
  {
  }

  /** The chunk case of the loop. */
  method AddChunk(events: seq<Buffered>, k: nat, results: map<string, AgentEvent>, before: seq<Timed>, known: map<string, nat>)
    returns (buf: seq<Timed>, emitted: map<string, nat>)
    requires k < |events| && events[k].event.Chunk? && Indexed(events, results)
    requires before == EventItems(events, k) && Emitted(events, k, known)
    ensures buf == EventItems(events, k + 1) && Emitted(events, k + 1, emitted)
  {
    hide Emitted, Indexed, EventItems, ItemOf, StartsBefore, LastChunk, LastResult, Starts;
    var b := events[k];
    buf, emitted := before, known;
    EmittedSays(events, k, emitted);
    EmittedNext(events, k, emitted);
    ItemCount(events, k);
    var id := b.event.toolId;
    if id != "" && id in emitted {
      var at := emitted[id];
      ItemsContinue(events, k, at);
      buf := buf[at := buf[at].(item := buf[at].item.(chunk := b.event))];
    } else {
      ItemsPush(events, k);
      ItemAtOnce(events, k, results);
      var result := if id != "" && id in results then Some(results[id]) else None;
      if id != "" { emitted := emitted[id := |buf|]; }
      buf := buf + [Timed(b.ts, 0, b.offset, Tool(IdOf(b), b.ts, b.event, result))];
    }
  }

  /** Every other event: dropped, or an item of its own. */
  method AddOther(events: seq<Buffered>, k: nat, results: map<string, AgentEvent>, before: seq<Timed>, ghost known: map<string, nat>)
    returns (buf: seq<Timed>)
    requires k < |events| && !events[k].event.Chunk? && Indexed(events, results)
    requires before == EventItems(events, k) && Emitted(events, k, known)
    ensures buf == EventItems(events, k + 1) && Emitted(events, k + 1, known)
  {
    hide Emitted, Indexed, EventItems, ItemOf, StartsBefore, LastChunk, LastResult, Starts;
    var b := events[k];
    EmittedSays(events, k, known);
    EmittedNext(events, k, known);
    if Hidden(b.event) || b.event.Result? {
      ItemsSame(events, k);
      return before;
    }
    ItemsPush(events, k);
    ItemAtOnce(events, k, results);
    buf := before + [Timed(b.ts, 0, b.offset, Agui(IdOf(b), b.ts, b.event))];
  }

  method MergeEvents(events: seq<Buffered>) returns (buf: seq<Timed>)
    ensures buf == EventItems(events, |events|)
  {
    hide Emitted, Indexed, EventItems, Starts, StartsBefore, LastChunk, LastResult, ItemOf;
    var results := IndexResults(events);
    buf := [];
    var emitted: map<string, nat> := map[];
    NothingYet(events);
    var k := 0;
    while k < |events|
      invariant 0 <= k <= |events|
      invariant buf == EventItems(events, k)
      invariant Emitted(events, k, emitted)
    {
      if events[k].event.Chunk? {
        buf, emitted := AddChunk(events, k, results, buf, emitted);
      } else {
        buf := AddOther(events, k, results, buf, emitted);
      }
      k := k + 1;
    }
  }

  lemma NothingYet(events: seq<Buffered>)
    ensures EventItems(events, 0) == [] && Emitted(events, 0, map[])
  {
  }

  method MergeTimeline(events: seq<Buffered>, resolved: seq<Resolved>, asks: seq<Resolved>)
    returns (items: seq<Item>)
    ensures items == Mapped((t: Timed) => t.item, Sort(ByTime, Shown(events, resolved, asks)))
  {
    var buf := MergeEvents(events);
    ghost var merged := buf;
    var i := 0;
    while i < |resolved|
      invariant 0 <= i <= |resolved|
      invariant buf == merged + Mapped(PermissionItem, resolved[..i])
    {
      var ts := if resolved[i].ts.Some? then resolved[i].ts.value else resolved[i].readAt;
      buf := buf + [Timed(ts, 3, MAX_SAFE_INTEGER, PermissionResolved(RequestId(resolved[i].requestId), ts, resolved[i]))];
      i := i + 1;
    }
    assert resolved[..i] == resolved;
    ghost var settled := buf;
    i := 0;
    while i < |asks|
      invariant 0 <= i <= |asks|
      invariant buf == settled + Mapped(AskItem, asks[..i])
    {
      var ts := if asks[i].ts.Some? then asks[i].ts.value else asks[i].readAt;
      buf := buf + [Timed(ts, 3, MAX_SAFE_INTEGER, QuestionResolved(RequestId(asks[i].requestId), ts, asks[i]))];
      i := i + 1;
    }
    assert asks[..i] == asks;
    buf := Sort(ByTime, buf);
    items := Mapped((t: Timed) => t.item, buf);
  }

  // ----- what the timeline shows -----

  /** The item a call should have: named and timed by its first chunk, with the text of its last and
      its last result, if there is one. */
  ghost predicate CallItem(events: seq<Buffered>, id: string, first: nat, t: Timed)
    requires first < |events|
  {
    var last, result := LastChunk(events, id, |events|), LastResult(events, id, |events|);
    && t.tsMs == events[first].ts && t.offset == events[first].offset
    && t.item.Tool? && t.item.id == IdOf(events[first]) && t.item.ts == events[first].ts
    && last.Some? && t.item.chunk == events[last.value].event
    && t.item.result == if result.Some? then Some(events[result.value].event) else None
  }

  ghost predicate ToolOf(t: Timed, id: string) {
    t.item.Tool? && t.item.chunk.Chunk? && t.item.chunk.toolId == id
  }

  lemma ToolOfStart(events: seq<Buffered>, i: nat, id: string)
    requires i < |events|
    ensures ToolOf(ItemOf(events, i, |events|), id) <==> IsChunkOf(events, i, id)
  {
  }

  /** One item a call: every call with a chunk has exactly one. */
  lemma OneItemPerCall(events: seq<Buffered>, id: string, first: nat) returns (at: nat)
    requires id != "" && IsChunkOf(events, first, id) && LastChunk(events, id, first).None?
    ensures var items := EventItems(events, |events|);
            && at < |items| && CallItem(events, id, first, items[at])
            && forall other: nat | other < |items| && other != at :: !ToolOf(items[other], id)
  {
    var idx := StartsBefore(events, |events|);
    StartsAre(events, |events|);
    assert Starts(events, first) && first in idx;
    LastOnes(events, id, |events|, first);
    at :| 0 <= at < |idx| && idx[at] == first;
    hide StartsBefore, LastChunk, LastResult, Starts, ToolOf;
    forall other: nat | other < |idx| && other != at ensures !ToolOf(ItemOf(events, idx[other], |events|), id) {
      OneStart(events, first, idx[other], id);
      ToolOfStart(events, idx[other], id);
    }
  }

  lemma ByTimeIsOrder()
    ensures TotalPreorder(ByTime)
  {
  }

  /** The timeline is the shown items, none lost, none added, none twice, in the order of time, rank
      and offset, with ties as they stood. */
  lemma TimelineSorted(events: seq<Buffered>, resolved: seq<Resolved>, asks: seq<Resolved>, tied: Timed)
    ensures var shown := Shown(events, resolved, asks);
            var sorted := Sort(ByTime, shown);
            && multiset(sorted) == multiset(shown)
            && SortedBy(ByTime, sorted)
            && Filter((t: Timed) => ByTime(t, tied) && ByTime(tied, t), sorted)
               == Filter((t: Timed) => ByTime(t, tied) && ByTime(tied, t), shown)
  {
    var shown := Shown(events, resolved, asks);
    ByTimeIsOrder();
    SortIsPermutation(ByTime, shown);
    SortIsSorted(ByTime, shown);
    SortIsStable(ByTime, shown, (t: Timed) => ByTime(t, tied) && ByTime(tied, t));
  }

  /** The primary key is the time itself, whatever the offsets. */
  lemma EarlierFirst(events: seq<Buffered>, resolved: seq<Resolved>, asks: seq<Resolved>, i: nat, j: nat)
    requires var s := Sort(ByTime, Shown(events, resolved, asks));
             i < |s| && j < |s| && s[i].tsMs < s[j].tsMs
    ensures i < j
  {
    ByTimeIsOrder();
    var s := Sort(ByTime, Shown(events, resolved, asks));
    SortIsSorted(ByTime, Shown(events, resolved, asks));
    assert j < i ==> ByTime(s[j], s[i]);
  }

  /** A resolution follows every event of its own time or earlier. */
  lemma ResolutionsAfterEvents(events: seq<Buffered>, resolved: seq<Resolved>, asks: seq<Resolved>, i: nat, j: nat)
    requires var s := Sort(ByTime, Shown(events, resolved, asks));
             i < |s| && j < |s| && s[i].rank == 0 && s[j].rank == 3 && s[i].tsMs <= s[j].tsMs
    ensures i < j
  {
    ByTimeIsOrder();
    var s := Sort(ByTime, Shown(events, resolved, asks));
    SortIsSorted(ByTime, Shown(events, resolved, asks));
    assert j < i ==> ByTime(s[j], s[i]);
  }

  /** An event without a time, at zero, as every run event is, does not follow the item it came after:
      it stands before each item with a positive time. */
  lemma UntimedFirst(
    events: seq<Buffered>, resolved: seq<Resolved>, asks: seq<Resolved>, k: nat, later: Timed)
    requires k < |events| && Starts(events, k) && events[k].ts == 0
    requires later in Shown(events, resolved, asks) && later.tsMs > 0
    ensures var s := Sort(ByTime, Shown(events, resolved, asks));
            exists i, j :: 0 <= i < j < |s| && s[i] == ItemOf(events, k, |events|) && s[j] == later
  {
    var shown := Shown(events, resolved, asks);
    var item := ItemOf(events, k, |events|);
    StartsAre(events, |events|);
    var at :| 0 <= at < |StartsBefore(events, |events|)| && StartsBefore(events, |events|)[at] == k;
    assert shown[at] == item;
    ByTimeIsOrder();
    SortIsPermutation(ByTime, shown);
    var s := Sort(ByTime, shown);
    assert item in multiset(shown) && later in multiset(shown);
    assert item in s && later in s;
    var i :| 0 <= i < |s| && s[i] == item;
    var j :| 0 <= j < |s| && s[j] == later;
    EarlierFirst(events, resolved, asks, i, j);
  }

  // ----- every resolution is shown, and nothing else -----

  /** The card of a decided permission: its time is the frame's, or the clock's where it has none. */
  function PermissionCard(r: Resolved): Item {
    PermissionResolved(RequestId(r.requestId), if r.ts.Some? then r.ts.value else r.readAt, r)
  }

  function QuestionCard(r: Resolved): Item {
    QuestionResolved(RequestId(r.requestId), if r.ts.Some? then r.ts.value else r.readAt, r)
  }

  function ItemsOf(ts: seq<Timed>): seq<Item> {
    Mapped((t: Timed) => t.item, ts)
  }

  lemma BagWithout<T>(b: seq<T>, i: nat)
    requires i < |b|
    ensures multiset(b) == multiset(b[..i] + b[i + 1..]) + multiset{b[i]}
  {
    assert b == b[..i] + [b[i]] + b[i + 1..];
  }

  lemma ItemsWithout(b: seq<Timed>, i: nat)
    requires i < |b|
    ensures multiset(ItemsOf(b)) == multiset(ItemsOf(b[..i] + b[i + 1..])) + multiset{b[i].item}
  {
    BagWithout(ItemsOf(b), i);
    assert ItemsOf(b[..i] + b[i + 1..]) == ItemsOf(b)[..i] + ItemsOf(b)[i + 1..];
  }

  lemma {:induction false} ItemsBag(a: seq<Timed>, b: seq<Timed>)
    requires multiset(a) == multiset(b)
    ensures multiset(ItemsOf(a)) == multiset(ItemsOf(b))
    decreases |a|
  {
    if a == [] {
      assert |multiset(b)| == 0;
      assert b == [];
    } else {
      hide ItemsOf;
      assert a[0] in multiset(b);
      var i :| 0 <= i < |b| && b[i] == a[0];
      BagWithout(a, 0);
      BagWithout(b, i);
      ItemsWithout(a, 0);
      ItemsWithout(b, i);
      assert multiset(a[..0] + a[1..]) == multiset(a) - multiset{a[0]};
      assert multiset(b[..i] + b[i + 1..]) == multiset(b) - multiset{a[0]};
      ItemsBag(a[..0] + a[1..], b[..i] + b[i + 1..]);
    }
  }

  /** The timeline has one card for each decided permission, one for each settled question, and one item
      for each event that starts one; each of these as often as it was given, and nothing else. */
  lemma EveryResolutionShown(events: seq<Buffered>, resolved: seq<Resolved>, asks: seq<Resolved>)
    ensures multiset(ItemsOf(Sort(ByTime, Shown(events, resolved, asks))))
         == multiset(ItemsOf(EventItems(events, |events|)))
            + multiset(Mapped(PermissionCard, resolved)) + multiset(Mapped(QuestionCard, asks))
    ensures forall t | t in ItemsOf(EventItems(events, |events|)) :: t.Tool? || t.Agui?
  {
    var items, shown := EventItems(events, |events|), Shown(events, resolved, asks);
    SortIsPermutation(ByTime, shown);
    ItemsBag(Sort(ByTime, shown), shown);
    CardsOf(resolved, asks);
    EventItemsOnly(events);
    hide EventItems, Sort;
    assert ItemsOf(shown)
        == ItemsOf(items) + ItemsOf(Mapped(PermissionItem, resolved)) + ItemsOf(Mapped(AskItem, asks));
  }

  lemma CardsOf(resolved: seq<Resolved>, asks: seq<Resolved>)
    ensures ItemsOf(Mapped(PermissionItem, resolved)) == Mapped(PermissionCard, resolved)
    ensures ItemsOf(Mapped(AskItem, asks)) == Mapped(QuestionCard, asks)
  {
  }

  lemma EventItemsOnly(events: seq<Buffered>)
    ensures forall t | t in ItemsOf(EventItems(events, |events|)) :: t.Tool? || t.Agui?
  {
    var items := EventItems(events, |events|);
    forall t | t in ItemsOf(items) ensures t.Tool? || t.Agui? {
      var i :| 0 <= i < |items| && items[i].item == t;
    }
  }

  /** Items are sorted by the time they show, and resolutions behind events of the same time. */
  lemma KeysAreShown(events: seq<Buffered>, resolved: seq<Resolved>, asks: seq<Resolved>)
    ensures forall t | t in Shown(events, resolved, asks) ::
      && t.tsMs == t.item.ts
      && t.rank == (if t.item.PermissionResolved? || t.item.QuestionResolved? then 3 else 0)
  {
    var items := EventItems(events, |events|);
    EventKeys(events);
    hide EventItems;
    forall t | t in Shown(events, resolved, asks)
      ensures t.tsMs == t.item.ts && t.rank == (if t.item.PermissionResolved? || t.item.QuestionResolved? then 3 else 0)
    {
      if t in Mapped(PermissionItem, resolved) {
        var i :| 0 <= i < |resolved| && Mapped(PermissionItem, resolved)[i] == t;
      } else if t in Mapped(AskItem, asks) {
        var i :| 0 <= i < |asks| && Mapped(AskItem, asks)[i] == t;
      } else {
        assert t in items;
      }
    }
  }

  /** No two events of a buffer are the same place of the same row of the same session. */
  ghost predicate DistinctEvents(events: seq<Buffered>) {
    forall i, j | 0 <= i < j < |events| ::
      (events[i].daemonId, events[i].sessionId, events[i].offset, events[i].index)
      != (events[j].daemonId, events[j].sessionId, events[j].offset, events[j].index)
  }

  lemma {:induction false} StartsAscend(events: seq<Buffered>, upto: nat, j: nat, k: nat)
    requires upto <= |events| && j < k < |StartsBefore(events, upto)|
    ensures StartsBefore(events, upto)[j] < StartsBefore(events, upto)[k]
  {
    StartsAre(events, upto);
  }

  /** The items of distinct events have distinct ids. */
  lemma IdsDistinct(events: seq<Buffered>, j: nat, k: nat)
    requires DistinctEvents(events) && j < k < |EventItems(events, |events|)|
    ensures EventItems(events, |events|)[j].item.id != EventItems(events, |events|)[k].item.id
  {
    StartsAscend(events, |events|, j, k);
    hide Starts, LastChunk, LastResult, StartsBefore;
  }

  lemma EventKeys(events: seq<Buffered>)
    ensures forall t | t in EventItems(events, |events|) :: t.tsMs == t.item.ts && t.rank == 0 && (t.item.Tool? || t.item.Agui?)
  {
    var items := EventItems(events, |events|);
    forall t | t in items ensures t.tsMs == t.item.ts && t.rank == 0 && (t.item.Tool? || t.item.Agui?) {
      var i :| 0 <= i < |items| && items[i] == t;
    }
  }

  /** An event that belongs to no call has an item with its id, time and content exactly if it is
      neither a call's result nor a row of one of the hidden types. */
  lemma PlainEventShownIff(events: seq<Buffered>, i: nat)
    requires i < |events| && !events[i].event.Chunk?
    ensures var e := events[i].event;
            i in StartsBefore(events, |events|) <==>
              !e.Result? && !(e.Raw? && e.rawType.Some? && e.rawType.value in HIDDEN_PAYLOAD_TYPES)
    ensures i in StartsBefore(events, |events|) ==>
      Agui(IdOf(events[i]), events[i].ts, events[i].event) in ItemsOf(EventItems(events, |events|))
  {
    StartsAre(events, |events|);
    var idx := StartsBefore(events, |events|);
    if i in idx {
      var j :| 0 <= j < |idx| && idx[j] == i;
      assert ItemsOf(EventItems(events, |events|))[j] == Agui(IdOf(events[i]), events[i].ts, events[i].event);
    }
  }
}
