# Verified model of the session relay

The system relays Claude Code sessions from a local daemon through a hub to a browser client.  This
project models its state replication, byte-stream parsing, small state machines and exact arithmetic
in Dafny, and proves what they keep over every input and every run.  `dafny verify dfyconfig.toml`
checks everything.

Each component is written twice.  A class or a method follows the source: the same fields, branches
and loops, proved against a specification function.  Lemmas over whole runs of those functions then
state what the component is for.

| files | component |
|---|---|
| `Frames`, `Sequences`, `Arithmetic`, `StableSort` | wire frames, stock facts, `Array.prototype.sort` |
| `Registry`, `AskRelay`, `AskOutcomes`, `HubClient`, `Daemon` | the daemon's live sessions, question relay and its outcomes, reconnecting link, handlers |
| `Router`, `PwaReducer` | the hub's replica, the browser client's replica |
| `Uplink`, `SessionFrames`, `Transcripts`, `Downlink`, `EndToEnd` | the replicas joined by FIFO queues that drop, reconnect and restart; what the handlers' frames tell |
| `Utf8`, `Jsonl`, `JsonlCuts` | transcript file to rows, live and in one scan |
| `MergeBuffer`, `Paging`, `PagingRuns`, `AsyncPaging`, `Rebinds` | rows to event buffer, live and by pages, over changes of transcript |
| `Codec` | length-prefixed framing |
| `SessionFsm`, `StateFeed`, `Permissions`, `PermissionView` | session state machine, its effect on the live sessions, permission requests and who sees them |
| `PromiseChain`, `ProcessRegistry` | the file of started tmux sessions and the queue of calls on it |
| `Cidr`, `AddressText` | address blocks, IPv4 and IPv6 text (RFC 4291, sections 2.2 and 2.5.5.2) |
| `RateLimit`, `Timeline`, `PermissionHistory`, `Ulid`, `PendingStarts` | limiter, chat timeline, bounded history, id time, start queue |

## How the replication is modelled

`Uplink` has one daemon and the hub's entry for it.  The wire is a sequence of frames with a marker
where a connection ended.  A lost connection may lose any tail of what was written, but the hub reads
the end of the old connection before anything of the next.  `Downlink` has the hub, one browser's
queue and its state, with the views of the hub recorded since the subscription.  `EndToEnd` joins any
number of daemons, the hub and one browser.  Sessions are followed whatever the question ids; only the
results about questions at the browser assume that daemons share none.  Nothing is assumed of the
greetings in `Downlink`; that a daemon's own greetings list each session once is proved.

The daemon learns a session's transcript id without telling the hub (`index.ts:779`), and a rebind
frame does not refresh it either.  `Uplink.Node` therefore records, as history, the id each session
was last told with, by its registration or by a greeting; `Transcripts` proves that the hub holds that
id, and `EndToEnd` that the browser does.  `SessionFrames` proves that whoever reads the rebind frames as
well has the present id but for one that was found and never told.

## What the proofs found

These follow from the code as it is; each has a lemma with the exact condition or a concrete input.

- A hook client that closes drops its questions without a word to the hub, so the hub keeps offering
  them to subscribers.  Those are the only stale questions (`Uplink.StaleQuestionsAreOrphans`).
- A transcript id found or changed after a session was announced does not reach the hub before the
  next greeting, and a registration still queued behind that greeting takes it back
  (`Transcripts.TranscriptStepIff`, `Transcripts.QueuedRegistrationWins`, `Transcripts.HubFallsBehind`).
- A browser that was away keeps questions settled meanwhile, and any browser keeps those of a daemon
  that left or greeted anew without them; nothing else is stale in it (`Downlink.PrefixConsistent`).
- A question id taken again while it is pending is resolved twice, and its newer request cannot be
  answered once the older one's timer has fired.  Any other reuse keeps timers and requests paired,
  and no reuse at all disturbs what the hub holds for the daemon (`AskRelay.PairedThroughoutIff`,
  `AskRelay.OverwrittenStrandsNewer`, `Uplink.ConvergesWhenDrained`, `Uplink.StaleQuestionsAreOrphans`).
- Two daemons with a question open under one id leave a subscribed browser without one of the two
  (`Downlink.QuestionInputIff`).
- A greeting with a session listed twice is one session at the hub and two in the browser's list; by
  id the two agree (`PwaReducer.DuplicateShownTwice`, `PwaReducer.OnceThroughoutIff`).
- A push that meets a bad frame loses the frames it decoded before it, and every later push fails
  (`Codec.FailedPushLoses`, `Codec.FailureIsForEver`).
- A drain that ends inside a character corrupts its line once the line is complete, and moves the
  offsets of the lines it completes itself (`JsonlCuts.LiveMatchesScanIff`, `Jsonl.CutShiftsOffsets`).
- A history bound includes the oldest known row.  A page limit of one therefore never progresses, and
  paging never learns that history has ended, although `useHub.ts:454-456` says an empty chunk tells it
  (`PagingRuns.LimitOneStalls`, `PagingRuns.PagingNeverSaysNoMore`).
- The event buffer is not always sorted, although `useSessionTimeline.ts:88` relies on it: the run
  events sit at negative offsets and are appended (`MergeBuffer.LiveKeepsOrderIff`), and the answer to
  an empty buffer's request can overtake live rows, which then stay behind it
  (`AsyncPaging.SkippedRowsStayBehind`, `AsyncPaging.OrderlyThroughoutIff`).
- Start and finish events do not alternate once a permission masks a change
  (`SessionFsm.RunEventsAlternateIff`, `SessionFsm.FinishWithoutStart`).
- Pending counts and unresolved rows part on a reused id, a reply that names another session, or a
  removal with requests pending, and in no other way (`Permissions.BalanceStep`).
- A permission asked while a browser is away is never shown to it, and one decided meanwhile stays
  shown (`PermissionView.UndecidedShownIff`, `PermissionView.DecidedShownIff`).
- A rebind that passes while a browser is away leaves the old transcript in its buffer, and hides rows
  of the new one at equal offsets; an answer read before a rebind does the same
  (`Rebinds.AloneThroughoutIff`, `Rebinds.MissedRebindHidesRow`).
- A read error other than absence makes the registry forget every other session
  (`ProcessRegistry.FaultHarmlessIff`, `ProcessRegistry.UnluckyReadForgets`).
- A dotted quad in front of `::` is accepted and moved behind it (`AddressText.QuadBeforeGapMoves`).
- A v4-mapped v6 address matches no v4 block; the comment at `proxy.ts:104` says the prefix is
  stripped, and the code does not strip it (`Cidr.MappingIsOneWay`).
- Timeline items without a time sort before all others, although `timeline.ts:149-157` says they keep
  to their neighbours (`Timeline.UntimedFirst`).
- A clock that goes back can make the limiter refuse too much and admit too much, and the start queue
  answer an expired request (`RateLimit.AdmitsExactlyIff`, `RateLimit.ClockBackRefuses`,
  `RateLimit.ClockBackOverAdmits`, `PendingStarts.FrontIsEnoughIff`).

## Model

| member | source | states |
|---|---|---|
| `Registry.LiveSessions.Add` | packages/daemon/src/registry.ts:11-15 | A session whose id is already live is ignored; a new one goes to the end of the list, and exactly then the add listeners run. |
| `Registry.LiveSessions.Update` | packages/daemon/src/registry.ts:17-21 | The patch reaches the one session with that id and no other; an unknown id changes nothing. |
| `Registry.LiveSessions.Remove` | packages/daemon/src/registry.ts:23-27 | The session leaves the list, the others keep their order, and the remove listeners run exactly if it was live. |
| `Registry.LiveSessions.constructor` | packages/daemon/src/registry.ts:6-9 | Starts empty; `Valid` says that no id is live twice and that a listener which heard every call knows exactly the live ids. |
| `Registry.FindByClaudeFirst` | packages/daemon/src/registry.ts:37-42 | Of several live sessions on one transcript the one registered first is found. |
| `Registry.FindUpdated` | packages/daemon/src/registry.ts:17-21 | Looking up after an update gives the patched session under the updated id and the same answer as before under every other. |
| `HubClient.HandedOnceInOrder` | packages/daemon/src/hub-client.ts:95-103 | For every sequence of sends, opens, closes, connects and stops: the frames handed to sockets followed by the queue are exactly the frames given to `send`, in order. |
| `HubClient.DelayDoublesToCap` | packages/daemon/src/hub-client.ts:62-69 | The k-th delay of a row of failures is the start delay times 2 to the k, cut off at the cap; only the first can exceed the cap.  `DelayAfterRun` is the same of the link itself. |
| `HubClient.DelayAfterRun` | packages/daemon/src/hub-client.ts:62-69 | After any run of sends, openings, closings, connects and stops a closing schedules the next connect after the start delay doubled once for each closing since the last opening and cut off at the cap, the first uncut; once stopped it schedules none.  The class records its run, so the same is so of its delays. |
| `HubClient.SentAllIs` | packages/daemon/src/hub-client.ts:142-149 | A batch of sends is written whole on an open socket and queued whole, behind what is queued, on any other. |
| `HubClient.Client.OnOpen` | packages/daemon/src/hub-client.ts:95-103 | Writes the greeting, then the replays, then the whole queue oldest first, and resets the delay. |
| `HubClient.Client.Send` | packages/daemon/src/hub-client.ts:142-149 | Writes at once on an open socket and queues otherwise; returns which. |
| `HubClient.Client.ScheduleReconnect` | packages/daemon/src/hub-client.ts:62-69 | A stopped client stops; any other waits the present delay, which then doubles up to the cap; both as the run it records says. |
| `HubClient.Client.Connect` | packages/daemon/src/hub-client.ts:71-93 | Does nothing once stopped; a failing constructor goes to the reconnect path and keeps the queue. |
| `HubClient.Client.Close` | packages/daemon/src/hub-client.ts:150-154 | Stops for good and keeps the queue unsent. |
| `AskRelay.SettledAtMostOnce` | packages/daemon/src/index.ts:278-299 | For every run with fresh request ids: at most one reply to a hook and at most one resolution to the hub for each question, and no question is at once pending, dropped and replied to. |
| `AskRelay.HubAndHooksAgree` | packages/daemon/src/index.ts:659-712 | For every run, fresh ids or not: the hub is told of the same settlements as the hooks, in the same order, apart from requests for unknown sessions. |
| `AskRelay.PairedStepIff` | packages/daemon/src/index.ts:659-712 | A handler keeps timers and pending entries in one-to-one correspondence exactly when it is not a request under an id that is still pending. |
| `AskRelay.PairedThroughoutIff` | packages/daemon/src/index.ts:659-712 | They correspond throughout a run exactly when no request in it takes an id still pending; an id that was settled or dropped may come back. |
| `AskRelay.OverwrittenStrandsNewer` | packages/daemon/src/index.ts:679-704 | From any such state a request under a pending id leaves the former timer set: when it fires it deletes the newer entry, no answer finds the newer request again, and both timers report the id to the hub. |
| `AskRelay.OneReplyPerRequest` | packages/daemon/src/index.ts:278-299 | For every run, whatever the ids: each request is replied to at most once, and never after its timer is gone. |
| `AskOutcomes.RepliesHaveCauses` | packages/daemon/src/index.ts:278-299 | For every run, whatever the ids: a hook is told `expired` only if its own request's timer ended and `answered` only if an answer under its id came, in either case the client that made that request; a request for an unknown session is refused at once and in order; and a known one is still timed, was replied to, or its client closed. |
| `AskOutcomes.FramesHaveCauses` | packages/daemon/src/index.ts:659-712 | For every run: the hub is asked a question only as a hook asked it, is told `answered` only of an answer, under the session that the answer names, and `expired` only of a request whose timer ended, under that request's session. |
| `AskOutcomes.SettledAtOnce` | packages/daemon/src/index.ts:278-299 | After every run: an answer under a pending id and the end of a timer still set each settle their request at once, with one reply to the client that made it, and leave neither entry nor timer. |
| `AskOutcomes.SameOutcomes` | packages/daemon/src/index.ts:278-299 | For every run: the hub is told of the same questions with the same outcomes as the hooks, in the same order. |
| `AskRelay.ReusedIdResolvesTwice` | packages/daemon/src/index.ts:679-704 | The shortest run in which a pending id is taken again and is reported twice. |
| `AskRelay.AskHandlers.OnHookRequest` | packages/daemon/src/index.ts:659-712 | An unknown session is answered at once and nothing is kept; a known one gets an entry, a timer and a frame to the hub. |
| `AskRelay.AskHandlers.OnAnswer` | packages/daemon/src/index.ts:278-299 | The first answer clears the timer and the entry, replies to the hook and tells the hub under the session id of the answer frame; any later one does nothing. |
| `AskRelay.AskHandlers.OnTimer` | packages/daemon/src/index.ts:679-697 | Expiry deletes the entry under the captured id, replies `expired` and tells the hub. |
| `AskRelay.AskHandlers.OnClientClosed` | packages/daemon/src/index.ts:904-911 | A loop over the entries drops exactly those of the closed client, with their timers, and sends nothing. |
| `Daemon.Daemon.OnRegister` | packages/daemon/src/index.ts:714-721 | A new session is entered in the state machine and takes the waiting start of its directory, whose request id its frame carries; a known one changes nothing.  The rest is one `Register` step of the replication model. |
| `Daemon.Daemon.OnUnregister` | packages/daemon/src/index.ts:803-807 | A live session is closed towards the hub, loses both caches and leaves the state machine; an unknown one changes nothing. |
| `Daemon.Daemon.OnTransition` | packages/daemon/src/index.ts:825-834 | A transition updates the live session and sends the state frame. |
| `Daemon.Daemon.OnBound` | packages/daemon/src/index.ts:774-779 | The transcript id of a session is filled in without a frame to the hub, which is why the hub's copy of that field can be old. |
| `Daemon.Daemon.OnRebound` | packages/daemon/src/index.ts:634-657 | A rebind of a live session updates its transcript id and sends the rebound frame; of an unknown session it does nothing. |
| `Daemon.Daemon.OnInventory` | packages/daemon/src/index.ts:724-728 | The inventory is cached and sent. |
| `Daemon.Daemon.OnProbe` | packages/daemon/src/index.ts:741-743 | The handshake is cached and sent. |
| `Daemon.Daemon.OnHookAsk` | packages/daemon/src/index.ts:659-712 | The hook's transcript id is looked up among the live sessions and the request goes to the relay and the hub. |
| `Daemon.Daemon.OnAnswer` | packages/daemon/src/index.ts:278-299 | An answer from the hub settles the question and the resolution goes through the same queue as every frame. |
| `Daemon.Daemon.OnOpen` | packages/daemon/src/index.ts:227-256 | Returns exactly the unexpired pending questions and the two caches, nothing missing and nothing else. |
| `Daemon.Daemon.OnLinkOpen` | packages/daemon/src/hub-client.ts:95-103 | Opening writes the greeting with the present sessions, those replays and the old queue, and reaches the model's greeted state. |
| `Router.Hubs.OnDaemonFrame` | packages/hub/src/router.ts:76-121 | For every frame the new replica, the event ring and the broadcast are those of the specification function; a frame of an unknown daemon changes nothing. |
| `Router.Hubs.OnDaemonDisconnect` | packages/hub/src/router.ts:341-346 | A known daemon is forgotten and announced offline; an unknown one is ignored. |
| `Router.Hubs.OnDaemonRenamed` | packages/hub/src/router.ts:542-546 | The name changes if the daemon is known and is announced either way. |
| `Router.Hubs.OnPwaSubscribe` | packages/hub/src/router.ts:348-371 | A subscriber gets a snapshot that lists every daemon once with each of its sessions once, and then exactly the cached questions, inventories and handshakes. |
| `Router.Hubs.Snapshot` | packages/hub/src/router.ts:529-534 | The list describes each daemon of the hub once and no other. |
| `Router.Hubs.MapOf` | packages/hub/src/router.ts:89 | The map of a greeting's sessions has exactly the last entry of every id. |
| `Router.FromListHolds` | packages/hub/src/router.ts:89 | So has the specification's map: it holds the last entry of each id in the list and nothing else. |
| `Router.WellKeyedOnFrame` | packages/hub/src/router.ts:76-121 | Every session stays filed under its own id. |
| `Router.OnRing` | packages/hub/src/router.ts:135-136 | The event ring never grows beyond its 200 places, whatever the frame. |
| `Router.RingIsNewest` | packages/hub/src/router.ts:133-137 | After any frames the ring is, in order, the newest of the events that no rebind of their session followed: it ends with all of those among the last 200 events, and before them stand only the ones just before. |
| `Router.ConnectionForwarded` | packages/hub/src/router.ts:76-142 | For every connection: the greeting starts the daemon afresh and is announced, and every frame after it is broadcast once and in order. |
| `Router.UnknownIgnored` | packages/hub/src/router.ts:104-108 | Frames of a daemon that has not greeted are neither kept nor passed on. |
| `Router.NotOfKeepsOrder` | packages/hub/src/router.ts:302-304 | A rebind drops each event of the rebound session from the ring and keeps every other frame in its place. |
| `PwaReducer.ReduceIsViewStep` | packages/pwa/src/hooks/useHub.ts:362-407 | For every frame the hub may send, lists with repeated sessions included, the reducer's list surgery moves the client's online daemons, sessions by id, exactly as the abstract view moves. |
| `PwaReducer.EntryIsWhatWasHeard` | packages/pwa/src/hooks/useHub.ts:349-407 | For every run of frames and every daemon, online or not: the browser's entry of it is what the frames told of it; a daemon that left keeps the name and sessions it last had and is shown offline. |
| `PwaReducer.HubFrameView` | packages/hub/src/router.ts:76-121 | The hub's own view moves by the same abstract step for the frame it broadcasts. |
| `PwaReducer.HubDisconnectView` | packages/hub/src/router.ts:341-346 | So it does when a daemon disconnects. |
| `PwaReducer.HubRenameView` | packages/hub/src/router.ts:542-546 | So it does when a daemon is renamed. |
| `PwaReducer.SnapshotShowsHub` | packages/hub/src/router.ts:529-534 | A client that takes a snapshot shows the hub's view. |
| `PwaReducer.OnSessionsIsStep` | packages/pwa/src/hooks/useHub.ts:387-407 | Filtering and appending a list agrees with setting and deleting in a map, for every list and every frame; the last entry of an id counts. |
| `PwaReducer.OnceStepIff` | packages/pwa/src/hooks/useHub.ts:362-407 | A frame keeps each session listed once exactly when it brings no list with a repeated session. |
| `PwaReducer.OnceThroughoutIff` | packages/pwa/src/hooks/useHub.ts:362-407 | Over every run of frames the client lists each session once throughout exactly when no snapshot and no greeting in it lists a session twice. |
| `PwaReducer.DuplicateShownTwice` | packages/pwa/src/hooks/useHub.ts:387-398 | A greeting that lists a session twice: the hub holds one, the reducer's state lists two, and by id the two agree all the same. |
| `Downlink.PrefixConsistent` | packages/pwa/src/hooks/useHub.ts:362-407 | In every run of hub inputs, subscriptions, receipts and drops, a client that has read its snapshot shows the hub's view at an earlier moment, and with an empty queue the present view.  If in the run no daemon speaks of a question that another has open, it then also knows exactly the hub's questions and those settled, or lost with their daemon, behind its back. |
| `Downlink.ViewInvStep` | packages/hub/src/router.ts:348-371 | Every step keeps the queue behind the snapshot a chain of frames from one recorded hub view to the next. |
| `Downlink.QuestionInvStep` | packages/hub/src/router.ts:169-191 | Every step that speaks of no question another daemon has open keeps this: the client's questions, after the frames still queued, include every question cached at the hub. |
| `Downlink.QuestionInputIff` | packages/hub/src/router.ts:169-191 | While a client is subscribed, a hub input keeps each question with one daemon and the client informed of all exactly if it speaks of none that another daemon has open. |
| `Downlink.StaleInvStep` | packages/pwa/src/hooks/useHub.ts:362-407 | Every such step accounts for each question the client knows beyond the hub's: the hub dropped it when its daemon left or greeted anew, or the client knew it before subscribing and the hub no longer had it. |
| `Downlink.OnceInvStep` | packages/hub/src/router.ts:89-97 | As long as greetings list each session once, so does the client and every frame queued for it. |
| `Uplink.ConvergesWhenDrained` | packages/daemon/src/hub-client.ts:95-103 | For every run of registrations, transitions, removals, questions under any ids, drops, reconnects and restarts of either side: link open and queue empty imply that the hub's sessions but for the transcript id, and its caches, are the daemon's and that it holds every question unexpired at the last opening, although older queued frames follow a newer greeting.  `HubHoldsWhatItWasTold` says what the transcript id is. |
| `Uplink.StaleQuestionsAreOrphans` | packages/daemon/src/index.ts:904-911 | For every run, ids reused or not: the hub holds a question the daemon no longer has exactly when it was announced since the last opening, its hook client closed, and its id has been neither asked nor reported since. |
| `Uplink.HookGoneSaysNothing` | packages/daemon/src/index.ts:904-911 | Whenever a question is pending at the daemon and cached at the hub, the closing of its hook client drops it at the daemon, while neither the wire nor the hub's entry changes. |
| `Uplink.GreetingReachesTarget` | packages/daemon/src/hub-client.ts:95-103 | Greeting, replays and then the old queue bring a fresh replica to the daemon's present state. |
| `Uplink.DoOpen` | packages/daemon/src/index.ts:825-834 | On an open link every handler and the frame it sends keep the replica in step. |
| `Uplink.DoClosed` | packages/daemon/src/hub-client.ts:142-149 | While the link is down every handler keeps the queue harmless: replayed over a fresh greeting it changes nothing. |
| `Uplink.QueueSessionTransition` | packages/daemon/src/index.ts:825-834 | A queued state frame still leads to the session's newest state. |
| `Uplink.QueueSettlesStep` | packages/daemon/src/index.ts:278-299 | The queue requests no settled question without resolving it again. |
| `Uplink.InvStep` | packages/daemon/src/hub-client.ts:71-137 | Every step of the two-sided system, restarts included, keeps the invariant behind convergence. |
| `Uplink.DrainedAsks` | packages/daemon/src/index.ts:227-243 | Each unexpired pending question is in the hub's cache at every drained connected state. |
| `SessionFrames.ObserverFollows` | packages/daemon/src/index.ts:634-657 | For every run of handlers from boot: an observer that reads only openings, rebinds and ends has a session exactly while it is live, with its present transcript id unless a transcript found for it has not been told since; then the registry has the one found. |
| `SessionFrames.ObserverRightIff` | packages/daemon/src/index.ts:774-779 | It is right about a session exactly if no found transcript is untold, or the one found is the one told before. |
| `SessionFrames.OneFramePerRebind` | packages/daemon/src/index.ts:634-657 | For every run: a session's rebound frames are one for each rebind of it while live, in order, each with the new transcript's id. |
| `SessionFrames.BrowserNumbersRebinds` | packages/daemon/src/index.ts:634-657 | A browser that is sent those frames, rows between them and heard or not, counts as many rebinds as the daemon made, so the transcripts of `Rebinds` are the daemon's. |
| `SessionFrames.GivenFramesGoOut` | packages/daemon/src/index.ts:634-712 | For every run: events, notices, states, inventories and handshakes go out as given, each once, in order, whatever the daemon's state. |
| `SessionFrames.RegistrationsGoOut` | packages/daemon/src/index.ts:714-760 | For every run: each registration of a session not live goes out with the request it fulfils, and no other does. |
| `Transcripts.HubHoldsWhatItWasTold` | packages/daemon/src/hub-client.ts:95-103 | For every run, drained and connected: the hub's sessions are the daemon's in every field, the transcript id being the one last told by a registration or greeting, and a session is the daemon's own exactly when that id is still the session's. |
| `Transcripts.TranscriptStepIff` | packages/daemon/src/index.ts:774-779 | A hub that has a session right keeps it right over a handler and its frames exactly when the handler does not give the session another transcript id. |
| `Transcripts.BindLeavesHubBehind` | packages/daemon/src/index.ts:774-779 | From any drained connected state, finding another transcript for a session leaves the hub with the former id and nothing on the wire. |
| `Transcripts.QueuedRegistrationWins` | packages/daemon/src/hub-client.ts:95-103 | A registration still queued at an opening overrides the transcript id of the greeting in front of it. |
| `Transcripts.HubFallsBehind` | packages/daemon/src/hub-client.ts:95-103 | A run of six steps after which the hub lacks an id that the greeting had brought. |
| `Transcripts.TInvStep` | packages/daemon/src/hub-client.ts:71-137 | Every step, restarts included, keeps the hub, after what is on the wire, at the ids last told. |
| `EndToEnd.BrowserShowsDaemon` | packages/pwa/src/hooks/useHub.ts:362-407 | For any number of daemons, any question ids and every run: link open and queues empty imply that the browser shows that daemon with exactly its live sessions, each once, in their present states and with the transcript ids last told. |
| `EndToEnd.BrowserHoldsQuestions` | packages/hub/src/router.ts:169-191 | In every run where no two daemons issue the same question id, the browser then also holds every question of the daemon that was unexpired when its link opened. |
| `EndToEnd.BrowserShowsOnlyConnected` | packages/hub/src/router.ts:341-346 | With every queue empty and no socket half closed, the browser shows as online exactly the daemons whose link is open. |
| `EndToEnd.InvStep` | packages/hub/src/router.ts:76-121 | Every step of the whole system, whatever the question ids, keeps the invariants of both halves for sessions. |
| `EndToEnd.AskInvStep` | packages/hub/src/router.ts:169-191 | Every step in which a hook's request comes to the daemon that issues its id keeps the invariants for questions. |
| `Utf8.DecodeEncodeAll` | packages/daemon/src/jsonl-watcher.ts:49 | Decoding undoes encoding of any text. |
| `Utf8.DecodeTruncated` | packages/daemon/src/jsonl-watcher.ts:49 | Any text followed by the beginning of a character decodes to that text and one replacement character. |
| `Utf8.DecodeLeftover` | packages/daemon/src/jsonl-watcher.ts:49 | The bytes left of a cut character decode to one replacement character each, and the rest is undisturbed. |
| `Utf8.OnlyEncodingsDecode` | packages/daemon/src/jsonl-watcher.ts:49 | Nothing but its encoding decodes to a character: overlong forms, surrogates and numbers too large become replacements, as the Encoding Standard has it. |
| `Jsonl.Watcher.Drain` | packages/daemon/src/jsonl-watcher.ts:26-64 | The loop takes off every complete line with the byte offset behind it and keeps the rest; truncation starts over; a failing open reads nothing. |
| `Jsonl.TruncationStartsOver` | packages/daemon/src/jsonl-watcher.ts:32-36 | A drain of a file shorter than the offset is the drain of a new reader: nothing of the old partial line is left. |
| `Jsonl.RowsAfterTruncation` | packages/daemon/src/jsonl-watcher.ts:32-36 | Its rows are then those of the whole truncated file, with their offsets from its start. |
| `Jsonl.DrainsFollow` | packages/daemon/src/jsonl-watcher.ts:26-64 | For every growth of a file by whole characters and every sequence of drains, the rows emitted are the rows that one scan of the final file adds to those already read. |
| `Jsonl.ReadHistory` | packages/daemon/src/jsonl-history.ts:12-44 | The batch reader's loop returns the last `limit` of the rows whose end offset is at most the bound. |
| `Jsonl.LiveMatchesHistory` | packages/daemon/src/jsonl-history.ts:25-40 | Rows emitted live and rows answered from history are the same lines at the same offsets. |
| `Jsonl.RowsIncrease` | packages/daemon/src/jsonl-history.ts:25-31 | Row offsets are strictly increasing, positive and within the file. |
| `Jsonl.UpToIsAll` | packages/daemon/src/jsonl-history.ts:31 | Stopping at the first row beyond the bound loses no row within it. |
| `Jsonl.CutShiftsOffsets` | packages/daemon/src/jsonl-watcher.ts:49-56 | A drain that stops k bytes into a character moves every offset it reports by k less three, so its offsets are right exactly when k is three or it completes no line. |
| `Jsonl.CutCorruptsLine` | packages/daemon/src/jsonl-watcher.ts:49-53 | When one drain reads the beginning of a character and the next reads on past the end of its line, the rows of the second differ from those of the file. |
| `JsonlCuts.LiveMatchesScanIff` | packages/daemon/src/jsonl-watcher.ts:26-64 | For drains at any byte positions of a growing file: the live rows are those of one scan of what the last drain saw exactly when every position inside a character lies behind the last newline and has three bytes of the character read or completes no line. |
| `JsonlCuts.PieceDecodes` | packages/daemon/src/jsonl-watcher.ts:49 | What a drain between any two positions appends: a replacement character for each byte left of a character, the whole characters, and one replacement character for a beginning. |
| `JsonlCuts.CutLengthens` | packages/daemon/src/jsonl-watcher.ts:49-53 | A cut before the last newline makes the live lines longer, taken together, than the lines of the file. |
| `StableSort.SortIsSorted` | packages/pwa/src/hooks/useHub.ts:489 | The sort orders any sequence by any total preorder. |
| `StableSort.SortIsPermutation` | packages/pwa/src/hooks/useHub.ts:489 | It neither loses nor repeats an element. |
| `StableSort.SortIsStable` | packages/pwa/src/lib/timeline.ts:158 | Elements that the comparison does not separate keep their order. |
| `MergeBuffer.NeverTwiceNeverOverCap` | packages/pwa/src/hooks/useHub.ts:70-92 | In every run of live frames and chunks with distinct offsets no event is buffered twice and the length stays at most 2000. |
| `MergeBuffer.BufferIsUnion` | packages/pwa/src/hooks/useHub.ts:427-498 | For rows of one file and totals under the cap, any interleaving, repetition and order of frames and chunks leaves exactly the union of the delivered events, each once. |
| `MergeBuffer.HistoryChunk` | packages/pwa/src/hooks/useHub.ts:452-498 | The loop keeps exactly the rows at offsets not yet buffered, sorts them in, and keeps the newest 2000; an empty chunk only sets the flag. |
| `MergeBuffer.ChunkSorts` | packages/pwa/src/hooks/useHub.ts:489 | A chunk that brings anything new leaves the buffer sorted by offset. |
| `MergeBuffer.ChunkDropsOldest` | packages/pwa/src/hooks/useHub.ts:489-492 | For any buffer and chunk that brings anything new: buffer and news together are what is kept and what is dropped, no event kept has a smaller offset than one dropped, and anything is dropped only if the two exceed the cap, of which then exactly the cap is kept. |
| `MergeBuffer.LiveDropsFront` | packages/pwa/src/hooks/useHub.ts:90-91 | A live frame drops events from the front only, and only when buffer and row exceed the cap. |
| `MergeBuffer.NoMoreIff` | packages/pwa/src/hooks/useHub.ts:438-462 | For every run: a session says that it has no more history exactly if an empty chunk came and no new live row after it. |
| `MergeBuffer.LiveKeepsOrderIff` | packages/pwa/src/hooks/useHub.ts:90-91 | A live frame keeps a sorted buffer sorted exactly when it is a repeat, is empty, follows the last offset, or evicts all older events. |
| `PagingRuns.PageExtendsWindow` | packages/pwa/src/hooks/useSessionTimeline.ts:97-104 | A page turns a gap-free run of rows into the longer run that the limit allows, with nothing missing between. |
| `PagingRuns.LiveExtendsWindow` | packages/pwa/src/hooks/useHub.ts:427-451 | A live row extends the run at its end. |
| `Paging.ChunkExtendsWindow` | packages/pwa/src/hooks/useHub.ts:452-498 | A chunk of any rows that touch a gap-free run extends it at both ends, in file order. |
| `PagingRuns.GapFree` | packages/pwa/src/hooks/useSessionTimeline.ts:97-104 | However pages of any limits and live rows alternate, the buffer is a gap-free run of the file's rows ending at the newest. |
| `PagingRuns.PagesReachStart` | packages/pwa/src/hooks/useSessionTimeline.ts:97-104 | With a limit of at least two, n pages bring in n times limit less one earlier rows, so the first row is reached as soon as that covers the rows missing. |
| `PagingRuns.LimitOneStalls` | packages/daemon/src/jsonl-history.ts:31-43 | With a limit of one a page brings nothing new, because the bound includes the oldest known row. |
| `PagingRuns.PagingNeverSaysNoMore` | packages/pwa/src/hooks/useHub.ts:454-463 | A page over a non-empty buffer is never empty, so paging never sets the flag for the end of history. |
| `PagingRuns.TranscriptRowsOrdered` | packages/daemon/src/jsonl-history.ts:25-40 | The rows of any text meet the order that paging relies on. |
| `AsyncPaging.NothingSkipped` | packages/pwa/src/hooks/useSessionTimeline.ts:97-104 | However requests, file reads, answers, live rows and the growth of the file interleave: the buffer holds the events of some rows, each once, the rows missing behind the first are all still to come live, and once the live feed has caught up none is missing. |
| `AsyncPaging.OrderlyStepIff` | packages/pwa/src/hooks/useHub.ts:427-498 | A step keeps the buffer one stretch of the file in file order exactly when it does not merge an answer that begins behind the row after the last one shown. |
| `AsyncPaging.OrderlyThroughoutIff` | packages/pwa/src/hooks/useHub.ts:427-498 | The buffer is one stretch of the file in order throughout a run exactly when no such answer is merged. |
| `AsyncPaging.OrderlyAndCaughtUp` | packages/pwa/src/hooks/useHub.ts:427-498 | In such a run, whenever the live feed has caught up, the buffer is the file's rows from the first one shown to its end. |
| `AsyncPaging.OnlyUnboundedSkips` | packages/pwa/src/hooks/useSessionTimeline.ts:121-140 | Only the answer to a request without a bound, which an empty buffer makes, can be such an answer. |
| `AsyncPaging.SkippedRowsStayBehind` | packages/pwa/src/hooks/useSessionTimeline.ts:88-90 | A run after which no row is missing and the last event of the buffer is not the newest. |
| `AsyncPaging.InvStep` | packages/daemon/src/index.ts:300-337 | Every step keeps the rows shown and those still to come live together without a gap. |
| `Rebinds.AloneStepIff` | packages/pwa/src/hooks/useHub.ts:408-451 | A frame leaves the buffer with events of the present transcript alone exactly if it is no rebind missed over a filled buffer and no answer from an earlier transcript that brings something. |
| `Rebinds.AloneThroughoutIff` | packages/pwa/src/hooks/useHub.ts:408-498 | Throughout a run the buffer holds the present transcript alone exactly if no such frame occurs. |
| `Rebinds.MissedRebindHidesRow` | packages/pwa/src/hooks/useHub.ts:70-76 | After a missed rebind a row of the new transcript at an offset the old one left in the buffer is not shown. |
| `Codec.FrameDecoder.Push` | packages/proto/src/codec.ts:22-40 | One push returns the frames of the buffer and the chunk together and keeps the rest; on a bad frame it throws away what it decoded. |
| `Codec.DecodeUndoesEncode` | packages/proto/src/codec.ts:7-41 | Any values that fit a frame, sent back to back and cut into any chunks, come out exactly, in order, with nothing left. |
| `Codec.ChunkingIrrelevant` | packages/proto/src/codec.ts:22-40 | On a stream without bad frames every cutting into chunks gives the values and the buffer of one push. |
| `Codec.DrainConserves` | packages/proto/src/codec.ts:28-39 | The decoded frames put back on the wire, followed by the buffer, are the bytes fed; the buffer then holds no complete frame. |
| `Codec.FailsIffBadFrame` | packages/proto/src/codec.ts:29-37 | Some push throws exactly when the stream has a bad frame complete enough to be seen, however it is cut. |
| `Codec.FailedPushLoses` | packages/proto/src/codec.ts:31-37 | A throwing push keeps all its bytes exactly when the first frame of its buffer is the bad one; otherwise it loses at least one decoded value with its bytes. |
| `Codec.FailureIsForEver` | packages/proto/src/codec.ts:29-37 | After one failure every later push throws and only lengthens the buffer. |
| `Codec.HeaderReadsBack` | packages/proto/src/codec.ts:14-30 | The big-endian length reads back for every length of 32 bits. |
| `SessionFsm.Machine.OnJsonlLine` | packages/daemon/src/session-fsm.ts:78-88 | A line means working, or while waiting only the state to return to. |
| `SessionFsm.Machine.OnIdleTimer` | packages/daemon/src/session-fsm.ts:90-98 | The timer means idle, or while waiting only the state to return to. |
| `SessionFsm.Machine.OnPermissionRequest` | packages/daemon/src/session-fsm.ts:100-111 | Registers lazily, counts, stashes the state and waits. |
| `SessionFsm.Machine.OnPermissionResolved` | packages/daemon/src/session-fsm.ts:113-120 | Counts down, never below zero, and returns to the stashed state at zero. |
| `SessionFsm.Machine.OnError` | packages/daemon/src/session-fsm.ts:53-59 | An error is passed on as a run event and changes no state. |
| `SessionFsm.Machine.GoTo` | packages/daemon/src/session-fsm.ts:122-145 | No self-step; a note for each change, a start for idle to working and a finish for working to idle. |
| `SessionFsm.PermissionsOnlyMask` | packages/daemon/src/session-fsm.ts:66-145 | In every reachable state a session waits if and only if its pending count is positive, the stash is never waiting, and permissions aside it is where a two-state machine is that never hears of them. |
| `SessionFsm.NotesReplay` | packages/daemon/src/session-fsm.ts:122-129 | A session's notifications form one path without self-steps from the state it had to the state it has. |
| `SessionFsm.ErrorsPassedOn` | packages/daemon/src/session-fsm.ts:53-59 | For every run: each error is passed on once, in order, under its own session, known or not, and no other is made. |
| `SessionFsm.EmitsIff` | packages/daemon/src/session-fsm.ts:78-145 | From every reachable state, an event emits a run event exactly when it changes whether the session works and no permission of the session is pending. |
| `SessionFsm.RunEventsAlternateIff` | packages/daemon/src/session-fsm.ts:130-144 | The start and finish events emitted for a session alternate, start first, exactly when before each of them an even number of its changes fell into times with a permission pending. |
| `SessionFsm.TrackParity` | packages/daemon/src/session-fsm.ts:130-144 | The events emitted for a session are exactly its changes made with no permission pending, and it works exactly when an odd number of changes, shown or masked, lies behind it. |
| `SessionFsm.FinishWithoutStart` | packages/daemon/src/session-fsm.ts:78-145 | A line during a permission gives a finish that no start precedes. |
| `StateFeed.LiveStateFollows` | packages/daemon/src/index.ts:825-834 | Over every run of the machine while a session stays registered, its live state is the machine's state exactly when the two agreed at the start or any transition was made since. |
| `Permissions.PermissionTable.RecordRequest` | packages/daemon/src/repos/permissions.ts:14-24 | Inserts a new id and leaves a known one alone. |
| `Permissions.PermissionTable.ResolveRequest` | packages/daemon/src/repos/permissions.ts:26-36 | Decides an undecided row and says whether this call decided. |
| `Permissions.Handlers.OnPermissionRequest` | packages/daemon/src/index.ts:867-883 | Row, client, state machine and hub frame change together, and not at all for a client that never registered. |
| `Permissions.Handlers.OnPermissionReply` | packages/daemon/src/index.ts:258-277 | Only the deciding reply answers the plugin, tells the hub and moves the state machine. |
| `Permissions.FirstDecisionKept` | packages/daemon/src/repos/permissions.ts:26-36 | For every run, a row keeps its session, tool, arguments and first decision for ever. |
| `Permissions.OneAnswerPerDecision` | packages/daemon/src/index.ts:258-277 | For every run, plugins are answered exactly as the hub is told, once for each decided request, with the decision the table keeps. |
| `Permissions.DecidedIdNeverAnswered` | packages/daemon/src/index.ts:258-260 | Whoever reuses a decided id is never answered. |
| `Permissions.RunIsTold` | packages/daemon/src/index.ts:258-277 | For every run: a row holds session, tool and arguments of the first known request under its id and the decision of the first reply after it; the hub hears each known request as made and each deciding reply under the session it names; and the plugin answered is the one that asked with the id last before the decision. |
| `Permissions.BalanceStep` | packages/daemon/src/session-fsm.ts:100-120 | A step from balanced books leaves pending counts equal to unresolved rows exactly when its id is new, its reply names the request's own session, and no session with pending requests is removed. |
| `Permissions.BooksBalanceIff` | packages/daemon/src/index.ts:258-277 | The books balance throughout a run exactly when every step of it is such a step. |
| `Permissions.WaitingIffUnresolved` | packages/daemon/src/session-fsm.ts:100-120 | After such a run a session shows waiting exactly while one of its requests is undecided. |
| `PermissionView.UndecidedShownIff` | packages/hub/src/router.ts:142-158 | For every run and whatever frames get through: a browser shows an undecided permission exactly when a frame that asked it reached the browser; nothing is replayed, although hub-client.ts:13-18 speaks of it. |
| `PermissionView.DecidedShownIff` | packages/pwa/src/hooks/useHub.ts:499-543 | A decided permission has one resolution frame, and a browser still shows it exactly when a request under its id reached the browser after that frame, or one reached it and that frame did not. |
| `ProcessRegistry.Registry.WriteFileAtomic` | packages/daemon/src/process-registry.ts:94-100 | The file changes to the whole new text or not at all, and only if write and rename both succeed. |
| `ProcessRegistry.Registry.AddEntry` | packages/daemon/src/process-registry.ts:112-119 | Replaces any entry of the name and appends the new one, or changes nothing on failure. |
| `ProcessRegistry.Registry.RemoveEntry` | packages/daemon/src/process-registry.ts:121-128 | Drops the entries of the name, or changes nothing on failure. |
| `ProcessRegistry.Registry.ReconcileEntries` | packages/daemon/src/process-registry.ts:137-161 | Keeps exactly the live entries, or all when the probe fails; kept and dropped add up to what was read. |
| `ProcessRegistry.FileIsFold` | packages/daemon/src/process-registry.ts:58-64 | At every point of every run of queued micro-steps with failures and crashes the file is the fold of the calls whose rename completed. |
| `PromiseChain.CallsTakeTurns` | packages/daemon/src/process-registry.ts:58-64 | At every point the calls that have ended, well or badly, are the first ones made, only the next can be running, and if it is not, a reaction is due that brings it nearer. |
| `PromiseChain.ChainIsQueue` | packages/daemon/src/process-registry.ts:58-64 | Whatever the order in which reactions run, a step of the promise chain is a step of a first-in-first-out queue: a call joins at the end, and the call that ends is the first unfinished one. |
| `ProcessRegistry.CallsInOrder` | packages/daemon/src/process-registry.ts:58-64 | Renames complete in the order of the calls, and a caller is told of success exactly when its rename completed. |
| `ProcessRegistry.UndisturbedCall` | packages/daemon/src/process-registry.ts:102-109 | The micro-steps of one call, run undisturbed, do to the file and tell the caller what the call's method does. |
| `ProcessRegistry.UndisturbedList` | packages/daemon/src/process-registry.ts:130-135 | A listing tells what the file holds, or nothing if it cannot be read, and leaves the file alone. |
| `ProcessRegistry.CallersToldTruth` | packages/daemon/src/process-registry.ts:58-64 | At every point of every run: a listing told is what the calls made before it left, or empty; a report counts what the call's own rename left and dropped of what it had read; and success is a rename of the call's own. |
| `ProcessRegistry.CrashForgets` | packages/daemon/src/process-registry.ts:58-64 | From any state: the calls queued when the daemon dies never complete, whatever happens later, and their callers are told nothing. |
| `ProcessRegistry.NamesStayUnique` | packages/daemon/src/process-registry.ts:112-119 | At every point, crashes and read faults included, the file is whole and no name is in it twice. |
| `ProcessRegistry.PresentIff` | packages/daemon/src/process-registry.ts:112-161 | An entry is in the file exactly when it was there or was added and no later completed call removed it, replaced it, found it dead or failed to read it. |
| `ProcessRegistry.KeepsAll` | packages/daemon/src/process-registry.ts:144-153 | A failed probe drops nothing. |
| `ProcessRegistry.FaultHarmlessIff` | packages/daemon/src/process-registry.ts:66-75 | A call whose read fails does what it should exactly when there was no entry for it to keep. |
| `ProcessRegistry.UnluckyReadForgets` | packages/daemon/src/process-registry.ts:70-75 | One failed read during an add forgets the session recorded before. |
| `Cidr.InCidr` | packages/hub/src/proxy.ts:112-131 | The masked byte loop decides membership as equality of integer prefixes and never reads past the address. |
| `Cidr.MaskedByte` | packages/hub/src/proxy.ts:124-129 | Masked bytes are equal exactly when their leading bits are. |
| `Cidr.PrefixBytes` | packages/hub/src/proxy.ts:123-129 | Prefixes of integers agree exactly when the whole bytes they cover and the leading bits of the next do. |
| `Cidr.PrefixMonotone` | packages/hub/src/proxy.ts:112-131 | Agreement on a prefix implies agreement on every shorter one. |
| `Cidr.ShorterHoldsMore` | packages/hub/src/proxy.ts:112-131 | A block with a shorter prefix over the same bytes holds every address of the longer one, mapped v4 addresses included. |
| `Cidr.ExtremeBlocks` | packages/hub/src/proxy.ts:112-131 | A full-length block holds one address, a block of length zero every address of its family. |
| `Cidr.MappedBlock` | packages/hub/src/proxy.ts:113-118 | A v4 address is in the mapped form of a v4 block exactly when it is in that block. |
| `Cidr.MappingIsOneWay` | packages/hub/src/proxy.ts:112-121 | A v4 address matches a v6 block exactly when its mapped form does; a mapped v6 address matches no v4 block. |
| `Cidr.Promote` | packages/hub/src/proxy.ts:115-117 | The promoted array is the ten zeros, the two bytes of ones and the v4 address. |
| `Cidr.IsTrusted` | packages/hub/src/proxy.ts:137-138 | An address is trusted exactly when some block holds it. |
| `AddressText.V6ReadsBack` | packages/hub/src/proxy.ts:52-100 | Of all texts of hex and decimal digits, in groups of any number and length, with or without `::` and a dotted quad of any parts, exactly the addresses parse, each to the sixteen bytes written. |
| `AddressText.QuadReadsBack` | packages/hub/src/proxy.ts:40-50 | Decimals between dots, leading zeros and all, parse exactly if they are four and below 256, to their bytes. |
| `AddressText.AddressReadsBack` | packages/hub/src/proxy.ts:102-110 | The entry point, which tries v4 first, gives the family and the bytes of every such text that is an address and refuses every other. |
| `AddressText.ZoneIgnored` | packages/hub/src/proxy.ts:52-56 | A zone index behind `%` is ignored. |
| `AddressText.QuadBeforeGapMoves` | packages/hub/src/proxy.ts:65-99 | A dotted quad in front of `::`, which is no address, is read as if it stood behind it. |
| `AddressText.BlockReadsBack` | packages/hub/src/proxy.ts:28-38 | The text of a block gives its bytes and length exactly if its host is an address and its prefix length, if it has one, is within the family's width. |
| `AddressText.ParseV4` | packages/hub/src/proxy.ts:40-50 | The loop over four parts equals its functional description on every string. |
| `AddressText.ParseV6` | packages/hub/src/proxy.ts:52-100 | The array-filling parser equals its functional description on every string. |
| `AddressText.WriteGroups` | packages/hub/src/proxy.ts:80-92 | The loop writes two bytes a group at its place, touches nothing else, and fails on exactly the texts that are no group. |
| `AddressText.SplitJoin` | packages/hub/src/proxy.ts:58-64 | Splitting undoes joining of parts without the separator. |
| `AddressText.IsTrustedAddress` | packages/hub/src/proxy.ts:133-140 | A peer's text is trusted exactly when it parses and some block holds what it parses to. |
| `RateLimit.RateLimiter.Check` | packages/hub/src/rate-limit.ts:39-52 | One check trims, decides and records as the specification function does; a limit of zero or less admits and records nothing. |
| `RateLimit.RateLimiter.Gc` | packages/hub/src/rate-limit.ts:54-61 | Trims every array and drops exactly the emptied ones. |
| `RateLimit.TrimExactIff` | packages/hub/src/rate-limit.ts:42-44 | Trimming the front leaves exactly the times in the window if and only if none outside it stands behind, or is, one at or after its beginning; it never leaves fewer. |
| `RateLimit.DecidesByHeldIff` | packages/hub/src/rate-limit.ts:39-52 | From any state and at any time: under every limit the decision is that of the times held in the closed window exactly when nothing held is astray. |
| `RateLimit.AdmitsExactlyIff` | packages/hub/src/rate-limit.ts:39-52 | For any clock and a request at any time: under every limit it is decided by the admissions in the closed window ending now exactly when as many of those have been dropped as times outside the window are kept; it admits too much under some limit exactly when more have been dropped, and refuses too much exactly when fewer have. |
| `RateLimit.UnpassedNeverTooMany` | packages/hub/src/rate-limit.ts:39-52 | Where no admission in the window ending now had been passed by the window of an earlier request, nothing is admitted against the number of those admissions. |
| `RateLimit.LatestAdmitsIff` | packages/hub/src/rate-limit.ts:39-52 | A request at the latest time so far is decided by the admissions in its window, under every limit, exactly when no admission of its key before the window came after one in it; it is never admitted against that number. |
| `RateLimit.AdmitsIff` | packages/hub/src/rate-limit.ts:39-52 | With a clock that never goes back a request is admitted exactly when fewer than `limit` earlier admissions of its key lie in the closed window ending now. |
| `RateLimit.NoWindowOverLimit` | packages/hub/src/rate-limit.ts:39-52 | With one positive limit a key and a clock that never goes back, or never so far that a window has passed an admission it comes back to, no closed window of the configured length, wherever it lies, holds more than `limit` admissions. |
| `RateLimit.GcChangesNothing` | packages/hub/src/rate-limit.ts:51-61 | With a clock that never goes back, two runs that collect at different times decide every request alike. |
| `RateLimit.CollectedIs` | packages/hub/src/rate-limit.ts:54-61 | Collection keeps exactly the keys with a time inside the window, and of each its times from the first such time on. |
| `RateLimit.CollectHarmlessIff` | packages/hub/src/rate-limit.ts:54-61 | From any state, for any two times: collecting leaves the decisions on a key at the other time as they were, under every limit, exactly when the first time kept for it then is no earlier than the collection's cutoff, or none is kept. |
| `RateLimit.ClockBackRefuses` | packages/hub/src/rate-limit.ts:45-48 | A clock that goes back makes it refuse with one admission in the window and a limit of two. |
| `RateLimit.ClockBackOverAdmits` | packages/hub/src/rate-limit.ts:42-44 | A clock that goes back makes it admit four requests in one window under a limit of three. |
| `Timeline.MergeTimeline` | packages/pwa/src/lib/timeline.ts:44-160 | The loops, with their in-place updates, produce the sorted list of shown items. |
| `Timeline.MergeEvents` | packages/pwa/src/lib/timeline.ts:63-117 | The event loop produces one item per starting event, chunks folded and results attached. |
| `Timeline.IndexResults` | packages/pwa/src/lib/timeline.ts:50-56 | The first pass finds the last result of every call. |
| `Timeline.OneItemPerCall` | packages/pwa/src/lib/timeline.ts:58-100 | Every call with a chunk has exactly one item: first chunk's id and time, last chunk's content, last result wherever it lies. |
| `Timeline.TimelineSorted` | packages/pwa/src/lib/timeline.ts:143-160 | The timeline is a permutation of the shown items ordered by time, rank and offset, ties as they stood. |
| `Timeline.EarlierFirst` | packages/pwa/src/lib/timeline.ts:142-158 | The earlier item stands first whatever the offsets. |
| `Timeline.UntimedFirst` | packages/pwa/src/lib/timeline.ts:142-158 | The item of an event at time zero, as every run event has, stands before each item with a positive time, although the comment there says that zero counts as equal. |
| `Timeline.ResolutionsAfterEvents` | packages/pwa/src/lib/timeline.ts:119-141 | A resolution stands after every event of its time or earlier. |
| `Timeline.EveryResolutionShown` | packages/pwa/src/lib/timeline.ts:119-141 | The items of the timeline are, counting each, the items of the events, one card for each permission resolution and one for each question resolution, with its request id, its time, or the clock's where it has none, and its body. |
| `Timeline.PlainEventShownIff` | packages/pwa/src/lib/timeline.ts:63-117 | An event that is no tool chunk has its item in the timeline exactly if it is neither hidden nor a tool result. |
| `Timeline.KeysAreShown` | packages/pwa/src/lib/timeline.ts:44-160 | Every item is sorted by the time it shows, and stands in rank 3 exactly if it is a resolution. |
| `Timeline.IdsDistinct` | packages/pwa/src/lib/timeline.ts:63-117 | Items of distinct events have distinct ids. |
| `PermissionHistory.InsertWithLru` | packages/pwa/src/lib/permission-history.ts:37-52 | One insertion moves the key to the end and drops the oldest keys down to the bound. |
| `PermissionHistory.NewestKept` | packages/pwa/src/lib/permission-history.ts:37-52 | After any insertions the map holds exactly the `max` most recently inserted distinct keys, in recency order, each with its latest value. |
| `Ulid.EncodeTime` | packages/hub/src/ulid.ts:7-14 | The loop produces `len` base-32 digits, most significant first. |
| `Ulid.ReadsBackIff` | packages/hub/src/ulid.ts:7-14 | The text reads back as the time exactly when the time is below 32 to the length. |
| `Ulid.OrderModulo` | packages/hub/src/ulid.ts:5-14 | Texts of one length compare as the times modulo 32 to the length. |
| `Ulid.IdsSortByTime` | packages/hub/src/ulid.ts:26-28 | Ids of different times sort by time whatever their random halves. |
| `PendingStarts.Pending.AddStart` | packages/daemon/src/pending-starts.ts:25-29 | An absent id is ignored; otherwise the expired front goes and the start is appended with its expiry. |
| `PendingStarts.Pending.ConsumeStart` | packages/daemon/src/pending-starts.ts:30-39 | Answers and removes the oldest live start of the directory, if any. |
| `PendingStarts.FrontIsEnoughIff` | packages/daemon/src/pending-starts.ts:19-22 | Purging the front drops every expired entry exactly when none stands behind a live one. |
| `PendingStarts.FrontPurgeIsEnough` | packages/daemon/src/pending-starts.ts:12-41 | With a clock that never goes back and one time-to-live, queue and answers are those of dropping every expired entry. |
| `PendingStarts.EveryStartHasItsFate` | packages/daemon/src/pending-starts.ts:12-41 | For every run and any clocks: an answer is the request id of an earlier start of the same directory, no start is answered twice, the one answered is the oldest that was neither answered nor expired, a call without an answer had none such, and a start that no longer waits was answered or had expired at a later call. |
| `PendingStarts.ClockBackAnswersExpired` | packages/daemon/src/pending-starts.ts:19-39 | A clock that goes back lets an expired start be answered. |

## Left out

- WebSocket, Unix socket, tmux and file system: their outcomes are inputs of a step (opened, closed, read, write failed).
- Overlapping sockets of one daemon: the order of the runtime's close handlers is not modelled, so one live socket per daemon is assumed.
- Authentication, DPoP, OIDC, pairing and Web Push: they wrap libraries.
- SQLite: tables are maps with insert-or-ignore and conditional update; timestamps of rows are not modelled.
- JSON: a pair of functions where parsing undoes printing; rows that are not JSON and the adapter are one function of a row.
- OpenTelemetry, React hooks, screens, heartbeat timers, file-listing, chat, start and kill commands, and tmux liveness parsing: easy members.
- JavaScript strings are sequences of Unicode scalar values; unpaired surrogates do not occur in decoded text.
- Snapshot and replay order: the model allows every order of a map's entries, the code uses insertion order.
- Daemon states are values in the hub's map, not shared objects; nothing else holds a reference to them.
- Listeners of the registry and the state machine are recorded as logs; the handler that would listen reads the log after the call.
- Delivery of transitions from the state machine to the daemon's handlers: any transition may be handled at any time, which includes the ones the machine makes.
- Session registration data beyond id, transcript id, directory and state: one opaque field.
- SessionFrames.ObserverFollows: the handlers' frames in the order they are sent; `HubClient.HandedOnceInOrder` and `Uplink` say what the link makes of that order.
- Uplink.ConvergesWhenDrained: leaves the transcript id of sessions out; `Transcripts.HubHoldsWhatItWasTold` is the statement with that field.
- Downlink.PrefixConsistent: for questions, assumes that no daemon speaks of one that another has open; `Downlink.QuestionInputIff` shows why.
- EndToEnd.BrowserHoldsQuestions: the same, as daemons that issue different ids.
- AskRelay.SettledAtMostOnce: assumes request ids never met before, because it counts by id; `AskRelay.OneReplyPerRequest` counts by request and assumes nothing.
- Hub and database restarts inside the permission table: decisions of an earlier daemon process are not replayed.
- Permissions.BooksBalanceIff: one daemon process; the pending counts of an earlier process are lost with it.
- Jsonl.Watcher.Drain: exceptions thrown by the line callback and short reads are not modelled.
- AsyncPaging.NothingSkipped: one stay of a browser; live rows that pass while it is disconnected are not replayed by the hub and come back by paging only.
- AsyncPaging.OrderlyThroughoutIff: the same file as for `PagingRuns.PagesReachStart`, read without errors.
- Rebinds.AloneThroughoutIff: a buffer that never evicts, and transcripts that share no event; with a shared event the two cannot be told apart.
- RateLimit.GcChangesNothing: assumes a clock that never goes back; `RateLimit.CollectHarmlessIff` says when collecting is harmless under any clock.
- PagingRuns.PagesReachStart: rows at positive increasing offsets with at least one event each and a file that fits the buffer, because the code keeps no such order once synthetic events or evictions take part.
- ProcessRegistry.FileIsFold: one process writes the file; a second writer is not modelled.
- AddressText.V6ReadsBack: digits, colons and dots with any quad last; `Number` and `parseInt` are parameters fixed on plain digits only, so texts that JavaScript reads leniently (blanks, signs, exponents, empty parts) are not described, nor are fractional prefix lengths and the comma-separated list of blocks.
- Cidr.InCidr: integer prefix lengths within the width, which the parser guarantees for the texts it is described on.
- RateLimit.AdmitsIff: integer times and limits.
- Timeline.MergeTimeline: times and offsets are integers, and the clock reading used for a resolution without a time is part of its input.
- PermissionHistory.NewestKept: keys that are no array index, since JavaScript orders those first.
- Ulid.IdsSortByTime: ids of one millisecond compare by their random halves, which are not modelled.
