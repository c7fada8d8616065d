# Verified models of the messaging gateway

This project models the parts of the gateway whose correctness depends on arithmetic or on
interleaving, and proves what they promise. It covers:

- the runner's start/stop protocol and the channel builder that feeds it;
- the iMessage row cursor and its JSON-RPC client;
- the Google Chat connect protocol and the webhook listener latches;
- the rate-limited published key set;
- the email drain with its bounded set of dispatched UIDs;
- raw-body capture;
- the IRC codec: parser, printer, splitter, line framing and registration;
- the text splitters for SMS, Telegram and Discord, and Signal's markers-to-ranges transform.

## How the model is built

A string is a sequence of UTF-16 code units (`Utf16.Text`), lone surrogates included, because the
code cuts by code unit. A loop of the source is a method with a loop, proved equal to a recursive
function; the promises are lemmas about that function.

An asynchronous protocol is a value `State`, an `Event` type for everything that may happen next,
`Enabled` and `Step`. The code between two awaits is one step, so a run is any sequence of enabled
events: every interleaving of callers, network results, timers and promise callbacks. `State` also
records what the world did (listeners open, adapters live, rows written, UIDs flagged), so promises are
stated about the world and not only about fields. Beside it, a class has the fields of the source's
class or closure; each method is one of its sections between two awaits, and ensures that the object
moves by exactly one `Step`. A ghost field records the events of the object's life, and `Valid()` says
that they are a run from the initial state ending in the object's fields, so what every run promises
holds of the object; methods that end a phase state such a promise in their own `ensures`.

| file | models |
|---|---|
| `Utf16.dfy`, `Options.dfy` | JavaScript string operations; dropped runs and rejoining |
| `Chunking.dfy`, `Telegram.dfy`, `SplitBoundaries.dfy`, `Discord.dfy` | `chunkText`, Telegram and Discord |
| `Sms.dfy`, `SmsLeast.dfy` | greedy packing and SMS |
| `Signal.dfy`, `SignalReading.dfy` | Signal's styling |
| `IrcLine.dfy`, `IrcReading.dfy` | IRC lines: parser, printer, reader |
| `IrcSplit.dfy`, `IrcPieces.dfy`, `IrcWire.dfy` | IRC bodies and the wire |
| `IrcRegistration.dfy`, `IrcRegistrationTrace.dfy` | the IRC handshake |
| `Channels.dfy`, `Runner.dfy`, `RunnerTheorems.dfy`, `RunnerLiveness.dfy`, `RunnerObject.dfy` | channel builder and runner |
| `IMessage.dfy`, `IMessageLiveness.dfy`, `JsonRpc.dfy`, `JsonRpcTrace.dfy` | iMessage |
| `KeySet.dfy`, `KeySetLiveness.dfy` | the published key set |
| `GoogleChat.dfy`, `GoogleChatLiveness.dfy`, `Webhook.dfy` | Google Chat, the listener latches, raw-body capture |
| `Email.dfy`, `EmailOrder.dfy` | the email drain |

The files named `...Liveness`, `...Trace`, `...Order`, `...Reading`, `...Pieces`, `...Boundaries` and `...Least` say
what each call brings about, or what each text comes to, without the steps or the recursion that compute it: that a
call takes hold at once and for good, that whatever is pending can settle, and which result a text alone determines.

`dafny verify dfyconfig.toml` checks everything.

## Promises that do not hold as written, and exactly when they do

- **Runner, repeated platforms.** `stop()` releases the values of a map keyed by platform, so with two
  adapters for one platform it leaves one live. `RunnerTheorems.NoneLiveExactlyWhenDistinct` proves both
  directions: no run leaves an adapter live if and only if the platforms are distinct.
- **Runner, `stop()` rejecting.** `stop()` is meant to disconnect whatever a handler did. A dispatch rejects when
  something around the handler does not contain a fault: a handler or hook throws `null` or `undefined`, or a value
  whose `.message` throws when read or has no string form (the `catch` prints it, lines 401 of
  packages/gateway/src/runner/gateway-runner.ts and 107 and 143 of packages/gateway/src/hooks/executor.ts); a
  `pre_inbound` hook answers `null` (line 114 there) or blocks with the message `null` (line 381); or the text of the
  event is not a string (line 420). `RunnerTheorems.RejectionDecidesRace` says exactly which events then lose the
  drain: a drained promise rejecting while the race is open, or `stop()` itself when one in flight has already
  rejected. On a run without such a fault `stop()` never rejects (`RunnerTheorems.ContainedNeverAborts`); with any one
  of them, in either order, it can end with every adapter live, for every non-empty list of platforms and both modes
  (`RunnerTheorems.AbortLeavesLive`).
- **chunkText, surrogate guard.** A window of one code unit severs every pair it meets.
  `Chunking.GuardedPartsWellFormed` is the exact condition.
- **Telegram, all markers at once.** Trimming for the backtick can unpair a bold marker
  (`Telegram.LaterTrimUnpairsEarlier`). `Telegram.AllPairedExactly` is the exact condition: all four markers are
  paired in a balanced chunk if and only if the last trim that happens cuts where the markers handled before it
  are paired. `Telegram.OtherMarkerParity` is its one step, `Telegram.BalanceFixpoint` says which chunks are left
  alone, and the backtick is paired in every balanced chunk.
- **listenerLifecycle.** The latches hold while calls wait for a pending bind (`Listener.LatchesHold`); a pending
  close need not be waited for. That is the boundary: from every state reached so with a bind pending, a `start()`
  can leave a listener that no later call closes (`Listener.StartUnderBindLeaks`), and a `stop()` can leave the
  latches so that no later call opens one (`Listener.StopUnderBindDies`). The second needs a `listen` whose callback
  still comes after `close`, which a `net.Server` of Node suppresses. Google Chat's adapter keeps the discipline
  (`GoogleChat.OwnCallsWait`).
- **Email.** The comment at packages/gateway-email/src/adapter.ts:312-313 says a UID that could not be flagged comes
  back on the next drain. It is fetched again, but while the seen set holds it the drain neither dispatches it nor
  asks for its flag (`Email.FetchedAgainForNothing`). It is asked for again if and only if it is dispatched again,
  and that if and only if it comes up after the set lost it (`Email.RetriedOnlyIfForgotten`), which
  `Email.DispatchedIfForgotten` puts in dispatches: more than the set's size ago, and so more than 4000.
- **iMessage, first row.** A row replayed by a new child finds the cursor past it, as the comment at
  packages/gateway-imessage/src/adapter.ts:63-66 says: no row is handed over twice (`IMessage.CallsNeverRepeat`). But
  until the first row's handler returned there is no cursor, so a child started before that is subscribed without one
  and may begin later in the table. `IMessage.SkipsExactlyWhenJumping` is the exact condition: a run can skip an event
  if and only if such a child can begin past an event that came after the running row. If none does, every row from the
  first one on is handed over once, in order (`IMessage.EveryRowFromTheFirst`); from every state where one can start, a
  run skips any event it jumps over, for good once that child wrote a row (`IMessage.JumpSkips`).

## Model

| member | source | states |
|---|---|---|
| RunnerTheorems.StoppedLeavesNoneLive | packages/gateway/src/runner/gateway-runner.ts:195-362 | over every interleaving of starts, connect results, releases and `stop()`, in both failure modes: once stopped and settled, with distinct platforms, only adapters whose disconnect failed may be live |
| RunnerTheorems.ChannelsLeaveNoneLive | packages/gateway/src/channel/create-channels.ts:132-160 | the same for the adapters `createChannels` returns, whatever its entries |
| RunnerTheorems.NoneLiveExactlyWhenDistinct | packages/gateway/src/runner/gateway-runner.ts:156 | distinct platforms are necessary and sufficient: with a repeated one there is a run that ends with an adapter live |
| RunnerTheorems.QuietRun | packages/gateway/src/runner/gateway-runner.ts:195-362 | for every list of platforms a run in which everything succeeds reaches rest, leaving live exactly the adapters the platform map lost |
| RunnerTheorems.LiveWhileRunning | packages/gateway/src/runner/gateway-runner.ts:224-279 | before `stop()`, with no start pending: the reported adapters are live and no others, save failed disconnects, so a rejected start left none |
| RunnerTheorems.ConnectsAreFresh | packages/gateway/src/runner/gateway-runner.ts:207-221 | `connect` is called only by a `start()` before `stop()`, when no connect is pending and no adapter is held |
| RunnerTheorems.WiredBeforeStop | packages/gateway/src/runner/gateway-runner.ts:229-242 | inbound handlers are registered only when a start resumes before `stop()`; after it none is registered |
| RunnerTheorems.StartIsAllOrNothing | packages/gateway/src/runner/gateway-runner.ts:170-194 | a resolved start connected every adapter not named failed, or none if `stop()` overtook it; under rollback none is named failed; the adapters it reports are exactly those ever wired, and wired until `stop()` |
| RunnerTheorems.StopWaitsForDispatches | packages/gateway/src/runner/gateway-runner.ts:318-362 | once `stop()` calls a disconnect, every dispatch accepted before it settled, or the drain timer fired |
| RunnerTheorems.RejectionDecidesRace | packages/gateway/src/runner/gateway-runner.ts:350-355 | an event loses the drain if and only if it is `stop()` finding in flight a promise that already rejected, or a drained one rejecting while the race is open; and `stop()` rejects if and only if it resumes from a lost drain |
| RunnerTheorems.ContainedNeverAborts | packages/gateway/src/runner/gateway-runner.ts:373-420 | on every run without a fault that nothing contains, `stop()` never rejects; the faults are a thrown `null` or `undefined`, a thrown value whose `.message` cannot be read or printed, a `pre_inbound` hook answering `null` or blocking with the message `null`, and an event whose text is not a string |
| RunnerTheorems.AbortLeavesLive | packages/gateway/src/runner/gateway-runner.ts:396-406 | for every non-empty list of platforms, both modes and each of those faults, while `stop()` drains its dispatch or just before: a run whose `stop()` rejects with every adapter live |
| RunnerLiveness.StopTakesHold | packages/gateway/src/runner/gateway-runner.ts:327-350 | in every reached state, whatever is pending, `stop()` has by its first await stopped the runner and unsubscribed every handler, changed nothing of a pending start, and is draining exactly what was in flight, or releasing exactly the values of the map |
| RunnerLiveness.StoppedForGood | packages/gateway/src/runner/gateway-runner.ts:195-243 | on every run after it the runner stays stopped, no handler is ever registered again, and a start still pending can only resolve with no adapter |
| RunnerLiveness.StopReachesRest | packages/gateway/src/runner/gateway-runner.ts:195-362 | from every state before `stop()`, with distinct platforms and a drain not lost at once: a `stop()` has a continuation in which everything settles, leaving live no adapter but those whose disconnect had failed before |
| RunnerLiveness.UntimedStopDrains | packages/gateway/src/runner/gateway-runner.ts:340-355 | a `stop()` whose drain timer has not fired calls no disconnect until every dispatch accepted before it settled |
| RunnerLiveness.RollbackExactly | packages/gateway/src/runner/gateway-runner.ts:255-297 | once every connect settled, a start is rolled back if and only if the mode is rollback and one failed, and then exactly the connected adapters are given back; else the connected and the failed are exactly those |
| RunnerLiveness.ResultNamesFailures | packages/gateway/src/runner/gateway-runner.ts:170-194 | a start not rolled back resolves naming exactly the adapters whose connect failed, whatever overtakes it |
| RunnerLiveness.IsolateNeverRejects | packages/gateway/src/runner/gateway-runner.ts:272-297 | under isolate, on every run, no start is rolled back or rejected |
| RunnerLiveness.FirstFailureReported | packages/gateway/src/runner/gateway-runner.ts:256-297 | under rollback a start in which a connect fails is rejected with the failure that came first, whatever follows |
| RunnerLiveness.RejectedStartRetries | packages/gateway/src/runner/gateway-runner.ts:207-221 | a rejected start is cleared, and the next call connects every adapter again |
| RunnerLiveness.LiveChanges | packages/gateway/src/runner/gateway-runner.ts:255-361 | an adapter becomes live only by its own connect succeeding, and stops only by a disconnect that succeeded and was not overtaken by a later connect |
| RunnerLiveness.DispatchRunsThrough | packages/gateway/src/runner/gateway-runner.ts:306-420 | from every reached state an event of an adapter ever wired can be handled to its end, and leaves the drain set as it was |
| Runner.RunsKeep | packages/gateway/src/runner/gateway-runner.ts:143-362 | on every run a live adapter is owed a disconnect, being disconnected, or failed to be; fields and suspended calls agree |
| Runner.ConnectSettlesKeeps | packages/gateway/src/runner/gateway-runner.ts:255-271 | a connect settling at any time, even after `stop()` already disconnected that adapter, keeps those invariants |
| Runner.DistinctMapValues | packages/gateway/src/runner/gateway-runner.ts:155-158 | with distinct platforms the platform map holds every adapter |
| RunnerObject.LastOfEach | packages/gateway/src/runner/gateway-runner.ts:156 | setting each platform in turn leaves for each the adapter given last |
| RunnerObject.GatewayRunner.constructor | packages/gateway/src/runner/gateway-runner.ts:155-158 | builds that map and the initial state |
| RunnerObject.GatewayRunner.Start | packages/gateway/src/runner/gateway-runner.ts:195-222 | refuses when stopped, returns the memoised result, or shares one pending start |
| RunnerObject.GatewayRunner.OnConnect | packages/gateway/src/runner/gateway-runner.ts:256-270 | one connect settling is one step, failures in the order they occur |
| RunnerObject.GatewayRunner.JudgeConnects | packages/gateway/src/runner/gateway-runner.ts:272-297 | sorts the settled connects into connected and failed, or starts the rollback |
| RunnerObject.GatewayRunner.ResumeStart | packages/gateway/src/runner/gateway-runner.ts:229-243 | wires and memoises, and then the wired adapters are live and no others save failed disconnects; or gives the adapters back when overtaken |
| RunnerObject.GatewayRunner.ReleasedStart | packages/gateway/src/runner/gateway-runner.ts:233-276 | ends a rollback in rejection and an overtaken start in an empty result |
| RunnerObject.GatewayRunner.ClearStart | packages/gateway/src/runner/gateway-runner.ts:214-219 | a rejected start is forgotten, so a later call connects again |
| RunnerObject.GatewayRunner.Stop | packages/gateway/src/runner/gateway-runner.ts:327-361 | whatever is pending, afterwards the runner is stopped with no handler registered; it then drains what is in flight or releases at once; idempotent |
| RunnerObject.GatewayRunner.ResumeStop | packages/gateway/src/runner/gateway-runner.ts:349-361 | releases every adapter of the map unless the drain rejected; without the timer, every dispatch accepted before `stop()` has settled |
| RunnerObject.GatewayRunner.OnInbound | packages/gateway/src/runner/gateway-runner.ts:306-313 | an event joins the drain set before anything awaits |
| RunnerObject.GatewayRunner.EndWork | packages/gateway/src/runner/gateway-runner.ts:396-405 | the work of a dispatch fulfils if its handler and hooks returned or threw what the `catch` around them can print, else rejects, and decides an open drain race as `Promise.all` does |
| RunnerObject.GatewayRunner.BlockDispatch | packages/gateway/src/runner/gateway-runner.ts:379-385 | a blocking hook, or a fault before any handler, ends the dispatch |
| RunnerObject.GatewayRunner.EndDispatch | packages/gateway/src/runner/gateway-runner.ts:404-406 | a dispatch settles as its work did |
| RunnerObject.GatewayRunner.FinishStop | packages/gateway/src/runner/gateway-runner.ts:355-361 | at the end of `stop()` with distinct platforms and no start pending, only adapters whose disconnect failed are live; unless it timed out, every dispatch accepted before it settled |
| Channels.CreateChannels | packages/gateway/src/channel/create-channels.ts:144-160 | the adapters are exactly the first buildable entry of each platform, in order; every other entry is rejected once with its own reason; a throw is a defect of an entry whose turn it was |
| Channels.OutcomeExplains | packages/gateway/src/channel/create-channels.ts:76-122 | a duplicate is refused if and only if its platform is built; a configuration, if and only if a required key is missing, naming exactly those; an adapter built reports its own, still free platform |
| Channels.EveryMissingKeyNamed | packages/gateway/src/channel/create-channels.ts:36-47 | a key is reported missing if and only if some required field has it and no usable value |
| Channels.OutcomeMeans | packages/gateway/src/channel/create-channels.ts:76-122 | an adapter is built if and only if no earlier entry of its platform could be |
| Channels.FirstClaimsDistinct | packages/gateway/src/channel/create-channels.ts:132-140 | no two adapters report one platform |
| IMessage.CallsNeverRepeat | packages/gateway-imessage/src/adapter.ts:175-277 | over any run of rows, crashes, disconnects, reconnects and subscriptions: handler calls carry strictly increasing row ids, and at most one child is connected |
| IMessage.EveryRowOnce | packages/gateway-imessage/src/adapter.ts:175-277 | from any reachable state in step with its cursor, in a first session or a later one, with a row in its handler or none: if children replay the table and the handler stays, it is called with exactly the rows after that cursor up to the present one, once each, in order, over every crash and reconnect |
| IMessage.CaughtUp | packages/gateway-imessage/src/adapter.ts:248-277 | from any such state: once the present child wrote the whole table and its rows had their turn, no row is missing |
| IMessage.EveryRowFromTheFirst | packages/gateway-imessage/src/adapter.ts:175-277 | from the adapter's creation with a handler subscribed first, first session included: if no child jumps over an event, the calls are exactly the rows from the first one on, once each, in order, and all of them once the present child wrote the whole table |
| IMessage.SkipsExactlyWhenJumping | packages/gateway-imessage/src/adapter.ts:175-277 | for every table and every choice of where children without a cursor begin: a run can leave an event skipped if and only if a run can start a child without a cursor past an event that came after the row in the handler |
| IMessage.JumpSkips | packages/gateway-imessage/src/adapter.ts:175-277 | from every state where such a child can start, and for every event it jumps over: a run that ends connected with that event skipped, and in no later run handed over if the child has a row to write |
| IMessage.NoneSkipped | packages/gateway-imessage/src/adapter.ts:175-277 | a run in which no child jumps skips no event |
| IMessage.UndisturbedConnects | packages/gateway-imessage/src/adapter.ts:175-186 | from any reachable unconnected state, a connect nothing disturbs ends connected to one child subscribed after the cursor |
| IMessageLiveness.EndLeavesNothing | packages/gateway-imessage/src/adapter.ts:84-246 | `disconnect()`, the exit of the present child and a send that ended it each leave no session and no open client, answer a waiting subscription as not granted, and change no row, cursor or running handler |
| IMessageLiveness.DisconnectSilences | packages/gateway-imessage/src/adapter.ts:84-89 | on every run after `disconnect()` without a `connect()`: no row reaches the handler, queued ones included, and nothing is connected or open |
| IMessageLiveness.PastEndChangesNothing | packages/gateway-imessage/src/adapter.ts:219-246 | the late end of an earlier child changes nothing |
| IMessageLiveness.ChildrenStart | packages/gateway-imessage/src/adapter.ts:74-82 | a child starts if and only if a `connect()` finds none connected and none pending and can spawn; it starts one, after the cursor |
| IMessageLiveness.OpenAnswers | packages/gateway-imessage/src/adapter.ts:183-190 | a pending `connect()` answers true if and only if its child was granted and is still the session; true leaves that child connected, false leaves nothing |
| IMessageLiveness.ReconnectsFromAnywhere | packages/gateway-imessage/src/adapter.ts:74-190 | from every reached state a disconnect, the answer still pending and a connect end connected to a fresh child after the cursor, with no call made |
| IMessageLiveness.UnhandledRowStays | packages/gateway-imessage/src/adapter.ts:266-276 | a row that comes up while nobody is subscribed moves no cursor, so a child connected later is asked for it again |
| IMessageLiveness.OtherTurns | packages/gateway-imessage/src/adapter.ts:266-276 | any other row: dropped when its session ended or the cursor covers it, past the cursor when it makes no event, else handed over |
| IMessageLiveness.UnsubscribedStaysSilent | packages/gateway-imessage/src/adapter.ts:248-277 | on every run after the handler unsubscribed, until one subscribes, no call is made |
| IMessageLiveness.EveryRowArrives | packages/gateway-imessage/src/adapter.ts:175-277 | from every reached state in step with its cursor and with a child: the child can write the whole table and every row can have its turn, and then the calls are exactly the events after the cursor |
| IMessage.StepKeeps | packages/gateway-imessage/src/adapter.ts:74-277 | every step keeps one session at a time and a cursor covering every row handed over but the running one |
| IMessage.TakeDueLeavesNoGap | packages/gateway-imessage/src/adapter.ts:266-276 | the turn of the next row due reaches the handler, or moves the cursor past a row that makes no event, with no event between it and the cursor |
| IMessage.HeadIsDue | packages/gateway-imessage/src/adapter.ts:269-271 | a row of the current child is at the cursor already, or next in line with no event between, even when replayed behind a running one |
| IMessage.IMessageAdapter.Connect | packages/gateway-imessage/src/adapter.ts:74-82 | already connected, shares the pending start, or starts one child subscribed after the cursor |
| IMessage.IMessageAdapter.ResumeOpen | packages/gateway-imessage/src/adapter.ts:183-190 | commits only for the current session, else ends it |
| IMessage.IMessageAdapter.Disconnect | packages/gateway-imessage/src/adapter.ts:84-89 | ends the current session, if any: afterwards no session, no open client, not connected |
| IMessage.IMessageAdapter.End | packages/gateway-imessage/src/adapter.ts:219-239 | forgets the session, closes its client, settles its pending subscription |
| IMessage.IMessageAdapter.OnChildClosed | packages/gateway-imessage/src/adapter.ts:241-246 | an exit ends the session only if it is the current one |
| IMessage.IMessageAdapter.OnNotification | packages/gateway-imessage/src/adapter.ts:248-259 | a row joins one queue across sessions |
| IMessage.IMessageAdapter.HandleRow | packages/gateway-imessage/src/adapter.ts:266-273 | drops rows of an ended session and rows at or below the cursor, else hands over; the ids handed over so far increase |
| IMessage.IMessageAdapter.OnHandlerReturn | packages/gateway-imessage/src/adapter.ts:274-276 | the cursor moves past the row, thrown or not, and never back |
| JsonRpc.IssuedIsPendingOrSettledOnce | packages/gateway-imessage/src/json-rpc.ts:82-110 | under any order of answers, timers, duplicates, unknown ids and closes: issued ids are the disjoint union of pending and settled ones, each settled once |
| JsonRpc.FirstDecisionWins | packages/gateway-imessage/src/json-rpc.ts:104-134 | a request settles with the first answer, timer or close that concerns it, and stays pending before it |
| JsonRpc.ClosedIsFinal | packages/gateway-imessage/src/json-rpc.ts:96-102 | after a close nothing is pending, `onClosed` ran once, later requests are refused and nothing else changes |
| JsonRpcTrace.CountedExactly | packages/gateway-imessage/src/json-rpc.ts:82-134 | for every history: one id was issued for each writable request before the first close and for no other, every other request was refused, and every notification before it was handed on |
| JsonRpcTrace.CloseSettlesInOrder | packages/gateway-imessage/src/json-rpc.ts:97-102 | a close settles all that is pending as disconnected, oldest request first |
| JsonRpc.RunsKeep | packages/gateway-imessage/src/json-rpc.ts:52-134 | the pending table's invariant over every run |
| JsonRpc.JsonRpcLineClient.Request | packages/gateway-imessage/src/json-rpc.ts:82-94 | a fresh id, or refused when closed or unwritable |
| JsonRpc.JsonRpcLineClient.SettleRequest | packages/gateway-imessage/src/json-rpc.ts:104-110 | settles a pending id, ignores any other |
| JsonRpc.JsonRpcLineClient.OnLine | packages/gateway-imessage/src/json-rpc.ts:112-134 | notification, answer or error, or ignored, as the message's members say |
| JsonRpc.JsonRpcLineClient.CloseClient | packages/gateway-imessage/src/json-rpc.ts:97-102 | settles every pending request in issue order, then reports the close once |
| KeySet.ReadsNeverCrowd | packages/gateway-teams/src/published-key-set.ts:241-249 | at most one read in flight, and every read starts at least the interval after each earlier one ended |
| KeySet.HeldIsLatest | packages/gateway-teams/src/published-key-set.ts:225-236 | the copy held is that of the latest successful read, changes only by one, and never goes |
| KeySet.WaitedAnswers | packages/gateway-teams/src/published-key-set.ts:261-264 | names the read a waiting lookup is answered from: the latest that succeeded if it lists the key, else the latest that completed, whose reply says unlisted or why; that read replied after the lookup asked, or ended later than the interval before it |
| KeySet.ListedAtOnce | packages/gateway-teams/src/published-key-set.ts:251-260 | a listed key is answered at once; a read starts behind it if and only if the copy is of age, none is running and the interval passed |
| KeySetLiveness.AnsweredOnce | packages/gateway-teams/src/published-key-set.ts:251-264 | on every run each lookup is waiting or answered, never both, and an answer given never changes |
| KeySetLiveness.MissingWaits | packages/gateway-teams/src/published-key-set.ts:242-261 | a key the copy lacks is not answered at once: the lookup waits for the read in flight, and a read starts if and only if none runs and the interval passed |
| KeySetLiveness.ResumedIsAnswered | packages/gateway-teams/src/published-key-set.ts:261-264 | the lookup resumed is answered, with what `KeySet.WaitedAnswers` says |
| KeySetLiveness.EveryWaitEnds | packages/gateway-teams/src/published-key-set.ts:225-264 | from every reached state a waiting lookup is answered once its read replied, with whatever, and ended, without another lookup |
| KeySet.RunsKeep | packages/gateway-teams/src/published-key-set.ts:207-267 | on every run the closure's variables are what the history of reads says |
| KeySet.AskIsRecent | packages/gateway-teams/src/published-key-set.ts:242-248 | a lookup that must wait finds a read in flight or one that ended within the interval |
| KeySet.PublishedKeySet.StartRead | packages/gateway-teams/src/published-key-set.ts:241-249 | starts a read when none runs and the interval allows it |
| KeySet.PublishedKeySet.LookUp | packages/gateway-teams/src/published-key-set.ts:251-261 | answers from the copy or waits for the read found |
| KeySet.PublishedKeySet.FinishLookUp | packages/gateway-teams/src/published-key-set.ts:262-264 | the answer after the wait, from the copy and latest failure of that moment, and so from a fresh read |
| KeySet.PublishedKeySet.OnReadReply | packages/gateway-teams/src/published-key-set.ts:225-236 | a good reply replaces the copy, a bad one keeps it and its reason |
| KeySet.PublishedKeySet.OnReadEnd | packages/gateway-teams/src/published-key-set.ts:243-246 | the interval runs from the end of the read |
| GoogleChat.OneAttemptPerGeneration | packages/gateway-google-chat/src/adapter.ts:75-87 | at most one attempt per generation is unfinished, and the present one's is the shared one |
| GoogleChat.OvertakenChangesNothing | packages/gateway-google-chat/src/adapter.ts:245-272 | no step of an attempt overtaken by `disconnect()` changes a field, clears a newer attempt or answers true |
| GoogleChatLiveness.DisconnectOvertakes | packages/gateway-google-chat/src/adapter.ts:89-98 | in every reached state `disconnect()` leaves no server, no pending attempt and no attempt of the present generation, and hands the held listener over to be closed |
| GoogleChatLiveness.DisconnectWins | packages/gateway-google-chat/src/adapter.ts:245-272 | on every run after `disconnect()` without a `connect()`: never connected, no attempt newly answers true, and at rest no listener is open |
| GoogleChatLiveness.DisconnectReachesRest | packages/gateway-google-chat/src/adapter.ts:89-272 | from every reached state a `disconnect()` has a continuation to rest, with no listener open |
| GoogleChatLiveness.Settles | packages/gateway-google-chat/src/adapter.ts:75-272 | from every state everything pending can settle, with no call from outside |
| GoogleChatLiveness.FailureAnswersFalse | packages/gateway-google-chat/src/adapter.ts:245-263 | a token or bind that fails, or a token that comes after being overtaken, answers false and opens no listener |
| GoogleChatLiveness.OvertakenGivesBack | packages/gateway-google-chat/src/adapter.ts:264-271 | an attempt overtaken while it listened closes its own listener and then answers false |
| GoogleChat.RestHoldsOneListener | packages/gateway-google-chat/src/adapter.ts:75-98 | when all attempts and stops settled, the open listeners are the held server if connected, none otherwise |
| GoogleChat.TrueMeansCommitted | packages/gateway-google-chat/src/adapter.ts:264-271 | an attempt answers true only by committing its own open listener where none was held |
| GoogleChat.UndisturbedConnects | packages/gateway-google-chat/src/adapter.ts:245-272 | from any reachable unconnected state, a connect nothing overtakes ends holding its own open listener |
| GoogleChat.OwnCallsWait | packages/gateway-google-chat/src/adapter.ts:89-271 | on every run the calls each attempt makes on its own server are a run of `listenerLifecycle` that waits for its bind, and its listener is open there exactly when it is here |
| GoogleChat.RunsKeep | packages/gateway-google-chat/src/adapter.ts:75-272 | every interleaving keeps slot, generation and listeners in agreement |
| GoogleChat.GoogleChatAdapter.Connect | packages/gateway-google-chat/src/adapter.ts:75-87 | connected, shared, or a new attempt of this generation |
| GoogleChat.GoogleChatAdapter.Disconnect | packages/gateway-google-chat/src/adapter.ts:89-98 | a new generation, not connected, an empty slot, and the held listener handed over to be stopped |
| GoogleChat.GoogleChatAdapter.OnToken | packages/gateway-google-chat/src/adapter.ts:249-250 | an overtaken or failed token gives up before listening |
| GoogleChat.GoogleChatAdapter.OnListen | packages/gateway-google-chat/src/adapter.ts:251-263 | the bind opens the listener or answers false |
| GoogleChat.GoogleChatAdapter.OnStarted | packages/gateway-google-chat/src/adapter.ts:264-271 | commits only in its own generation, else gives the listener back |
| GoogleChat.GoogleChatAdapter.ClearAttempt | packages/gateway-google-chat/src/adapter.ts:80-84 | clears the slot only if it still holds this attempt |
| GoogleChat.GoogleChatAdapter.OnServerStopped | packages/gateway-google-chat/src/adapter.ts:89-98 | at rest after it, the open listeners are the held server or none |
| Listener.LatchesHold | packages/gateway/src/webhook/express-server.ts:199-244 | while calls wait for pending binds: the open listeners are the held one and those being closed, a start opens one if and only if none is held, a stop closes the one held |
| Listener.StartUnderBindLeaks | packages/gateway/src/webhook/express-server.ts:207-230 | from every such state with a bind pending, a start that does not wait can leave a listener open that no later call closes |
| Listener.StopUnderBindDies | packages/gateway/src/webhook/express-server.ts:231-242 | from every such state with a bind pending, a stop that does not wait can leave the latches so that no later call opens or closes anything, if the bind still reports |
| Listener.OrphanStays | packages/gateway/src/webhook/express-server.ts:207-242 | an open listener nobody holds stays open on every run |
| Listener.DeadStays | packages/gateway/src/webhook/express-server.ts:207-242 | started, stopped and without a listener stays so on every run |
| Listener.ListenerLifecycle.BeginStart | packages/gateway/src/webhook/express-server.ts:207-224 | opens a listener unless started or injected |
| Listener.ListenerLifecycle.OnListen | packages/gateway/src/webhook/express-server.ts:217-229 | a bind starts it, a failed one leaves no listener |
| Listener.ListenerLifecycle.BeginStop | packages/gateway/src/webhook/express-server.ts:231-241 | closes the held listener, once; if calls waited for binds, every open listener is then being closed |
| Email.RepeatsAreRare | packages/gateway-email/src/seen-uids.ts:20-45 | however drains overlap, two dispatches of one UID have more than 4000 other distinct UIDs dispatched between them, and the set never passes 5000 |
| Email.FlaggedAfterDispatch | packages/gateway-email/src/adapter.ts:287-327 | a UID is asked to be flagged only after its dispatch finished, and none that finished is forgotten |
| Email.RestLosesNothing | packages/gateway-email/src/adapter.ts:252-285 | once the queue is empty every fetched UID was dispatched and asked to be flagged |
| EmailOrder.OverlapIsSerial | packages/gateway-email/src/adapter.ts:252-309 | however drains, dispatches and flushes interleave: the dispatches so far and those still queued are exactly those of one drain that fetched everything in the same order, a UID being skipped if and only if the set remembers it |
| EmailOrder.SizesRepeat | packages/gateway-email/src/seen-uids.ts:29-45 | after n dispatches the set holds all of them up to 5000, then between 4001 and 5000 of the latest, in a cycle of 1000 |
| EmailOrder.AllFlagged | packages/gateway-email/src/adapter.ts:315-327 | on every run in which no flush fails, at rest every UID ever fetched is flagged |
| EmailOrder.ReachesRest | packages/gateway-email/src/adapter.ts:252-327 | from every state the queue empties without another fetch, whether flushes succeed or fail |
| Email.RetriedOnlyIfForgotten | packages/gateway-email/src/adapter.ts:315-327 | after a failed flush, on every run to rest: the UID is asked to be flagged again if and only if it is dispatched again, and that if and only if it comes up after the seen set lost it |
| Email.DispatchedIfForgotten | packages/gateway-email/src/adapter.ts:292-296 | a UID coming up is dispatched if and only if its last dispatch is further back than the set is long, and then more than 4000 dispatches lie between |
| Email.FetchedAgainForNothing | packages/gateway-email/src/adapter.ts:311-327 | for every UID, a run: its flush fails, it is fetched again, and is neither dispatched nor asked for |
| Email.RunsKeep | packages/gateway-email/src/adapter.ts:252-327 | the set is the newest dispatches, the books balance, and a flush follows whatever waits |
| Email.NewDispatch | packages/gateway-email/src/adapter.ts:292-293 | dispatching a UID the set lacks keeps repeats far apart |
| SeenUids.SeenUidSet.Add | packages/gateway-email/src/seen-uids.ts:29-32 | adds after trimming a full set, entries staying distinct and in insertion order |
| SeenUids.SeenUidSet.Trim | packages/gateway-email/src/seen-uids.ts:34-45 | drops the oldest entries down to 4000 |
| Email.EmailAdapter.OnFetched | packages/gateway-email/src/adapter.ts:261-267 | queues the batch's dispatches and one flush behind them |
| Email.EmailAdapter.RunNext | packages/gateway-email/src/adapter.ts:287-320 | skips a seen UID, dispatches another, or flushes what is pending |
| Email.EmailAdapter.OnDispatchEnd | packages/gateway-email/src/adapter.ts:297-308 | the UID is recorded after the attempt, however it ended |
| Email.EmailAdapter.OnMarked | packages/gateway-email/src/adapter.ts:320-327 | with nothing queued behind the flush, every UID fetched was dispatched and asked to be flagged |
| RawBody.CaptureAnswersVerdict | packages/gateway/src/webhook/express-server.ts:123-156 | for every accepted limit, declared length and order of data, end and error events the answers are at most one, and exactly the verdict of the whole stream: 413 when declared or sent over the limit, else the concatenation, the error, or nothing |
| RawBody.DrainedAnswersOnce | packages/gateway/src/webhook/express-server.ts:113-122 | a stream already drained continues once with an empty body |
| RawBody.DeclaredDecides | packages/gateway/src/webhook/express-server.ts:97-187 | a finite limit is refused if and only if negative; a body declared over the limit gets 413 at its end whatever was sent, and a smaller or unreadable declaration decides nothing |
| RawBody.HeldWithinLimit | packages/gateway/src/webhook/express-server.ts:129-138 | from the start of a request, whatever the events, the buffer never holds more bytes than the limit |
| RawBody.CountIsByteLength | packages/gateway/src/webhook/express-server.ts:131 | with chunks that split no surrogate pair, the running count is the byte length of the body |
| RawBody.Capture.OnData | packages/gateway/src/webhook/express-server.ts:129-138 | counts, keeps or refuses the chunk, and holds no more than the limit |
| RawBody.Capture.OnEnd | packages/gateway/src/webhook/express-server.ts:139-148 | 413 or the body, once; the answers are then the verdict of everything that happened |
| RawBody.Capture.OnError | packages/gateway/src/webhook/express-server.ts:149-155 | the error, unless refused or settled |
| Signal.StylingPreservesMeaning | packages/gateway-signal/src/text-style.ts:32-65 | every text flattens back from its tree; the ranges are non-empty, in bounds, ordered by start, nested or disjoint, none inside a code span |
| Signal.MessageLooksAsMarked | packages/gateway-signal/src/text-style.ts:41-65 | each character of the message is covered by exactly the styles of the runs it stood in |
| Signal.ToTextStyle | packages/gateway-signal/src/text-style.ts:41-65 | the loop terminates and returns the tree's marker-free text and its runs |
| SignalReading.RunFoundExactly | packages/gateway-signal/src/text-style.ts:75-91 | a run is found if and only if the text has it, said without the reader: a marker opens there, longest first; it closes at its next occurrence; what stands between is not empty and has no whitespace at its ends; and a single underscore has no word character outside; the run is that marker, its own style and what stands between |
| SignalReading.MarkedIsReadBack | packages/gateway-signal/src/text-style.ts:32-86 | the round trip: every document marked with `**`, `~~`, a backtick, `*` or `_`, nested as a writer may, is read back as the tree it was printed from |
| SignalReading.MarkedWord | packages/gateway-signal/src/text-style.ts:41-65 | a word between two markers is sent without them, with one range of that style over all of it |
| Signal.RunAtSource | packages/gateway-signal/src/text-style.ts:75-86 | a found run is its marker, its inner text and its marker again |
| Signal.EntryDetermines | packages/gateway-signal/src/text-style.ts:55-61 | the text of an entry says which range it stands for |
| Signal.ParseKeepsSource | packages/gateway-signal/src/text-style.ts:41-86 | the tree with its markers is the text from any position on |
| Signal.RangesLaminar | packages/gateway-signal/src/text-style.ts:52-61 | ranges nest or are disjoint and stay in their part of the message |
| Signal.ShiftEntryShifts | packages/gateway-signal/src/text-style.ts:93-96 | shifting the text of an entry is shifting the range it stands for |
| IrcLine.ParseInvertsPrint | packages/gateway-irc/src/line.ts:36-119 | the parser inverts a printer written from section 2.3.1 of RFC 1459 and the IRCv3 tag escapes, for every well-formed message |
| IrcLine.UnescapeEscaped | packages/gateway-irc/src/line.ts:117-119 | unescaping inverts the tag escapes, which leave no space or semicolon |
| IrcLine.TagsRead | packages/gateway-irc/src/line.ts:106-115 | printed tags are read back in order |
| IrcLine.ParamsRead | packages/gateway-irc/src/line.ts:84-104 | middle parameters are read one by one; a trailing one keeps its spaces and colons |
| IrcReading.SpacesBehindBlock | packages/gateway-irc/src/line.ts:36-52 | any number of spaces behind the tags or the prefix reads as one |
| IrcReading.SpacesBetweenParams | packages/gateway-irc/src/line.ts:84-104 | spaces before a parameter are passed over, so none but a trailing one is empty |
| IrcReading.StrayEscapes | packages/gateway-irc/src/line.ts:117-119 | a backslash before a character no escape names is dropped and the character kept; one at the end is dropped |
| IrcReading.RefusedUntagged | packages/gateway-irc/src/line.ts:36-55 | a line without tags is refused if and only if its command is missing, at its start or behind its prefix |
| IrcReading.RefusedTagged | packages/gateway-irc/src/line.ts:36-55 | tags never decide whether what follows is a line |
| IrcLine.ParseIrcLine | packages/gateway-irc/src/line.ts:36-55 | the imperative parser computes the specified reading of every line |
| IrcLine.SplitCommand | packages/gateway-irc/src/line.ts:84-104 | the loop computes the command and parameters specified |
| IrcLine.ParseTags | packages/gateway-irc/src/line.ts:106-115 | the loop computes the tags specified, the last of a repeated key winning |
| IrcSplit.BodiesSound | packages/gateway-irc/src/split.ts:18-50 | bodies are not empty, hold no line break, concatenate to the text without NUL and breaks, and each command with CRLF and the reserve fits 512 bytes |
| IrcSplit.CutLineSound | packages/gateway-irc/src/split.ts:52-69 | the pieces of one line are that line, each within the budget, cut between code points |
| IrcPieces.LinesBetweenBreaks | packages/gateway-irc/src/split.ts:45 | the lines with one break, CRLF, LF or CR, between any two are the text; no line holds a break, and a CRLF is one break |
| IrcPieces.PiecesFill | packages/gateway-irc/src/split.ts:52-69 | the pieces of a line join to it, and no piece has room for the code point that opens the next |
| IrcPieces.BodiesByLine | packages/gateway-irc/src/split.ts:33-50 | the bodies go line by line: those of one line are its pieces, none shared with another line |
| IrcPieces.RefusedExactly | packages/gateway-irc/src/split.ts:38-43 | a target is refused if and only if its command words, CRLF and the reserve leave under four of the 512 bytes |
| IrcSplit.LinesAreText | packages/gateway-irc/src/split.ts:45 | the lines concatenate to the text without its breaks |
| IrcSplit.BodiesDecodeAlone | packages/gateway-irc/src/split.ts:21-24 | a well-formed text gives only well-formed bodies |
| IrcSplit.CommandBytes | packages/gateway-irc/src/split.ts:38 | the byte length of a command is the sum the budget assumes |
| IrcSplit.SplitForIrc | packages/gateway-irc/src/split.ts:33-50 | computes the specified bodies, or refuses a target that leaves no room |
| IrcSplit.CutLineLoop | packages/gateway-irc/src/split.ts:53-69 | computes the greedy pieces of a line |
| IrcWire.WireRoundTrip | packages/gateway-irc/src/adapter.ts:135-148 | for every text and accepted target, lone surrogates included, and however the transport cuts the UTF-8 payload: the reader emits one line per body, and each parses to PRIVMSG with the target and the body, a lone surrogate read as U+FFFD |
| IrcWire.WellFormedIsCarried | packages/gateway-irc/src/adapter.ts:135-148 | a well-formed text and target reach the wire unchanged, body by body |
| IrcWire.CutsDoNotMatter | packages/gateway-irc/src/adapter.ts:353-367 | any chunking emits the lines of the whole |
| IrcReading.ReadsDelivered | packages/gateway-irc/src/adapter.ts:353-367 | however the delivered lines are cut, the reader hands on exactly those that are not empty, each without its LF and one CR before it, and keeps the unfinished rest |
| IrcReading.SentExactly | packages/gateway-irc/src/adapter.ts:101-134 | a text is refused for its target if and only if that is not accepted or leaves no room, and for being empty if and only if all of it is NUL and line breaks |
| IrcReading.OneTargetExactly | packages/gateway-irc/src/adapter.ts:29-34 | a target is accepted if and only if it is one middle parameter naming one target, without NUL, BEL or white space |
| IrcWire.HeadParses | packages/gateway-irc/src/line.ts:36-104 | a command line parses to the PRIVMSG it stands for |
| IrcWire.FramesLines | packages/gateway-irc/src/adapter.ts:139 | the joined payload holds exactly the commands as lines |
| IrcWire.LineReader.OnData | packages/gateway-irc/src/adapter.ts:357-366 | emits the complete lines of the buffer and keeps the rest |
| IrcRegistration.OkExactlyWhenRegistered | packages/gateway-irc/src/registration.ts:64-150 | an unsettled handshake answers ok on a line if and only if that line completes a 001, after a 903 with SASL, and a 366 for every channel |
| IrcRegistration.OkMeansRegistered | packages/gateway-irc/src/registration.ts:64-150 | every ok, on every sequence of lines, was given on lines that registered the nick |
| IrcRegistrationTrace.HandshakeExactly | packages/gateway-irc/src/registration.ts:56-150 | for every configuration and every sequence of lines, said of the lines alone: an open handshake has written exactly the opening lines and the reply each line earns, and the next line gives exactly the outcome stated for it, each refusal included |
| IrcRegistrationTrace.JoinsAtWelcome | packages/gateway-irc/src/registration.ts:136-145 | on every open run JOIN was written once for each 001 when there are channels, naming all of them, and never otherwise |
| IrcRegistrationTrace.GrantedHandshake | packages/gateway-irc/src/registration.ts:56-150 | for every configuration with channels and every server that grants it: the lines written are exactly PASS if set, CAP LS, NICK, USER, CAP REQ, AUTHENTICATE PLAIN, chunks the server reads the payload off, CAP END and one JOIN, the SASL ones with SASL only, and the outcome is ok |
| IrcRegistrationTrace.GrantedWithoutChannels | packages/gateway-irc/src/registration.ts:136-142 | without channels the welcome itself is the ok, and no JOIN is written |
| IrcRegistrationTrace.SameName | packages/gateway-irc/src/line.ts:74-81 | two names are one under the `rfc1459` mapping if and only if they agree letter by letter, case and the four bracket pairs aside |
| IrcRegistration.NickLinesBounded | packages/gateway-irc/src/registration.ts:125-134 | at most four NICK lines on any run, the k-th retry being the nick plus k underscores |
| IrcRegistration.ServerRecoversPayload | packages/gateway-irc/src/registration.ts:111-123 | a server joining AUTHENTICATE chunks until one shorter than 400 recovers the exact payload |
| IrcRegistration.RunRemembers | packages/gateway-irc/src/registration.ts:37-151 | on every run the fields are what the lines read so far say |
| IrcRegistration.Registration.Start | packages/gateway-irc/src/registration.ts:56-61 | the opening lines, CAP before NICK with SASL |
| IrcRegistration.Registration.ReadLine | packages/gateway-irc/src/registration.ts:64-92 | one line moves the handshake as specified and gives its outcome |
| IrcRegistration.Registration.ReadCap | packages/gateway-irc/src/registration.ts:94-109 | capabilities over several lines, then the request or a refusal |
| IrcRegistration.Registration.AnswerAuthenticate | packages/gateway-irc/src/registration.ts:111-123 | writes the payload's chunks, closed by an empty one on a chunk boundary |
| IrcRegistration.Registration.RetryNick | packages/gateway-irc/src/registration.ts:125-134 | retries with an underscore three times, then refuses |
| IrcRegistration.Registration.ReadWelcome | packages/gateway-irc/src/registration.ts:136-145 | refuses a welcome without SASL, is done without channels, and in every other case writes JOIN for all channels |
| Telegram.TelegramSplitSound | packages/gateway-telegram/src/split.ts:17-50 | no chunk is empty or over 4096, only newline runs are dropped and only at cuts, and code spans are paired in every chunk but the last and the raw fallbacks |
| SplitBoundaries.TelegramPrefersParagraphs | packages/gateway-telegram/src/split.ts:20-40 | a chunk ends at the last blank line of the second half of the window, else at its last line end there, else at the cap |
| SplitBoundaries.TelegramCutsSo | packages/gateway-telegram/src/split.ts:17-50 | for every text each chunk is cut there and balanced, or sent raw when balancing leaves nothing, and the rest is split again behind its newlines |
| Telegram.BalanceOneEven | packages/gateway-telegram/src/split.ts:59-65 | a balancing step leaves its own marker's count even, lowering an odd one by exactly one, and changes nothing when it was even |
| Telegram.RightmostCut | packages/gateway-telegram/src/split.ts:62-63 | cutting at the rightmost occurrence lowers the greedy non-overlapping count by exactly one |
| Telegram.TrimKeepsCount | packages/gateway-telegram/src/split.ts:63 | trimming whitespace at the end keeps every marker's count |
| Telegram.BalancePairsCode | packages/gateway-telegram/src/split.ts:56-67 | a balanced chunk has an even backtick count |
| Telegram.BalanceFixpoint | packages/gateway-telegram/src/split.ts:56-67 | a chunk is left alone if and only if all four markers are paired in it |
| Telegram.AllPairedExactly | packages/gateway-telegram/src/split.ts:56-67 | all four markers are paired in a balanced chunk if and only if the last trim made, if any, cuts where every marker handled before it is paired |
| Telegram.OtherMarkerParity | packages/gateway-telegram/src/split.ts:59-65 | what a step for one marker does to the parity of another: nothing, or it leaves that of the text before the cut |
| Telegram.LaterTrimUnpairsEarlier | packages/gateway-telegram/src/split.ts:52-67 | a concrete chunk whose balanced form has an unpaired bold marker |
| Telegram.SplitForTelegram | packages/gateway-telegram/src/split.ts:17-50 | the loop terminates on every input and returns the specified chunks |
| Telegram.BalanceMarkdownPairs | packages/gateway-telegram/src/split.ts:56-67 | the loop over the markers computes the specified balance |
| Telegram.CountOccurrences | packages/gateway-telegram/src/split.ts:69-79 | the loop computes the greedy non-overlapping count |
| Sms.NumberedParts | packages/gateway-sms/src/split.ts:35-62 | whenever several parts come back, part i of N is "(i/N) " and its body, the bodies are the text, and the parts are within the limit if every grapheme fits the part budget |
| Sms.SmsAlwaysSplits | packages/gateway-sms/src/split.ts:35-62 | under 10^8 code units and over a limit of 20 the split succeeds, within the limit when graphemes leave the prefix room |
| Sms.PassesSuffice | packages/gateway-sms/src/split.ts:36-61 | under 10^8 code units the eight passes never run out, whatever the limit |
| SmsLeast.LeastReserve | packages/gateway-sms/src/split.ts:35-62 | under 10^8 code units the split keeps free the least even number of units its prefixes fit in, and is refused if and only if no number does |
| SmsLeast.FewerParts | packages/gateway-sms/src/split.ts:35-62 | a larger budget never needs more parts |
| SmsLeast.BodiesPacked | packages/gateway-sms/src/split.ts:35-62 | no body had room for the grapheme that opens the next |
| Sms.SplitForSms | packages/gateway-sms/src/split.ts:35-62 | the loop computes the specified fixed point or error |
| Sms.ChunkByGrapheme | packages/gateway/src/text/chunk.ts:167-186 | the walk computes the greedy packing, for every segmentation |
| Packing.GroupsPacked | packages/gateway/src/text/chunk.ts:174-185 | greedy packing keeps the segments in order, within the budget unless single, and leaves no room for the next |
| Chunking.ChunkText | packages/gateway/src/text/chunk.ts:109-145 | the loop terminates for all valid options and returns the specified parts, or the RangeError |
| Chunking.SearchBoundary | packages/gateway/src/text/chunk.ts:67-74 | computes the specified boundary position |
| Chunking.FindCut | packages/gateway/src/text/chunk.ts:90-103 | computes a cut inside the window |
| Chunking.BoundaryPreference | packages/gateway/src/text/chunk.ts:66-74 | the first boundary that reaches the second half of the window is cut at |
| Chunking.LastBoundaryTried | packages/gateway/src/text/chunk.ts:66-74 | when none does, the last boundary tried gives the position |
| SplitBoundaries.PartsEndAtBoundaries | packages/gateway/src/text/chunk.ts:66-145 | for every text over the limit each part ends where the text says, without the search: at the last place in the window of the first boundary that has one in its second half, else at the last resort, one unit earlier when the guard asks; and the strip class is dropped behind it |
| SplitBoundaries.TrimmedParts | packages/gateway/src/text/chunk.ts:136-145 | with trimming the parts are those, each without its whitespace at both ends, empty ones dropped |
| Chunking.PartsWithinLimit | packages/gateway/src/text/chunk.ts:105-145 | no part passes the limit, nor the safe limit once the text is cut; none is empty |
| Chunking.UncutRejoins | packages/gateway/src/text/chunk.ts:136-144 | the parts rejoin to the text with only runs of the strip class between them |
| Chunking.NonSpacesConserved | packages/gateway/src/text/chunk.ts:109-145 | whatever the options, the non-whitespace characters of the parts in order are those of the text |
| Chunking.GuardedPartsWellFormed | packages/gateway/src/text/chunk.ts:83-103 | with the guard, all parts are well-formed if and only if the window holds a pair, or nothing is cut, or there is no surrogate |
| Discord.MessagesCarryText | packages/gateway-discord/src/adapter.ts:382-399 | every body fits 2000 code units, and the bodies carry parts that rejoin to the text with only newline runs dropped |
| Discord.PlainReadsLiterally | packages/gateway-discord/src/adapter.ts:401-419 | under plain each body alone reads as its part, every character literal |
| Discord.MarkupGoesVerbatim | packages/gateway-discord/src/adapter.ts:382-399 | under every format but plain the bodies are the split parts, unit for unit |
| Discord.FittingPartsStayWhole | packages/gateway-discord/src/adapter.ts:382-388 | parts whose bodies fit go out as one body each |
| Discord.EscapesNoMore | packages/gateway-discord/src/adapter.ts:412-419 | an escaped text is longer by one unit for each of the five guarded characters, and a text without them is its own body |
| Discord.ShortTextIsOneMessage | packages/gateway-discord/src/adapter.ts:382-399 | under plain a text that fits with its backslashes is one message, read literally |
| Discord.ReadEscaped | packages/gateway-discord/src/adapter.ts:412-419 | an escaped part reads back as the part with no character left to open a span, at most doubled in length |
| Discord.PlainBodyDetermines | packages/gateway-discord/src/adapter.ts:412-419 | two parts with the same plain body are the same part |
| Discord.HalvesFit | packages/gateway-discord/src/split.ts:43-56 | a part whose escaped body is over the cap splits at half the cap into bodies that fit |

## Left out

- Network, process, SDK and timer calls: they are events the environment chooses, or uninterpreted results.
- Cryptography and token checks: calls into `node:crypto` with flat branches around them.
- Error mapping, configuration validation, normalizers and logging: single-branch facts.
- Regular-expression dialect translation and secret redaction: a model would be about the regex engine.
- Nextcloud Talk's connect protocol, Signal's JSON-RPC client, Mattermost's renderer, Google's key set: second instances of shapes proved here.
- The thread store, reply-token cache, channel cache and alias cache: easy next to what is proved.
- The runner's slash-command matching and reply delivery; its hooks only as one way a dispatch ends.
- An unhandled rejection ending the Node process: the model goes on after a rejected dispatch.
- Grapheme segmentation: any partition of the text into non-empty segments is allowed.
- The Unicode letter-or-digit test of Signal: a parameter; it sees one code unit, as the code does.
- Sizes that are not integers in the chunkers: the code refuses them first.
- UTF-8 on the wire: chunks are texts, as `setEncoding` delivers them; a byte sequence that is not UTF-8 is not modelled.
- IrcLine.ParseIrcLine: its command is upper-cased as `IrcLine.SplitCommand` does.
- IrcLine.SplitCommand: upper-cases ASCII letters only, because a command is ASCII in RFC 1459.
- IrcRegistration.Registration.ReadLine: lower-cases ASCII letters only in channel names, then the four `rfc1459` pairs.
- IrcRegistration.ServerRecoversPayload: the payload is any text whose length is a multiple of four, which Base64 guarantees; the encoding itself is Node's.
- Chunking.ChunkText: `stripLeading` is one of two patterns, newline runs and whitespace runs.
- IMessage.EveryRowOnce: row ids are integers, the message table is fixed over the run, and a child is trusted to write its rows in order from its start on; a child subscribed without a cursor starts anywhere.
- KeySet.PublishedKeySet.OnReadReply: what a document yields (a non-empty map of keys, or a failure) is a parameter.
- Email.RepeatsAreRare: one connection with a handler subscribed; `disconnect()` clears the set.
- RawBody.HeldWithinLimit: counts the decoded text's UTF-8 bytes, as the code does, not the bytes received.
- Telegram.BalancePairsCode: promises the backtick only; `Telegram.AllPairedExactly` says when the others are paired too.
