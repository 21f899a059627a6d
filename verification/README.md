# Verified models of the remote LLM server and its clients

This project models the parts of the repository where several activities meet in one piece of state, and
proves what they promise each other:

- **Session event log** (`SessionLog.dfy`, `Records.dfy`): the store's append-only log with per-session sequence
  numbers, one retention cap over all sessions, deletion, and a state file that is replaced as a whole and read back
  on restart. Saves may fail; the store may restart at any time.
- **Resumable stream** (`Stream.dfy`, `CatchUp.dfy`, `PublishOrder.dfy`, `Gaps.dfy`): appenders, publishers, bounded
  subscriber channels, the handler that subscribes, replays in batches and then tails (server-sent events and
  WebSocket alike), clients that reconnect at their last cursor by query or header; that nothing is skipped or
  repeated, that a client can always catch up, and what publishing out of order loses.
- **The stream's text and audit** (`Sse.dfy`, `SseFields.dfy`, `Soak.dfy`, `SoakAudit.dfy`, `Wire.dfy`): the printed
  frames, the browser's chunked parser on any text, the audit of the soak client, and both readers on the text of
  a run.
- **JSON-RPC bridge** (`Bridge.dfy`, `BridgeCalls.dfy`, `Hub.dfy`, `Subscriptions.dfy`, `Retry.dfy`): pending table,
  connection epochs, drop reports, the reconnect loop and closing, as a class whose methods are the lock-held
  regions and as a state machine over all interleavings of its goroutines; which outcome each caller gets; the
  subscriber fan-out; the arithmetic of retries.
- **Notification cache** (`Dedup.dfy`): time to live and capacity against a specification by history. **Thread sync**
  (`SyncRepair.dfy`, `LogSummary.dfy`, `Snapshots.dfy`): the repair of a session's log from a remote snapshot.
- **Scheduler** (`Fanout.dfy`), **workspace and thread tree** (`ThreadTree.dfy`, `TreeEdits.dfy`, `BindEdits.dfy`,
  `ProjectSync.dfy`, `ProjectResults.dfy`, `TreeRuns.dfy`, `Timeline.dfy`), **output capture** (`Capture.dfy`) and **shell rendering** (`Shell.dfy`).

Concurrent code is modelled as atomic steps: one step per lock-held region, channel operation or frame. An
invariant is proved for every step and hence for every run. Code that updates state in place is a class or a
method, proved against a function on values; the properties are lemmas about that function. A step that is
not enabled changes nothing, so a run is any list of steps.

Time is an integer, and comes in as a parameter, as do process ids, the outcome of saves, of process starts
and of remote runs, and freshly generated ids. JSON encoding and decoding is left abstract: a payload is the
value it decodes to, or (for the text stream) the one-line text it encodes to.

## What turned out not to hold

- Sync repair does not always converge: what it appends may lie beyond the 2000-event scan, on a full log
  making room may evict the very text that the session and the snapshot agreed on
  (`SyncRepair.FullLogLosesItsText` is such a log), and a title override that differs from the snapshot's
  title is appended again by every sync. `SyncRepair.SyncRepairsExactlyWhen` and
  `SyncRepair.SecondSyncIsQuietExactlyWhen` give the exact conditions for every valid store, in terms of the
  store before the call: each demanded part is appended within the scan, or still read from the kept events.
- Publishing out of append order loses events, because the store's lock is released before the publish. A
  client whose handler has read its last batch (it is tailing, or still writing that batch) is never sent the
  overtaken events beyond that batch on this connection (`PublishOrder.OvertakenIsNeverSent`), nor on a later
  one once it has read the overtaking event (`PublishOrder.OvertakenIsLostForGood`). After any run, whatever
  the order of its publishes and whichever saves failed, a client without a gap so far stays without one in
  every orderly continuation exactly when its channel, followed by what is still to be published, leaves no
  gap above its handler's reach and misses no number at its end (`Gaps.GapFreeInAnyOrder`). For one publish
  from an orderly state that is: the publish overtakes nothing, or finds the channel closed or full, or finds
  a handler that will read another batch, or overtakes only what that handler has sent or has in its last
  batch (`Gaps.GapFreeExactlyInOrder`). Two appends are enough to lose an event (`Gaps.TwoAppendsSuffice`),
  also during the replay (`Gaps.ReplayLosesAnEvent`, `Gaps.MidReplayHappens`).
- "Notified" does not mean "answered" in the bridge: after a drop has notified every pending caller, a caller
  can still wait on an empty channel, exactly when a dispatcher took its entry and has yet to put the reply
  there (`Bridges.NotifiedMeansAnswered`; `Bridges.NotifiedButNotAnswered` is such a run).
- A frame survives the text form exactly when `Sse.Printable` holds: a payload line that ends in a carriage
  return loses it, and an id or event type with a line break breaks the frame
  (`Sse.SurvivesExactlyWhenPrintable`).
- The result of a run for a host without an id, when the result names no host either, is reported as "not
  executed" (`Fanout.ReportIsFaithful`, `Fanout.NamelessRunIsLost`).
- The reconnect backoff is the capped doubling exactly when the maximum is below 2^62 nanoseconds; above, the
  doubling overflows (`Retry.BackoffIsExactExactlyBelow`).
- A buffer with a limit of zero or less keeps nothing and is never marked truncated
  (`Capture.CaptureIsPrefix`).
- Binding the active thread to another one does not always leave the bound thread active. When the active
  workspace is the source's, the bound thread is active afterwards exactly when it is new and the source was
  active, or it is in another named workspace and active there already, or it is in the same workspace and
  either active already or, the source being active, the first of the other threads
  (`ThreadTree.BoundIsActiveExactlyWhen`, which also covers a source outside the active workspace).
  `ThreadTree.BindLosesFocus` and `ThreadTree.BindIntoAnotherLosesFocus` are inputs where it is not.
- A project sync can leave one thread in two workspaces. It does not exactly when the usable projects resolve
  to different workspaces, end up with disjoint sessions (those listed, and the kept ones), and share none
  with a kept unlisted workspace (`ProjectSync.SyncIsWellFormedExactlyWhen`). In discovery mode that fails for
  a session that moved (`ProjectSync.DiscoveryMovesNothing`) and for a project that lists nothing and was
  given a new id (`ProjectSync.DiscoveryCopiesAll`).

## Model

| member | source | states |
|---|---|---|
| Text.TrimDropsEnds | server/internal/store/store.go:537-549 | trimming removes white space at both ends and nothing else |
| Decimal.ParseFormat | server/internal/api/server.go:1316 | a 64-bit number survives the trip through its decimal form |
| Decimal.ParseCursorFormat | server/internal/api/server.go:1315-1321 | a cursor is read through any white space around it, and a negative one is refused |
| SessionLog.CapTail | server/internal/store/store.go:658-663 | the kept events are the last `max` ones |
| SessionLog.NormalizeRetentionLimit | server/internal/store/store.go:634-645 | a limit ends up between 100 and 50000: kept when it is there already, else the nearest bound, and the fallback when none is given |
| SessionLog.Store.Load | server/internal/store/store.go:71-132 | what a restart makes of a missing, empty, undecodable or saved file |
| SessionLog.Store.SaveLocked | server/internal/store/store.go:134-147 | the file is replaced as a whole or not at all |
| SessionLog.Store.UpsertSession | server/internal/store/store.go:300-330 | the trimmed record replaces the one with its id or is added; a blank id is refused |
| SessionLog.Store.DeleteSession | server/internal/store/store.go:350-388 | whether there was such a session, which error is returned when, and the state afterwards, which Records.DeleteForgetsRecord and SessionLog.DeleteKeepsValid describe: record, counter and events are gone, everything else is as it was |
| SessionLog.Store.AppendSessionEvent | server/internal/store/store.go:536-566 | stores the event with the next number under the cap, even when the save fails; blank ids and types are refused |
| SessionLog.Store.ListSessionEvents | server/internal/store/store.go:568-595 | the first events of the session above the cursor, at most the normalized limit |
| SessionLog.Store.UpdateRetentionPolicy | server/internal/store/store.go:603-613 | the new event cap applies at once, and a failed save is reported |
| SessionLog.AppendKeepsValid | server/internal/store/store.go:552-565 | an append hands out counter + 1, stores the event last, touches no other counter and keeps every session's events a block of consecutive numbers ending at its counter |
| SessionLog.DeleteKeepsValid | server/internal/store/store.go:373-385 | a deletion removes exactly the deleted session's counter and events (its record: Records.DeleteForgetsRecord) |
| SessionLog.RetentionKeepsValid | server/internal/store/store.go:603-613 | a smaller cap drops a prefix of every block |
| SessionLog.LoadRestores | server/internal/store/store.go:114-130 | a saved reachable state is read back unchanged |
| SessionLog.LoadRebuildsCounters | server/internal/store/store.go:118-130 | a file whose counters are missing or lag behind its events loads into a valid state |
| SessionLog.PageFollowsCursor | server/internal/store/store.go:581-594 | when nothing above the cursor was evicted, a page is the run of numbers right above it, cut short only by the limit or the end of the log |
| SessionLog.StepKeepsInv | server/internal/store/store.go:536-613 | appends, deletions, cap changes, upserts and restarts, with saves that may fail, keep memory and file valid and ahead of every number returned |
| SessionLog.ReachableLogsAreContiguous | server/internal/store/store.go:114-130 | in every reachable state a session's retained events are a block of consecutive numbers ending at its counter |
| SessionLog.AppendIssuesFreshNumbers | server/internal/store/store.go:552-565 | no append returns a number already returned for the session since its last deletion, across failed saves and restarts |
| Records.DeleteForgetsRecord | server/internal/store/store.go:365-385 | with distinct record ids, after a deletion no record has the id and every other record is there in its old order |
| Records.SecondDeleteFindsNothing | server/internal/store/store.go:350-388 | a second deletion of the same id changes nothing, in memory or in the file, whether the saves succeed or fail |
| Records.DeleteTwice | server/internal/store/store.go:350-388 | two calls of the method: the first reports a deletion exactly when there was such a record, the second never does |
| Records.PutKeepsOthers | server/internal/store/store.go:300-330 | an upsert puts the record in, leaves every other record in its old order, and never duplicates an id |
| Records.TrimRecordTrims | server/internal/store/store.go:300-312 | a record's fields are trimmed, and a trimmed record is kept as it is |
| Records.UpsertIsFound | server/internal/store/store.go:300-330 | a blank id changes nothing; after any other upsert the trimmed record is the one with its id; other records, events and counters are as they were; the file has it exactly when the save succeeds |
| Records.ReachableRecordsAreDistinct | server/internal/store/store.go:300-388 | in every reachable state, of memory and of the file, no two records share an id |
| Records.RetentionApplies | server/internal/store/store.go:603-613 | the cap becomes the normalized limit, the newest events that fit it are kept in order, records and counters stay |
| Records.SavedIsIssued | server/internal/store/store.go:552-566 | a number counts as returned exactly when the append that drew it was saved, until the session is deleted |
| Records.RestartForgetsUnsaved | server/internal/store/store.go:71-132 | an append whose save failed is gone after a restart, and nothing else is |
| Records.SavedAppendSurvives | server/internal/store/store.go:71-147 | after any run, a saved append is still there after a restart: last in the log, its number the session's counter |
| Records.AppendRefusesBlank | server/internal/store/store.go:536-550 | an append is refused exactly for a blank session id or else a blank type, and with which error |
| Records.ListIsFirstAbove | server/internal/store/store.go:568-595 | a listing is the first of the session's events above the cursor, as many as asked for, 200 by default and at most 2000 |
| Records.AppendStoresLast | server/internal/store/store.go:536-566 | the trimmed event is stored last under the next number; only the oldest event goes, and only at the cap |
| Soak.SoakClient.ApplyFrame | server/cmd/remote-llm-soak/main.go:373-431 | one frame's effect on the counters and the cursor |
| Soak.SoakClient.ConsumeSSE | server/cmd/remote-llm-soak/main.go:316-371 | the frames that the lines of any text make up, applied in order |
| Soak.AccountingIsExact | server/cmd/remote-llm-soak/main.go:389-409 | the cursor's progress is accepted plus missing; session events are accepted plus duplicate plus non-monotonic plus invalid; accepted numbers strictly increase |
| Soak.QuietExactlyWhenCountingUp | server/cmd/remote-llm-soak/main.go:389-409 | the anomaly counters stay zero exactly when the ids count up from the cursor without gap, repeat or unreadable id |
| SoakAudit.ReportSaysWhatCame | server/cmd/remote-llm-soak/main.go:373-431 | each counter after any frames: every type counted under its own name, every id as repeated, behind or unreadable against the highest number before it, and the cursor at the highest |
| SoakAudit.BlockIsOneFrame | server/cmd/remote-llm-soak/main.go:316-371 | each block of lines up to a blank one, or to the end, gives one frame or none: its last id and event, its data lines joined |
| SoakAudit.LastLineIsRead | server/cmd/remote-llm-soak/main.go:316-371 | the last line is read whether a line break ends it or the end of the stream does |
| Stream.DeliveredExactlyOnce | server/internal/api/server.go:1252-1312 | safety: when publishes follow append order and nothing above a replaying cursor is evicted, a client reads start+1, start+2, ... without gap or repeat over all its connections, in every interleaving (that it can get all of them: CatchUp.CatchesUp and CatchUp.Follows) |
| Stream.QuietClientIsCaughtUp | server/internal/api/server.go:1284-1300 | with everything published, drained and read, a tailing client has every number up to the counter |
| Stream.FreshClientsAreSynced | server/internal/api/server.go:1235-1255 | the assumptions hold for any log and clients whose cursor does not exceed its counter |
| Stream.FetchKeeps | server/internal/api/server.go:1255-1276 | a batch keeps a client in step: a short one reaches the end of the log and so meets what the channel has collected since the subscription (what is in it: CatchUp.FetchAdvances) |
| Stream.PublishKeepsSynced | server/internal/api/server.go:1761-1783 | an in-order publish, with overflow closing full channels, keeps all clients in step |
| Stream.RequestResumes | server/internal/api/server.go:1227-1241 | a client that names its cursor in the query, in the header, or in both is resumed at that cursor |
| Stream.FreshClientsAreSafe | server/internal/api/server.go:1235-1255 | the safety invariant holds for fresh clients on any log |
| Stream.EveryConnectionIsSafe | server/internal/api/codex_v2_stream.go:78-155 | with no assumption on publish order, saves, evictions or deletions, each connection sends strictly increasing numbers above its cursor, all of them appended to this session |
| CatchUp.FetchAdvances | server/internal/api/server.go:1256-1280 | with nothing above the cursor evicted, a read gives exactly the numbers cursor+1 to min(counter, cursor + batch size), all from this session's log, final exactly when short; at the counter the handler tails, with the ready frame for that cursor last on the wire |
| CatchUp.WriteAdvances | server/internal/api/server.go:1261-1280 | writing puts the next replayed event on the wire; after the last one of a final batch the ready frame follows and the handler tails |
| CatchUp.CatchesUp | server/internal/api/server.go:1227-1280 | from every state in step in which nothing above its cursor was evicted, a client can catch up by its own steps: an orderly run of leaving, connecting at its cursor, replaying and reading ends tailing with every number up to the counter read |
| CatchUp.Follows | server/internal/api/server.go:1284-1302 | from every state in step, while its channel is open, publishing in order and receiving brings a tailing client everything up to the counter |
| CatchUp.ClosedChannelResets | server/internal/api/server.go:1288-1302 | a tailing handler whose channel was closed sends what is left in it, then a reset that names its cursor, last, and ends |
| CatchUp.BeatSaysWhere | server/internal/api/server.go:1303-1310 | a heartbeat names the tailing handler's cursor and changes nothing else |
| CatchUp.FramesAreNamed | server/internal/api/server.go:1265-1308 | what the frames are called; only event frames carry an id, and it is their number |
| CatchUp.CutEnds | server/internal/api/server.go:1286-1287 | a lost connection ends the handler and its channel; of what was sent, some front part may still arrive |
| CatchUp.LaterCursorWins | server/internal/api/server.go:1227-1240 | a request is refused exactly for an unreadable query cursor, and else resumes at the later of query and header cursor |
| CatchUp.OnlySavedIsPublished | server/internal/api/server.go:1652-1662 | an event whose save failed stays in the log and is never published; a saved one waits to be published, last |
| CatchUp.StoreStepsAgree | server/internal/store/store.go:536-613 | the stream's appends, deletions and cap changes do to the store what the store's operations do |
| CatchUp.PublishOffersToAll | server/internal/api/server.go:1761-1802 | a publish is offered to every client: kept where there is room, closing a full channel; ending a session's streams closes every channel and keeps its contents |
| PublishOrder.TailSendsAllExactlyWhenInOrder | server/internal/api/server.go:1294-1302 | a tailing handler forwards all its channel holds exactly when it arrived in increasing order above the cursor |
| PublishOrder.OvertakenIsNeverSent | server/internal/api/server.go:1255-1302 | when the publish of a later append reaches, first, a client whose handler has read its last batch, no overtaken event beyond that batch is sent on that connection, in any continuation |
| PublishOrder.RunReadsAbove | server/internal/api/server.go:1227-1302 | in any continuation, reconnects included, a client reads nothing at or below the cursor it has now |
| PublishOrder.OvertakenIsLostForGood | server/internal/api/server.go:1652-1662 | once such a client has read past the overtaking event, it has none of the overtaken ones beyond that batch in any continuation, over any number of reconnects |
| Gaps.RunKeepsInStep | server/internal/api/server.go:1252-1312 | in every run, with publishes in any order and saves that may fail, a client is without a gap as long as its handler has not skipped a number |
| Gaps.GapFreeExactlyWhenUnbroken | server/internal/api/server.go:1252-1312 | a client without a gap so far has none in any orderly continuation exactly when its channel, followed by what is held back, leaves no gap above its handler's reach and misses no number at its end |
| Gaps.GapFreeInAnyOrder | server/internal/api/server.go:1252-1312 | the same after every run from a state in step, whatever the order of its publishes and whichever saves failed |
| Gaps.GapFreeExactlyInOrder | server/internal/api/server.go:1652-1662 | for every publish from a state in step and every client: no gap in any orderly continuation exactly when it overtakes nothing, or does not reach a client whose handler has read its last batch, or overtakes only what that handler has sent or has in its batch |
| Gaps.TwoAppendsSuffice | server/internal/api/server.go:1652-1662 | from every state in which everything is published and such a client has room in its channel, two more appends published in the opposite order leave it with a gap in some orderly continuation |
| Gaps.ReplayLosesAnEvent | server/internal/api/server.go:1255-1302 | during the replay of event 1, events 2 and 3 are published in the opposite order: the client reads 1 and 3 |
| Gaps.MidReplayHappens | server/internal/api/server.go:1255-1302 | there is such a state, in step |
| Sse.WriteSSEEvent | server/internal/api/server.go:1323-1348 | the text written for one frame |
| Sse.SseReader.EmitFrame | web/src/api.ts:1615-1639 | when a frame is emitted, with what data, and what is reset |
| Sse.SseReader.Consume | web/src/api.ts:1641-1668 | the effect of one line |
| Sse.SseReader.ReadChunk | web/src/api.ts:1670-1681 | all complete lines of buffer and chunk are consumed, the rest is kept |
| Sse.SseReader.ReadAll | web/src/api.ts:1670-1688 | all chunks, then the tail, then a last emit |
| Sse.ChunkingDoesNotMatter | web/src/api.ts:1670-1688 | for arbitrary text, the emitted frames do not depend on how it is cut into chunks |
| SseFields.EveryLineSays | web/src/api.ts:1641-1668 | every line but the blank one is a comment or gives a name a value |
| SseFields.BlockIsOneFrame | web/src/api.ts:1615-1668 | any lines up to a blank one give one frame, or none: the last event and the last id named, the data lines joined; comments and unknown names count for nothing |
| SseFields.EndIsABlankLine | web/src/api.ts:1683-1688 | the end of the stream, wherever it comes, has the effect of a line break and a blank line |
| SseFields.CutBlockIsOneFrame | web/src/api.ts:1670-1688 | a stream that breaks off inside a block, in any chunks, still gives that block's frame |
| Sse.SurvivesExactlyWhenPrintable | server/internal/api/server.go:1323-1348 | a printed frame is read back as itself exactly when it is printable |
| Sse.RoundTrip | web/src/api.ts:1615-1688 | printed frames, cut into any chunks, are emitted exactly, in order, with nothing extra at the end |
| Wire.TextDeliversInOrder | server/internal/api/server.go:1263-1300 | in every run, the text on a connection, in any chunks, is parsed by the browser into exactly the frames sent with their payloads, and the ids of the event frames count up from the client's cursor |
| Wire.SoakReadsFrames | server/cmd/remote-llm-soak/main.go:316-371 | the soak client's line reader makes of any written text exactly the frames that were written |
| Wire.SoakAuditsTheTextQuietly | server/cmd/remote-llm-soak/main.go:316-431 | in every orderly run, auditing the text on a connection leaves the anomaly counters at zero and the cursor at the last number on it |
| Wire.ConsumeText | server/cmd/remote-llm-soak/main.go:316-371 | the soak client's loop on such a text reads it as the frames on the wire |
| Bridges.Bridge.BeginConnect | server/internal/codexrpc/bridge.go:270-288 | closed, connected, wait or begin |
| Bridges.Bridge.Install | server/internal/codexrpc/bridge.go:306-319 | a started process becomes current unless the bridge was closed meanwhile |
| Bridges.Bridge.RegisterPending | server/internal/codexrpc/bridge.go:533-544 | a request enters the table with the current connection, or is refused |
| Bridges.Bridge.TakePending | server/internal/codexrpc/bridge.go:649-664 | a reply takes its entry out of the table |
| Bridges.Bridge.HandleProcessDrop | server/internal/codexrpc/bridge.go:680-728 | only a report about the current connection ends it, takes its whole table, and may start a reconnect loop |
| Bridges.Bridge.Close | server/internal/codexrpc/bridge.go:944-985 | closing takes the process and the table, once |
| Bridges.NextKeepsInv | server/internal/codexrpc/bridge.go:270-985 | every step of every goroutine keeps the invariants on table, debts, attempts, loops and processes |
| Bridges.AnsweredAtMostOnce | server/internal/codexrpc/bridge.go:649-664 | each request is answered at most once, no send finds the channel full, and entries belong to the current connection (with what it is answered: BridgeCalls.CallersGetTheirOutcome) |
| Bridges.NoCallerIsStranded | server/internal/codexrpc/bridge.go:680-728 | a caller whose connection is gone has an outcome in its channel or one on its way |
| Bridges.NotifiedMeansAnswered | server/internal/codexrpc/bridge.go:944-971 | once a drop or close has finished notifying, a waiting caller of that connection has an empty channel exactly when a dispatcher still owes it the reply |
| Bridges.NotifiedButNotAnswered | server/internal/codexrpc/bridge.go:649-664 | a concrete run in which everyone has been notified and a caller still waits on an empty channel |
| Bridges.OneConnectionAtATime | server/internal/codexrpc/bridge.go:270-331 | at most one attempt and one loop, increasing connection ids, one effective drop per id, and every started process current, being installed, or closed exactly once |
| Bridges.EndedConnectionStaysEnded | server/internal/codexrpc/bridge.go:680-728 | once a connection has ended, it is never current again in any continuation, so every later report about it changes nothing |
| Bridges.ClosedForGood | server/internal/codexrpc/bridge.go:944-985 | after closing no process is ever installed |
| BridgeCalls.CallersGetTheirOutcome | server/internal/codexrpc/bridge.go:649-728 | in every run, told from its steps: a waiting caller has exactly the outcome that whoever took its entry has sent (the reply for a dispatcher, disconnected for an effective drop report, closed for the closing), one that returned with an outcome returned with that one, and an outcome is owed exactly while taken and not sent |
| BridgeCalls.CallReturnsItsReply | server/internal/codexrpc/bridge.go:464-544 | on a connected bridge a call whose reply arrives returns that reply and leaves no entry |
| BridgeCalls.GivingUpLeaves | server/internal/codexrpc/bridge.go:484-550 | a waiting caller that gives up takes out its own entry and returns without an outcome; a reply that comes later changes nothing |
| BridgeCalls.RefusedLeavesNothing | server/internal/codexrpc/bridge.go:533-544 | without a connection a call is refused and leaves nothing behind |
| BridgeCalls.OverflowsAreCounted | server/internal/codexrpc/bridge.go:660-663 | the count of lost sends, which stays 0 in every run, goes up exactly when a send finds the channel full |
| BridgeCalls.DropStartsLoop | server/internal/codexrpc/bridge.go:680-728 | an effective drop report leaves a reconnect loop running, takes the process out and hands it to be closed |
| BridgeCalls.FirstCallIsAnswered | server/internal/codexrpc/bridge.go:270-544 | on a new bridge the first attempt connects and the first call returns its reply |
| BridgeCalls.GateSaysWhy | server/internal/codexrpc/bridge.go:270-288 | a caller that needs a connection finds the bridge closed, connected, without an attempt (and begins one), or with an attempt under way that is there to be waited for |
| BridgeCalls.ConnectSucceeds | server/internal/codexrpc/bridge.go:270-331 | an unconnected, open bridge whose process starts ends connected to it, under an id never used before |
| BridgeCalls.FailureFrees | server/internal/codexrpc/bridge.go:341-357 | a failed start lets the next attempt begin |
| BridgeCalls.LateStartIsClosed | server/internal/codexrpc/bridge.go:306-319 | a process that has started by the time the bridge is closed is handed to be closed and never installed |
| BridgeCalls.ClosingCloses | server/internal/codexrpc/bridge.go:306-319 | a process handed to be closed is closed once more and no longer waits for it |
| BridgeCalls.LoopLeaves | server/internal/codexrpc/bridge.go:730-735 | the end of a reconnect loop lets a later drop start one |
| BridgeCalls.CloseEndsAll | server/internal/codexrpc/bridge.go:944-985 | closing empties the table, gives up the process, and owes every pending caller the news |
| Hubs.Table.AddSub | server/internal/codexrpc/bridge.go:825-835 | a new channel under a new id, unless the bridge is closed |
| Hubs.Table.Publish | server/internal/codexrpc/bridge.go:768-779 | the event goes to every channel with room; full ones are closed and removed |
| Hubs.Table.Remove | server/internal/codexrpc/bridge.go:837-846 | an unsubscribe removes and closes, once |
| Hubs.Table.DetachAll | server/internal/codexrpc/bridge.go:958-980 | closing the bridge takes all channels out of the table |
| Hubs.ReceivedAndBufferedAreARun | server/internal/api/server.go:1716-1802 | in every interleaving, received plus buffered events are the contiguous run published since the subscription, complete while registered, and no channel is sent to after closing or closed twice |
| Hubs.RemovalOnlyCutsTheTail | server/internal/codexrpc/bridge.go:768-980 | whatever removes a channel (overflow, unsubscribing, closing), over any continuation received plus buffered events are exactly those published from the subscription to the removal |
| Hubs.OverflowOnlyCutsTheTail | server/internal/codexrpc/bridge.go:768-805 | the same for an overflow: the event that did not fit is not among them |
| Subscriptions.SubscribeOpens | server/internal/codexrpc/bridge.go:807-835 | a new, open, empty channel of the size asked for, or the default one, that counts from here on; nobody else's changes; a closed hub takes nobody in |
| Subscriptions.ReceivingDrains | server/internal/api/server.go:1716-1783 | receiving until the channel is empty yields everything published since the subscription, up to now while registered, in order, and touches no other channel |
| Subscriptions.CloseAllEndsAll | server/internal/api/server.go:1785-1802 | ending a session's streams closes every channel of its table where it stands |
| Subscriptions.CloseEndsEverySubscription | server/internal/codexrpc/bridge.go:944-980 | closing the bridge, in whatever order the channels are then closed, ends every channel where it stands and lets no later subscriber in |
| Subscriptions.SecondCloseFindsNothing | server/internal/codexrpc/bridge.go:944-950 | a second closing changes nothing |
| Subscriptions.PanicsAreCounted | server/internal/codexrpc/bridge.go:768-846 | the panic counter, which stays 0 in every run, goes up exactly when a step sends to a closed channel or closes one again |
| Dedup.ExpireOld | server/internal/api/codex_v2.go:1763-1767 | exactly the entries older than the cutoff go |
| Dedup.DropOldest | server/internal/api/codex_v2.go:1779-1791 | exactly one entry with the least time goes, and nothing from an empty table |
| Dedup.MarkOne | server/internal/api/codex_v2.go:1742-1777 | one call's answer and table |
| Dedup.NotificationCache.MarkSeen | server/internal/api/codex_v2.go:1742-1777 | blank arguments are never seen; otherwise on increasing times the answer is the one the history gives, and no table exceeds the capacity |
| Dedup.CacheRefinesHistory | server/internal/api/codex_v2.go:1742-1791 | a call is seen exactly when the key's latest earlier call is within the time to live and fewer than 2048 distinct other keys came since |
| Dedup.LiveFits | server/internal/api/server.go:80-81 | the table a history stands for never exceeds 2048 entries |
| SyncRepair.ExtractAssistantText | server/internal/api/codex_v2.go:1883-1911 | the last non-blank final answer, or else the last non-blank agent message |
| SyncRepair.SnapshotsAreWellFormed | server/internal/api/codex_v2.go:1847-1911 | snapshot fields are trimmed and the status is one of the known ones |
| SyncRepair.Summarize | server/internal/api/codex_v2.go:1913-1968 | the summary of the first 2000 events for the trimmed run is SummaryOf, which LogSummary.SummarySaysWhatIsLogged describes in terms of the log |
| LogSummary.SummarySaysWhatIsLogged | server/internal/api/codex_v2.go:1913-1968 | the text is the last completed message that is not blank, or else all deltas of the run's events, joined in log order and trimmed; the terminal state is the last one announced |
| LogSummary.LoggedTextIsNotRepaired | server/internal/api/codex_v2.go:1940-1965 | a log whose last message, or else whose joined and trimmed deltas, is the snapshot's text gets no text event from a sync |
| LogSummary.TextEventSaysText | server/internal/api/codex_v2.go:1826-1845 | the event that repairs a text is read back as that text |
| LogSummary.TerminalEventSaysState | server/internal/api/codex_v2.go:500-523 | the event that repairs a terminal state is read back as that state |
| LogSummary.TitleEventSaysTitle | server/internal/api/codex_v2.go:482-489 | the event that repairs a title carries it and says nothing of text or state |
| LogSummary.SyncSettlesRecord | server/internal/api/codex_v2.go:473-543 | after a sync the session's record has the snapshot's run, status and title where it has one, else what it had, save for a requested title; all other records are as they were |
| Snapshots.SnapshotIsOfLastTurn | server/internal/api/codex_v2.go:1847-1911 | a snapshot is about the last turn: its trimmed id, its status by the table of names, and the text of its last final answer, else of its last agent message |
| SyncRepair.AppendDirect | server/internal/api/codex_v2.go:1793-1824 | one event is appended unless its session id or type is blank |
| SyncRepair.SyncSession | server/internal/api/codex_v2.go:473-527 | upsert, summary, repair and final upsert amount to one sync of the store |
| SyncRepair.UpsertThread | server/internal/api/codex_v2.go:1205-1229 | the record keeps its run and status and gets the requested or the snapshot's title |
| SyncRepair.SyncAppends | server/internal/api/codex_v2.go:483-515 | after a sync the session's log is what making room has kept of it, followed by exactly the missing events |
| SyncRepair.KeptIsSuffix | server/internal/store/store.go:560-563 | making room drops a prefix of the session's log, whose length is that of its events among the displaced ones |
| SyncRepair.NothingMissingExactlyWhenAgreed | server/internal/api/codex_v2.go:490-515 | text and terminal state are repaired exactly when log and snapshot disagree on them |
| SyncRepair.SyncRepairsExactlyWhen | server/internal/api/codex_v2.go:473-527 | for every valid store, the log agrees with the snapshot after a sync exactly when text and terminal state are each not demanded, appended within the scan, or still read from the kept events |
| SyncRepair.SparedRepairsExactlyWhenItFits | server/internal/api/codex_v2.go:473-527 | when making room evicts none of the session's events, that is when they agreed before or the repaired log fits the scan |
| SyncRepair.FullLogLosesItsText | server/internal/api/codex_v2.go:473-527 | a concrete full log that agrees on the text before the sync and no longer does after it, so that a second sync appends again |
| SyncRepair.SecondSyncIsQuietExactlyWhen | server/internal/api/codex_v2.go:473-527 | for every valid store, a second sync appends nothing exactly when the title is settled and the first sync's repair holds |
| Fanout.NormalizeFanout | server/internal/api/server.go:2104-2118 | between 1 and the number of hosts, 0 for none; a request in range is kept, a larger one cut, and none means 3 |
| Fanout.ReportSkipped | server/internal/api/server.go:3316-3328 | slots that name no host are reported as not executed, the others are left alone |
| Fanout.NextKeepsInv | server/internal/api/server.go:3267-3314 | every step of dispatcher, workers and canceller keeps jobs, slots and workers consistent |
| Fanout.RunsAreBounded | server/internal/api/server.go:3298-3314 | at most `fanout` jobs run at once, never one job on two workers, each started at most once and in order |
| Fanout.NeverStuck | server/internal/api/server.go:3298-3314 | every unfinished state has an enabled step other than cancellation |
| Fanout.StepsAreUsedUp | server/internal/api/server.go:3298-3314 | every such step uses up a finite measure, so every schedule ends |
| Fanout.CancelWindsDown | server/internal/api/server.go:3282-3314 | however a cancelled run goes on, it stays cancelled and starts no more jobs than there were workers waiting for one |
| Fanout.ReportIsFaithful | server/internal/api/server.go:3280-3329 | exactly the started jobs have run, all of them if never cancelled; slot i is the outcome of host i, or "not executed" when it never ran or neither outcome nor host has a name |
| Fanout.EveryHostIsRun | server/internal/api/server.go:3280-3329 | with named hosts and no cancellation every host is run and slot i belongs to host i |
| Fanout.NamelessRunIsLost | server/internal/api/server.go:3316-3319 | a concrete run that happened and is reported as not executed |
| Timeline.UpsertAssistantStreamEntry | web/src/domains/session.ts:644-681 | a non-blank body replaces the running entry's body or adds a running entry |
| Timeline.FinalizeAssistantStreamEntry | web/src/domains/session.ts:683-728 | the running entry is closed, or a closed one added for a non-blank body |
| Timeline.StreamFolds | web/src/domains/session.ts:622-681 | any interleaving of upserts and additions yields the old timeline, the additions in order, and one running entry at the place of the first non-blank body with the last one |
| Timeline.AtMostOneRunning | web/src/domains/session.ts:644-681 | at no time is more than one assistant entry running |
| Timeline.FinalizeClosesTheStream | web/src/domains/session.ts:683-728 | finalizing leaves one closed entry in its place with the given state and the final body, or else the last non-blank one |
| Timeline.FinalizeAfterSilence | web/src/domains/session.ts:710-728 | with nothing streamed, only a non-blank final body adds an entry |
| ThreadTree.CreateKeeps | web/src/domains/session.ts:730-747 | creating a thread with a fresh id keeps the tree well formed |
| ThreadTree.ForkKeeps | web/src/domains/session.ts:749-776 | forking keeps the tree well formed |
| ThreadTree.ActivateKeeps | web/src/domains/session.ts:589-612 | activating keeps the tree well formed (what it does: TreeEdits.ActivatePoints) |
| ThreadTree.RemoveFromIsOk | web/src/domains/session.ts:788-816 | a removed active thread is replaced by the next one, or else the previous one |
| ThreadTree.RemoveKeeps | web/src/domains/session.ts:778-835 | removing removes exactly that id, keeps the active workspace and keeps the tree well formed |
| TreeEdits.ActivatePoints | web/src/domains/session.ts:589-612 | activating a thread makes its workspace the active one and it the active thread there, clears its unread mark, and changes nothing else |
| TreeEdits.ActivateUnknown | web/src/domains/session.ts:589-612 | an unknown id changes nothing |
| TreeEdits.CreateAdds | web/src/domains/session.ts:730-747 | creating adds one empty, idle thread with that id at the end of the active workspace and makes it active there; nothing else changes |
| TreeEdits.CreateNowhere | web/src/domains/session.ts:730-747 | without an active workspace nothing is created |
| TreeEdits.ForkAdds | web/src/domains/session.ts:749-776 | forking adds a copy of the source's conversation and settings, without its job state, at the end of the source's workspace and makes both active; nothing else changes |
| TreeEdits.RemoveTakesOut | web/src/domains/session.ts:778-835 | removing takes that thread out of its workspace, hands its focus to the next or else the previous thread and a running job to the active one; nothing else changes |
| TreeEdits.RemoveUnknown | web/src/domains/session.ts:778-787 | removing an unknown id changes nothing |
| TreeEdits.MergeTakesBoth | web/src/domains/session.ts:1249-1315 | field by field: target's id and timeline unless empty, source's settings where it has any, marks of both |
| TreeEdits.RenameKeepsRest | web/src/domains/session.ts:1307-1315 | a renamed thread is the source under the new id, with the new title if there is one |
| ThreadTree.LocateBoth | web/src/domains/session.ts:1191-1217 | the last place of each id |
| ThreadTree.KeepFirst | web/src/domains/session.ts:1340-1345 | the first thread of each id |
| ThreadTree.BindInPlace | web/src/domains/session.ts:1242-1349 | copies, merges or renames, splices and settles exactly as the workspace-by-workspace specification says |
| ThreadTree.Bind | web/src/domains/session.ts:1163-1358 | the tree, the active ids and the returned id after a bind |
| ThreadTree.BindKeeps | web/src/domains/session.ts:1163-1358 | binding any id to any other keeps the tree well formed |
| ThreadTree.BindReplacesOneThread | web/src/domains/session.ts:1249-1323 | binding S to T turns the ids into (ids - S) + T; the one resulting thread is T merged with S, keeping T's timeline unless it is empty, or S renamed; every other thread is unchanged |
| ThreadTree.BoundActive | web/src/domains/session.ts:1318-1339 | the active thread of every workspace after a bind, told from before it: an active source hands over to the target's id on a rename, to the first other thread on a merge; nothing else changes |
| ThreadTree.BoundIsActiveExactlyWhen | web/src/domains/session.ts:1180-1356 | which workspace is active after a bind, and an exact condition on the tree before it for the bound thread to be the active one |
| ThreadTree.BindLosesFocus | web/src/domains/session.ts:1323-1329 | an active thread merged into one of the same workspace hands over to a third thread |
| ThreadTree.BindIntoAnotherLosesFocus | web/src/domains/session.ts:1323-1352 | an active thread merged into one of another workspace: that workspace becomes active, its active thread stays another one |
| BindEdits.BindPlaces | web/src/domains/session.ts:1249-1345 | a bind puts the merged thread at the target's place and takes the source's away, or renames the source where it stands; every other thread of every workspace stays in its place; a job of the source becomes the target's |
| BindEdits.BindUnknownRetitles | web/src/domains/session.ts:1219-1241 | binding an unknown thread to a known one only gives that one the title |
| BindEdits.BindSelfRetitles | web/src/domains/session.ts:1173-1178 | binding a thread to itself only gives it the title |
| BindEdits.BindNothing | web/src/domains/session.ts:1168-1222 | two unknown threads change no workspace, a blank id changes nothing at all, and the id returned is the one that is not blank |
| BindEdits.DedupKeepsFirst | web/src/domains/session.ts:1340-1345 | exactly the threads whose id no thread before them has are kept, in order |
| ProjectSync.BuildIndex | web/src/domains/session.ts:1374-1389 | the three lookup maps |
| ProjectSync.ListSessions | web/src/domains/session.ts:1410-1450 | each listed non-blank id once, with the prior thread's contents |
| ProjectSync.SyncProjects | web/src/domains/session.ts:1364-1529 | the tree after a sync with any options |
| ProjectSync.AnySyncKeepsWorkspacesOk | web/src/domains/session.ts:1452-1529 | with any options each workspace is well formed on its own and the active one exists |
| ProjectSync.SyncIsWellFormedExactlyWhen | web/src/domains/session.ts:1364-1529 | with any options and projects, a sync gives a well-formed tree exactly when the resulting workspaces have different ids and disjoint sessions, said of the projects and the old tree |
| ProjectSync.ServerSyncIsWellFormedExactlyWhen | web/src/domains/session.ts:1364-1529 | a sync that keeps nothing unlisted does so exactly when the usable projects resolve to different workspaces and list disjoint sessions |
| ProjectSync.ServerSyncRemembers | web/src/domains/session.ts:1410-1450 | a thread that is still listed keeps everything but its title |
| ProjectResults.ListedInOrder | web/src/domains/session.ts:1409-1449 | the listed sessions are the ids that are not blank, each once, in the order of their first mention |
| ProjectResults.ListedIsRefreshed | web/src/domains/session.ts:1409-1449 | each is the thread of its id with the title of its first mention, else its own, else its id, and otherwise what it was |
| ProjectResults.MissingFollow | web/src/domains/session.ts:1451-1457 | kept sessions follow the listed ones, unchanged and in their old order |
| ProjectResults.ExistingIsFound | web/src/domains/session.ts:1378-1400 | a project continues the workspace with its id, or else the last one at its host and path |
| ProjectResults.PlaceKeyIsInjective | web/src/domains/session.ts:225-227 | for hosts without a colon the key of a place tells host and path apart, up to white space around them |
| ProjectResults.SyncedWorkspaceSays | web/src/domains/session.ts:1398-1475 | a project's workspace has the project's id, else the continued one's, else one made from host and path; its sessions are the listed and then the kept ones; its active thread stays if it is still there, else the first one takes over |
| ProjectResults.WorkspacesInOrder | web/src/domains/session.ts:1390-1489 | the usable projects' workspaces come first, in their order, then the kept unlisted ones in theirs |
| ProjectResults.SyncActivates | web/src/domains/session.ts:1502-1528 | the active workspace stays active if it is still there, else the first one at its host and path takes over, else the first of all |
| ProjectResults.EmptySync | web/src/domains/session.ts:1491-1500 | a sync that leaves no workspace keeps the tree if that is asked for, and else leaves the fallback alone |
| ProjectSync.DiscoveryMovesNothing | web/src/domains/session.ts:1480-1491 | discovery lists a known session under another project: it ends up in two workspaces |
| ProjectSync.DiscoveryCopiesAll | web/src/domains/session.ts:1480-1491 | discovery reports a known path under a new id and lists nothing: the workspace's sessions end up in two workspaces |
| ProjectSync.DefaultIsWellFormed | web/src/domains/session.ts:195-223 | the initial tree is well formed |
| ProjectSync.EveryRunIsWellFormed | web/src/domains/session.ts:589-835 | over any run whose syncs meet that condition, thread ids are globally unique, active ids point at existing threads, and the active workspace exists |
| TreeRuns.ThreadsAreAccountedFor | web/src/domains/session.ts:589-1358 | after any run without a sync the thread ids are exactly those the actions account for: created and forked ones come, removed ones go, a bind replaces one by another |
| TreeRuns.ActivatedIsActive | web/src/domains/session.ts:589-612 | whatever came before, activating a thread that is there makes it the active one |
| TreeRuns.SyncedIsShown | web/src/domains/session.ts:1364-1529 | whatever came before, a sync that leaves workspaces leaves exactly those computed from the tree so far |
| Shell.RenderRemoteCommand | server/internal/executor/ssh.go:423-434 | the rendered command |
| Shell.LexShellQuote | server/internal/executor/ssh.go:813-818 | a quoted argument is read as exactly its characters, all quoted |
| Shell.RenderRoundTrips | server/internal/executor/ssh.go:423-434 | for all strings, one shell parse gives exactly exec, program and arguments, after a cd to the working directory when there is one, with no unquoted user character |
| Shell.RenderIsInjective | server/internal/executor/ssh.go:423-434 | two commands with any working directories render alike only when program, arguments and directory are the same |
| Capture.LimitedBuffer.Write | server/internal/executor/ssh.go:831-851 | the buffer holds what is to be captured of everything written so far |
| Capture.CopyStream | server/internal/executor/ssh.go:397-421 | everything read before and with the first error is written, every non-empty chunk is shown, and only a broken read is an error |
| Capture.CaptureIsPrefix | server/internal/executor/ssh.go:820-863 | under any chunking: the first `max` bytes, the true total, and truncated exactly when a positive limit was exceeded |
| Retry.ResolveRetryCount | server/internal/api/server.go:3630-3642 | between 0 and 5, the nearest bound for a request outside, and a request in range is kept |
| Retry.ResolveBackoff | server/internal/api/server.go:3643-3652 | between 100 and 30000 milliseconds, the nearest bound for a request outside, 1000 by default |
| Retry.ExecuteWithRetry | server/internal/api/server.go:3655-3681 | the first success, the last permitted failure, or a cancellation after a failed attempt; at most retryCount + 1 attempts |
| Retry.ExecutePrepared | server/internal/api/server.go:3630-3681 | at most six attempts, and a success within them is returned unless the wait before it was cancelled |
| Retry.NormalizeBackoff | server/internal/codexrpc/bridge.go:183-191 | a positive minimum not above the maximum; what is given is kept, a missing one gets its default, and a maximum below the minimum is raised to it |
| Retry.ReconnectLoop | server/internal/codexrpc/bridge.go:737-765 | one wait per failed attempt before the first pass that connects or finds the bridge closed or connected, and whether it connected |
| Retry.BackoffIsExactExactlyBelow | server/internal/codexrpc/bridge.go:737-764 | the k-th wait is min * 2^k capped at the maximum, for all k, exactly when the maximum is below 2^62 nanoseconds |

## Left out

- HTTP routing, authentication, file uploads, rsync, SSH and PTY handling, the TUI, React rendering and the generated schema types: input and output, or declarations.
- JSON encoding and decoding, UTF-8 decoding and SHA-256 keys: abstract injective encodings.
- Hosts, projects, access keys, audit events and run records of the store: the same list operations as the modelled ones, without sequence numbers.
- Record time stamps (created, updated, connected at): they do not influence control flow in the modelled code.
- Project terminal sessions: their handler jumps its cursor and subscribes after the replay, so the stream's properties do not hold there.
- Job status across cancel and worker: unlocked read-modify-write, so finality does not hold under all interleavings.
- Progress of reconnecting, and "retry only on transport failure" in the bridge's call: not guaranteed by the code.
- Frames cut off at the end of a stream: both readers emit what there is of them (SseFields.CutBlockIsOneFrame), so the claims about the order and ids of frames are about whole ones.
- The second parse by a remote login shell in SSH mode: the model covers one shell parse.
- Stream.DeliveredExactlyOnce: assumes that publishes follow append order (Gaps has the exact condition without that, and without successful saves), that the session is not deleted (its numbers start again), that its saves succeed (an event whose save failed stays in the log in memory and is replayed to later connections, but it is never published, so a tailing client skips it) and that no batch is read while something above its cursor has been evicted (the evicted events are gone).
- Soak.SoakClient.ApplyFrame: the counts of event types and of terminal run events are not modelled, because nothing in the audit depends on them.
- SessionLog.Store.UpdateRetentionPolicy: the caps on run records, run jobs and audit events are not modelled, as these records are not.
- SyncRepair.AppendDirect: a failing save and the publish that follows the append are not modelled here; the store and the stream model them.
- SyncRepair.UpsertThread: the record's project, host and path are not modelled.
- Retry.ReconnectLoop: a loop that never ends has no result, so the contract is about loops that some pass ends.
- Hubs.Table: channels are values in a map and each handle is used under the table's lock, so aliasing of a channel outside the table is not captured.
- SyncRepair.SyncSession: every save succeeds and no other writer runs between its steps, because the handler's steps are not atomic and a failing save is only counted; the title that is derived from the preview is an input.
- ThreadTree.Bind: the thread settings that are not modelled (codex mode, review, sandbox, flags, image paths) follow the same three merge rules as the modelled ones; every action sees the current tree, so a stale render closure is not captured.
- ProjectSync.SyncProjects: workspace titles and host names are not modelled.
- Timeline.StreamFolds: whether an added entry is legacy noise is an input, because the test is a list of text patterns.
- Shell.Lex: text with an unquoted or double-quoted `$` or backquote has no tokens, because expansion is not modelled; rendered commands contain none.
- Capture.CopyStream: reading is modelled by the chunks read before the first error and that error.
- Bridges.Bridge: writing to and reading from the process, and the deadline of a call, are steps that may happen at any time; the text of error messages is not modelled.
