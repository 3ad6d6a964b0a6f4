# Verified model of the cronymax host and runtime protocols

This Dafny project models the parts of cronymax that hold state, interleave threads or transform data, and proves what
they keep. `dafny verify dfyconfig.toml` checks all of it.

| Dafny files | what they model |
|---|---|
| `RuntimeProxy`, `RestartProtocol`, `Supervisor` | request/reply correlation over the runtime child process, its crash and respawn |
| `ReturnPath`, `FrameProtocol` | the runtime's return path to the host: one connection slot and one queue, shared by sender, accept thread and close |
| `TextOrder`, `UuidV7` | the monotonic UUIDv7 generator (section 5.7 of RFC 9562), from its state to its printed text |
| `AppEvents`, `EventStore`, `EventBus`, `RebuildTrace`, `EventHistory`, `GeneratedHistory` | the per-space event bus, its paging, subscriptions, inbox, garbage collection, and the trace rebuild |
| `FileTree`, `LayoutMigrator`, `MigratorPaths`, `MigratorConservation`, `MigratorFixpoint`, `MigratorCompleteness`, `MigratorDirectories` | the storage-layout migrations V0/V1 to V4 |
| `BlockIds` | the Markdown pass that gives every top-level block an id |
| `QueryParsers`, `WebviewUrls` | the two query-string readers, and the writer of the URLs they read |
| `Sequences`, `Wrappers` | reversal, options and results |

Code that updates objects is modelled by classes whose methods are proved equal to step functions on values
(`Generator`, `Bus`, `Migrator`, `SharedPath`, `Correlator`, `RuntimeBridge`); loops of the source are loops here. The
main theorems are about those step functions, over every run and, for the two protocols, over every interleaving: a run
is any sequence of events, each event is one critical section or one blocking call outside the lock, and an event whose
thread is not at that point changes nothing.

Conventions. Strings are byte strings without embedded NULs. Integers are unbounded; where the source's width matters it
is written out (the 48-bit timestamp, the 12-bit counter and the 62 random bits of an id are remainders). Clock readings,
random bits, file-system listing order, results of sends, replies, spawns and handshakes are parameters or arbitrary. A
JSON text stands for the document it parses to: the library's dump and parse are taken to be inverse, so equality of
documents is equality of lines.

## Where the code and its documentation differ

The model follows the code. Each difference is stated as a lemma.

- `app/runtime/layout_migrator_test.cc:57-66` expects all three sentinels after one Run of a fresh directory. Stage V3
  moves `runtimes`, V2 sentinel included, and stage V4 moves `cronymax/runtimes`, V3 sentinel included, so one Run leaves
  only the V4 sentinel, and a V2 one only if a web view named runtimes brings it (`MigratorFixpoint.OneRunIsNotEnough`).
  One Run is enough exactly when the starting tree leaves the two stages nothing to carry off
  (`MigratorFixpoint.OneRunSuffices`). Three Runs are enough exactly when nothing stands in the way of a sentinel's
  directory (`MigratorFixpoint.SettlesInThreeRuns`). Both conditions are checked on the starting tree.
- `crony/src/boundary.rs:391-396` says that a failed flush returns the remaining frames to the front of the queue and that
  order is preserved. They are pushed to the front one at a time, so they come back reversed
  (`FrameProtocol.FlushOutcome`); the order survives exactly when the undelivered frames read the same backwards
  (`ReturnPath.OrderKept`), which for pairwise distinct frames means at most one (`ReturnPath.OrderKeptDistinct`).
- `crony/src/boundary.rs:378-379` has an accepted connection replace any prior stale one. It does so in the slot
  (`FrameProtocol.NewestIsCached`), but a send that took the older connection before can put it back while a flush holds
  the newer one, and the newer one is then dropped (`FrameProtocol.OlderCanStay`): an ending flush keeps its connection
  exactly when it finds the slot empty (`FrameProtocol.ComesBack`).
- `app/browser/webview_scheme.cc:31-35` asks for the two query readers to be kept in sync. They disagree on a URL with a
  bare key before a non-empty value of it (`QueryParsers.ReadersDisagree`), and exactly on such URLs
  (`QueryParsers.ReadersAgree`).
- `crates/cronymax/src/extensions/api/webview.rs:220-243` escapes seven characters but not `%`, so an id that itself spells
  an escape does not come back (`WebviewUrls.IdLost`); when the entry holds no question mark, exactly such ids do not. The
  comment at lines 198-205 has both keys read from the query: when the entry brings a query of its own, the written surface
  never is. `WebviewUrls.IdSurvives` says for every URL when surface and id come back.
- `app/runtime/crony_bridge.cc:856-867` allows five consecutive failed respawns. On POSIX a failed respawn leaves no child
  to wait for, so the first one is final and the give-up branch is never reached (`Supervisor.PosixBound`,
  `Supervisor.PosixFailureIsFinal`).

## Model

| member | source | states |
|---|---|---|
| RestartProtocol.ExactlyOnce | app/runtime/crony_proxy.cc:109-147 | over every interleaving of send failure, reply, duplicate reply, restart drain and detach, a callback fires at most once, and has fired once exactly when its entry is gone and no thread is about to complete it |
| RestartProtocol.WaiterSignalledOnce | app/runtime/crony_proxy.cc:153-198 | a blocked caller's done flag is set at most once, also after its timeout left the entry behind, and not by its own failed send; it returns true only for a reply without error |
| RestartProtocol.NoRequestOutlivesItsConnection | app/runtime/crony_bridge.cc:827-854 | outside the window between closing the client and the drain, every pending request was registered after the last drain and is unsent or on the open, handshaken connection in use |
| RestartProtocol.RestartCompletes | app/runtime/crony_proxy.cc:321-350 | whatever it holds, a request pending when the client is closed is out of the map once the drain has begun, on every schedule, and its callback fires or its waiter is signalled exactly once, unless the waiter's own failed send took it back first |
| RestartProtocol.RestartUninterrupted | app/runtime/crony_bridge.cc:821-877 | a restart nothing interrupts, from any watching state, with a Welcome: every pending request is told runtime_restarted in any order, and the bridge is ready on the newly opened connection, its pump running and its counter at zero |
| RestartProtocol.RestartFails | app/runtime/crony_bridge.cc:869-877 | the same without a Welcome: they are told, the status is failed, there is no client, and the opened connection is closed |
| RestartProtocol.RestartGivesUp | app/runtime/crony_bridge.cc:849-867 | at the sixth attempt in a row: they are still told, then the supervisor gives up |
| RestartProtocol.AnsweredAfterRestart | app/runtime/crony_bridge.cc:427-435 | after a restart in any run, a request that is sent goes out on the new connection, and its reply completes its callback and nothing else does |
| RestartProtocol.NobodyListens | app/runtime/crony_proxy.cc:34-39 | an ended pump and an unsubscribed proxy take no reply, and without a subscription there is no drain |
| RestartProtocol.DetachUninterrupted | app/runtime/crony_proxy.cc:34-63 | a detach tells every pending request detached once, empties the map and takes no further send |
| RestartProtocol.DetachedIsQuiet | app/runtime/crony_proxy.cc:34-63 | after a detach in any run, whatever happens, nobody is told anything more but a sender that was about to report its own failure |
| RestartProtocol.SentOnlyAfterWelcome | app/runtime/crony_bridge.cc:470-495 | requests are only ever sent on a connection whose Hello/Welcome completed |
| RestartProtocol.RunKeepsInv | app/runtime/crony_bridge.cc:791-888 | every reachable state keeps the account of who owes each request its completion, the client's state and each request's connection |
| RuntimeProxy.Correlator.SendControl | app/runtime/crony_proxy.cc:109-147 | register, send, and on failure complete the entry with send_failed unless a reply took it first |
| RuntimeProxy.Correlator.SendControlSync | app/runtime/crony_proxy.cc:153-198 | true exactly for a reply without error in time; a failed send leaves the map as it was, a timeout leaves the entry in it |
| RuntimeProxy.Correlator.HandleControlReply | app/runtime/crony_proxy.cc:273-309 | takes the entry out and completes it once; an unknown id changes nothing |
| RuntimeProxy.Correlator.HandleBridgeRestarting | app/runtime/crony_proxy.cc:321-350 | empties the map and completes every entry with runtime_restarted, in any iteration order |
| RuntimeProxy.Correlator.Detach | app/runtime/crony_proxy.cc:34-63 | empties the map and completes every entry with detached |
| RestartProtocol.DrainUninterrupted | app/runtime/crony_proxy.cc:321-345 | the steps of a drain, in any order of the entries, add up to what HandleBridgeRestarting states |
| RestartProtocol.SendUninterrupted | app/runtime/crony_proxy.cc:109-147 | the steps of an async send, with or without its reply before Invoke returns, add up to what SendControl states |
| RestartProtocol.SyncUninterrupted | app/runtime/crony_proxy.cc:153-198 | the steps of a blocking send, answered or timed out, add up to what SendControlSync states |
| RestartProtocol.ReplyUninterrupted | app/runtime/crony_proxy.cc:273-309 | the two steps of a reply add up to what HandleControlReply states |
| RuntimeProxy.FireAllAt | app/runtime/crony_proxy.cc:335-345 | a drain tells each entry that has someone to tell exactly once, and nobody else |
| Supervisor.RuntimeBridge.SupervisorLoop | app/runtime/crony_bridge.cc:791-888 | the loop, for every sequence of exits, spawn and handshake outcomes and stops, on both platforms |
| Supervisor.PosixBound | app/runtime/crony_bridge.cc:808-877 | POSIX: at most one consecutive failed respawn, the counter never passes 1, and the loop ends only on a stop |
| Supervisor.PosixFailureIsFinal | app/runtime/crony_bridge.cc:565-585 | POSIX: after a failed respawn the status stays failed and nothing is respawned, whatever happens |
| Supervisor.WindowsBound | app/runtime/crony_bridge.cc:794-877 | Windows: at most five consecutive failures; the next round gives up exactly when there have been five |
| Supervisor.WindowsFailedForever | app/runtime/crony_bridge.cc:856-867 | a loop that gave up stays failed |
| Supervisor.WindowsCounts | app/runtime/crony_bridge.cc:869-877 | after a crash, n failing rounds up to the limit leave n failures, n attempts and n respawns, status failed, and the loop still running: the bound is reached |
| Supervisor.WindowsRecovers | app/runtime/crony_bridge.cc:869-877 | Windows: a handshake before the limit makes the bridge what it was after its start |
| Supervisor.PosixRecovers | app/runtime/crony_bridge.cc:808-877 | POSIX, no stop: while every crash is followed by a handshake the bridge is ready and has respawned once for each exit |
| Supervisor.PosixFails | app/runtime/crony_bridge.cc:808-877 | POSIX, no stop: the final state once a crash was not followed by a handshake, with one respawn for each exit up to that one and none after it |
| Supervisor.PosixFailsExactly | app/runtime/crony_bridge.cc:808-877 | POSIX, no stop: the bridge is failed exactly when some crash was not followed by a handshake, and ready otherwise |
| Supervisor.SpawnsAtExits | app/runtime/crony_bridge.cc:794-877 | both platforms: a respawn happens exactly when the child is found gone, or on Windows missing, with attempts left; a round that finds the child alive changes nothing |
| Supervisor.StopEnds | app/runtime/crony_bridge.cc:792-833 | what a stop leaves, seen before the poll, after the exit, or before the respawn |
| FrameProtocol.FramesAreConserved | crony/src/boundary.rs:247-301 | while open, the frames send acknowledged are exactly those delivered, queued or in a running flush; at any time none is duplicated |
| FrameProtocol.FlushOutcome | crony/src/boundary.rs:393-446 | a finished flush delivered the frames before the first failed reply in order; the rest stand reversed before what was queued meanwhile |
| FrameProtocol.ClosedForever | crony/src/boundary.rs:150-172 | once closed, the slot and the queue stay empty, whatever happens next |
| FrameProtocol.NothingDroppedByFlush | crony/src/boundary.rs:423-437 | frames are serialized before they are queued, so the flush's drop branch is never taken |
| FrameProtocol.RunKeepsInv | crony/src/boundary.rs:314-446 | every interleaving keeps conservation, flush order, and each connection in at most one place |
| FrameProtocol.SendUninterrupted | crony/src/boundary.rs:247-301 | the five steps of a send with nothing between them have the effect that SharedPath.Send states |
| FrameProtocol.FlushUninterrupted | crony/src/boundary.rs:393-446 | the steps of a flush under given replies, with given frames queued before each turn, add up to what SharedPath.FlushPending states for a slot left empty |
| FrameProtocol.NewestIsCached | crony/src/boundary.rs:378-386 | on an open path an accepted connection replaces whatever the slot holds, and no frame moves |
| FrameProtocol.NewestIsUsed | crony/src/boundary.rs:263-301 | a send that follows goes out on it, and it is back in the slot exactly when the reply succeeded |
| FrameProtocol.ComesBack | crony/src/boundary.rs:287-301 | a returning send and an ending flush leave a connection they find in the slot, fill an empty slot with their own after a good reply, and leave it empty after a failed one |
| FrameProtocol.OlderCanStay | crony/src/boundary.rs:440-446 | a run after which the slot holds an older connection than the last one accepted |
| FrameProtocol.AcceptsOne | crony/src/boundary.rs:342-366 | one turn of the accept thread: cached, then the queue drained onto the new connection; of a malformed message only the connection is kept |
| FrameProtocol.AcceptEnds | crony/src/boundary.rs:324-372 | the accept thread ends exactly at a raised shutdown, a failing listener or a missing receiver, and stays ended |
| FrameProtocol.CloseUninterrupted | crony/src/boundary.rs:150-157 | a close waits for a send in progress, then empties slot and queue, and no send starts after it |
| ReturnPath.SharedPath.FlushPending | crony/src/boundary.rs:393-446 | the flush loop under any interference by the sender: prefix delivered, suffix requeued in reverse, connection re-cached only if every reply succeeded and the slot is free |
| ReturnPath.SharedPath.Send | crony/src/boundary.rs:247-301 | result, delivery, queueing and re-caching of one send |
| ReturnPath.SharedPath.CacheConnection | crony/src/boundary.rs:380-386 | the accepted connection replaces whatever is in the slot unless the path is closed; the queue is left alone |
| ReturnPath.SharedPath.Close | crony/src/boundary.rs:150-157 | slot and queue are emptied for good |
| ReturnPath.OrderKept | crony/src/boundary.rs:414-422 | the queue order survives a flush exactly when the undelivered frames read the same backwards |
| ReturnPath.OrderKeptDistinct | crony/src/boundary.rs:414-422 | with distinct frames: exactly when at most one is left |
| UuidV7.Generator.MakeUuidV7 | app/common/uuid_v7.cc:66-86 | with S = 4096 * last_ms + counter each call makes S the larger of S + 1 and 4096 * now, keeps the counter below 4096, and prints S |
| UuidV7.RunIsOrdered | app/common/uuid_v7.cc:66-86 | for every sequence of clock readings and random tails, the texts strictly increase while the stamped time fits 48 bits |
| UuidV7.IdOrder | app/common/uuid_v7.cc:35-56 | the exact condition, for any two states and tails, for the texts to compare as they do |
| UuidV7.OrderBreaksAt48Bits | app/common/uuid_v7.cc:42-44 | one millisecond past 48 bits the next id sorts first |
| UuidV7.DriftBound | app/common/uuid_v7.cc:66-86 | after n calls the stamped time is at most n / 4096 ms ahead of the largest clock reading |
| UuidV7.PrintOrder | app/common/uuid_v7.cc:48-55 | text order of the printed form is the order of the 128-bit values |
| UuidV7.Layout | app/common/uuid_v7.cc:35-56 | 36 characters, lower-case hex and dashes, version 7, variant 10 |
| UuidV7.ReadsBack | app/common/uuid_v7.cc:35-56 | read as hexadecimal numbers, the parts of the text are the time modulo 2^48, version 7 with the counter, and variant 10 with the 62 random bits |
| UuidV7.StampReadsBack | app/common/uuid_v7.cc:66-86 | so the text of a state spells its millisecond and its counter |
| AppEvents.KindCodec | app/event_bus/app_event.cc:7-75 | the kind tags are a bijection |
| AppEvents.Emitted | app/event_bus/app_event.cc:77-95 | what the written document says about every field, that optional ones are absent exactly when empty, and that there is no other |
| AppEvents.RoundTrip | app/event_bus/app_event.cc:97-144 | parsing a written event gives it back except for the session id, which stays the caller's, and a payload that is not an object |
| AppEvents.SameLine | app/event_bus/app_event.cc:77-95 | two events are written as the same line exactly when they agree on all the line carries |
| AppEvents.Refused | app/event_bus/app_event.cc:97-129 | a document is refused exactly when it does not parse, is no object, lacks a text id, a number ts_ms or a text kind, or its kind is no tag, each with its own error |
| AppEvents.ReadAs | app/event_bus/app_event.cc:130-144 | what each field of an accepted document is read as: missing or ill-typed texts are empty, such payloads the empty object |
| AppEvents.KindTags | app/event_bus/app_event.cc:7-75 | the ten tags and their kinds |
| EventStore.StoredForm | app/event_bus/event_bus.cc:237-249 | an inserted and selected event is the event without its session id |
| EventStore.InsertKeepsKeys | app/event_bus/event_bus.cc:161-179 | an insert keeps the rows in key order, adds at most its own id, and adds it whenever the row has a space |
| EventStore.InsertContents | app/event_bus/event_bus.cc:161-179 | after an insert the table holds the old rows, and the new one unless its id is taken or it has no space |
| EventStore.BelowIsPrefix | app/event_bus/event_bus.cc:212-221 | selecting below the id of a matching row selects exactly the matching rows before it |
| EventBus.InboxStateCodec | app/event_bus/event_bus.cc:52-78 | the inbox states and their texts unread, read and snoozed are a bijection |
| EventBus.ScopesAgree | app/event_bus/event_bus.cc:87-93 | the live filter and the SQL filter select the same events |
| EventBus.PageIsNext | app/event_bus/event_bus.cc:206-256 | the page after a cursor holds the next matches below it, a full page or all that are left |
| EventBus.Bus.Append | app/event_bus/event_bus.cc:148-204 | the whole new state: row, inbox, trace line, and one call of every matching callback |
| EventBus.Bus.List | app/event_bus/event_bus.cc:206-256 | the selected events, at most the limit brought into 1 to 1000, and a cursor exactly when the page is full |
| EventBus.Bus.PageNewest | app/event_bus/event_bus.cc:262-282 | the paging loop collects the newest min(n, 11000) of the n matches, newest first |
| EventBus.Bus.Subscribe | app/event_bus/event_bus.cc:258-290 | replays those oldest first, then attaches |
| EventBus.Bus.Unsubscribe | app/event_bus/event_bus.cc:292-300 | removes the first subscription with the token and nothing else |
| EventBus.Bus.SetInboxState | app/event_bus/event_bus.cc:355-379 | stores state and snooze in the row if there is one, says whether there was, and leaves every other row |
| EventBus.Bus.GarbageCollect | app/event_bus/event_bus.cc:381-409 | expire, delete, cascade; returns how many fewer events there are |
| RebuildTrace.WalkPages | tools/rebuild_trace.cc:44-57 | following the cursor ends for every limit and collects exactly the matches |
| RebuildTrace.WalkIsExact | tools/rebuild_trace.cc:44-58 | those are the matching rows, each once, in strictly descending id order |
| RebuildTrace.Rebuild | tools/rebuild_trace.cc:44-78 | the rebuilt lines are the run's stored events, oldest id first |
| EventHistory.RunKeepsValid | app/runtime/space_store.cc:114-134 | every reachable bus keeps keys in order, inbox ids within event ids, and tokens unique |
| EventHistory.InboxIsExact | app/event_bus/event_bus.cc:181-194 | without collection the inbox lists exactly the stored events that need action |
| EventHistory.AppendTriages | app/event_bus/event_bus.cc:95-128 | which stored events get an inbox row, by kind and payload: a human review asking for changes, a text mentioning "me", an error not scoped to a tool, a run paused for human approval; the row is unread without a snooze, with the flow and the kind's tag, and a row that exists is left alone |
| EventHistory.UnstoredIsNotTriaged | app/event_bus/event_bus.cc:181-194 | an event the store refuses gets none |
| EventHistory.WrittenLines | app/event_bus/event_bus.cc:130-146 | an append adds one line to the trace of its own flow and run and to no other, and none without a flow or a run |
| EventHistory.UnsubscribedHearsNothing | app/event_bus/event_bus.cc:292-300 | a cancelled subscription receives nothing more for the rest of the process |
| EventHistory.CollectIsExact | app/event_bus/event_bus.cc:381-409 | a collection deletes exactly the old events whose inbox row is absent or read before expiry; unread and snoozed events stay |
| EventHistory.CollectedRows | app/event_bus/event_bus.cc:386-409 | the inbox after a collection: snoozes that are over are unread, other rows are as they were, and exactly those of deleted events are gone; subscriptions and traces are untouched |
| EventHistory.CollectTwice | app/event_bus/event_bus.cc:381-409 | at a fixed clock, collecting at a then b is collecting at max(a, b), counts included |
| EventHistory.ReplayThenLive | app/event_bus/event_bus.cc:258-290 | whatever happens after it in the process, a subscriber has received the newest 11000 stored matches in id order, then every matching append once, in append order |
| EventHistory.ReceivedAscends | app/event_bus/event_bus.cc:199-202 | with serial appends the received ids strictly ascend, across the switch from replay to live |
| EventHistory.RebuildAgrees | tools/rebuild_trace.cc:44-77 | the rebuilt trace is the live one with session ids erased exactly when the run's events were appended in id order |
| EventHistory.RebuildIdentical | tools/rebuild_trace.cc:44-77 | the two files are identical exactly when, besides, no event of the run has a session id |
| EventHistory.ErasedLine | app/event_bus/app_event.cc:91-92 | erasing the session id from a written line gives the line of the stored event |
| GeneratedHistory.NamedAscends | app/event_bus/event_bus.cc:148-154 | in a serial history the generated ids ascend in call order, however the clock jumps, whoever else draws ids, and over any number of processes that resume above the stored ids |
| GeneratedHistory.OneProcessResumes | app/common/uuid_v7.cc:23-33 | within one process the ids always resume above the stored ones |
| GeneratedHistory.FirstIdResumes | app/common/uuid_v7.cc:66-86 | the first id of a new process exceeds a stored one, whatever the random bits are, exactly when the clock has passed the millisecond that one was stamped with |
| GeneratedHistory.ReopenResumes | app/common/uuid_v7.cc:23-33 | a process that begins with an append resumes exactly when its clock has passed the last stamped millisecond |
| GeneratedHistory.StampBound | app/common/uuid_v7.cc:66-86 | the stamps outrun the latest clock reading by at most one tick a draw |
| GeneratedHistory.GeneratedSubscription | app/event_bus/event_bus.cc:258-290 | with generated ids a subscriber receives replay then live, strictly ascending, without gap or repeat, until it unsubscribes or its process ends |
| GeneratedHistory.GeneratedRebuild | tools/rebuild_trace.cc:44-77 | with generated ids and no collection the rebuilt trace equals the live one with session ids erased, over any number of processes |
| LayoutMigrator.Migrator.Migrate | app/runtime/layout_migrator.cc:158-306 | the three stages as loops over what the directories list, equal to the staged function on trees |
| LayoutMigrator.Migrator.MoveProfile | app/runtime/layout_migrator.cc:127-156 | the three guarded moves of one profile |
| LayoutMigrator.Migrator.RunV2 | app/runtime/layout_migrator.cc:160-217 | only the first candidate that holds an old layout is migrated |
| LayoutMigrator.Migrator.WriteDone | app/runtime/layout_migrator.cc:62-125 | writes the sentinel exactly when its directory can be made and no directory has its name |
| FileTree.MovedAt | app/runtime/layout_migrator.cc:15-35 | what is at every path after a move |
| MigratorConservation.RunsConserve | app/runtime/layout_migrator.cc:158-306 | from every tree, after any number of Runs, every file that is not a sentinel lies with its content at a place of its own, no other such files have appeared, and so each content is held by as many files as before |
| MigratorConservation.MoveConserves | app/runtime/layout_migrator.cc:15-35 | a move puts every such file at a place of its own, with its content, and brings no other |
| MigratorFixpoint.SettlesInThreeRuns | app/runtime/layout_migrator.cc:216-303 | after three or more Runs all sentinels are there, and Run is the identity, exactly when the starting tree leaves room for them |
| MigratorFixpoint.DoneIsFixed | app/runtime/layout_migrator.cc:42-60 | with all three sentinels a Run changes nothing |
| MigratorFixpoint.OneRunSuffices | app/runtime/layout_migrator.cc:158-306 | one Run brings all three sentinels exactly when there is room for each and neither V3 nor V4 has anything to carry off (or a web view brings the V2 sentinel back) |
| MigratorFixpoint.OneRunIsNotEnough | app/runtime/layout_migrator.cc:219-257 | from any tree without cronymax one Run leaves the V4 sentinel, no V3 sentinel, and a V2 sentinel exactly when a web view named runtimes carries one |
| MigratorFixpoint.FirstRun | app/runtime/layout_migrator.cc:158-306 | the first Run decides between on course and stuck for good |
| MigratorFixpoint.RunPastV4 | app/runtime/layout_migrator.cc:160-240 | with the V4 sentinel there, each Run brings the next sentinel and stays on course |
| MigratorCompleteness.RunCompletes | app/runtime/layout_migrator.cc:158-306 | from any V1 or V0 tree, in either candidate directory, one Run brings every profile's snapshot and workspaces to Profiles and its memory to Memories, each as it was, item by item; of a memory or workspaces that is a file nothing comes |
| MigratorCompleteness.RunCompletesV1 | app/runtime/layout_migrator.cc:174-195 | that for every profile under profiles in runtime, or in runtime/runtime when runtime has no layout |
| MigratorCompleteness.RunCompletesV0 | app/runtime/layout_migrator.cc:197-208 | that for the flat layout in either directory, as the profile default |
| MigratorCompleteness.RunCompletesV2 | app/runtime/layout_migrator.cc:219-283 | from a V2 tree every entry of a profile but its memory arrives in Profiles, and a memory directory in Memories, each as it was |
| MigratorCompleteness.RunCompletesV3 | app/runtime/layout_migrator.cc:242-283 | the same from a V3 tree; the directory of the sentinels keeps all its entries |
| MigratorCompleteness.PlacedStays | app/runtime/layout_migrator.cc:174-208 | a profile whose snapshot is in place already is left alone, on both sides |
| MigratorDirectories.LooseDirectory | app/runtime/layout_migrator.cc:219-238 | logs and cache end under cronymax as they were, unless cronymax has one of that name: then both stay |
| MigratorDirectories.WebviewEnds | app/runtime/layout_migrator.cc:283-301 | where each web view ends: at the top as it was when nothing stands there under its name by then, which the starting tree shows, and under cronymax/webviews otherwise |
| MigratorDirectories.SentinelNames | app/runtime/layout_migrator.cc:42-60 | the three sentinels by their paths |
| MigratorCompleteness.ProfileBrought | app/runtime/layout_migrator.cc:127-156 | migrating one profile brings its three items over, each by the rule above |
| BlockIds.PassIsIdempotent | tools/assign_block_ids.cc:88-112 | for every document a second pass changes nothing, deleting the inserted lines restores the original, there is one per opener, and the document changed exactly when there is an opener |
| BlockIds.AssignMissingBlockIds | tools/assign_block_ids.cc:88-112 | the loop: one marker above each opener, changed exactly when one was written, ids from increasing generator states |
| BlockIds.JoinAfterSplit | tools/assign_block_ids.cc:58-80 | joining the split lines gives the text back |
| BlockIds.SplitAfterJoin | tools/assign_block_ids.cc:58-80 | splitting a join of lines finds them again |
| BlockIds.SplitLines | tools/assign_block_ids.cc:58-71 | the one-pass loop yields the split that JoinAfterSplit and SplitAfterJoin show to be the inverse of joining |
| BlockIds.JoinLines | tools/assign_block_ids.cc:73-80 | the loop yields the join of which splitting is the inverse |
| BlockIds.GeneratedIsMarker | tools/assign_block_ids.cc:38-47 | the line written for any generated id matches the marker pattern, is not blank and is one line |
| BlockIds.BlankIsNoMarker | tools/assign_block_ids.cc:49-54 | no line is both blank and a marker |
| BlockIds.MarkersAboveBlocks | tools/assign_block_ids.cc:82-112 | in the new document every line that begins a block is a marker, and every inserted line is the marker of one of the new ids, directly above an old line that begins a block and is no marker |
| BlockIds.MarkerForm | tools/assign_block_ids.cc:38-47 | a line is a marker exactly when it can be written out as blanks, the comment with block: and an id of eight or more hex digits or dashes in either case, and white space |
| BlockIds.BlankLines | tools/assign_block_ids.cc:49-54 | exactly the lines of spaces, tabs and carriage returns are blank |
| QueryParsers.ReadersAgree | app/renderer/app.cc:778-816 | the two readers return the same value for a key exactly when no bare key hides a later non-empty one |
| QueryParsers.NoBareKeyAgrees | app/browser/webview_scheme.cc:64-87 | they agree on every query without a bare key |
| QueryParsers.ReadersDisagree | app/renderer/app.cc:793-796 | a URL on which they do not |
| QueryParsers.SegmentsJoin | app/renderer/app.cc:785-804 | joining the segments with & gives the query back, but for an & at its very end, and no segment holds an & |
| QueryParsers.LookupQueryValue | app/browser/webview_scheme.cc:64-87 | the one-pass loop returns the first assigned value, decoded |
| QueryParsers.ParseQuery | app/renderer/app.cc:778-806 | the parsing loop returns the non-empty pairs in order |
| QueryParsers.LookupQuery | app/renderer/app.cc:808-816 | the first pair with the key |
| QueryParsers.PercentDecode | app/browser/webview_scheme.cc:37-62 | the loop yields the left-to-right decoding: each well-formed escape becomes its byte, every other character stays |
| WebviewUrls.ReadingBack | app/browser/webview_scheme.cc:37-62 | decoding what the writer escaped gives the text back when it spells no escape, and something strictly shorter when it does |
| WebviewUrls.BothReadBack | crates/cronymax/src/extensions/api/webview.rs:220-243 | both readers take back the decoded form of the surface and the id that were escaped |
| WebviewUrls.IdSurvives | crates/cronymax/src/extensions/api/webview.rs:220-243 | for every URL, exactly when each reader gets surface and id back unchanged: they spell no escape when the entry holds no question mark; otherwise as SurfaceFromEntry and IdFromEntry say |
| WebviewUrls.PlainSurvives | crates/cronymax/src/extensions/api/webview.rs:220-243 | when the entry holds no question mark, surface and id come back unchanged exactly when they spell no escape of their own |
| WebviewUrls.TwoSegments | crates/cronymax/src/extensions/api/webview.rs:238-242 | when nothing before it holds a question mark the query has exactly the two written pairs, whatever the surface and id hold |
| WebviewUrls.Escape | crates/cronymax/src/extensions/api/webview.rs:226-237 | the loop yields the escaped text that ReadingBack decodes |
| WebviewUrls.EscapedIsClean | crates/cronymax/src/extensions/api/webview.rs:226-237 | an escaped text holds none of the seven characters, and a text without them is unchanged |
| WebviewUrls.EscapedDigits | crates/cronymax/src/extensions/api/webview.rs:226-237 | each of the seven characters is written as % and the two upper-case hex digits of its code, any other character as it is |
| WebviewUrls.WrittenPage | crates/cronymax/src/extensions/api/webview.rs:220-243 | what stands before the written query: scheme, extension and the entry, with its leading ./ pairs and the slashes behind them taken off and nothing else |
| WebviewUrls.ByteReads | app/browser/webview_scheme.cc:37-62 | every byte written as % and two hex digits in either case reads as that byte |
| WebviewUrls.ElseReads | app/browser/webview_scheme.cc:37-62 | every other character, and a % without two hex digits behind it, reads as it stands |
| WebviewUrls.EntryQueryReads | crates/cronymax/src/extensions/api/webview.rs:220-243 | what both readers return for surface and id on every URL whose entry holds a question mark: the entry's own assignment before any hash first, else its last value with the written surface glued on, else the written id or nothing |
| WebviewUrls.SurfaceFromEntry | crates/cronymax/src/extensions/api/webview.rs:220-243 | on such a URL the surface comes back exactly when the entry's own query gives it, or it was empty and nothing gives one |
| WebviewUrls.IdFromEntry | crates/cronymax/src/extensions/api/webview.rs:220-243 | on such a URL the id comes back exactly when the entry's own query gives it, or gives none and what stands behind it does: nothing after a hash, the entry's last value with the surface glued on, or an id free of escapes |
| WebviewUrls.EscapedDecodes | app/browser/webview_scheme.cc:37-62 | decoding an escaped text is decoding the text itself |
| WebviewUrls.IdLost | crates/cronymax/src/extensions/api/webview.rs:229-235 | an id that does not come back |

## Left out

- CEF views, tabs, toolbars, popovers, themes and V8 handlers: user interface without a deep invariant.
- SQLite, the JSON library, GIPS, fork/exec, waitpid and timers: specified functions or arbitrary outcomes. The bus always
  has an open store and a space root; an insert that violates a constraint changes nothing, as in the code, while the trace
  line and the dispatch still happen.
- One event bus per store: `List` does not filter by space. Events that reach the store with ids of another making are in
  `EventHistory`, not in `GeneratedHistory`.
- `ListInbox` and the notification preferences: single queries that would only add easy members.
- `MakeUuidV7At`, the overflow of 64-bit timestamps, and the random source.
- JSON numbers are integers; duplicate keys do not occur.
- RuntimeProxy.Correlator.SendControl: correlation ids are taken to be fresh, as random ids are meant to be.
- RestartProtocol.NoRequestOutlivesItsConnection: while the proxy listens. `Stop` followed by `Start` does not drain the map
  and is outside this model, and so is a send that passed the attachment check before a concurrent `Detach` cleared it.
- RestartProtocol.RestartCompletes: says that the drain completes what was waiting, not that a schedule reaches it.
- Event and capability fan-out of the proxy, and replies whose response is not an object.
- Supervisor.RuntimeBridge.SupervisorLoop: a round abstracts polling, sleeping and process handles; a status of stopped is
  only written after the loop has been joined and is not modelled.
- FrameProtocol.ClosedForever: close falls between sends, since it runs when the transport is dropped and send borrows the
  transport exclusively.
- FrameProtocol.FramesAreConserved: a reply that returns an error counts as not delivered; a send that is cancelled in the
  middle of its reply is not modelled. Nothing is claimed about order across flushes.
- LayoutMigrator.Migrator.Migrate: moves and writes either happen or do nothing; partial failures, links, permissions and
  case-insensitive names are not modelled. Every move of the migrator has a free destination, so overwriting copies do not
  occur; a move whose destination's parent is not a directory changes nothing.
- MigratorCompleteness.RunCompletes: a profile named `migrations` is left out; stage V4 takes its directory for that of
  the sentinels and leaves its memory where it is.
- Listing, reading and writing of files around the block-id pass and the trace rebuild, and their command lines.
- `NormalizeLogical`, content types and response reading of the webview scheme.
