# A verified model of Leti's stateful core

Leti is an agent runtime in Rust with a TypeScript terminal client. This project models the parts of it
whose correctness is a matter of whole runs rather than of one function, and proves what they promise:

- **Streaming** (`Utf8`, `SseParser`, `SsePrinter`, `SseDecoder`): provider bytes, cut anywhere, become
  frames and then deltas.
- **The client store** (`Store`, `EventPump`, `StoreHistory`, `StoreLog`): per-token deltas are merged, flushed
  on a timer and reduced into messages and parts.
- **Durable events** (`EventBus`, `ResumeClient`, `ResumeExact`, `SseClient`): ids, rows and broadcasts under failures and
  restarts, and a client that resumes with Last-Event-ID (section 9.2.4 of the WHATWG HTML standard).
- **Turns** (`TurnSlot`): one driver per session, a queue behind it, cancellation.
- **Transcripts** (`Transcript`, `Escaping`, `EscapingRead`, `UserProjection`, `Projection`, `ProjectionGrowth`,
  `ProjectedText`, `ToolFolding`, `MessageHydration`, `HydratedView`): what the model is shown of the log, and how
  the server's log is merged into the client's view.
- **Smaller protocols** (`NotifBucket`, `NotifRace`, `NotifWindow`, `HookChains`, `PluginInstall`,
  `PluginRegistry`, `PermissionRules`, `PermissionManager`, `PermissionOutcomes`, `DetachedPermission`,
  `HydrationController`, `MentionParser`).

`dafny verify dfyconfig.toml` checks everything. Code that works by assignment is modelled by classes and
methods with loops, each proved equal to a function on values; the theorems are about those functions and,
for protocols, about every run of their steps. Interleavings are interleavings of the source's atomic
sections: one operation on a shared map, a lock's critical section, one atomic access, and in the
single-threaded client the code between two `await`s.

## What turned out not to hold

- *Exactly once across reconnects.* Two things stand against it.
  - A client that has been given nothing yet has no cursor, so a reconnect asks for no replay: an event
    broadcast while it was streaming, and lost with its connection, stays lost (`FirstEventIsLost`). A client's
    history begins with the last connection it opened without a cursor. `HasAllFromAnchor` says that in every
    run a caught-up client has exactly the wanted broadcasts since that connection.
  - The event route subscribes, then replays rows above the cursor. If the client's own cursor row is committed
    but not yet broadcast when it connects, and nothing else is committed before the replay, the replay is
    empty, there is no high-water mark, and the late broadcast is delivered again (`RaceIsReachable`,
    `RaceDuplicates`). `AtMostOnceIff` gives the exact condition over every run, race or not: no id is delivered
    twice if and only if the route never forwards, after an empty replay, a live frame with the id the
    connection asked from. A run that opens no connection in that window never does (`RaceFreeNeverRepeats`).
    Under that condition `ExactlyOnce` gives each wanted broadcast since the beginning of the client's history
    exactly once, and every earlier one not at all.
- *First come, first started.* A guard dropped with turns queued behind its slot strands them
  (`crates/leti-server/src/turn_slot.rs:41-47`), and a turn submitted to the vacant slot then overtakes them
  (`OvertakingIsReachable`). With distinct turns the order holds throughout a run exactly when no turn is
  submitted to a vacant slot while others wait (`InOrderIffNoneOvertaken`); order together with "a vacant slot
  has an empty queue" holds exactly when nothing is stranded (`FifoIffNoneStranded`).
- *A refused `accept_ask` changes nothing.* The action `Ask` is rejected only after the rule was pushed
  (`crates/leti-adapters/src/config_perm/manager.rs:308-321`). `FailedAcceptChangesNothing` gives the exact
  condition.
- *A detached check leaves open asks alone.* If plugin hooks answer with an ask that is already open, the
  wrapper cancels it. `DetachedNeverWaits` gives the exact condition.
- *The notification rate.* Overlapping calls can break it (`StaleRefillDoublesTheBurst`). What breaks it is a
  refill that another thread steps into: `RateIsKept` shows the bound for the calls begun and granted in any
  window of any run in which whoever finds a refill due runs on to its store, however calls overlap otherwise,
  and `WindowKeepsRate` for all grants of any window, counting the time from where the calls under way when it
  opens began (`QuietWindowKeepsRate` when there are none). Such calls do add to a window: one that read the
  clock earlier can bring its refill into it (`StaleReadingAddsOne`), and one that looked at the bucket earlier
  can take a token in it.
- *Merging deltas by key.* The key joins message, part and kind with colons, so two parts can share one
  (`ColonsCollide`). `CollisionIsSafeIffSameTarget` shows when a collision is harmless, and
  `PlainIdsAreCompatible` that message ids without colons and with one session each cause none.
- *Stable projection prefixes.* The module comment of `projection.rs` (lines 3-5) says that appending a part
  never invalidates an earlier projection's prefix. `AppendedPartRewrites` and `CompactionRewrites` refute it.
  `PlainPartExtendsIff` says exactly when an appended part that is no compaction leaves the prefix,
  `AppendedPartExtendsIff` extends this to compaction parts that take no logged message over. The others have a
  first effect (`FirstEffect`) that decides what can be left (`TakingOverRewrites`, `OwnTextRewrites`), and always
  rewrite the prefix when what they take over projected to two messages or more (`TakingTwoRewrites`).
  `AppendExtends`, `PlainMessageExtends` and
  `AppendKeepsOwnersIff` are about appended messages.
- *Reading a user's text back.* Escaping maps a reminder delimiter and its own escaped spelling to the same text
  (`EscapedAlike`), so `SpokenIsRead` has its exact condition: a text is read back if and only if it does not
  spell out an escaped delimiter.
- *Which provider wins* does depend on the order of the plugin list, unless all who provide one agree
  (`ProviderOrderIffDisagreement`).

## Model

| member | source | states |
|---|---|---|
| `Utf8.DecodeInvertsEncode` | crates/leti-adapters/src/openai/sse.rs:69-106 | lossy UTF-8 decoding gives back every string that was encoded |
| `Utf8.ReplacesMaximalSubparts` | crates/leti-adapters/src/openai/sse.rs:104-106 | where a character stands it is read; elsewhere one U+FFFD replaces as many bytes as could still have begun a character, and no more |
| `SseParser.NextSeparatorIsEarliest` | crates/leti-adapters/src/openai/sse.rs:75-102 | the separator chosen is the earliest of either kind, and the only one with that property |
| `SseParser.SeparatorIsStable` | crates/leti-adapters/src/openai/sse.rs:81-102 | no later byte can reveal an earlier separator |
| `SseParser.SplitComposes` | crates/leti-adapters/src/openai/sse.rs:52-61 | splitting a buffer, then its rest with more bytes, is splitting it all at once |
| `SseParser.SplitConservesBytes` | crates/leti-adapters/src/openai/sse.rs:104-107 | bodies, separators and rest spell the input; no body contains a separator |
| `SseParser.FoldLines` | crates/leti-adapters/src/openai/sse.rs:118-132 | the line loop keeps the last event name and all data lines, in order |
| `SseParser.ParseFrame` | crates/leti-adapters/src/openai/sse.rs:112-146 | the frame a body denotes, or none |
| `SseParser.Parser.NextFrame` | crates/leti-adapters/src/openai/sse.rs:74-107 | takes the first body off the buffer with its separator, or leaves the buffer alone |
| `SseParser.Parser.Push` | crates/leti-adapters/src/openai/sse.rs:52-61 | returns the frames of all bodies now complete and keeps exactly the unclosed rest |
| `SseParser.Parser.Finish` | crates/leti-adapters/src/openai/sse.rs:65-72 | returns at most the frame of the unterminated rest and empties the buffer |
| `SseParser.ReceiveIsOneSplit` | crates/leti-adapters/src/openai/sse.rs:52-107 | any list of pushes drains the bodies of one split of the concatenation |
| `SseParser.ChunkingIsInvisible` | crates/leti-adapters/src/openai/sse.rs:52-107 | two ways of cutting the same bytes give the same frames |
| `SseParser.ReceiveAll` | crates/leti-adapters/src/openai/sse.rs:52-72 | a parser object fed chunk by chunk and finished returns the frames of the joined bytes |
| `SsePrinter.SplitsAtFrameEnd` | crates/leti-test-mock-provider/src/scenarios.rs:205-211 | the first separator of a printed frame is the one the printer wrote at its end |
| `SsePrinter.FrameTextParses` | crates/leti-test-mock-provider/src/scenarios.rs:205-211 | a printed body parses to the event name and payload that were printed |
| `SsePrinter.RoundTrip` | crates/leti-test-mock-provider/src/scenarios.rs:205-215 | printable frames, printed one after another and cut anywhere, parse back to exactly those frames |
| `SsePrinter.ManyLinesParse` | crates/leti-adapters/src/openai/sse.rs:112-146 | a frame of any lines, closed by LF or CRLF, with any blanks around: the last event name, trimmed; the data bodies, trimmed ahead only, joined by newlines; other lines ignored; no frame without data or name |
| `SseDecoder.ProcessAppend` | crates/leti-adapters/src/openai/stream.rs:73-93 | what a list of frames sends is what its parts send, up to the frame that ends the task |
| `SseDecoder.SendsTheDeltas` | crates/leti-adapters/src/openai/stream.rs:73-93 | frames send every delta of every frame with data that is no ping, in order, up to the first that is the terminator or does not decode, and then its error if it has one |
| `SseDecoder.TailSendsTheDeltas` | crates/leti-adapters/src/openai/stream.rs:97-110 | in a tail each frame that decodes sends its deltas and no other frame does anything |
| `SseDecoder.StreamSends` | crates/leti-adapters/src/openai/stream.rs:38-111 | the whole task, from the frames in the bytes: those deltas and that error, or the transport's error, or the tail's deltas |
| `SseDecoder.SendFrames` | crates/leti-adapters/src/openai/stream.rs:73-93 | the frame loop sends everything up to the first terminator or decode error, or until the receiver is gone, and says whether to go on |
| `SseDecoder.SendTail` | crates/leti-adapters/src/openai/stream.rs:97-110 | in the tail a terminator or decode error is dropped in silence |
| `SseDecoder.RunDecoder` | crates/leti-adapters/src/openai/stream.rs:38-111 | what the task sends is a function of the joined bytes and of how the stream ended; a receiver that goes away has got a beginning of it |
| `SseDecoder.StoppedEarly` | crates/leti-adapters/src/openai/stream.rs:73-93 | once a frame ended the task, later bytes cannot change what was sent |
| `SseDecoder.TerminatedStreamDecodes` | crates/leti-adapters/src/openai/stream.rs:73-93 | what was printed before the terminator sends the deltas of each frame that carries data, up to the first that does not decode and its error; nothing behind the terminator is sent |
| `Store.DeltasCommute` | tui/src/store/apply-event.ts:68-82 | a delta to an existing part commutes with any delta to another part or of another kind |
| `Store.DeltasMerge` | tui/src/store/apply-event.ts:68-82 | two deltas to one part and kind are one delta with the texts joined |
| `Store.TargetPersists` | tui/src/store/reducers.ts:27-71 | no delta removes a message or part |
| `Store.TargetCreated` | tui/src/store/reducers.ts:16-71 | a delta creates the message and part it addresses |
| `EventPump.KeyIsInjective` | tui/src/render/event-pump.ts:73 | for message ids without a colon the key determines message, part and kind |
| `EventPump.ColonsCollide` | tui/src/render/event-pump.ts:73 | two parts with one key |
| `EventPump.CommuteAll` | tui/src/render/event-pump.ts:48-68 | a delta moves back past all pending deltas with other keys once its part exists |
| `EventPump.AccumulateIsApply` | tui/src/render/event-pump.ts:71-85 | merging a delta into the pending map is applying it after a flush |
| `EventPump.EventPump.Flush` | tui/src/render/event-pump.ts:48-68 | applies the merged deltas in insertion order, clears the map and the timer |
| `EventPump.EventPump.PushEvent` | tui/src/render/event-pump.ts:71-91 | a delta is merged, any other event flushes first and is then applied |
| `EventPump.EventPump.Teardown` | tui/src/render/event-pump.ts:92-94 | flushes what is pending |
| `EventPump.RunTracks` | tui/src/render/event-pump.ts:41-96 | at every point of every run, store plus pending deltas is the raw stream's store |
| `EventPump.MergedStreamIsRawStream` | tui/src/render/event-pump.ts:41-96 | for every event sequence and every placement of flushes the store ends equal to that of the raw events, creation order included |
| `EventPump.EveryFlushIsCurrent` | tui/src/render/event-pump.ts:41-91 | after the timer, a teardown or any event that is no delta, nothing is pending and the store is that of all events so far |
| `EventPump.CollisionIsSafeIffSameTarget` | tui/src/render/event-pump.ts:73-83 | deltas with equal keys may be merged in every store if and only if they address the same part |
| `StoreHistory.StoreTellsTheLog` | tui/src/store/apply-event.ts:39-94 | after any event log a part reads exactly the tokens streamed to it, each once and in order |
| `StoreHistory.PumpTellsTheLog` | tui/src/render/event-pump.ts:41-96 | the same through the pump, under any flush schedule |
| `StoreLog.TokensAreBuffered` | tui/src/store/apply-event.ts:57-82 | until its first part_updated a part's tokens stand in its buffer behind what was there; text, status and kind are as before, and those of a fresh part if there was none |
| `StoreLog.UpdateDividesTheTokens` | tui/src/store/apply-event.ts:84-94 | after the last part_updated of a part its text is its initial content and all earlier tokens, its buffer exactly the later ones, its status complete |
| `StoreLog.MessagesEnter` | tui/src/store/apply-event.ts:39-56 | a message is there exactly once an event has addressed it, as an assistant's message of that session if it is new; its step is finished by step_finished alone |
| `StoreLog.LastFinishStands` | tui/src/store/apply-event.ts:96-113 | the last step_finished of a message that is there is the one it shows |
| `StoreLog.MessagesStandInOrder` | tui/src/store/reducers.ts:16-26 | a session lists its messages in the order in which events first addressed them, behind those it had |
| `StoreLog.PartsStandInOrder` | tui/src/store/reducers.ts:27-41 | and a message its parts |
| `EventBus.StepKeepsInv` | crates/leti-adapters/src/bus/mod.rs:101-150 | every step, failed and dropped appends and restarts included, keeps the bus invariant |
| `EventBus.BusIsOrdered` | crates/leti-adapters/src/bus/mod.rs:101-150 | in every run broadcast ids strictly increase and have their rows, committed ids have no gap, the counter is at most one behind the table and never ahead |
| `EventBus.BusTellsTheSteps` | crates/leti-adapters/src/bus/mod.rs:101-150 | in every run the table is what it was and then the committed events under consecutive ids, and the ids broadcast are exactly those of the publishes that went through |
| `EventBus.DropsBoundCollisions` | crates/leti-adapters/src/bus/mod.rs:119-133 | publishes that collide never outnumber dropped futures |
| `EventBus.CollisionHeals` | crates/leti-adapters/src/bus/mod.rs:113-133 | a colliding publish leaves the next one free to commit the next id |
| `EventBus.BroadcastBus.Publish` | crates/leti-adapters/src/bus/mod.rs:101-150 | seeds, appends and broadcasts as the steps do, for each fate of the append and an unreadable highest id; a transient event is only broadcast |
| `ResumeClient.RowsSinceIs` | crates/leti-adapters/src/bus/mod.rs:156-186 | the replay holds exactly the wanted ids above the cursor, in increasing order |
| `ResumeClient.MoveKeepsInv` | tui/src/api/sse.ts:65-121 | every move of bus, connection and client keeps the invariant between cursor, replay and live frames |
| `ResumeClient.NoGap` | crates/leti-adapters/src/bus/mod.rs:34-43 | in every run no wanted broadcast between the first and last delivered id is missing, nor after it once caught up |
| `ResumeClient.HasAllFromAnchor` | tui/src/api/sse.ts:65-76 | in every run a caught-up client has a wanted broadcast exactly if it came after the connection its history begins with |
| `ResumeExact.AtMostOnceIff` | crates/leti-adapters/src/bus/mod.rs:34-49 | in every run delivered ids strictly increase exactly if the route never forwards, after an empty replay, a live frame with the id the connection asked from |
| `ResumeClient.AtMostOnce` | crates/leti-adapters/src/bus/mod.rs:34-49 | so they do in every run that does not race its cursor |
| `ResumeExact.RaceFreeNeverRepeats` | crates/leti-adapters/src/bus/mod.rs:130-141 | a run that does not race its cursor meets that condition |
| `ResumeExact.ExactlyOnce` | crates/leti-adapters/src/bus/mod.rs:34-49 | in every run without a repeat a caught-up client has each wanted broadcast exactly once if it came after the connection its history begins with and not at all before |
| `ResumeExact.CatchesUp` | tui/src/api/sse.ts:99-121 | from any connection that has not lagged, taking frames leads to a caught-up client |
| `ResumeExact.TakesCount` | tui/src/api/sse.ts:99-121 | in exactly as many steps as there are frames, in whatever order they are taken |
| `ResumeClient.DeliversOnlyWanted` | crates/leti-adapters/src/bus/mod.rs:156-172 | only rows the filter wants are delivered |
| `ResumeClient.FirstEventIsLost` | tui/src/api/sse.ts:65-95 | a run without a race in which an event broadcast while the client streams is never delivered |
| `ResumeClient.NeverBackwards` | crates/leti-adapters/src/bus/mod.rs:34-49 | in every run at all, delivered ids never go down |
| `ResumeClient.RaceDuplicates` | crates/leti-adapters/src/bus/mod.rs:130-141 | from every state in which the client connects while its cursor row waits to be broadcast, a continuation delivers it a second time |
| `ResumeClient.RaceIsReachable` | crates/leti-adapters/src/bus/mod.rs:130-141 | a run that ends in that race |
| `SseClient.SseConnection.Reconnect` | tui/src/api/sse.ts:83-95 | closes the source and arms one timer with the backoff of the attempt |
| `SseClient.SseConnection.OnFrame` | tui/src/api/sse.ts:100-113 | a well-formed frame moves the cursor to its numeric id and is handled; a malformed one does nothing |
| `SseClient.OneLifeline` | tui/src/api/sse.ts:52-134 | until closed there is exactly one of source and timer, the cursor is the last numeric id handled, and connections match waits |
| `SseClient.ReconnectAsksFromCursor` | tui/src/api/sse.ts:65-76 | a reconnect asks for what follows the last numeric id handled |
| `SseClient.ClosedIsFinal` | tui/src/api/sse.ts:125-133 | after close nothing is handled or asked for again |
| `SseClient.WaitsFollowFailures` | tui/src/api/sse.ts:78-95 | in every run the waits are 250, 500, 1000, 2000 and then 5000 ms by the number of failures since the stream last opened; the frames handled are the well-formed ones |
| `TurnSlot.StepConserves` | crates/leti-server/src/injected_turn.rs:70-100 | every step keeps the multiset of queued, reserved and started turns equal to that submitted |
| `TurnSlot.NothingLostNothingTwice` | crates/leti-server/src/turn_slot.rs:85-204 | in every run each submitted turn is queued, reserved or started, once; no handle sees two cancel emissions |
| `TurnSlot.StepKeepsGates` | crates/leti-server/src/app_state.rs:118-125 | the compare-and-swap lets one canceller per handle emit |
| `TurnSlot.CancelIsEmitted` | crates/leti-server/src/app_state.rs:213-228 | in every run a canceller that finds a turn in the slot and then tries its gate leaves that turn emitted, by itself if nobody was first |
| `TurnSlot.ExitTouchesOnlyItsOwn` | crates/leti-server/src/turn_slot.rs:176-182 | whatever happened to the slot, a finalizer neither releases nor drains one it does not own |
| `TurnSlot.OnlyTheOwnerDrains` | crates/leti-server/src/turn_slot.rs:171-204 | of all steps only the exit of the slot's owner takes from the queue, its head; and only that exit, a dropped guard or interference vacates or hands on a slot |
| `TurnSlot.SlotHoldsTheOnlyDriver` | crates/leti-server/src/turn_slot.rs:54-76 | in every interleaving at most one task is live and the slot holds exactly its handle |
| `TurnSlot.GuardDropsItsOwnSlot` | crates/leti-server/src/turn_slot.rs:41-47 | a dropped guard only ever removes its own slot |
| `TurnSlot.InOrderIffNoneOvertaken` | crates/leti-server/src/injected_turn.rs:83-99 | with distinct turns, start order is submission order throughout a run exactly when no turn is submitted to a vacant slot while others wait |
| `TurnSlot.FifoIffNoneStranded` | crates/leti-server/src/turn_slot.rs:171-204 | start order is submission order and a vacant slot has an empty queue, throughout a run, exactly when no guard is dropped ahead of queued turns |
| `TurnSlot.OvertakingIsReachable` | crates/leti-server/src/turn_slot.rs:41-47 | a run that abandons a claim ahead of a queued turn and starts a later turn first |
| `TurnSlot.QueueIsWorkedOff` | crates/leti-server/src/turn_slot.rs:171-204 | from any driven session exits and starts alone start the whole queue, in order, two steps a turn |
| `TurnSlot.StrandedTurnsAreOvertaken` | crates/leti-server/src/turn_slot.rs:41-47 | behind a vacant slot with a stranded queue the next submission starts first |
| `TurnSlot.TurnTable.TryClaim` | crates/leti-server/src/turn_slot.rs:54-76 | claims a vacant slot with a handle that no session holds, refuses an occupied one, touches no other session |
| `TurnSlot.TurnTable.DropGuard` | crates/leti-server/src/turn_slot.rs:41-47 | an uncommitted guard removes its session's slot |
| `TurnSlot.TurnTable.EnqueueOrStart` | crates/leti-server/src/injected_turn.rs:70-100 | claims or queues in one step; user turns are ignored |
| `TurnSlot.TurnTable.DrainNext` | crates/leti-server/src/turn_slot.rs:171-204 | the owner re-claims for the head of the queue or releases; anybody else changes nothing |
| `Escaping.ReplaceRemoves` | crates/leti-core/src/projection.rs:191-194 | replacing one delimiter leaves none of it and creates none of the other |
| `Escaping.EscapedTextHasNoDelimiter` | crates/leti-core/src/projection.rs:191-194 | escaped text contains neither reminder delimiter |
| `EscapingRead.EscapeIsOnePass` | crates/leti-core/src/projection.rs:191-194 | the two replacements are one pass that rewrites the `<` of every delimiter and nothing else |
| `EscapingRead.ReadsBackIff` | crates/leti-core/src/projection.rs:191-194 | escaped text is read back exactly if it did not itself spell out an escaped delimiter |
| `EscapingRead.EscapedAlike` | crates/leti-core/src/projection.rs:191-194 | a delimiter and its escaped spelling are escaped alike |
| `Escaping.EscapeBodyIsCharwise` | crates/leti-core/src/projection.rs:206-209 | the three passes escape each character on its own |
| `Escaping.BodyRoundTrips` | crates/leti-core/src/projection.rs:206-209 | an escaped body unescapes to itself and has no `<` |
| `UserProjection.CollectLines` | crates/leti-core/src/projection.rs:122-133 | the accumulating loops join the lines of their parts with newlines |
| `UserProjection.BuildUserContent` | crates/leti-core/src/projection.rs:143-189 | the buffer built in place is the escaped text, attachments and reminders, and the request if one is pending |
| `UserProjection.OnlyRemindersDelimit` | crates/leti-core/src/projection.rs:143-216 | for every list of parts there are exactly as many opening and closing delimiters as reminder parts, plus those of an explicit compaction request |
| `UserProjection.RemindersAreRecoverable` | crates/leti-core/src/projection.rs:143-216 | every reminder body, in order, can be read back from the whole user message |
| `ProjectedText.LinesAreJoined` | crates/leti-core/src/projection.rs:122-133 | the accumulating loop joins the lines by newlines from the first that is not empty |
| `ProjectedText.AttachmentByCapability` | crates/leti-core/src/projection.rs:226-271 | the words for an attachment, by capability |
| `ProjectedText.SpokenIsRead` | crates/leti-core/src/projection.rs:143-189 | what stands before the reminders is the Text parts' texts and the attachments' words, joined and escaped; unescaping it gives them back exactly if they spell out no escaped delimiter |
| `ProjectedText.RequestComesLast` | crates/leti-core/src/projection.rs:169-183 | a pending request closes the message on a line of its own, and no other message changes |
| `ProjectedText.UserSpeaks` | crates/leti-core/src/projection.rs:143-189 | a user message is sent, as exactly one, unless it has no text, attachment words, reminder, image or pending request with wording |
| `ProjectedText.SystemSpeaks` | crates/leti-core/src/projection.rs:135-141 | a system message is its texts, left out exactly if all are empty |
| `ProjectedText.AssistantSpeaks` | crates/leti-core/src/projection.rs:273-324 | an assistant message is its texts, none if it carries a compaction, its reasoning where replayed and its calls, left out exactly if it has none of them |
| `ProjectedText.CallsAreSent` | crates/leti-core/src/projection.rs:293-304 | the calls sent are the call parts, one for one and in order |
| `ProjectedText.ToolSpeaks` | crates/leti-core/src/projection.rs:326-348 | a tool message is one message per result, in order, with its output or its error |
| `ProjectedText.OwnerIsTheLastLister` | crates/leti-core/src/projection.rs:92-120 | a message is superseded by the last of the log to list it, and by none exactly if none does |
| `ProjectedText.EffectiveStands` | crates/leti-core/src/projection.rs:62-69 | an entry no message lists is sent as its role makes of its parts |
| `ProjectedText.SummaryStands` | crates/leti-core/src/projection.rs:51-61 | at the first entry superseded by a message stands the summary of that message's last compaction part, under the banner |
| `Projection.CollectCompactions` | crates/leti-core/src/projection.rs:92-120 | the two maps hold the last owner to list each id and the last summary of each owner |
| `Projection.ProjectForLlm` | crates/leti-core/src/projection.rs:38-71 | the loop computes the in-order concatenation of every entry's contribution |
| `Projection.EffectiveIds` | crates/leti-core/src/projection.rs:78-87 | the logged ids without an owner, and no other |
| `Projection.OneSummaryPerOwner` | crates/leti-core/src/projection.rs:47-61 | an owner that supersedes a logged message has its summary emitted once, at the first such message |
| `Projection.SummarisedIffSuperseding` | crates/leti-core/src/projection.rs:47-61 | a summary is emitted for exactly the owners that supersede a logged message |
| `Projection.AppendExtends` | crates/leti-core/src/projection.rs:38-71 | appending a fresh message that lists no logged one only extends the projection |
| `Projection.PlainMessageExtends` | crates/leti-core/src/projection.rs:38-71 | so does a fresh message without a compaction part |
| `Projection.AppendKeepsOwnersIff` | crates/leti-core/src/projection.rs:92-120 | an appended message changes the owner of exactly the ids it lists |
| `ProjectionGrowth.PlainPartExtendsIff` | crates/leti-core/src/projection.rs:62-71 | an appended part that is no compaction leaves the earlier projection a prefix exactly if its message is superseded, projects as before, or projects one message more that all later messages repeat |
| `ProjectionGrowth.AppendedPartExtendsIff` | crates/leti-core/src/projection.rs:62-71 | the same for any part that changes no logged message's owner nor a summary shown |
| `ProjectionGrowth.AppendedPartOwnersIff` | crates/leti-core/src/projection.rs:99-118 | an appended part changes the owner of exactly the ids it lists that no later message lists and its message does not own already |
| `ProjectionGrowth.FirstEffect` | crates/leti-core/src/projection.rs:38-71 | a compaction part leaves the projection as it was, or first takes an entry over, or first drops the text of its own message |
| `ProjectionGrowth.TakingOverRewrites` | crates/leti-core/src/projection.rs:51-61 | when it first takes an entry over, before or behind its own, what was projected before that entry stays, its summary follows, and the rest survives only if there was none or it began with that summary |
| `ProjectionGrowth.OwnTextRewrites` | crates/leti-core/src/projection.rs:278-311 | when it first drops its assistant message's text, the prefix survives only if that message then shows nothing and the very message it showed comes next |
| `ProjectionGrowth.TakingTwoRewrites` | crates/leti-core/src/projection.rs:38-71 | the projection grows by no more than one message less all that the messages taken over projected to, so two or more of those always rewrite the prefix |
| `ProjectionGrowth.ProjectionLength` | crates/leti-core/src/projection.rs:38-71 | a projection is as long as what its effective entries project to and one summary per owner |
| `Projection.AppendedPartRewrites` | crates/leti-core/src/projection.rs:135-141 | a log whose prefix an appended part rewrites |
| `Projection.CompactionRewrites` | crates/leti-core/src/projection.rs:51-61 | an appended compaction of a logged message rewrites the prefix |
| `ToolFolding.CollectOwners` | tui/src/store/message-hydration.ts:94-100 | each call id is owned by the last non-tool message that makes it |
| `ToolFolding.FoldToolResults` | tui/src/store/message-hydration.ts:93-127 | on shared message objects, mutated while collected, the output is the fold of the initial values |
| `ToolFolding.FoldConserves` | tui/src/store/message-hydration.ts:93-127 | the multiset of parts is conserved |
| `ToolFolding.FoldShape` | tui/src/store/message-hydration.ts:108-124 | no tool message is left empty; an owner keeps its own parts in order, with every moved result behind its call or behind another moved result of that call |
| `ToolFolding.PlacementHolds` | tui/src/store/message-hydration.ts:118-122 | however many results an owner collects, each stays behind its call while its list shifts |
| `ToolFolding.LatestStandsFirst` | tui/src/store/message-hydration.ts:118-122 | of several results of one call the latest stands right behind the first part that makes the call |
| `MessageHydration.CollectFailed` | tui/src/store/message-hydration.ts:161-172 | the summary ids of failed compaction requests |
| `MessageHydration.HydrateMessages` | tui/src/store/message-hydration.ts:153-202 | the passes over maps and objects compute the merged list |
| `MessageHydration.HydratedIdsAreDistinct` | tui/src/store/message-hydration.ts:185-201 | no message is shown twice |
| `MessageHydration.LiveCopiesAreKept` | tui/src/store/message-hydration.ts:185-187 | a streaming or user store copy is in the result exactly when the server lacks the message or its fold shows it |
| `MessageHydration.OnlyFailedCompactionsHide` | tui/src/store/message-hydration.ts:173-183 | a non-tool server message is shown unless a failed compaction hides it |
| `MessageHydration.InflightIsKept` | tui/src/store/message-hydration.ts:199-201 | the list closes with all messages the server does not have, untouched, each at its rank among them |
| `MessageHydration.InflightStaysInOrder` | tui/src/store/message-hydration.ts:199-201 | those ranks follow the store's order |
| `MessageHydration.HydrateIsIdempotent` | tui/src/store/message-hydration.ts:153-202 | hydrating again with the same server list changes nothing |
| `HydratedView.ServerBodyReplaces` | tui/src/store/message-hydration.ts:185-198 | where the store has no copy, or one that is neither streaming nor a user's, the result has the server's role and folded parts, with the store's badges and step_finish if there is a copy |
| `HydratedView.LiveCopyStands` | tui/src/store/message-hydration.ts:185-187 | a streaming or user copy stands where the server's message would |
| `HydratedView.ShownIffNotHidden` | tui/src/store/message-hydration.ts:161-183 | a server message is left out exactly if a failed request stands in it or names it as its summary |
| `HydratedView.ViewsShow` | tui/src/store/message-hydration.ts:21-86 | a message's views are its visible parts, one for one and in order, each with the text its kind shows |
| `HydratedView.ServerPartsAreShown` | tui/src/store/message-hydration.ts:93-202 | every visible part of every shown message is in the result with its text: a result in the last shown message that made its call, any other part in its own |
| `HydratedView.OnlyServerPartsAreShown` | tui/src/store/message-hydration.ts:93-202 | and nothing else is in a message whose store copy is not live |
| `NotifBucket.TokenBucket.TryTake` | crates/leti-server/src/notif_bucket.rs:35-61 | one call that no other overlaps: refill, cap, take |
| `NotifBucket.RateIsBounded` | crates/leti-server/src/notif_bucket.rs:35-61 | with a non-decreasing clock any window of calls grants at most 10 and one more per started 100 ms |
| `NotifBucket.RateIsMet` | crates/leti-server/src/notif_bucket.rs:35-61 | for every width some window meets that bound |
| `NotifBucket.BurstIsExact` | crates/leti-server/src/notif_bucket.rs:35-61 | of any number of calls at one instant exactly as many are granted as there are tokens and full intervals waited, up to 10 |
| `NotifBucket.RefusalFollowsGrant` | crates/leti-server/src/notif_bucket.rs:39-52 | a refused call has a granted one less than 100 ms before it |
| `NotifRace.EveryRunIsBounded` | crates/leti-server/src/notif_bucket.rs:35-61 | in every interleaving of atomic accesses tokens stay within 0 and 10 and no decrement wraps |
| `NotifRace.EndsByGrantOrEmpty` | crates/leti-server/src/notif_bucket.rs:48-60 | a call ends by taking one token or on finding none; a lost swap tries again |
| `NotifRace.AloneIsSequential` | crates/leti-server/src/notif_bucket.rs:35-61 | uninterrupted, the accesses of a call add up to the sequential call |
| `NotifRace.StaleRefillDoublesTheBurst` | crates/leti-server/src/notif_bucket.rs:42-45 | an interleaving that grants twenty calls at one instant |
| `NotifWindow.StepSettles` | crates/leti-server/src/notif_bucket.rs:37-45 | where refills run through, finding a refill due is the whole refill |
| `NotifWindow.RateIsKept` | crates/leti-server/src/notif_bucket.rs:35-61 | in every run with a non-decreasing clock in which refills run through, at most 10 of the calls begun and granted in a window pass, and one more per started 100 ms |
| `NotifWindow.WindowKeepsRate` | crates/leti-server/src/notif_bucket.rs:35-61 | the same for all grants of any window, with the time counted from the step at which the earliest call under way when it opens began |
| `NotifWindow.QuietWindowKeepsRate` | crates/leti-server/src/notif_bucket.rs:35-61 | the case of a window that opens with no call under way |
| `NotifWindow.StaleReadingAddsOne` | crates/leti-server/src/notif_bucket.rs:36-41 | a run of that kind with eleven grants at one instant, one of them to a call begun earlier |
| `HookChains.BeforeIsStrict` | crates/leti-core/src/dispatch.rs:140-148 | the comparator is a strict order whose ties agree on priority, manifest id and index |
| `HookChains.SortConserves` | crates/leti-core/src/dispatch.rs:130-148 | sorting loses no entry and adds none |
| `HookChains.SortIsIdempotent` | crates/leti-core/src/dispatch.rs:128-137 | sorting twice is sorting once |
| `HookChains.OrderIsUnique` | crates/leti-core/src/dispatch.rs:140-148 | entries with distinct keys have only one ordered arrangement |
| `HookChains.SortedByPriority` | crates/leti-core/src/dispatch.rs:140-148 | in a sorted chain the higher priority stands first, then the smaller manifest id, then the earlier registration |
| `HookChains.LessIff` | crates/leti-core/src/dispatch.rs:145 | manifest ids are compared at their first difference |
| `PluginInstall.PluginContext.RegisterHook` | crates/leti-plugin-api/src/context.rs:246-259 | a declared hook joins its chain, an undeclared one is rejected |
| `PluginInstall.ChainTable.SortAll` | crates/leti-core/src/dispatch.rs:130-137 | every chain is ordered and keeps its entries |
| `PluginInstall.InstallAll` | crates/leti-plugin-registry/src/lib.rs:120-238 | succeeds exactly for lists with distinct ids, sound plugins and distinct tools; names the first objection, a colliding tool being the first that is there already; returns all agents and tools in order, the first provider and the sorted merged chains |
| `PluginInstall.InstallOrderIsIrrelevant` | crates/leti-plugin-registry/src/lib.rs:139-228 | every permutation of a list installs or fails alike and gives the same chains |
| `PluginInstall.ProviderOrderIffDisagreement` | crates/leti-plugin-registry/src/lib.rs:190-199 | the provider is the same for every permutation exactly if all plugins that provide one agree |
| `PluginRegistry.ChainsHoldTheHooks` | crates/leti-plugin-registry/src/lib.rs:139-228 | after an installation a chain holds exactly one entry per declared hook of its kind that any plugin registered, with its plugin, priority, index and handler |
| `PluginRegistry.ToolsAndAgents` | crates/leti-plugin-registry/src/lib.rs:139-228 | tools and agents are those added by plugins that may, in the order of list and calls |
| `PluginRegistry.FirstPluginProvides` | crates/leti-plugin-registry/src/lib.rs:193-202 | the provider used is the last one set by the first plugin that sets any |
| `PluginRegistry.NoneProvides` | crates/leti-plugin-registry/src/lib.rs:193-202 | there is none exactly if no plugin that may set one does |
| `PluginRegistry.RefusalsAreNamed` | crates/leti-plugin-registry/src/lib.rs:139-219 | a taken id, then incompatibility, then a failed install, then a colliding tool |
| `PermissionRules.FindLast` | crates/leti-adapters/src/config_perm/ruleset.rs:91-96 | the last rule in scope that matches |
| `PermissionRules.OtherSessionsRulesAreInvisible` | crates/leti-adapters/src/config_perm/ruleset.rs:53-96 | deleting all rules scoped to other sessions changes no evaluation |
| `PermissionManager.ConfigPermissionMgr.Check` | crates/leti-adapters/src/config_perm/manager.rs:151-210 | hooks, then rules, then mode; an ask becomes pending under a fresh id |
| `PermissionManager.ConfigPermissionMgr.Reply` | crates/leti-adapters/src/config_perm/manager.rs:212-220 | resolves a pending ask and removes it |
| `PermissionManager.ConfigPermissionMgr.RecordAlways` | crates/leti-adapters/src/config_perm/manager.rs:233-251 | pushes a compiled rule of a wired scope, or fails and changes nothing |
| `PermissionManager.ConfigPermissionMgr.TakeDeferred` | crates/leti-adapters/src/config_perm/manager.rs:253-255 | hands the receiving half out once |
| `PermissionManager.ConfigPermissionMgr.AcceptAsk` | crates/leti-adapters/src/config_perm/manager.rs:266-325 | the steps of the call without interference, a held ask counting as expired |
| `PermissionManager.SessionsAreIsolated` | crates/leti-adapters/src/config_perm/manager.rs:151-251 | after any run of rule additions a session's request is decided as if those for other sessions had not been made |
| `PermissionManager.FailedAcceptChangesNothing` | crates/leti-adapters/src/config_perm/manager.rs:266-325 | a failed accept leaves the manager as it was except when only the action was wrong, and then adds one rule |
| `PermissionManager.EveryAskResolvesOnce` | crates/leti-adapters/src/config_perm/manager.rs:193-325 | in every interleaving with the removals, re-insertions and pushes of `accept_ask`, each ask ever made is open or resolved exactly once |
| `PermissionOutcomes.AcceptDecidesByItsAction` | crates/leti-adapters/src/config_perm/manager.rs:266-325 | exactly when accept_ask succeeds; it then resolves that ask alone, Allow exactly for Allow and Deny exactly for Deny, and adds one rule of its permission, action and scope |
| `PermissionOutcomes.AcceptedAskGoesOnDeciding` | crates/leti-adapters/src/config_perm/manager.rs:151-210 | until a later rule applies, a request the accepted pattern matches is answered by its action, in the session it was accepted for or in all |
| `PermissionOutcomes.EveryResolutionIsItsCalls` | crates/leti-adapters/src/config_perm/manager.rs:212-325 | in every interleaving each resolution carries the decision of the reply, the cancellation or the accepted action that found its ask open and closed it |
| `PermissionOutcomes.CheckDecides` | crates/leti-adapters/src/config_perm/manager.rs:151-210 | the last rule that applies decides; where none does, danger mode allows and the others ask; an ask becomes pending under the next id, nothing else changes |
| `PermissionOutcomes.HooksDecide` | crates/leti-adapters/src/config_perm/manager.rs:151-175 | hooks that decide or refuse are the answer |
| `PermissionOutcomes.AppliesIff` | crates/leti-adapters/src/config_perm/ruleset.rs:53-96 | global rules and those of the own session apply, those of workspaces and agents never |
| `PermissionOutcomes.TakenOnce` | crates/leti-adapters/src/config_perm/manager.rs:253-255 | the receiving half of a pending ask is handed out once |
| `DetachedPermission.DetachedPermissionManager.Check` | crates/leti-server/src/detached_permission.rs:66-91 | the inner check, with an ask cancelled and answered by policy |
| `DetachedPermission.DetachedNeverWaits` | crates/leti-server/src/detached_permission.rs:66-91 | never returns Pending, adds no rule, and leaves open asks as they were exactly when hooks do not answer with one of them |
| `DetachedPermission.DetachedFollowsTheRules` | crates/leti-server/src/detached_permission.rs:31-91 | what the rules allow or deny stands; a would-be ask is allowed only by policy and never for hardened requests |
| `DetachedPermission.HardenedIff` | crates/leti-server/src/detached_permission.rs:31-63 | every fetch, and every command with a destructive phrase anywhere in it, in any case |
| `DetachedPermission.CaseIsIgnored` | crates/leti-server/src/detached_permission.rs:31-63 | letter case makes no difference |
| `HydrationController.Controller.Refresh` | tui/src/render/hydration-controller.ts:33-54 | starts a fetch, or marks the session dirty while one is under way |
| `HydrationController.Controller.FetchDone` | tui/src/render/hydration-controller.ts:45-48 | clears the session and, if dirty, starts one more fetch |
| `HydrationController.Controller.OnEvent` | tui/src/render/hydration-controller.ts:55-69 | settled statuses, created messages and updated parts trigger a refresh, nothing else does |
| `HydrationController.StaleIff` | tui/src/render/hydration-controller.ts:55-69 | which events refetch which session |
| `HydrationController.FetchesAreCoalesced` | tui/src/render/hydration-controller.ts:29-49 | in every interleaving one fetch per session at most, dirty within in-flight, fetches no more than triggers, and never two overlapping |
| `HydrationController.QuietMeansFresh` | tui/src/render/hydration-controller.ts:29-49 | at quiescence every trigger was followed by a fetch that began after it and landed |
| `HydrationController.LandingsSettle` | tui/src/render/hydration-controller.ts:45-48 | landings alone bring it to rest, after exactly as many as are under way and owed |
| `MentionParser.ActiveMention` | tui/src/utils/mention-parser.ts:34-49 | the two walks around the cursor, for any cursor |
| `MentionParser.BehindTheEnd` | tui/src/utils/mention-parser.ts:37-48 | behind the end of the buffer the scanner finds what it finds at the end, drawn out to the cursor |
| `MentionParser.ActiveIsTheMentionAround` | tui/src/utils/mention-parser.ts:34-49 | returns a span exactly when it is a mention the cursor is in or just behind |
| `MentionParser.AllMentions` | tui/src/utils/mention-parser.ts:53-64 | the regular-expression loop with its skipping of absolute paths |
| `MentionParser.FoundIsComplete` | tui/src/utils/mention-parser.ts:53-64 | finds exactly the mentions with a path |
| `MentionParser.FoundIsOrdered` | tui/src/utils/mention-parser.ts:53-64 | in order, with at least a space between two |
| `MentionParser.ScannersAgree` | tui/src/utils/mention-parser.ts:34-64 | a span with a path is among all mentions exactly when the cursor scanner returns it at every cursor inside it |
| `MentionParser.AbsoluteIff` | tui/src/utils/mention-parser.ts:26-30 | a path is absolute exactly if it begins with a slash or backslash, or its second character is a colon |

## Left out

- Transport: the network, timeouts and cancellation of the decoder appear only as how a byte stream ends.
- JSON decoding, glob matching, UUID parsing, plugin closures and the persistence calls are arbitrary functions or outcomes.
- Timestamps, log output and the text of error messages.
- `hydrateSession` between a push and a flush of the pump; the pump theorem is about events.
- Store slices other than messages are one value with an arbitrary reducer.
- EventPump.MergedStreamIsRawStream: assumes of the deltas of the run that equal keys address the same part, which is exactly when merging two of them is safe.
- ResumeClient.MoveKeepsInv: bus, route and client are one state machine over values; the route's filter is an arbitrary predicate on events, and transient events, which carry no id, are not delivered in it.
- SseClient.OneLifeline: callbacks come only from the source or timer that is current, as the browser API guarantees after `close`.
- TurnSlot.NothingLostNothingTwice: says nothing of the session status, which is written after the slot is released.
- Projection.AppendExtends: one direction only, since a rewritten message can happen to read the same; the exact statement is about owners.
- ProjectionGrowth.TakingOverRewrites: a compaction part that takes over messages projecting to at most one is followed up to its first effect; whether the rest then reads on alike by chance is not decided.
- Projection.ProjectForLlm: the loops of system, assistant and tool messages are modelled as functions on their parts.
- MessageHydration.HydrateMessages: the store's messages are values, so that a returned store copy is the same object is not expressed.
- NotifRace.EveryRunIsBounded: under any overlap at all only the range of the count and ten grants per refill are bounded, because the rate itself fails there.
- PluginInstall.InstallOrderIsIrrelevant: chains only; the order of agents and tools does depend on the list. A plugin's `install` is a fixed script of calls.
- PermissionManager.EveryAskResolvesOnce: rehydration of persisted decisions is not modelled, and persisted rows are not part of the state.
- MentionParser.ActiveMention: indices count characters, not UTF-16 units.
- HTTP routing, authentication, the user interface, the SQLite stores, the emulated shell, redaction, cost rollup and shutdown.
