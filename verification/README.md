# Verified models of SimpleClaw's state machines and transformations

SimpleClaw runs chat agents: it streams model output into chat messages, runs tools in the background,
serializes the messages of a session, reads provider streams, and keeps a searchable memory. This project
models the parts of it that carry protocols or non-trivial transformations, in Dafny, and proves what they
guarantee over every input and every interleaving.

`dafny verify dfyconfig.toml` checks everything.

| part | pure model and steps | theorems | the code's mutable objects |
|---|---|---|---|
| streaming display | `StreamingSegments`, `StreamingDisplay` | `StreamingDisplayRuns`, `StreamingDisplayActions`, `StreamingFinalize`, `StreamingTermination`, `StreamingCounterexamples` | `StreamingDisplayState` |
| background tool runs | `AsyncToolRuns` | `AsyncToolRunsTheorems`, `AsyncToolRunsOutcomes` | `AsyncToolRunsState` |
| session workers | `SessionWorkers` | `SessionWorkersTheorems`, `SessionWorkersRetry`, `SessionWorkersExit` | `SessionWorkersState` |
| provider streams | `SseStream`, `SseBytes`, `ToolCalls`, `StreamEvents`, `CodexStream`, `GeminiStream` | `CodexTurn`, `CodexResponse`, `GeminiStream`; as written and read back: `SsePrinting`, `CodexItems`, `CodexTexts`, `CodexBody`, `GeminiBody` | `CodexStreamState`, `GeminiStreamState` |
| XML tool calls | `XmlCalls` | `XmlCalls`, `XmlRoundTrip`, `XmlProse` | |
| tool schemas | `SchemaNormalizer` | `SchemaNormalizer`, `SchemaShape` | |
| log redaction | `Redaction`, `RedactionPasses`, `RedactionOfJson` | `RedactionTheorems`, `RedactionPieces`, `RedactionPanics`, `RedactionLive`, `RedactionPasses`, `RedactionOfJson`, `RedactionSpelling` | |
| recall | `RecallRanking`, `ContextSpans`, `ContextMessages`, `ShortTermRecall` | the same, and `RecallKeys`, `RecallHits` | |
| approvals | `Approvals` | `ApprovalTheorems`, `ApprovalOutcomes` | `ApprovalsState` |

`Options`, `Text`, `TextLaws`, `Utf8` and `JsonValues` hold what the parts share.

How concurrency is modelled. Each function on a state is what the code does in one section under its lock,
or in one channel operation. A run is any sequence of such steps; the results of sends, edits, handlers,
processes and clocks are chosen freely, one step at a time. The classes hold the code's fields and update them
in place; each method equals the function of the same name, so that the theorems about runs hold of them.

What the proofs show of the code, besides the guarantees in the table:

- The display can fail its promise in three ways, each with its exact condition and a run that reaches it: a
  final text that does not follow on the committed characters, as happens when the text restarts on the next
  provider turn (`src/react.rs:245`), is reported as shown although it is not; a limit of zero or a final text
  shorter than what is committed keeps the finalizer polling until an operation fails; and a live message that
  was accepted without an id and is out of date keeps it polling for ever. In every other case it returns as soon
  as the operations to come have finished.
- A wait that is turned away for a bad id leaves the ids before it claimed (`src/tools/async_tool_manager.rs:582`);
  the end of such a run is then reported nowhere.
- `README.md:146` promises strict ordering per session. The code keeps it as long as `remove` hits no worker that
  can still handle messages; the command handler calls it without such a check (`src/gateway/mod.rs:301`).
- A message accepted by a worker that has stopped handling, but whose receiver is not dropped yet, is never
  handled; every other accepted message can still be.
- Redaction panics when a sensitive key without a value is followed by a terminator of more than one byte, such
  as a no-break space, outside the value of an earlier occurrence: the search goes on one byte later, inside
  the character (`src/telemetry.rs:136`). A text with ASCII whitespace is safe.
- XML tool calls survive printing and parsing exactly when their names are trimmed and neither name nor printed
  arguments close their own element.
- An approval can be accepted after its requester took the timeout; a request whose prompt could not be sent
  stays in the registry until its user resolves it.
- `rank_recall_hits` looks at its limit after taking a hit, so that a limit of zero would return one hit. The
  configuration does not let zero through.

## Model

| member | source | states |
|---|---|---|
| `Utf8.FromUtf8Inverse` | src/providers/openai_codex.rs:434-435 | decoding bytes as UTF-8 succeeds exactly on encodings and gives back the encoded text |
| `Utf8.EncodeInjective` | src/providers/openai_codex.rs:434-435 | two texts with the same bytes are the same text |
| `StreamingSegments.ByteSlicingIsCharSlicing` | src/run.rs:93-102 | slicing at the computed byte offset never leaves a character boundary and is the same as taking and dropping characters, however wide they are |
| `StreamingSegments.ActiveStreamingSegment` | src/run.rs:104-123 | the segment to show is the window of at most `limit` characters behind the committed prefix, computed by byte slicing and specified in characters; none when the prefix reaches the end or a limit leaves nothing |
| `StreamingDisplayRuns.ReachableStatesAreSound` | src/run.rs:125-324 | in every reachable state, failures and restarts included: at most one send or edit runs and the flags say which, edits go to the live message only, every older message has exactly `limit` characters and none more, and the committed prefix counts the older ones |
| `StreamingDisplayRuns.EditTouchesOnlyTheLastMessage` | src/run.rs:291-321 | an edit changes the text of the last message and of no other |
| `StreamingDisplayRuns.RolloverFreezesTheLiveMessage` | src/run.rs:125-161 | a rollover freezes a live message that is exactly full, forgets its id, and leaves more text to send |
| `StreamingDisplayRuns.KickCases` | src/run.rs:175-231 | a request for the next action either rolls over and starts a send, or starts one operation on an idle display, or changes nothing |
| `StreamingDisplayActions.EditIsStartedIff` | src/run.rs:219-231 | in any sound state with nothing running and nothing failed, where the live message has an id and shows something else than the characters behind the committed ones, as many as a message may have: a request starts the edit of that message to these characters if and only if an edit is due or the turn is over, and otherwise changes nothing |
| `StreamingDisplayActions.DueEditBringsUpToDate` | src/run.rs:219-321 | such a request and the completed edit leave these characters in the last message of the channel and touch no other |
| `StreamingDisplayActions.SendIsStarted` | src/run.rs:203-217 | text without a message is sent at once, whether an edit is due or not, and with these characters |
| `StreamingDisplayActions.RolloverIsSent` | src/run.rs:125-217 | when the live message is full and up to date and there is more text, the next window is sent at once as a new message |
| `StreamingDisplayActions.NothingElseIsStarted` | src/run.rs:175-231 | in every other sound state a request changes nothing |
| `StreamingDisplayActions.NothingIsSentAtFirst` | src/run.rs:175-231 | before the model has produced any text, a request changes nothing and the channel is empty |
| `StreamingDisplayActions.SendIsShown` | src/run.rs:243-265 | a completed send puts its text into the channel as a new last message, which is the live one under the id it got, if any |
| `StreamingDisplayActions.EditIsShown` | src/run.rs:291-318 | a completed edit changes the last message of the channel to its text and no other |
| `StreamingDisplayActions.FailureIsRecorded` | src/run.rs:266-318 | a failed send or edit ends all activity, leaves the channel alone and keeps its error |
| `StreamingDisplayActions.ErrorIsOfAFailure` | src/run.rs:233-324 | over every run, an error that the display keeps is that of a send or an edit which failed in this run |
| `StreamingDisplayRuns.UpdateKeepsShownPrefixIff` | src/run.rs:163-173 | new text preserves that the older messages spell the committed prefix if and only if it keeps the committed characters |
| `StreamingDisplayRuns.FrozenMessagesShowCommittedPrefix` | src/run.rs:125-324 | while every new text keeps the committed characters, the older messages concatenate to exactly those characters |
| `StreamingDisplayRuns.ReaderSeesAPrefixOfTheText` | src/run.rs:163-324 | while the text only grows, what stands in the channel is at every moment a prefix of it |
| `StreamingFinalize.ReturnOkShowsFinalTextIff` | src/run.rs:340-381 | success of the finalizer means that the channel shows the final text if and only if the older messages are a prefix of it and no live message is left over beyond it |
| `StreamingFinalize.PlainSendOnlyWhenNothingIsShown` | src/run.rs:383-397 | the plain fallback runs only when the channel shows no text, with a limit of at least one only when no message was accepted, so no text appears twice |
| `StreamingFinalize.ReturnErrOnlyAfterFailure` | src/run.rs:355-366 | an error is returned only after a failed operation, with nothing running and a message in the channel |
| `StreamingFinalize.ReturnOkAfterFailure` | src/run.rs:355-373 | success in spite of a failed operation means that there was nothing to show, and nothing is shown |
| `StreamingFinalize.FinalizedTextIsShownIff` | src/run.rs:326-402 | the exact condition at the call: from any sound state, whatever the text did before and however other tasks interleave, a reply finalized with success is shown if and only if the older messages are a prefix of it and, when they are all of it, no live message or running send has text of its own; and the plain fallback starts from a channel without text |
| `StreamingFinalize.FinalTextIsShown` | src/run.rs:326-402 | from an empty display, through any updates that keep the committed characters, restarts included: success shows the final text if and only if it keeps the committed characters and is longer than them, or no live text is left |
| `StreamingFinalize.GrowingTextIsShown` | src/run.rs:326-402 | in particular, while the text only grows, success always means that the messages concatenate to exactly the final text |
| `StreamingFinalize.NothingHappensAfterReturn` | src/run.rs:326-402 | in the state in which the finalizer returned, late requests and completions change nothing |
| `StreamingTermination.RunUsesRemaining` | src/run.rs:175-324 | after the end of the turn, whatever tasks do in whatever order without a failure and without losing an outdated message: the number of operations still to come drops by exactly one with each completion and by nothing else |
| `StreamingTermination.RemainingIsBounded` | src/run.rs:104-231 | that number is between zero and one more than the number of segments left |
| `StreamingTermination.PollReturnsWhenNothingRemains` | src/run.rs:340-397 | a poll returns success exactly when no operation remains, and otherwise goes on |
| `StreamingTermination.LoopReturnsIff` | src/run.rs:340-401 | as long as nothing fails, the loop returns success exactly when as many operations have finished as there were to come and no outdated message was accepted without an id; before that it polls on |
| `StreamingTermination.FinalizerReturnsInTime` | src/run.rs:326-402 | the loop itself starts what is to come: without failures and lost messages it returns success after at most one useful round more than there are segments left, or twice as many when operations can finish between a request and the poll after it; rounds in which an operation just goes on do not count, however many there are |
| `StreamingTermination.LoopReturnsAfterFailure` | src/run.rs:355-373 | as soon as an operation has failed, the loop returns with the next poll, whatever happens before and after |
| `StreamingTermination.FinalizerReturnsIff` | src/run.rs:326-402 | from any sound state, for any events of the other tasks, failures, missing ids and operations that never finish included: the finalizer returns if and only if an operation has failed, or the final text can be shown (at least as long as the committed prefix; limit not zero, or nothing to show), no live message without an id is out of date or becomes so, and exactly the operations that were to come have finished; without a failure it then returns success |
| `StreamingTermination.UnshowableLoopNeverReturns` | src/run.rs:340-401 | a final text shorter than what is committed, or a limit of zero, keeps the loop polling for ever as long as no operation fails |
| `StreamingTermination.StaleMessageWithoutIdBlocks` | src/run.rs:257-268 | a live message without an id that is out of date can never be edited: nothing happens any more and every poll goes on |
| `StreamingCounterexamples.MissingIdBlocksForEver` | src/run.rs:257-268 | such a state is reached by a growing text whose first send gets no id, and the finalizer then never returns, whatever the tasks do |
| `StreamingCounterexamples.ShortFinalTextBlocksForEver` | src/run.rs:340-401 | with an empty final text in the state of the next row, the finalizer never returns unless an operation fails, whatever the tasks do |
| `StreamingCounterexamples.ShownAbIsReachable` | src/run.rs:163-324 | a state with a frozen "a" and a live "b" is reached with a limit of one |
| `StreamingCounterexamples.RestartedTextIsShownWrongly` | src/run.rs:340-381 | when the text restarts with "x" in that state, the finalizer reports success although the channel shows "ab" |
| `StreamingDisplayState.StreamingDisplay.TryRollover` | src/run.rs:125-161 | the in-place rollover makes exactly the specified new state, and says whether it rolled over |
| `StreamingDisplayState.StreamingDisplay.NextAction` | src/run.rs:175-231 | the locked section that chooses and marks the next action, branch by branch, against its specification |
| `StreamingDisplayState.StreamingDisplay.SpawnNextAction` | src/run.rs:233-324 | a chosen action becomes a running task |
| `StreamingDisplayState.StreamingDisplay.SpawnUpdate` | src/run.rs:163-173 | new text is stored and then the next action is started |
| `StreamingDisplayState.StreamingDisplay.FinishSend` | src/run.rs:243-289 | the section after a send: id, shown text and flags, in all three outcomes, and the message in the channel |
| `StreamingDisplayState.StreamingDisplay.FinishEdit` | src/run.rs:291-321 | the section after an edit, in both outcomes, and the edited message in the channel |
| `StreamingDisplayState.StreamingDisplay.KickAmid` | src/run.rs:399-400 | the finalizer's own request for the next action, with any steps of other tasks before and after it |
| `StreamingDisplayState.StreamingDisplay.Finalize` | src/run.rs:326-402 | the finalizer as a loop over an arbitrary schedule of other tasks, which may act between any two of its locked sections, ends in the specified state with the specified verdict |
| `AsyncToolRunsTheorems.ClaimRunsSpec` | src/tools/async_tool_manager.rs:582-608 | claiming succeeds exactly when every id is the caller's, and changes nothing but the claim flag of the caller's listed runs |
| `AsyncToolRunsTheorems.FailedClaimLeaksIff` | src/tools/async_tool_manager.rs:582-608 | a failed claim leaves the ids before the bad one claimed; it gives back what it took if and only if they were all claimed already |
| `AsyncToolRunsTheorems.UnclaimRunsSpec` | src/tools/async_tool_manager.rs:610-619 | unclaiming clears the flag of the listed runs that are still running and nothing else |
| `AsyncToolRunsTheorems.StepEndsOnce` | src/tools/async_tool_manager.rs:192-213 | no step brings back a run that was removed, reuses an id, or changes a run that has ended but for its claim flag, starts between number and insertion included |
| `AsyncToolRunsTheorems.EndIsNeverRewritten` | src/tools/async_tool_manager.rs:541-580 | over whole runs: a run leaves Running at most once; kill, completion and eviction racing in any order never rewrite its end |
| `AsyncToolRunsTheorems.EndStaysInEveryExecution` | src/tools/async_tool_manager.rs:192-213 | the same from the start of the program on, between any two moments of an execution: a run that is gone never comes back, and every listed id is one that the counter has passed |
| `AsyncToolRunsOutcomes.ListedRunsAreExplained` | src/tools/async_tool_manager.rs:541-580 | over every run of the program: each listed run was started as it says; if it is completed, its end was reported at its finish time with exactly its exit code, or its reply and no error, or its error and no reply; if it is killed, its owner's kill command was executed at its finish time, and it is a process with exit code -1; while it runs it says nothing of an end |
| `AsyncToolRunsOutcomes.RunEndsIff` | src/tools/async_tool_manager.rs:382-399 | a running run is ended by the report of its watcher and by the executed kill command of its owner if it is a process, each of them always, and by nothing else |
| `AsyncToolRunsOutcomes.KillTouchesOwnProcessOnly` | src/tools/async_tool_manager.rs:382-399 | a kill command changes at most the named run, and only if it is a running process of the caller and the command was executed |
| `AsyncToolRunsOutcomes.ListingEvictsTheOldest` | src/tools/async_tool_manager.rs:192-213 | over every run of the program: listing a run leaves at most 64 ended ones, evicts no running run, none at all while there are no more than 64 ended ones, and an ended one only if it finished no later than all ended runs that stay |
| `AsyncToolRunsTheorems.FinishedRunIsReported` | src/tools/async_tool_manager.rs:401-535 | in every interleaving of starts, completions, kills, waits and evictions: once the watcher of a listed run is done and every wait of its owner that names it has returned, its end was re-injected or a wait of its owner returned it as ended; waits of other callers do not matter |
| `AsyncToolRunsTheorems.FinishedRunIsReportedToItsOwner` | src/tools/async_tool_manager.rs:401-535 | the same from what the run's owner asks for, whatever other callers ask: if every wait of the owner names runs of its own and none of them is evicted during the wait, then once the watcher is done and those waits are over, the end was re-injected or returned by one of them |
| `AsyncToolRunsTheorems.OutlivedRunIsUnclaimed` | src/tools/async_tool_manager.rs:401-439 | a run that outlives all waits of its owner that name it is left unclaimed, so its end will be re-injected |
| `AsyncToolRunsTheorems.TurnedAwayWaitHidesTheEnd` | src/tools/async_tool_manager.rs:582-626 | the condition is needed: a wait turned away for a bad id leaves an earlier id claimed, and that run's end is reported nowhere |
| `AsyncToolRunsOutcomes.WaitReturnsTrueStatuses` | src/tools/async_tool_manager.rs:425-438 | over every run: each status a wait returns is one that the run had, as a run of the caller, at some moment |
| `AsyncToolRunsOutcomes.EveryWaitEnds` | src/tools/async_tool_manager.rs:401-439 | over every run: after two locked sections for each id and one more, whatever others do in between, a wait has returned or was turned away |
| `AsyncToolRunsState.AsyncToolRunManager.AutoEvict` | src/tools/async_tool_manager.rs:192-213 | eviction keeps every running run, leaves at most 64 ended ones and evicts none that ended later than one it keeps, whatever order the hash map lists its keys in |
| `AsyncToolRunsState.SortByTime` | src/tools/async_tool_manager.rs:196-205 | sorting by the recorded times gives a permutation in ascending order |
| `AsyncToolRunsState.OldestAreEvicted` | src/tools/async_tool_manager.rs:206-212 | removing the first entries of the sorted list is what eviction is specified to do |
| `AsyncToolRunsState.AsyncToolRunManager.TakeNumber` | src/tools/async_tool_manager.rs:289-290 | a start takes the counter's value and moves the counter on, ahead of the lock |
| `AsyncToolRunsState.AsyncToolRunManager.Register` | src/tools/async_tool_manager.rs:311-313 | the run is inserted under its id and eviction runs, in one section |
| `AsyncToolRunsState.AsyncToolRunManager.ListCompleted` | src/tools/async_tool_manager.rs:200-204 | the ended runs, each once and with its time, in whatever order the hash map lists them |
| `AsyncToolRunsState.AsyncToolRunManager.MarkCompleted` | src/tools/async_tool_manager.rs:541-580 | the outcome is recorded only on a run that is still running |
| `AsyncToolRunsState.AsyncToolRunManager.KillForSession` | src/tools/async_tool_manager.rs:382-399 | only the owner's running process run is killed; every error case leaves the table alone as specified |
| `AsyncToolRunsState.AsyncToolRunManager.ClaimRuns` | src/tools/async_tool_manager.rs:582-608 | the claiming loop, stopping at the first id that is not the caller's, against its specification |
| `AsyncToolRunsState.AsyncToolRunManager.UnclaimRuns` | src/tools/async_tool_manager.rs:610-619 | the unclaiming loop against its specification |
| `AsyncToolRunsState.WaitTask.Advance` | src/tools/async_tool_manager.rs:401-439 | each locked section of a wait against the step specified for it |
| `SessionWorkersTheorems.RemoveKeepsOneWorkerIff` | src/run/session.rs:73-76 | an explicit removal keeps one worker per key if and only if the key's worker cannot handle messages any more |
| `SessionWorkersTheorems.HandlersOfOneKeyNeverOverlap` | src/run/session.rs:39-146 | as long as explicit removals hit no worker that can still handle messages: of all workers of a key at most one can, across idle exits, panics and respawns, and it is the one the table names |
| `SessionWorkersTheorems.MessagesAreHandledInOrder` | src/run/session.rs:39-136 | under the same condition: the messages handled for a key are an increasing, repetition-free subsequence of those accepted, and exactly those that their worker finished |
| `SessionWorkersTheorems.WithoutRemovalsOneWorkerHandlesInOrder` | src/run/session.rs:39-146 | both without a condition on the state when nobody removes a session: one worker of a key at most can handle messages, and it handles them in order |
| `SessionWorkersTheorems.AcceptedMessageHasOneFate` | src/run/session.rs:103-136 | an accepted message is in exactly one of: handled, in handling, queued, lost in a handler's panic, discarded with the receiver of the worker it was accepted for, which then had idled out or panicked |
| `SessionWorkersTheorems.StepKeepsAbandonedEmpty` | src/run/session.rs:103-136 | a worker that leaves because no sender is left has an empty queue, discards nothing and never gets a sender again |
| `SessionWorkersTheorems.NoMessageIsDuplicatedOrForgotten` | src/run/session.rs:39-146 | in every run, removals included: the message has such a fate, unique among all workers of the key, so that it is discarded only at a worker that had idled out or panicked; and its dispatch reported success for exactly this acceptance |
| `SessionWorkersTheorems.AcceptedMessageCanBeHandledIff` | src/run/session.rs:47-136 | in every reachable state, removals included: a message that has just been accepted can still be handled in some continuation if and only if its worker could handle messages when it was sent; otherwise no continuation handles it, although its dispatch reports success |
| `SessionWorkersTheorems.AcceptedMessageCanBeLost` | src/run/session.rs:103-136 | a message sent after the idle timeout and before the receiver is dropped is accepted and never handled |
| `SessionWorkersTheorems.RemovalLetsHandlersOverlap` | src/run/session.rs:73-101 | with an explicit removal two handlers of one key can run at once |
| `SessionWorkersRetry.DroppedAfterTwoFailures` | src/run/session.rs:39-71 | over every run: a dispatch drops its message only after two failed sends, each to a worker whose receiver was gone; one that is accepted has failed at most once |
| `SessionWorkersRetry.EveryDispatchEnds` | src/run/session.rs:39-71 | over every run: after six steps of its own, whatever others do in between, a dispatch has been accepted or dropped |
| `SessionWorkersRetry.UndisturbedDispatchIsAccepted` | src/run/session.rs:39-101 | from every reachable state: a dispatch that nothing disturbs is accepted within five steps, by the worker the table names if its receiver is there, and otherwise by a new worker, which replaces the gone one in the table and can handle messages |
| `SessionWorkersExit.WorkersEndInOrder` | src/run/session.rs:111-136 | over every run: a worker ends because it idled out, its senders were gone or its handler panicked, as it says; once it has ended in order the table does not name it any more, and only a panicked one can still be named |
| `SessionWorkersExit.WorkerWithoutSendersDrainsItsQueue` | src/run/session.rs:113-126 | a worker without senders ends exactly when its queue is empty |
| `SessionWorkersExit.LeavingWorkerGoes` | src/run/session.rs:131-136 | on its way out a worker takes its own name, and no other, out of the table, and then drops its receiver with what is still queued |
| `SessionWorkersState.SessionWorkerCoordinator.SenderForKey` | src/run/session.rs:78-101 | the locked lookup reuses the table's worker or spawns one under a fresh id and enters it |
| `SessionWorkersState.SessionWorkerCoordinator.TrySend` | src/run/session.rs:47-70 | a send succeeds exactly while the receiver exists, and then queues the message last |
| `SessionWorkersState.SessionWorkerCoordinator.RemoveIfMatches` | src/run/session.rs:138-147 | an entry is removed only if it still names the given worker |
| `SessionWorkersState.SessionWorkerCoordinator.Remove` | src/run/session.rs:73-76 | the entry of the key is removed whatever it names |
| `SessionWorkersState.SessionWorkerCoordinator.Work` | src/run/session.rs:103-136 | each step of the worker loop against its specification |
| `SessionWorkersState.DispatchTask.Advance` | src/run/session.rs:39-71 | each step of dispatch, the retry after a failed send included, against its specification |
| `SseStream.ReadingChunksIsReadingTheWhole` | src/providers/openai_codex.rs:429-466 | however a text is cut, the line buffer hands on the lines of the whole text: same state, same success, same error |
| `SseStream.FoldingLinesIsFoldingBlocks` | src/providers/openai_codex.rs:468-517 | collecting data lines up to an empty line hands on the runs of data lines, the unfinished last one included |
| `SseStream.ReadingAStreamIsFoldingItsBlocks` | src/providers/openai_codex.rs:429-517 | the incremental reader hands on exactly the blocks of the whole text, in order, up to the first error |
| `SsePrinting.LinesAreReadBack` | src/providers/openai_codex.rs:434-460 | written lines are read back as they are, whether a line feed or carriage return and line feed ends them |
| `SsePrinting.BlocksAreReadBack` | src/providers/openai_codex.rs:468-492 | from the lines of written blocks exactly their data is read, without the white space before it; other fields and blocks without data do not count |
| `SsePrinting.WrittenBlocksAreRead` | src/providers/openai_codex.rs:429-492 | both together: a body written in blocks is read as the data of these blocks |
| `TextLaws.TrimOf` | src/providers/openai_codex.rs:268-277 | trimming takes the white space off both ends and nothing else |
| `TextLaws.WhitespaceIs` | src/providers/openai_codex.rs:268-277 | white space is the 25 characters of the Unicode property, by their codes |
| `SseBytes.ReadingBytesIsFoldingBlocksIff` | src/providers/openai_codex.rs:429-466 | for any cutting of the bytes: the reader gets to the end if and only if every chunk is valid UTF-8 by itself and the blocks hold no error, and then in the same state |
| `ToolCalls.RecordingKeepsDistinctCalls` | src/providers/openai_codex.rs:575-587 | indexed recording gives first-seen order, the last value of each id, every call without an id, and an index that always points at the call with the id |
| `ToolCalls.DistinctIdsAreDistinct` | src/providers/openai_codex.rs:575-587 | no id occurs twice in that list |
| `ToolCalls.RecordAllConcat` | src/providers/openai_codex.rs:575-587 | recording calls batch by batch is recording them all |
| `StreamEvents.FoldOfFinishedStream` | src/react.rs:242-265 | text deltas, then calls, then the end: the turn's loop and the whole-body loop give the same text and calls |
| `StreamEvents.GenerateProviderResponse` | src/react.rs:242-265 | the loop gives the folded response or the error, and within one provider turn the text passed to the display only grows and ends as the response's text |
| `CodexTurn.ChunkingDoesNotMatter` | src/providers/openai_codex.rs:428-517 | two ways of cutting one text at character boundaries give the same events and the same success or error |
| `CodexTurn.ParseSseIsTurnOfTheBlocks` | src/providers/openai_codex.rs:590-612 | parsing a whole body is folding over its blocks |
| `CodexTurn.StreamedTurnIsWholeTurn` | src/providers/openai_codex.rs:894-935 | streaming the bytes of a body in any chunks gives a response if and only if every chunk is valid UTF-8 by itself and parsing the whole body gives one, and then the same one |
| `CodexTurn.InvalidChunkFails` | src/providers/openai_codex.rs:434-435 | a chunk that is not UTF-8 by itself makes the turn fail |
| `CodexTurn.EventsBeforeAnErrorAreSent` | src/providers/openai_codex.rs:894-935 | when a stream fails, all events of the chunks before the failing one have been sent, and then the error |
| `CodexTurn.ResponseCallsAreDistinct` | src/providers/openai_codex.rs:519-612 | the calls of a response are those announced anywhere in the body, each id once |
| `CodexItems.WrittenCallIsRead` | src/providers/openai_codex.rs:314-356 | a call written in any of the accepted forms (two kinds; id under `call_id` or `id`; name at the top or under `function`; arguments as text or object in one of three places; anything else beside them) is read back with its id, its name and its arguments, if the JSON library reads back the printed arguments |
| `CodexItems.ItemIsCallIff` | src/providers/openai_codex.rs:314-331 | an item is a call if and only if it is of one of the two kinds and has a name, its own or else that of its `function` |
| `CodexItems.OtherArgumentsAreNone` | src/providers/openai_codex.rs:340-356 | arguments that are missing, or neither an object nor the text of one, become an empty object |
| `CodexItems.WrittenCallsAreCollected` | src/providers/openai_codex.rs:358-378 | from a response with calls nested to any depth exactly these calls are collected, in order, with their arguments |
| `CodexTexts.WrittenTextIsRead` | src/providers/openai_codex.rs:268-312 | the text of a written response: the direct one, or else those of its items and parts of three kinds, one on a line, without the white space around them, blank ones left out |
| `CodexTexts.WrittenErrorIsRead` | src/providers/openai_codex.rs:390-419 | the message of a written error is read from each of its four places, in their order of precedence; a blank one is no error |
| `CodexTexts.OtherEventsAreNoErrors` | src/providers/openai_codex.rs:390-419 | events of other kinds are no errors |
| `CodexBody.WrittenBodyIsRead` | src/providers/openai_codex.rs:429-612 | a whole round trip: of a written body with deltas, whole texts, announced calls, responses, errors, end markers and lines that are no JSON, in blocks of one or more data lines, exactly the texts and calls are read, arguments included, or the first error |
| `CodexBody.AnnouncedCallsAreMade` | src/providers/openai_codex.rs:429-935 | however the bytes of such a body without an error arrive in valid chunks: calls with ids of their own are exactly the calls of the turn, in order, with the arguments that were written |
| `CodexResponse.ResponseOfABody` | src/providers/openai_codex.rs:519-612 | the response to a body in closed form: the first stream error, or else all text deltas, preceded by the first whole text only if no delta comes before it, with the distinct calls |
| `CodexResponse.EventsEmit` | src/providers/openai_codex.rs:528-560 | the flags that suppress whole texts let exactly the specified text through |
| `CodexStreamState.CodexStreamAccumulator.PushBytes` | src/providers/openai_codex.rs:429-449 | the in-place loop over a chunk gives the specified events, buffer and error |
| `CodexStreamState.CodexStreamAccumulator.ProcessLine` | src/providers/openai_codex.rs:468-483 | comments and other fields are ignored, data lines collected, an empty line flushes |
| `CodexStreamState.CodexStreamAccumulator.FlushEvent` | src/providers/openai_codex.rs:485-517 | a block is parsed as one value or line by line, and nothing is done without data lines |
| `CodexStreamState.CodexStreamAccumulator.ProcessEvent` | src/providers/openai_codex.rs:519-573 | one event's effect on text flags, events and calls, or the stream error |
| `CodexStreamState.CodexStreamAccumulator.RecordToolCall` | src/providers/openai_codex.rs:575-587 | the in-place list and index against the specified recording |
| `CodexStreamState.CodexStreamAccumulator.Finish` | src/providers/openai_codex.rs:451-466 | the trailing line, the last block, then the calls and the end |
| `GeminiStream.ChunkingDoesNotMatter` | src/providers/gemini.rs:271-373 | two ways of cutting one text at character boundaries give the same events and the same success or error |
| `GeminiStream.EventsOfABody` | src/providers/gemini.rs:271-373 | however the bytes of a body arrive, it is read to the end if and only if every chunk is valid UTF-8 by itself and every block is `[DONE]` or JSON; then it emits its texts in order, its distinct calls and the end |
| `GeminiBody.WrittenBodyIsRead` | src/providers/gemini.rs:236-373 | a round trip: however the bytes of a written body arrive in valid chunks, the events are the texts that were written, in order, then the calls with their ids, names and arguments, then the end |
| `GeminiBody.ReplyIsRead` | src/providers/gemini.rs:335-345 | the parts of a reply are those of its first candidate, whatever else it holds |
| `GeminiBody.PartIsRead` | src/providers/gemini.rs:236-261 | a written part is read as its text, unless empty, and its call, with the id from either place and an empty object for missing arguments |
| `GeminiStreamState.GeminiStreamAccumulator.PushBytes` | src/providers/gemini.rs:272-291 | the in-place loop over a chunk gives the specified events, buffer and error |
| `GeminiStreamState.GeminiStreamAccumulator.ProcessPart` | src/providers/gemini.rs:346-369 | one part's text or call, recorded under its id |
| `GeminiStreamState.GeminiStreamAccumulator.FlushEvent` | src/providers/gemini.rs:325-373 | a block that is not JSON is an error; otherwise all its parts are processed |
| `GeminiStreamState.GeminiStreamAccumulator.ProcessLine` | src/providers/gemini.rs:309-323 | the line rules of the reader |
| `GeminiStreamState.GeminiStreamAccumulator.Finish` | src/providers/gemini.rs:293-307 | the trailing line, the last block, then the calls and the end |
| `XmlCalls.FormatCallsXml` | src/dispatch.rs:294-304 | the printing loop gives the specified text |
| `XmlCalls.PrintedCallsAreCapturedIff` | src/dispatch.rs:273-304 | for any list of calls, the lazy captures in the printed text are the printed names and arguments if and only if no call closes its own element: no `</name>`, whitespace, `<arguments>` in a name and no `</arguments>`, whitespace, `</tool_call>` in printed arguments |
| `XmlCalls.RoundTrip` | src/dispatch.rs:273-304 | with a JSON printer and parser that round-trip, printing calls with trimmed names and parsing the text loses nothing but the ids |
| `XmlRoundTrip.RoundTripIff` | src/dispatch.rs:273-304 | if the JSON library reads back what it prints and no cut-off printed arguments as the same: for every list of calls, parsing the printed text gives the list without its ids if and only if all names are trimmed and no call closes its own element |
| `XmlRoundTrip.ClosedNameIsLost` | src/dispatch.rs:273-304 | a call named `</name><arguments>` is found as another call, whatever its arguments and the JSON library |
| `XmlProse.WrittenCallsAreCaptured` | src/dispatch.rs:273-292 | calls with any prose around them and any white space between their tags: exactly these calls are found, in order, if neither name nor arguments close their own element |
| `XmlProse.WrittenCallsAreParsed` | src/dispatch.rs:273-292 | each of them with its name without the white space around it, the value of its arguments or an empty object if they are no JSON, and no id |
| `SchemaNormalizer.NormalizedAtEveryPlace` | src/providers/openai_codex.rs:199-250 | the schemas inside the normalized schema are those inside the given one at the same places, each normalized; none is added, dropped or moved |
| `SchemaNormalizer.NormalizedIsTidyEverywhere` | src/providers/openai_codex.rs:199-250 | every node has object-valued `properties`, string-only `required` and array-valued `anyOf`, `oneOf`, `allOf`, where present |
| `SchemaNormalizer.UnchangedIff` | src/providers/openai_codex.rs:199-250 | a schema is left alone if and only if it is tidy at every place |
| `SchemaNormalizer.NormalizeIsIdempotent` | src/providers/openai_codex.rs:199-250 | normalizing twice is normalizing once, for every JSON value |
| `SchemaNormalizer.StringsAreKept` | src/providers/openai_codex.rs:216-222 | of `required` exactly the strings are kept, each as often as before |
| `SchemaNormalizer.StringsOfConcat` | src/providers/openai_codex.rs:216-222 | they keep their order |
| `SchemaNormalizer.OtherFieldsStay` | src/providers/openai_codex.rs:199-250 | fields that are no keywords keep their value at every place |
| `SchemaNormalizer.AlternativesStay` | src/providers/openai_codex.rs:235-247 | alternatives keep their number and places, and those that are no objects their value |
| `SchemaNormalizer.ToolSchemaIsNormalized` | src/providers/openai_codex.rs:252-266 | a tool schema that is sent is an object schema with `type` "object" and object-valued `properties`, tidy everywhere; exactly such schemas are sent unchanged; and normalizing again changes nothing |
| `SchemaNormalizer.ToolSchemaKeepsItsParts` | src/providers/openai_codex.rs:252-266 | below the top, and in every top field but `type` and `properties`, the tool schema is the given one normalized |
| `SchemaShape.NormalizedIsClean` | src/providers/openai_codex.rs:199-250 | told by the names of the fields, for every JSON value: in the normalized schema `properties` holds clean schemas by name, `required` strings only, `items` a clean schema, `additionalProperties` a clean schema if it is an object, `anyOf`, `oneOf`, `allOf` lists whose objects are clean |
| `SchemaShape.UnchangedIffClean` | src/providers/openai_codex.rs:199-250 | exactly the clean schemas stay as they are, and a value that is no object becomes the schema of an object without properties |
| `SchemaShape.SentSchemaIsClean` | src/providers/openai_codex.rs:252-266 | the schema that is sent for a tool is clean and has type "object" and `properties`; exactly such schemas are sent as they are |
| `Redaction.RedactInPlace` | src/telemetry.rs:98-177 | the loop on one string, which can grow, terminates and gives the recursively specified result or panics exactly where it does |
| `RedactionPieces.RedactReplacesTheSecrets` | src/telemetry.rs:98-177 | every text has exactly one cut in which each kept part ends with the first occurrence of the key, each secret behind it is not empty, has no terminator (but for the blank of `bearer ` after an authorization key) and ends at a terminator or the end, and every key without a value is followed by a terminator; the result of a pass is that cut with the secrets, and nothing else, replaced by the marker |
| `Redaction.OnlySecretsAreReplaced` | src/telemetry.rs:98-177 | the pieces that the search finds make up the text, and the result is those pieces with the secrets replaced; it panics exactly when a key without a value is followed by a terminator of more than one byte |
| `Redaction.FindFromIsFirst` | src/telemetry.rs:107-109 | the search finds the first occurrence, in any letter case, or none if there is none |
| `RedactionSpelling.OccursIffSpelled` | src/telemetry.rs:107-109 | told by character codes: a key is found exactly where the text has its characters, up to the case of ASCII letters |
| `RedactionSpelling.CaseDoesNotMatter` | src/telemetry.rs:107-109 | texts that differ only in the case of ASCII letters have the same occurrences of every key |
| `RedactionSpelling.SensitiveKeyIff` | src/telemetry.rs:82-96 | the key of a JSON object is sensitive if and only if one of the eight words is spelled in it, in any letter case |
| `Redaction.OneByteCharacters` | src/telemetry.rs:136-139 | stepping one byte stays on a character boundary exactly after a one-byte character |
| `RedactionTheorems.PassMasks` | src/telemetry.rs:98-143 | after a pass every occurrence of its key is followed by the marker, a terminator or the end of the text, and no other key is unmasked |
| `RedactionPanics.NoBreakSpacePanics` | src/telemetry.rs:136-139 | the text "token=", a no-break space and "x" makes the pass panic |
| `RedactionPanics.PassPanicsIff` | src/telemetry.rs:98-143 | for every key but the authorization keys and for every text, the pass panics if and only if some occurrence of the key is followed by a terminator of more than one byte and a terminator lies between the end of any earlier occurrence and its own end |
| `RedactionLive.AnyPassPanicsIff` | src/telemetry.rs:98-177 | for every pass, the authorization and the bearer pass included, and for every text: it panics if and only if some occurrence of the key that is not inside the value of an earlier such occurrence is followed by a terminator of more than one byte |
| `RedactionPanics.PassKeepsOneByteSpaces` | src/telemetry.rs:98-177 | no pass panics on a text whose whitespace is ASCII, and its result is such a text again |
| `RedactionPasses.PassesMaskAllKeys` | src/telemetry.rs:39-60 | after any list of passes every key of the list is masked, whatever later passes replaced |
| `RedactionPasses.NoKeyIsFollowedByASecret` | src/telemetry.rs:45-60 | in sanitized text every sensitive key with either separator and every bearer prefix is masked, all at once, and sanitizing does not panic on a text whose whitespace is ASCII |
| `RedactionSpelling.SpelledKeyIsMasked` | src/telemetry.rs:45-177 | when a text spells a sensitive word and `=` or `:`, or `bearer `, in any letter case, with nothing before it that the passes look for, and a value follows: whatever that value and the rest of the text are, the text that is written begins with the same characters and the marker `***REDACTED***` |
| `RedactionSpelling.OneSecretIsReplaced` | src/telemetry.rs:45-185 | the written text in full when that is the only secret: the value up to the first white space, quote, bracket, comma, ampersand or semicolon, with `bearer ` before it when the word is `authorization`, is replaced by the marker, nothing else changes, and nothing panics |
| `RedactionOfJson.OpenPlacesStay` | src/telemetry.rs:62-80 | in sanitized JSON every place that is reached by keys that are not sensitive holds what it held, masked inside; nothing is added, dropped or moved |
| `RedactionOfJson.SecretPlacesAreMasked` | src/telemetry.rs:62-80 | under a sensitive key, at any depth, there is the marker and nothing else |
| `RedactionOfJson.WrittenJsonIsMasked` | src/telemetry.rs:39-43 | if the JSON library reads back what it prints: who reads the written log text finds the marker and nothing else under every sensitive key that was there, everything else in its place, and nothing more; sanitizing the written text again changes nothing |
| `RedactionOfJson.WrittenTextIsMasked` | src/telemetry.rs:39-60 | log text that is not JSON is written with every sensitive key and every bearer prefix masked, and without a panic if its whitespace is ASCII |
| `RedactionTheorems.RedactIsIdempotent` | src/telemetry.rs:98-143 | a pass over its own result changes nothing, for any needle |
| `ContextSpans.MergeContextSpans` | src/memory/mod.rs:1056-1080 | the sort and the merging loop give spans that are ordered, disjoint and not adjacent and cover exactly the union of the saturated windows |
| `ContextSpans.MergedIsUnique` | src/memory/mod.rs:1056-1080 | there is only one way to write a set of ids as such spans, so the order of the matches does not matter |
| `ContextSpans.SameSpanIff` | src/memory/mod.rs:1050-1080 | two ids are in one span exactly when everything between them is covered |
| `ContextSpans.WindowIsNear` | src/memory/mod.rs:1060-1068 | under saturating arithmetic a window holds exactly the ids within the radius |
| `ContextSpans.SortByStartSorts` | src/memory/mod.rs:1069-1069 | the spans are sorted by their start |
| `ContextMessages.RecentIdsAreTheNewest` | src/memory/mod.rs:1161-1183 | the recent ids are as many as the window holds, from this conversation, and newer than all the rest of it |
| `ContextMessages.FetchContextMessages` | src/memory/mod.rs:1082-1129 | for each span, the messages of the conversation in it that are not in the recent history, in order |
| `ShortTermRecall.MatchIsInOneSpan` | src/memory/mod.rs:1056-1080 | each match lies in exactly one span |
| `ShortTermRecall.ContextOfAMatch` | src/memory/mod.rs:546-580 | the context of a match contains the match, and exactly the messages of its conversation outside the recent history that are connected to it by ids near some match |
| `ShortTermRecall.FetchShortTermCandidates` | src/memory/mod.rs:503-583 | one hit per match outside the recent history, in order, with its text, role and similarity and with exactly that context |
| `RecallHits.MatchesAreTheHits` | src/memory/mod.rs:518-549 | the matches are exactly the neighbours that are messages of the conversation, by the user or the assistant, and outside the recent history, nearest first, each with one less half its squared distance as similarity |
| `RecallHits.UserIsNamed` | src/memory/mod.rs:1131-1141 | a user's message is shown with the name, without the white space around it, in square brackets before it, if there is a name |
| `RecallHits.OthersAreNotNamed` | src/memory/mod.rs:1131-1141 | every other message is shown as it is |
| `RecallHits.ContextIs` | src/memory/mod.rs:1082-1129 | the context of a hit holds, in the table's order, exactly the messages of the conversation that are connected to it and outside the recent history |
| `RecallHits.RecentMessagesAre` | src/memory/mod.rs:1161-1183 | the recent history holds no more messages than its window, and a message of the conversation is outside it only if it is full of newer ones |
| `RecallRanking.RankRecallHits` | src/memory/recall.rs:19-62 | sort, threshold, deduplication and limit in one loop: the chosen hits are eligible, best first, of distinct keys and no more than allowed, and an eligible hit is left out only for a better one of its key or for a full list of better ones |
| `RecallRanking.RankingIsUnique` | src/memory/recall.rs:19-62 | there is exactly one such ranking, ties decided by arrival |
| `RecallRanking.SmallerLimitIsPrefix` | src/memory/recall.rs:47-51 | a smaller limit returns the beginning of what a larger one returns |
| `RecallRanking.ZeroLimitReturnsOne` | src/memory/recall.rs:47-51 | with a limit of zero one hit is returned all the same if any candidate is eligible |
| `RecallRanking.SortByScoreIsOrdered` | src/memory/recall.rs:23-27 | the stable sort orders by score and, among equal scores, by arrival |
| `RecallRanking.SameKeyIff` | src/memory/recall.rs:64-70 | for a lower-casing that works word by word, contents have one normalized key exactly when they have the same words up to letter case, in the same order; and an empty key exactly when they have no words |
| `RecallRanking.WordsOfJoin` | src/memory/recall.rs:64-70 | joining words with blanks and splitting at whitespace gives the words back |
| `RecallKeys.SpacedWordsAreFound` | src/memory/recall.rs:64-70 | the words of a content are found whatever white space stands before, between and behind them |
| `RecallKeys.SpacingDoesNotMatter` | src/memory/recall.rs:64-70 | so white space makes no difference to the key, which is the words joined by single blanks and lower-cased |
| `RecallRanking.PreferLongTerm` | src/memory/mod.rs:427-437 | with the long-term store preferred: its ranking, filled up with the short-term ranking for the places that are left, never more than the limit |
| `Approvals.ApprovalIdsAreDistinct` | src/approval.rs:119-119 | different numbers make different ids |
| `ApprovalTheorems.IdsAreNeverReused` | src/approval.rs:115-142 | no two requests ever get one id |
| `ApprovalTheorems.EachIdIsResolvedOnce` | src/approval.rs:161-181 | over every run, an id is resolved successfully at most once and only by the user who made the request |
| `ApprovalTheorems.ResolveSucceedsIff` | src/approval.rs:161-181 | resolving succeeds exactly for the user of a registered request that was neither resolved nor taken back |
| `ApprovalTheorems.DecisionIsTheUsers` | src/approval.rs:145-181 | a requester is told a decision other than the timeout only if its own user resolved its own request with that decision |
| `ApprovalTheorems.PendingIff` | src/approval.rs:115-181 | a registered request is in the registry exactly until it is resolved or its requester returns, so a request whose prompt could not be sent stays |
| `ApprovalTheorems.AcceptedResolutionIsToldUnlessTooLate` | src/approval.rs:145-181 | after an accepted resolution a requester that returns is told that decision, unless it had already taken the timeout, which it then returns |
| `ApprovalTheorems.NextPollTells` | src/approval.rs:151-155 | a value in the channel wins over an elapsed timeout |
| `ApprovalOutcomes.PollTellsIff` | src/approval.rs:145-159 | over every run: the next poll of a waiting requester tells the decision its request was resolved to; if it was not resolved, it tells the timeout once the time is over, and nothing before |
| `ApprovalOutcomes.TimeoutIsNotEarly` | src/approval.rs:145-159 | over every run: a requester is told the timeout only if its time was over at one of its polls, or if its request was resolved to that |
| `ApprovalOutcomes.CancelledIsNeverTold` | src/approval.rs:145-159 | a requester that is cancelled before it has returned is told nothing any more, and its entry stays in the registry |
| `ApprovalTheorems.ApprovalCanComeTooLate` | src/approval.rs:145-181 | a callback can be told that its approval was accepted while the requester returns the timeout |
| `ApprovalsState.ApprovalRegistry.NumberRequest` | src/approval.rs:119-119 | the counter hands out its value and moves on |
| `ApprovalsState.ApprovalRegistry.InsertRequest` | src/approval.rs:120-142 | the request is pending under its id for its user |
| `ApprovalsState.ApprovalRegistry.RemoveRequest` | src/approval.rs:156-157 | the entry is gone when the wait returns |
| `ApprovalsState.ApprovalRegistry.ResolveRequest` | src/approval.rs:161-181 | unknown id, wrong user, or resolved and sent |

## Left out

- Discord, HTTP, OAuth, process spawning, WASM and host sandboxes: foreign calls. Where a state machine depends on one, its outcome is a step chosen freely.
- JSON text: `serde_json` reading and printing are the two functions of `JsonValues.Codec`, and laws about them are hypotheses. Numbers are their literals.
- Real time: timeouts and edit intervals are free booleans, recorded times are integers; the duration of a poll and prompt wake-ups of waiters (`src/tools/async_tool_manager.rs:408`) are not modelled.
- Log lines and trace fields, everywhere.
- Poisoned mutexes, cancellation of spawned tasks and the end of the process in the display, the run manager and the session workers.
- StreamingDisplay: the tasks and the chat channel are fields of the same object, and the other tasks' steps between the finalizer's sections are parameters, `start` and `schedule`.
- The transparency footer appended to a reply (`src/run.rs:521`) is part of the final text given to the finalizer.
- A start that fails between taking its number and the insertion: the number is just never listed.
- AsyncToolRunManager: run ids are their sequence numbers, output files and snapshots are not modelled, and the order in which the hash map lists its keys is a parameter.
- WaitTask, DispatchTask: one call of `wait_for_session` or `dispatch` is an object advanced by one step at a time, because other callers act between its steps; a timeout of a wait is one of its steps.
- Listing and fetching snapshots of runs (`src/tools/async_tool_manager.rs:331-380`): readers without effect on the protocol.
- SessionWorkerCoordinator: handlers are opaque steps that finish or panic; channels are queues in the worker's record.
- Worker counters and approval counters are unbounded; their wrap-around at 2^64 is not modelled.
- CodexStreamAccumulator, GeminiStreamAccumulator: the vector of events that callers pass along is a field of the object.
- The text of the errors for invalid UTF-8 and invalid JSON, which includes the library's message.
- Which events reach the caller before an error depends on how the body is cut into chunks, since those of the failing chunk are dropped (`src/providers/openai_codex.rs:902-914`). Whether a text fails does not depend on it.
- `parse_provider_response` of Gemini and the encoding of requests for both providers: one-way mappings without an inverse in the code.
- `format_results_xml` and the native dispatcher (`src/dispatch.rs:201-266`): string building without a parser.
- XML parsing: the regular expression is modelled by its matcher, lazy captures included, not by a general engine; the "tc" ids and the warning for a call with bad JSON arguments are not modelled.
- Truncation of log lines and their line breaks (`src/telemetry.rs:20-37`).
- PassPanicsIff: covers the keys whose values end at the first terminator; the authorization and bearer passes are covered by AnyPassPanicsIff, whose condition is recursive.
- Redact: positions are character positions; the one place where the code's byte positions matter is modelled as `StepsOntoCharacter`.
- RoundTripIff: what the JSON library does is a hypothesis, `IsReadable`.
- The order of the keys of a JSON object.
- SQLite, sqlite-vec and embeddings: the table is a sequence in the order of its key, and the nearest neighbours of a query are a parameter.
- FetchShortTermCandidates: the radius is at most the largest i64, which the configuration ensures by far (it clamps it to 5).
- RecallRanking: scores are real numbers; comparison with NaN, where the sort treats hits as equal, is not modelled. `to_lowercase` is a parameter.
- PreferLongTerm: requires a limit of at least one, which the configuration ensures; the same content can occur in both stores and is then returned twice, as the code does.
- Long-term facts, their weights and the duplicate check on insertion: database queries.
- ApprovalRegistry: one-shot channels are a map from id to the value sent, and the fields of a request that nothing depends on are left out.
- Approvals.Step: `request_approval` deleting the prompt after a timeout is a foreign call.
- Delegated-agent recursion, the reaction and command loops, configuration, routing, authentication, prompt assembly, the CLI and the daemon.
