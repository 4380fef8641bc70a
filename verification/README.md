# Verified models of the run-event pipeline and of process containment

These Dafny files model the small protocols at the heart of the agent runtime and prove what they
promise, for every input, every chunking and every interleaving.

* **The run stream** (`Wire`, `RunStream`): the rules of one run's events against a declarative language
  of traces.
* **Server-sent events** (`Utf8`, `Sse`, `SseMeaning`, `SseDecoder`, `SseRoundTrip`): the incremental byte decoder
  against one reading of the whole stream, what every line and frame means, and the round trip with the
  encoder. Line ends and the byte order mark follow section 9.2.5 of the WHATWG HTML Living Standard,
  fields section 9.2.6.
* **The frame writer and its supervisor** (`WireRun`, `RunEventFrames`, `Supervision*`, `SupervisedContent`,
  `SupervisedRun`, `SupervisedWire`, `RunExit`, `ContainmentLosses`): what the frame of each core event says,
  budgets, the terminal that is decided once and committed once, delivery through a one-frame slot, deadlines
  over real time, and what a client decodes in the end.
* **The tool-call barrier and the merger** (`ToolBarrier*`, `ToolCallBarrier`, `MergedEvents*`,
  `RelayedEvents`, `RelayedResultsWire`): a hand-out and accept protocol under every interleaving of its callers,
  and the content of a tool's result from its forward to the wire.
* **The text tool protocol** (`MarkdownFences`, `TextToolStream`, `TextToolStreamParser`, `JsonText`,
  `JsonTextSound`, `JsonEscapes`, `TextToolCall`, `TextToolRefusals`): the streaming recogniser, the call boundary
  derived from the JSON grammar of RFC 8259 in both directions, and the rule and place of every refusal.
* **Process containment** (`AnchoredLeader*`, `KillUntilGone`, `LostGroup*`, `TurnSlots`, `TurnSlotEndings`,
  `AnchoredTurn`, `Admission`, `Quarantine*`, `RunPlaces`): the anchored leader against a small model of the
  kernel, the slots of a pool across a turn's reap and the retention of its group, and the places of
  supervised runs from admission to quarantine.
* **Two loop cores** (`ToolInput`, `CliLines`, `CliLineChannel`, `CliRun`, `CliRunEndings`, `CliExchange`): the
  iterative check of an object graph, and the bounded exchange with a command-line program.

A protocol is a state machine whose steps are the regions no other task can interrupt: the code between
two awaits, or a hold of a lock. Where the source updates an object, a class with the same fields has one
method per region, and its contract says that the method is the step. What a step does is then told a
second time, from the state before and after it or from the whole run, without the functions the step is
made of. Clock readings, the kernel's
answers, the JSON codec of the wire and the host's tools are parameters.

Where code and documentation differ, the model follows the code:

* The decoder's class comment says that a consumer may feed every chunk; after a violation or a close
  `feed` raises, so `Feed` answers None then (`packages/client/src/agent_runtime_client/sse.py:70-79` and
  `:120-122`). `Sse.AViolationIsLastAndCloses` says that a violation always closes the decoder, and
  `Sse.AnUnknownFieldCloses` gives an input whose next chunk is refused.
* The stream parser's comment speaks of a call on its own line. A piece that starts in the middle of a
  line counts as a line start when nothing is held back (`src/agent_runtime/text_tool_protocol.py:275-276`):
  `MidLineCallsAreRecognised` gives the text, and `RecognitionIsExactUnlessAstray` the condition, told from what
  was shown and what is held, under which exactly the comment holds for every next text.
* Fence tracking stops for good at a line break other than LF or CRLF (`:288-301`), but what it keeps of a
  line that ends in a carriage return is continued by a line feed that comes later:
  `CompositionFailsExactlyAtALoneReturn` says exactly when tracking in parts goes wrong,
  `TrackingIsTrueExactlyOnWholeBreaks` when it tells the fence, and `NoCallIsShownExactly` when no call is
  shown outside a fence.
* The search for an opening line goes on behind each occurrence (`:279-285`), so it misses one that overlaps
  another: `TheSearchMissesOverlapsOnly` says for which opening lines it misses none at a line start. A
  namespace without a line feed is always one of those (`OneLineIsApart`), the others are named by
  `PlainNamespace`.

## Model

| member | source | states |
|---|---|---|
| `RunStreams.AcceptedIsTheRunLanguage` | packages/client/src/agent_runtime_client/run_stream.py:142-252 | A trace of any length is accepted event by event exactly when it is in the declarative run language. |
| `RunStreams.AcceptsExactlyWhatMayFollow` | packages/client/src/agent_runtime_client/run_stream.py:184-242 | After any trace of the language the next event is accepted exactly when the language lets it follow. |
| `RunStreams.RunsAreWellFormed` | packages/client/src/agent_runtime_client/run_stream.py:126-134 | Every accepted run opens with its one run_started, keeps one run id, is numbered 0, 1, 2, … and ends with its one terminal. |
| `RunStreams.PromisesTellTheTrace` | packages/client/src/agent_runtime_client/run_stream.py:135-141 | What the stream remembers is exactly what the trace says: due number, run id, terminal, called and answered ids, side effects. |
| `RunStreams.ViolationNamesTheFirstBrokenRule` | packages/client/src/agent_runtime_client/run_stream.py:184-242 | Which rule a refusal names, told from the trace alone, for all nine rules. |
| `RunStreams.CancellationIsAlwaysAcceptedNext` | packages/client/src/agent_runtime_client/run_stream.py:157-183 | Of any started, unended run the cut-short ending the stream names is accepted next, and exactly one of cancelled and interrupted is. |
| `RunStreams.CutShortEndingMayFollow` | packages/client/src/agent_runtime_client/run_stream.py:170-183 | The cut-short ending is a failure exactly when a side effect may have happened. |
| `RunStreams.RunStream.Accept` | packages/client/src/agent_runtime_client/run_stream.py:142-147 | Names the first broken rule and leaves the stream as it was, or records the event. |
| `RunStreams.RunStream.FindBrokenRule` | packages/client/src/agent_runtime_client/run_stream.py:184-242 | The method with its branches finds the rule the specification names. |
| `RunStreams.RunStream.CancellationTerminal` | packages/client/src/agent_runtime_client/run_stream.py:157-169 | Refuses a run that never started or has ended, otherwise gives the due cut-short ending. |
| `RunStreams.RunStream.Close` | packages/client/src/agent_runtime_client/run_stream.py:148-156 | Truncated exactly when no terminal was accepted. |
| `Sse.ChunksReadAsTheWholeStream` | packages/client/src/agent_runtime_client/sse.py:90-146 | Any chunking of any byte stream is read as its lines are, one after another: the same items and the same decoder state. What a line and a frame mean is told in `SseMeaning`. |
| `Sse.ChunkingDoesNotMatter` | packages/client/src/agent_runtime_client/sse.py:90-111 | Two chunkings of one stream give the same items, the same state and so the same close. |
| `Sse.BytesReadAsLines` | packages/client/src/agent_runtime_client/sse.py:96-137 | Reading byte by byte is splitting the stream into lines (LF, CR, CRLF) and reading the lines. |
| `Sse.RunAppend` | packages/client/src/agent_runtime_client/sse.py:90-111 | The state after a prefix depends on that prefix only: reading on from it reads the rest. |
| `Sse.ReadingKeepsTheLineState` | packages/client/src/agent_runtime_client/sse.py:155-169 | Reading a line never disturbs what the decoder knows about line ends, and keeps the size within the limit. |
| `Sse.AViolationIsLastAndCloses` | packages/client/src/agent_runtime_client/sse.py:67-78 | Of every stream, a violation is the last item and closes the decoder for good, and nothing else of a stream closes it. |
| `Sse.AnUnknownFieldCloses` | packages/client/src/agent_runtime_client/sse.py:120-122 | One line of an unknown field closes the decoder, so the next chunk is refused: a concrete input. |
| `SseMeaning.ALineIsOneField` | packages/client/src/agent_runtime_client/sse.py:155-169 | Every line is one field of one name and value: no colon in the name, one space after the colon in neither. |
| `SseMeaning.ALineIsReadAsItMeans` | packages/client/src/agent_runtime_client/sse.py:155-179 | Every line, told from its bytes: a comment or retry field does nothing, a field of the frame is kept unless it was given before, and text that is not UTF-8 or a field not known ends the stream as a malformed frame. |
| `SseMeaning.ABlankLineEndsTheFrame` | packages/client/src/agent_runtime_client/sse.py:180-209 | A blank line does what the fields of the frame mean: nothing without fields; else the first of missing field, invalid JSON, type mismatch, what parsing names, id mismatch, broken stream rule; else the event. |
| `SseMeaning.TheIdIsTheNumber` | packages/client/src/agent_runtime_client/sse.py:202-206 | The id of a frame is the decimal text of the event's number, without a leading zero. |
| `SseMeaning.LinesGiveTheFrame` | packages/client/src/agent_runtime_client/sse.py:155-179 | The lines of a frame give it exactly their fields, and the first malformed line or field given twice ends the stream. |
| `SseMeaning.TheBytesOfAFrameAreReadAsTheyMean` | packages/client/src/agent_runtime_client/sse.py:90-209 | A frame as bytes, with any line ends and in any chunks, does exactly what its lines and fields mean. |
| `SseMeaning.CommentsAndRetryChangeNothing` | packages/client/src/agent_runtime_client/sse.py:155-173 | A comment or retry line, with any line end, put before any line of any stream changes nothing that is read and not the close, unless a frame becomes too large by it. |
| `SseMeaning.AByteOrderMarkChangesNothing` | packages/client/src/agent_runtime_client/sse.py:155-158 | One byte order mark before a stream that has none changes nothing that is read, unless its first frame becomes too large by it. |
| `SseMeaning.TooManyBytesOfAFrameAreRefused` | packages/client/src/agent_runtime_client/sse.py:139-147 | A line that makes its frame larger than one mebibyte ends the stream, finished or not; the limit itself is still held. |
| `Utf8.ValidIsTheEncoding` | packages/client/src/agent_runtime_client/sse.py:161-164 | Bytes decode as UTF-8 exactly when they are the encoding of scalar values, surrogates and overlong forms excluded. |
| `SseDecoder.RunStreamDecoder.Feed` | packages/client/src/agent_runtime_client/sse.py:90-111 | The loop over a chunk returns the items and reaches the state of the byte machine; a closed decoder refuses the chunk and keeps its state. What that machine reads of each line is `SseMeaning.ALineIsReadAsItMeans`. |
| `SseDecoder.RunStreamDecoder.ReadNext` | packages/client/src/agent_runtime_client/sse.py:96-110 | One round of the loop: a complete line is read or the size limit ends the stream. |
| `SseDecoder.RunStreamDecoder.Hold` | packages/client/src/agent_runtime_client/sse.py:139-144 | An unfinished line is held unless it exceeds the limit. |
| `SseDecoder.RunStreamDecoder.AfterLineEnd` | packages/client/src/agent_runtime_client/sse.py:130-137 | A CRLF is one line end wherever it is split; a final CR is remembered. |
| `SseDecoder.RunStreamDecoder.Dispatch` | packages/client/src/agent_runtime_client/sse.py:180-189 | A blank line reads the frame, or skips an empty one, and clears the fields. |
| `SseDecoder.RunStreamDecoder.EventFrom` | packages/client/src/agent_runtime_client/sse.py:190-209 | The frame checks in their order: JSON, type, id, then the run stream. |
| `SseDecoder.RunStreamDecoder.Close` | packages/client/src/agent_runtime_client/sse.py:112-119 | Closing names a truncated run, is quiet after a violation and refuses a second close. |
| `SseRoundTrip.FrameReads` | packages/client/src/agent_runtime_client/sse.py:55-64 | An encoded frame, read from a frame start, gives its event and leaves a frame start; its size is the size the decoder counts. |
| `SseRoundTrip.WrittenRunsReadBack` | packages/client/src/agent_runtime_client/sse.py:55-64 | The frames of every accepted run read back to exactly its events, with the stream state of that run. |
| `SseRoundTrip.AcceptedRunsSurviveTheWire` | packages/client/src/agent_runtime_client/sse.py:67-145 | For every accepted run and every chunking of its frames the decoder gives exactly the run, no violation, and closes quietly exactly when the run had ended. |
| `SseRoundTrip.RefusedEventEndsTheStream` | packages/client/src/agent_runtime_client/sse.py:190-209 | A run that goes on with a refused event is read up to it and ends in exactly the violation of that event. |
| `WireRuns.SendingKeeps` | packages/service/src/agent_runtime_service/run_events.py:333-371 | A sent event extends the written trace by itself, within the budget of bytes and tool calls; a refused one leaves the trace and the number as they were. |
| `WireRuns.FrameKeeps` | packages/service/src/agent_runtime_service/run_events.py:268-331 | A runner outcome is either sent and nothing is decided, or nothing is sent; what is decided carries the due number. |
| `WireRuns.DueSuccessIsSent` | packages/service/src/agent_runtime_service/run_events.py:242-248 | A decided success is refused for its size or the budget alone. |
| `WireRuns.CommitKeeps` | packages/service/src/agent_runtime_service/run_events.py:215-248 | The commit writes one terminal: the decided one unless a loss, the size or the budget stands against it; it fails only when the failure itself cannot be written. |
| `WireRuns.RecordsAreWholeRuns` | packages/service/src/agent_runtime_service/run_events.py:222-236 | Whatever became of a run, its record is a whole run of the language; a containment loss always makes it failed: provider_error. |
| `WireRuns.RefusalsAreOwnFailures` | packages/service/src/agent_runtime_service/run_events.py:111-117 | Every refusal becomes a failure of the service with a message within the limit, never the cut-short ending. |
| `RunEventFrames.EveryEventIsOneOfFour` | packages/service/src/agent_runtime_service/run_events.py:300-331 | Every core event has nothing to say, is invalid, is of no known kind, or says exactly one body, with its own content; a tool is read-only only if the request lists it so. |
| `RunEventFrames.AnEventGoesOutOrDecidesItsFailure` | packages/service/src/agent_runtime_service/run_events.py:268-371 | A core event goes out as the event that says it, under the run id and the due number, and is charged; or it decides the failure of the first thing in its way: not writable, too many calls, too much data, a broken stream rule, each with its code and message. |
| `RunEventFrames.WhatIsNotSentDecidesTheEnd` | packages/service/src/agent_runtime_service/run_events.py:268-298 | An empty text changes nothing; an invalid or unknown event, the end of the events and an error decide their own failure; a final answer decides its success under the due number. |
| `RunEventFrames.AHinderedSuccessEndsInItsFailure` | packages/service/src/agent_runtime_service/run_events.py:242-248 | A success that cannot be committed ends in the failure of its size or of the budget, which is charged nothing; the commit fails only when that failure cannot be written. |
| `RunEventFrames.AHeartbeatGoesOutUncharged` | packages/service/src/agent_runtime_service/run_events.py:253-254 | A heartbeat goes out under the due number whenever it can be written, and counts against no budget. |
| `RunEventFrames.ACutOffRunIsRecorded` | packages/service/src/agent_runtime_service/run_events.py:222-236 | A run without decision or loss is recorded as interrupted exactly when a call that may change state went out, and as cancelled otherwise. |
| `RunEventFrames.AnUnlistedCallIsInterrupted` | packages/service/src/agent_runtime_service/run_events.py:323-331 | After a sent call of a tool the request does not list, whatever else went out, a run that is cut off is recorded as interrupted. |
| `RunEventFrames.AnUncommittedRunIsTheProvidersFailure` | packages/service/src/agent_runtime_service/run_events.py:222-236 | A record without a committed terminal is the provider failure after a decision or a loss. |
| `WireRuns.WireRun.Sent` | packages/service/src/agent_runtime_service/run_events.py:333-344 | Encodes, charges, accepts and counts in that order, as the specification of sending says. |
| `WireRuns.WireRun.Charge` | packages/service/src/agent_runtime_service/run_events.py:358-371 | Runner-caused frames count against the budget; a refused event is charged nothing. |
| `WireRuns.WireRun.FrameOf` | packages/service/src/agent_runtime_service/run_events.py:268-298 | Ties the method over outcomes to the specification above. |
| `WireRuns.WireRun.WireEventOf` | packages/service/src/agent_runtime_service/run_events.py:300-331 | The method maps a core event as specified; what it says is told by `RunEventFrames.AnEventGoesOutOrDecidesItsFailure`. |
| `WireRuns.WireRun.CommitTerminal` | packages/service/src/agent_runtime_service/run_events.py:215-248 | Ties the commit to its specification, including the fallback after a refusal. |
| `WireRuns.WireRun.RunOver` | packages/service/src/agent_runtime_service/run_events.py:222-236 | Which event ends the record; the release of the lease is `QuarantinedPlaces.Quarantine.EndRun`. |
| `Supervision.WaitsExactlyUntilTheNextDeadline` | packages/service/src/agent_runtime_service/run_liveness.py:170-200 | The supervisor waits exactly while no event is ready and no deadline has come, and the instant it sleeps until is the next deadline. |
| `Supervision.EveryStepKeepsTheInvariant` | packages/service/src/agent_runtime_service/run_liveness.py:526-827 | Every step of supervisor, pump, cleanup and client keeps: frames are conserved, one runner step at a time, the terminal and record come with the end of the reap. |
| `Supervision.StepKeepsFrames` | packages/service/src/agent_runtime_service/run_liveness.py:688-764 | No frame is lost, doubled or reordered between the stream and the client. |
| `Supervision.StepKeepsTheRecord` | packages/service/src/agent_runtime_service/run_liveness.py:808-816 | The written trace, the decision and the record stay consistent through every step. |
| `Supervision.StepKeepsPlace` | packages/service/src/agent_runtime_service/run_liveness.py:641-712 | Decisions, the stop and the slot fit the place the supervisor is in; an outcome is never overwritten. |
| `Supervision.CollectedKeeps` | packages/service/src/agent_runtime_service/run_liveness.py:621-624 | Collected losses hold each group once. |
| `SupervisionProperties.TheClientGetsAPrefixOfTheRun` | packages/service/src/agent_runtime_service/run_liveness.py:591-593 | Over every interleaving the client takes a prefix of the accepted run in seq order; a terminal it took means every frame was taken; an uncut stream gives the whole run. |
| `SupervisionProperties.TheTerminalWaitsForTheClose` | packages/service/src/agent_runtime_service/run_liveness.py:595-611 | No terminal is sent before the runner is closed, and a success that waits still carries the due number. |
| `SupervisionProperties.TheRecordIsOneWholeRun` | packages/service/src/agent_runtime_service/run_liveness.py:808-816 | The record is one whole run, equal to what was sent when a terminal was committed; every lost group is handed over, once, and makes the end the provider failure. |
| `SupervisionProperties.DecisionsAndTerminalsStand` | packages/service/src/agent_runtime_service/run_liveness.py:641-664 | A run decides at most once and commits at most one terminal; after the decision nothing else is sent. |
| `SupervisionProperties.NothingEndsEarly` | packages/service/src/agent_runtime_service/run_liveness.py:665-726 | Drop, maximum, idle and heartbeat come only after their timeout in full since the slot was filled, the run started, the step was asked for, the run was quiet. |
| `SupervisionEndings.LookingIsRight` | packages/service/src/agent_runtime_service/run_liveness.py:641-726 | One round, from the state before and after: a stalled client is dropped; else a ready outcome is handled; else the maximum, then the silence end the run with their own code and message; else a due heartbeat is sent or put off; else nothing. |
| `SupervisionEndings.ARunEndsForItsTimeExactlyWhenItHasCome` | packages/service/src/agent_runtime_service/run_liveness.py:641-664 | Over every interleaving a round decides idle_timeout, or limit_exceeded for the maximum, exactly when that timeout has passed in full, no outcome is ready and nothing that comes before it has come. |
| `SupervisionEndings.TheSupervisorMovesRight` | packages/service/src/agent_runtime_service/run_liveness.py:699-764 | What every other region does: a frame in hand waits for a vacant slot, the stall or the maximum, and still goes out before the terminal; the next step is asked for otherwise; after the stop the last frames go out, or the slot closes. |
| `SupervisionEndings.ThePumpMovesRight` | packages/service/src/agent_runtime_service/run_liveness.py:595-624 | One step for one request, its outcome published unless it raised into a stop, and every loss that is met collected once, after those that were there. |
| `SupervisedContent.TheRunSaysWhatTheRunnerYielded` | packages/service/src/agent_runtime_service/run_events.py:124-158 | Over every interleaving what a run says is what its runner yielded, event by event, in order and with its content; while it goes on at most the outcome that waits is missing; a decided success is the answer of the next event. |
| `SupervisedContent.TheRecordEndsAsDecided` | packages/service/src/agent_runtime_service/run_events.py:215-248 | Over every interleaving the record ends with the failure decided, with the success decided or why it could not be sent, with the provider failure after a loss or a failed commit, and otherwise as a run cut off. |
| `SupervisedContent.ARunCutOffAfterAnUnlistedCallIsInterrupted` | packages/service/src/agent_runtime_service/run_events.py:323-331 | Of every supervised run: cut off after a call of a tool the request does not list, it is recorded as interrupted. |
| `SupervisedWire.TheClientReadsTheRun` | packages/service/src/agent_runtime_service/run_events.py:124-158 | What a client decodes of a supervised run, in any chunking, is exactly what it took; it closes quietly exactly when it read every accepted event. |
| `SupervisedRuns.FrameSlot.Take` | packages/service/src/agent_runtime_service/run_liveness.py:229-235 | Gives the waiting frame, or the end once closed, and vacates the slot. |
| `SupervisedRuns.FrameSlot.Fill` | packages/service/src/agent_runtime_service/run_liveness.py:217-220 | The slot holds exactly the frame and wakes the client. |
| `SupervisedRuns.SupervisedRun.LookOnce` | packages/service/src/agent_runtime_service/run_liveness.py:641-687 | One round of the loop is the step of the machine; what it decides, and when, is told by `SupervisionEndings.ARunEndsForItsTimeExactlyWhenItHasCome`. |
| `SupervisedRuns.SupervisedRun.HandleOutcome` | packages/service/src/agent_runtime_service/run_liveness.py:688-697 | The runner outcome is consumed once and sent, decided or dropped. |
| `SupervisedRuns.SupervisedRun.SendBeat` | packages/service/src/agent_runtime_service/run_liveness.py:714-718 | A heartbeat goes out only into a vacant slot. |
| `SupervisedRuns.SupervisedRun.DeliverOnce` | packages/service/src/agent_runtime_service/run_liveness.py:728-741 | A frame waits for the slot, the stall and the maximum. |
| `SupervisedRuns.SupervisedRun.CheckOnce` | packages/service/src/agent_runtime_service/run_liveness.py:699-712 | The next step is asked for only when neither the stall nor the maximum has come. |
| `SupervisedRuns.SupervisedRun.ResumeStopped` | packages/service/src/agent_runtime_service/run_liveness.py:743-749 | After the stop the pending frame and the terminal are filled in that order, or the slot closes. |
| `SupervisedRuns.SupervisedRun.FillOnce` | packages/service/src/agent_runtime_service/run_liveness.py:750-759 | An ending waits for the slot and the stall alone. |
| `SupervisedRuns.SupervisedRun.CollectLosses` | packages/service/src/agent_runtime_service/run_liveness.py:621-624 | The loop collects each new group once. |
| `SupervisedRuns.SupervisedRun.PumpYields` | packages/service/src/agent_runtime_service/run_liveness.py:595-608 | An outcome is published, or ends a stopping pump. |
| `SupervisedRuns.SupervisedRun.ReapFinishes` | packages/service/src/agent_runtime_service/run_liveness.py:808-816 | The last region of the reap: what was handed over, committed and recorded, with the losses collected by then. |
| `ContainmentLosses.FindLosses` | packages/service/src/agent_runtime_service/run_liveness.py:490-509 | Ends on every cyclic graph and returns each distinct group of a reachable containment loss exactly once, in the order a walk through members, cause and context meets it first. |
| `RunExits.EveryFailureIsToldOnce` | packages/service/src/agent_runtime_service/run_liveness.py:293-339 | Every failure met is raised or logged, once; a delivered cancellation wins; a close-line failure is never raised. |
| `RunExits.CleanupComesFirst` | packages/service/src/agent_runtime_service/run_liveness.py:310-316 | Without a cancellation the first cleanup failure is raised; without one, the first supervision failure unless the body raised; otherwise nothing. |
| `RunExits.DistinctMeetsEachErrorOnce` | packages/service/src/agent_runtime_service/run_liveness.py:321-324 | A failure met twice counts once. |
| `RunExits.TheRestIsLoggedInOrder` | packages/service/src/agent_runtime_service/run_liveness.py:321-339 | Everything but what is raised is logged, in the order it was met first. |
| `RunExits.FailuresAreMetInOrder` | packages/service/src/agent_runtime_service/run_liveness.py:371-381 | A failure counts where it was met first; one whose error was met before adds nothing. |
| `ToolBarrier.EveryStepKeepsTheInvariant` | packages/service/src/agent_runtime_service/tool_relay.py:643-841 | Every step of calls, cancels, reader, accepts, stop and forwards keeps the barrier invariant. |
| `ToolBarrierProperties.EveryLogIsSafe` | packages/service/src/agent_runtime_service/tool_relay.py:674-722 | In every interleaving each event is handed out at most once, one at a time, a result only after its call was accepted, forwards and replies only right after their accept. |
| `ToolBarrierProperties.PendingCallsAreBounded` | packages/service/src/agent_runtime_service/tool_relay.py:799-807 | At most three calls are pending, with distinct request ids. |
| `ToolBarrierProperties.ForwardOnlyInItsAccept` | packages/service/src/agent_runtime_service/tool_relay.py:696-741 | A tool is forwarded only in the accept of its own handed-out call that was not given up, with its parameters, and never twice. |
| `ToolBarrierProperties.ReplyOnlyInItsAccept` | packages/service/src/agent_runtime_service/tool_relay.py:773-781 | A result reply resolves only in the accept of its own result, with that content. |
| `ToolBarrierProperties.CancelWins` | packages/service/src/agent_runtime_service/tool_relay.py:653-660 | After an explicit cancel of a pending call, whatever follows, its call can only return Unanswered or leave by its own cancellation. |
| `ToolBarrierProperties.CallsEvolveThrough` | packages/service/src/agent_runtime_service/tool_relay.py:549-565 | Over any later steps a call keeps its identity, its cancel and its answer. |
| `ToolBarrierProperties.NothingAfterTheStop` | packages/service/src/agent_runtime_service/tool_relay.py:714-722 | After the stop every call has its answer and no forward or reply can happen. |
| `ToolBarrierProperties.ReadyMeansNoWait` | packages/service/src/agent_runtime_service/tool_relay.py:674-694 | has_ready_event holds exactly when a usable next_event would not wait. |
| `ToolBarrierProperties.NoWakeUpIsLost` | packages/service/src/agent_runtime_service/tool_relay.py:674-694 | A parked reader is due to wake whenever something is ready or the barrier stopped, and then does not wait again. |
| `ToolBarrierResults.AnEndedForwardQueuesItsOutcome` | packages/service/src/agent_runtime_service/tool_relay.py:742-771 | The end of a forward: what the app tool returned, as it is, or the failure text as an error becomes its call outcome and the last event of the queue; a cancelled one and text with the capability queue nothing and answer with nothing. |
| `ToolBarrierResults.TheResultIsWhatTheForwardEndedWith` | packages/service/src/agent_runtime_service/tool_relay.py:742-781 | Over every interleaving the result handed out for a forwarded call is what its own forward ended with, that of a call given up before is the given-up text, no later step changes it, and a reply carries that content alone. |
| `ToolBarrierResults.ACallReturnsWhatItsForwardEndedWith` | packages/service/src/agent_runtime_service/tool_relay.py:643-652 | A call returns a tool result exactly when its reply was released and it was not cancelled, and then the outcome its own forward ended with; refusal and nothing exactly as its answer says. |
| `ToolBarrierResults.ACallIsAdmittedBelowTheLimit` | packages/service/src/agent_runtime_service/tool_relay.py:799-822 | A call is admitted exactly while the barrier is not stopped, fewer than three calls are pending and none of them has its id, and its event comes up last. |
| `ToolBarrierResults.AReaderGetsTheFirstWantedEvent` | packages/service/src/agent_runtime_service/tool_relay.py:674-684 | The reader gets the first event of the queue that is still wanted; only given-up calls before it are dropped; it parks exactly when none is wanted. |
| `ToolBarrierResults.WhatAReaderIsTold` | packages/service/src/agent_runtime_service/tool_relay.py:674-684 | What next_event answers: misuse while an event is handed out, then an unoffered call, a reflected capability, the stop, then the first wanted event. |
| `ToolBarrierResults.AnAcceptReleasesItsEvent` | packages/service/src/agent_runtime_service/tool_relay.py:696-741 | An accept starts the forward of its call, or brings up the given-up result first; that of a result answers the call that still waits, with the outcome there is; any other accept changes nothing. |
| `ToolBarrierResults.ACancelGivesUpItsCall` | packages/service/src/agent_runtime_service/tool_relay.py:653-660 | A cancel frees the place of its call, drops its queued call and answers it with nothing if it still waits; other ids change nothing. |
| `ToolBarrierResults.AnEndedCallFreesItsPlace` | packages/service/src/agent_runtime_service/tool_relay.py:823-833 | The end of a call frees its place and drops its queued call, and its result still comes up. |
| `ToolBarrierResults.TheStopRefusesWhatWaits` | packages/service/src/agent_runtime_service/tool_relay.py:714-722 | The stop refuses exactly the pending calls that still wait, and empties the queue. |
| `ToolBarrierResults.OnlyTheStopRefuses` | packages/service/src/agent_runtime_service/tool_relay.py:714-722 | A call is refused by its answer only at the stop, and only if it still waited then. |
| `ToolBarrierWire.RelayedEventsKeepTheToolRules` | packages/service/src/agent_runtime_service/tool_relay.py:759-771 | Fed to a run stream among any other events, the handed-out events break none of its rules. |
| `ToolBarrierWire.GivenEventsAreInOrder` | packages/service/src/agent_runtime_service/tool_relay.py:674-684 | No event is handed out twice and a result only after its call. |
| `ToolBarrierWire.MintedIdsDiffer` | packages/service/src/agent_runtime_service/tool_relay.py:809-822 | The minted call ids are pairwise distinct. |
| `RelayedResultsWire.TheFrameSaysWhatTheToolReturned` | packages/service/src/agent_runtime_service/tool_relay.py:742-771 | However calls interleave and however late the frame is written, the tool_result on the wire carries the minted id of its call and exactly the text and error flag its own forward ended with. |
| `ToolCallBarriers.ToolCallBarrier.Call` | packages/service/src/agent_runtime_service/tool_relay.py:643-652 | A call is admitted exactly when the barrier admits it, and queued. |
| `ToolCallBarriers.ToolCallBarrier.Returns` | packages/service/src/agent_runtime_service/tool_relay.py:643-652 | What a call returns, a cancellation that comes after its answer included, and what its end removes. |
| `ToolCallBarriers.ToolCallBarrier.Cancel` | packages/service/src/agent_runtime_service/tool_relay.py:653-660 | The cancel of a request id, as the machine step. |
| `ToolCallBarriers.ToolCallBarrier.NextEvent` | packages/service/src/agent_runtime_service/tool_relay.py:674-684 | One pass of next_event, up to its return, its raise or its wait. |
| `ToolCallBarriers.ToolCallBarrier.HasReadyEvent` | packages/service/src/agent_runtime_service/tool_relay.py:685-694 | Whether a queued event is still wanted. |
| `ToolCallBarriers.ToolCallBarrier.Accept` | packages/service/src/agent_runtime_service/tool_relay.py:696-712 | Only the handed-out event is accepted, and releases exactly what it should. |
| `ToolCallBarriers.ToolCallBarrier.Stop` | packages/service/src/agent_runtime_service/tool_relay.py:714-722 | The stop refuses every pending call and empties the queue. |
| `ToolCallBarriers.ToolCallBarrier.Completed` | packages/service/src/agent_runtime_service/tool_relay.py:742-771 | The end of a forward is the step of the machine; what it leaves for its call is told by `ToolBarrierResults.AnEndedForwardQueuesItsOutcome`. |
| `MergedEvents.EveryMoveKeeps` | packages/service/src/agent_runtime_service/relayed_events.py:61-178 | Every move of merger, step tasks and barrier keeps the merger invariant. |
| `MergedEventsProperties.FinalComesLast` | packages/service/src/agent_runtime_service/relayed_events.py:120-149 | When the final answer is yielded, nothing is queued, handed out or running, and every tool call yielded has its result yielded and accepted unless its forward was cancelled. |
| `MergedEventsProperties.YieldedInHandOutOrder` | packages/service/src/agent_runtime_service/relayed_events.py:160-178 | The barrier events are yielded in hand-out order, and the core tool events are dropped. |
| `MergedEventsProperties.MergedEventsKeepTheToolRules` | packages/service/src/agent_runtime_service/relayed_events.py:61-69 | Written to the wire, what the merger yields breaks no tool rule of the run stream. |
| `MergedEventsOrder.TheCoreIsYieldedInOrder` | packages/service/src/agent_runtime_service/relayed_events.py:112-178 | Over every interleaving with the barrier the texts and answers of the core are yielded exactly as the core told them, none lost, doubled or reordered. |
| `MergedEventsOrder.WhatAWaitComesTo` | packages/service/src/agent_runtime_service/relayed_events.py:61-69 | What a wait comes to: a ready core event waits while the barrier has one ready, and a final answer while a forward runs; then a finished relay step comes first; tool events of the core are dropped, its end or error ends the merger. |
| `MergedEventsOrder.ANextEventAcceptsTheLast` | packages/service/src/agent_runtime_service/relayed_events.py:106-119 | The event yielded last is accepted before anything else, and a refused accept ends the merger. |
| `MergedEventsOrder.WhatTheReaderFinds` | packages/service/src/agent_runtime_service/relayed_events.py:112-119 | The relay step is done exactly when the barrier handed out its first wanted event or raised. |
| `RelayedEventsClass.RelayedEvents.Next` | packages/service/src/agent_runtime_service/relayed_events.py:61-69 | The start of a next event: the accept of the last one and the two step tasks. |
| `RelayedEventsClass.RelayedEvents.Resume` | packages/service/src/agent_runtime_service/relayed_events.py:112-149 | What a wait does when it resumes. |
| `RelayedEventsClass.RelayedEvents.FinishedRelayEvent` | packages/service/src/agent_runtime_service/relayed_events.py:160-167 | A finished relay step is yielded and remembered as not accepted. |
| `RelayedEventsClass.RelayedEvents.FinishedCoreEvent` | packages/service/src/agent_runtime_service/relayed_events.py:168-178 | A finished core step is yielded unless it is a tool event. |
| `MarkdownFences.TrackingComposes` | src/agent_runtime/text_tool_protocol.py:288-301 | Tracking fences over a text in two parts is tracking it whole for every first part inside which the tracking does not stop at a lone carriage return, other line breaks included. |
| `MarkdownFences.CompositionFailsExactlyAtALoneReturn` | src/agent_runtime/text_tool_protocol.py:288-301 | The parts compose whatever follows exactly when the tracking did not stop inside the first part at a line that ends in a lone carriage return; when it did, some text is tracked to the wrong state. |
| `MarkdownFences.TrackingFindsTheFence` | src/agent_runtime/text_tool_protocol.py:288-301 | On LF and CRLF lines the tracked state is the parity of the fence marks. |
| `MarkdownFences.TrackingIsTrueExactlyOnWholeBreaks` | src/agent_runtime/text_tool_protocol.py:288-301 | The tracked state tells the fence under every plain continuation exactly when the text so far has no line break but LF and whole CRLF. |
| `MarkdownFences.AdvanceMarkdownFences` | src/agent_runtime/text_tool_protocol.py:288-301 | The loop over the lines computes the specified state. |
| `TextToolStream.NothingIsLost` | src/agent_runtime/text_tool_protocol.py:158-208 | For every chunking, the text returned and the text held are the text fed. |
| `TextToolStream.TheSearchMissesOverlapsOnly` | src/agent_runtime/text_tool_protocol.py:279-285 | The jumping search finds every copy that starts a line, in every text, exactly when no copy overlaps another one that starts a line. |
| `TextToolStream.NoCallIsShown` | src/agent_runtime/text_tool_protocol.py:158-197 | However the text is chunked, no opening line is shown at a true line start outside a fence, after any text whose line breaks are whole or after which the tracking is outside a fence. |
| `TextToolStream.NoCallIsShownExactly` | src/agent_runtime/text_tool_protocol.py:158-197 | That condition is exact: after any text shown, no plain text that follows shows a call if and only if it holds. |
| `TextToolStream.StreamsAreSafe` | src/agent_runtime/text_tool_protocol.py:158-278 | Nothing shown opens a call; while none was recognised, nothing fed so far does, and what was shown never will, whatever follows. |
| `TextToolStream.NoCallIsMissed` | src/agent_runtime/text_tool_protocol.py:229-250 | Text that opens a call at a true line start outside a fence is recognised, however it is chunked. |
| `TextToolStream.RecognitionIsExactUnlessAstray` | src/agent_runtime/text_tool_protocol.py:158-187 | After any pieces without a call, a next text brings one exactly if the whole text opens one, for every such text, if and only if the parser is not astray: shown text ends in the middle of a line, outside a fence, and what is held may begin an opening line. |
| `TextToolStream.AfterALoneReturnCallsAreMisread` | src/agent_runtime/text_tool_protocol.py:210-214 | Once the tracking stopped at a lone return of what was shown, some next text is misread: an opening line that counts is missed, or one that does not is recognised. |
| `TextToolStream.RecognitionIsExact` | src/agent_runtime/text_tool_protocol.py:158-187 | Fed to a parser that is never astray, as at line starts, a call is recognised exactly when the text opens one. |
| `TextToolStream.MidLineCallsAreRecognised` | src/agent_runtime/text_tool_protocol.py:275-276 | Fed in the middle of a line, an opening line is recognised all the same: a concrete text. |
| `TextToolStreamParsers.TextToolStreamParser.Feed` | src/agent_runtime/text_tool_protocol.py:158-197 | The method feeds as the specification says. |
| `TextToolStreamParsers.TextToolStreamParser.FindOpeningLine` | src/agent_runtime/text_tool_protocol.py:229-250 | The occurrences tried in order give the first opening outside a fence. |
| `TextToolStreamParsers.TextToolStreamParser.FindOpeningLinePrefix` | src/agent_runtime/text_tool_protocol.py:253-272 | The loop gives the first start that may become an opening. |
| `TextToolStreamParsers.AllOccurrences` | src/agent_runtime/text_tool_protocol.py:279-285 | The loop finds the occurrences the search is specified to meet. |
| `JsonText.ValueIsRead` | src/agent_runtime/text_tool_protocol.py:412-447 | Every text of the grammar, with any gaps, escapes and lexemes, is read back to exactly its value, whatever follows. |
| `JsonText.CharsAreRead` | src/agent_runtime/text_tool_protocol.py:412-447 | Every string text is read back to its code points, surrogate pairs joined. |
| `JsonText.NumberIsRead` | src/agent_runtime/text_tool_protocol.py:412-447 | Every number text is read back to its lexeme unless what follows lengthens it. |
| `JsonTextSound.ValueIsText` | src/agent_runtime/text_tool_protocol.py:412-447 | Whatever the decoder reads is a text of the grammar with that value, and no more. |
| `JsonEscapes.UnitsReadBack` | src/agent_runtime/text_tool_protocol.py:412-447 | Every code unit is read back from its four hexadecimal digits, in either case. |
| `JsonEscapes.PairsReadBack` | src/agent_runtime/text_tool_protocol.py:412-447 | Every code point outside the basic plane is read back from its surrogate pair. |
| `JsonEscapes.TheLastMemberCounts` | src/agent_runtime/text_tool_protocol.py:412-447 | An object has exactly the keys of its members, and of the members with one key the last one counts. |
| `TextToolCalls.TheCallIsFound` | src/agent_runtime/text_tool_protocol.py:412-447 | Opening line, gap, any text, gap, close tag, any tail: exactly that value and the index just after the tag, close-tag lookalikes in strings included. |
| `TextToolCalls.FoundBlocksHaveTheShape` | src/agent_runtime/text_tool_protocol.py:412-447 | Whatever boundary is found, the block has that shape. |
| `TextToolCalls.OneShotCallsAreExact` | src/agent_runtime/text_tool_protocol.py:304-321 | A one-shot block is a call exactly when it is one call text of a known tool that its schema accepts, and nothing after. |
| `TextToolCalls.StreamedCallsAreExact` | src/agent_runtime/text_tool_protocol.py:323-371 | A streamed block is a call exactly when it starts with one and the search finds no second opening outside a fence after it. |
| `TextToolCalls.EveryRefusalLiesInside` | src/agent_runtime/text_tool_protocol.py:374-390 | Every refusal offset and excerpt lie inside the block. |
| `TextToolRefusals.ABlockIsRefusedWhereItBreaks` | src/agent_runtime/text_tool_protocol.py:304-467 | Of every block with an opening line: which rule is named and at which offset, for no JSON value, a missing close tag, text after a one-shot call, a second call in a streamed text, no call object, an unknown tool and arguments off schema; otherwise the call. |
| `TextToolRefusals.ABlockWithoutAnOpeningIsRefused` | src/agent_runtime/text_tool_protocol.py:393-403 | A block that does not start with an opening line is no JSON call, refused at its end. |
| `TextToolRefusals.OtherResponsesAreGivenBack` | src/agent_runtime/text_tool_protocol.py:132-139 | A response is read as a call exactly when its first text after white space is an opening line; any other one is given back as it is. |
| `TextToolRefusals.FinishedStreamsGiveBackTheRest` | src/agent_runtime/text_tool_protocol.py:199-208 | A finished stream without a call gives back what it held, so that with what it returned before nothing is lost; one with a call gives no text. |
| `TextToolRefusals.StrippingLeavesTheText` | src/agent_runtime/text_tool_protocol.py:199-208 | The block of a recognised call is the buffered text without the white space around it. |
| `TextToolCalls.StreamedBlocksOpen` | src/agent_runtime/text_tool_protocol.py:393-403 | The block of a finished stream starts with an opening line or is the tag alone. |
| `ToolInput.RefuseNonJsonObject` | packages/client/src/agent_runtime_client/wire.py:114-134 | The iterative walk ends on every graph and accepts exactly when the unrolling is a tree at most 128 deep with valid keys and scalars; what it refuses for containing itself fits at no depth. |
| `ToolInput.EnterContainer` | packages/client/src/agent_runtime_client/wire.py:136-155 | A container is entered unless it is open, one too many, or has a key that is none. |
| `ToolInput.CyclesNeverFit` | packages/client/src/agent_runtime_client/wire.py:136-140 | A container on a cycle is no finite tree at any depth. |
| `ToolInput.DeeperStillFits` | packages/client/src/agent_runtime_client/wire.py:141-142 | A tree that fits a depth fits every larger one. |
| `AnchoredLeaders.LifecycleLaws` | src/agent_runtime/spawn.py:279-304 | On every event sequence: announced once, when RUNNING is left; RELEASED and LOST absorb; a code comes only from an exit or a reap. |
| `AnchoredLeaders.EveryStepKeepsTheInvariant` | src/agent_runtime/spawn.py:414-626 | Every step of watcher, release, signal, rollback, kernel and foreign reap keeps the handle consistent with the kernel. |
| `AnchoredLeaders.TheLeaderIsReapedOnce` | src/agent_runtime/spawn.py:545-610 | The handle reaps at most once, exactly when RELEASED, with the reported code; without a foreign reap an anchored number stays its own. |
| `AnchoredLeaders.EveryCallNamesTheLeader` | src/agent_runtime/spawn.py:518-580 | No kernel call names the pid of a released leader, an abandoned watcher makes none, and without a foreign reap every call names the leader. |
| `AnchoredLeaders.TheEndIsAnnouncedOnce` | src/agent_runtime/spawn.py:612-626 | The end is announced exactly once: done, or owed by the one that committed it. |
| `AnchoredLeaders.WhatIsOverStaysOver` | src/agent_runtime/spawn.py:506-513 | A released handle makes no call any more, nor does one that is done with its pid, and last states stay. |
| `AnchoredLeaders.ReleasesReapOrLose` | src/agent_runtime/spawn.py:545-559 | A release of an exited leader reaps it or meets a loss, and a second one changes nothing. |
| `AnchoredLeaderCalls.ASignalGoesToAnAnchoredLeader` | src/agent_runtime/spawn.py:574-584 | A signal is sent exactly while the leader is anchored; it is a loss exactly when the leader was reaped elsewhere and its number is nobody's. |
| `AnchoredLeaderCalls.AReleaseReapsAnExitedLeader` | src/agent_runtime/spawn.py:545-559 | A release reaps exactly a leader whose exit was published, with the code the kernel reports, or loses it; any other leader is left alone. |
| `AnchoredLeaderCalls.WhatTheWatcherDoes` | src/agent_runtime/spawn.py:518-543 | The watcher waits, looks and commits only as the owner: an exit with the reported code, a loss as a loss, a stop sends it back to its wait only while the leader runs. |
| `AnchoredLeaderCalls.AFailedStartReapsItsLeader` | src/agent_runtime/spawn.py:586-600 | A start whose watcher could not be launched kills and reaps its leader and keeps its code, unless something else reaped it. |
| `AnchoredLeaderCalls.TheEndIsAnnouncedInTheEnd` | src/agent_runtime/spawn.py:518-533 | Once a leader has exited, its watcher is never stuck, every step of it brings its end nearer, and at its end the exit or loss is announced or owed by one caller. |
| `AnchoredLeaderHandles.AnchoredLeader.Release` | src/agent_runtime/spawn.py:545-559 | What a release answers in each state, as the machine step. |
| `AnchoredLeaderHandles.AnchoredLeader.SignalGroup` | src/agent_runtime/spawn.py:561-584 | A signal is sent only while the leader is anchored; a loss is committed and announced by the caller; any other error leaves the handle as it was. |
| `AnchoredLeaderHandles.AnchoredLeader.KillAndCensus` | src/agent_runtime/spawn.py:567-572 | A count is returned only after a kill that was sent, unless it raises itself. |
| `AnchoredLeaderHandles.AnchoredLeader.KillAndReap` | src/agent_runtime/spawn.py:586-600 | The rollback of a failed start releases or loses the leader. |
| `AnchoredLeaderHandles.AnchoredLeader.Commit` | src/agent_runtime/spawn.py:612-619 | The watcher commit, and whether it announces. |
| `AnchoredLeaderHandles.AnchoredLeader.Apply` | src/agent_runtime/spawn.py:602-610 | The one write of the status and of what Popen holds. |
| `KillingUntilGone.KillUntilGone` | src/agent_runtime/spawn.py:924-937 | At least one and at most ceil(within / interval) attempts, the interval less what a wait may end early; a further one follows exactly a live count whose next start and whose wait come before the deadline; confirms only an EMPTY count that ended by the deadline. |
| `KillingUntilGone.StartsAreApart` | src/agent_runtime/spawn.py:790-794 | Attempts start at least one interval apart, less what a wait may end early. |
| `LostGroups.EveryStepKeepsTheInvariant` | src/agent_runtime/lost_groups.py:92-178 | Every step of calls, workers, start claims, cancellations and releases keeps the registry entry consistent: one attempt, its holders, and releases in order. That an attempt goes on is told in `LostGroupEndings`. |
| `LostGroups.OneAttemptAtATime` | src/agent_runtime/lost_groups.py:108-121 | One attempt at most, and its holders are exactly its live call and its live worker. |
| `LostGroups.GoneMeansReleased` | src/agent_runtime/lost_groups.py:92-148 | Leader and slot are released at most once each and in that order, only after an empty count with a committed exit of that attempt; an answer that the group is gone has both behind it. |
| `LostGroups.IdleRetentionsAcceptTheNextCall` | src/agent_runtime/lost_groups.py:117-121 | A failed or cancelled attempt never bars a later one. |
| `LostGroupEndings.ACountDecides` | src/agent_runtime/lost_groups.py:129-148 | A published count goes on to the release of the leader if and only if it was empty and the exit is known; it raises exactly when the count failed, and otherwise the group is not gone. |
| `LostGroupEndings.WhyAnAttemptEnds` | src/agent_runtime/lost_groups.py:92-178 | An attempt raises exactly at a failed start, a failed count, a cancellation or a failed release, and answers that the group is not gone exactly at a count that is not empty or an exit not known. |
| `LostGroupEndings.ABeginningIsAnsweredOrTries` | src/agent_runtime/lost_groups.py:92-114 | A call is answered at once exactly when the group is no longer retained or another attempt is under way; otherwise the attempt is its own. |
| `LostGroupEndings.AGoodAttemptConfirmsTheGroup` | src/agent_runtime/lost_groups.py:92-148 | From every retention without an attempt, whatever other calls do meanwhile: an attempt whose own steps turn nothing back can only answer that the group is gone, with leader and slot released once; until then it can go on, for fewer than 25 steps of its own. |
| `LostGroupEndings.TheNextAttemptCanConfirmTheGroup` | src/agent_runtime/lost_groups.py:92-148 | From every retention without an attempt the next one can be completed so that it answers that the group is gone. |
| `LostGroupEntries.LostGroup.BeginAttempt` | src/agent_runtime/lost_groups.py:108-114 | Unknown, busy or a new attempt, in one hold of the lock. |
| `LostGroupEntries.LostGroup.LeaveAttempt` | src/agent_runtime/lost_groups.py:117-121 | The exclusion ends with the last holder. |
| `LostGroupEntries.LostGroup.Try` | src/agent_runtime/lost_groups.py:138-165 | The worker is a holder before its thread is started, and only while the leader is not released. |
| `TurnSlots.EveryStepKeepsTheInvariant` | src/agent_runtime/anchored_turn.py:114-163 | Every step of the reap, the leader and the retention of a turn keeps leader, slot and retention consistent. |
| `TurnSlots.ASlotIsFreedOnce` | src/agent_runtime/anchored_turn.py:114-163 | However reap, leader and retention interleave, a slot is freed at most once: by a failed start, by the reap or by the retention, by the latter two only after their own empty count, a known exit and their own release of the leader. |
| `TurnSlots.SlotsAreNeitherLostNorFreedEarly` | src/agent_runtime/lost_groups.py:92-148 | A turn reaped without a retention, and a retention that answers that its group is gone, have freed the slot; as long as neither is so, the turn keeps it. |
| `TurnSlotEndings.WhereTheReapGoes` | src/agent_runtime/anchored_turn.py:114-163 | What every region of a reap goes on to, and exactly why it retains the group: a signal, grace or release that raised, a count not confirmed, an exit not known. |
| `TurnSlotEndings.AGoodReapFreesTheSlot` | src/agent_runtime/anchored_turn.py:114-143 | A reap whose steps do not turn it back never retains its group, whatever the leader does, and frees the slot at its end. |
| `TurnSlotEndings.AReapCanGoOn` | src/agent_runtime/anchored_turn.py:114-143 | While the leader exited and nothing else reaped it, the reap is never stuck, and its next good step brings its end nearer. |
| `TurnSlotEndings.AGoodAttemptFreesTheSlot` | src/agent_runtime/lost_groups.py:92-148 | Whatever else happens to leader and retention: an attempt that nothing turns back ends with the slot of the turn freed by the retention. |
| `TurnSlotEndings.TheLeaderAllowsTheAttempt` | src/agent_runtime/lost_groups.py:138-148 | Every next step of such an attempt can come while the leader exited and nothing else reaped it. |
| `TurnSlots.SlotsAreConserved` | src/agent_runtime/anchored_turn.py:81-100 | Over all turns of a pool at most its limit of slots is taken, each exactly while neither start, reap nor retention freed it. |
| `AnchoredTurns.AnchoredTurn.ReapProcessGroup` | src/agent_runtime/anchored_turn.py:114-133 | The reap is a trace of the machine: it frees the slot after all that, or retains the group and keeps the slot. |
| `AnchoredTurns.AnchoredTurn.ConfirmGroupGoneAndRelease` | src/agent_runtime/anchored_turn.py:135-143 | SIGTERM and grace for a running leader, then kill and count, exit and release, each a step of the machine in that order. |
| `AnchoredTurns.AnchoredTurn.KillAndCensus` | src/agent_runtime/anchored_turn.py:138-138 | An attempt counts what it is told unless the leader is not anchored any more: then it raises. |
| `AnchoredTurns.AnchoredTurn.ReleaseLeaderIfGone` | src/agent_runtime/lost_groups.py:129-135 | The leader is released exactly when the exit is known and its release neither fails nor finds it lost. |
| `AnchoredTurns.CliProcessPool.Reserve` | src/agent_runtime/anchored_turn.py:81-94 | A slot is reserved exactly while the pool is below its limit. |
| `Admission.AdmissionSlot.TryTake` | packages/service/src/agent_runtime_service/admission.py:23-28 | A place is given exactly while one is free. |
| `Admission.AdmissionSlot.HandOver` | packages/service/src/agent_runtime_service/admission.py:33-39 | The place moves to the successor; a stale lease yields one that holds nothing. |
| `Admission.Lease.Release` | packages/service/src/agent_runtime_service/admission.py:46-47 | A lease frees the place it holds and no other. |
| `Quarantines.PlacesAreConserved` | packages/service/src/agent_runtime_service/admission.py:18-51 | Over any takes, ends, late releases and retries at most N places are held, each is held or was freed, none is freed twice. |
| `Quarantines.LostGroupsKeepThePlace` | packages/service/src/agent_runtime_service/quarantine.py:36-73 | A run that lost groups keeps its place until every one has answered that it is gone. |
| `Quarantines.LateReleasesDoNothing` | packages/service/src/agent_runtime_service/admission.py:30-31 | A late release by an ended run changes nothing. |
| `QuarantineEndings.NoPlaceIsEverLost` | packages/service/src/agent_runtime_service/quarantine.py:36-73 | Over any steps a run has freed its place exactly when it ended and left no group in quarantine. |
| `QuarantineEndings.ARetryFreesOnceAllAreGone` | packages/service/src/agent_runtime_service/quarantine.py:57-66 | A retry frees the place exactly when every group left has answered that it is gone; otherwise exactly the others stay, and so does the place. |
| `QuarantineEndings.ARunIsAdmittedWhileAPlaceIsFree` | packages/service/src/agent_runtime_service/admission.py:23-28 | A run is admitted, with a lease of its own, exactly while a place is free. |
| `Quarantines.EveryStepKeepsTheInvariant` | packages/service/src/agent_runtime_service/run_events.py:210-236 | Hand-over before release, retries and late releases keep each place with exactly one lease. |
| `QuarantinedPlaces.Quarantine.TryTake` | packages/service/src/agent_runtime_service/admission.py:23-28 | A lease is given exactly while a place is free, as the machine admits the run. |
| `QuarantinedPlaces.Quarantine.EndRun` | packages/service/src/agent_runtime_service/run_events.py:210-236 | With losses the lease is transferred to the quarantine, then the run releases its own: the machine step, on the leases themselves. |
| `QuarantinedPlaces.Quarantine.RetryOnce` | packages/service/src/agent_runtime_service/quarantine.py:57-66 | One pass over the groups not confirmed gone; the lease is released once none is left. |
| `QuarantinedPlaces.Quarantine.StillUnconfirmed` | packages/service/src/agent_runtime_service/quarantine.py:61-63 | The loop keeps exactly the groups that did not answer that they are gone, in their order. |
| `RunPlaces.EveryStepKeepsTheInvariant` | packages/service/src/agent_runtime_service/run_liveness.py:802-816 | Every step of any number of supervised runs and of the house of their places keeps: a place was given up or handed over exactly when its reap finished, with exactly its losses. |
| `RunPlaces.ThePlaceOutlivesTheLosses` | packages/service/src/agent_runtime_service/run_liveness.py:808-816 | A run keeps its place until its record ended and every group its reap collected has answered that it is gone, and only then is it freed. |
| `RunPlaces.PlacesStayWithinTheLimit` | packages/service/src/agent_runtime_service/admission.py:18-51 | All supervised, unserved and quarantined runs together hold at most the limit of places. |
| `CliLines.LinesOfPieces` | src/agent_runtime/process.py:1287-1299 | However stdout is cut into reads, the lines are the same. |
| `CliLines.LinesAreTheStream` | src/agent_runtime/process.py:1287-1312 | Sent lines plus remainder are the stream, each line with its one newline at the end. |
| `CliRuns.CollectedIsWhatTheChildWrote` | src/agent_runtime/process.py:1114-1285 | For any read sizes, what was collected is a first part of each output within the limit, reached exactly where the exchange says so; a completed exchange has all of both outputs and wrote all of stdin; one that reads the first line has exactly that. |
| `CliRuns.LinesAccountForStdout` | src/agent_runtime/process.py:1235-1312 | At every end the lines sent and the remainder are the stdout collected, but for two: a first line that was asked for is not sent, and a refused line alone is missing. |
| `CliRuns.ReadSizesDoNotMatter` | src/agent_runtime/process.py:1208-1232 | Two exchanges with one child that complete collected and sent the same, whatever the reads and the receivers. |
| `CliRuns.ServedExchangesEnd` | src/agent_runtime/process.py:1114-1148 | An exchange that is served ends, after at most one report for each byte and stream. |
| `CliRuns.ReadingEnds` | src/agent_runtime/process.py:1208-1285 | A read ends at the limit exactly when nothing more fits, unless a line was refused or the first line found. |
| `CliRuns.AFirstPartIsSent` | src/agent_runtime/process.py:1287-1299 | The complete lines are sent in order, all of them unless one is refused, which alone is missing then. |
| `CliRunEndings.WhenAReportEnds` | src/agent_runtime/process.py:1114-1206 | Why a report ends an exchange: an abort before the deadline, a deadline that passed, a failing call, a write that took nothing, each exactly at its own report. |
| `CliRunEndings.AReadTakesWhatFits` | src/agent_runtime/process.py:1208-1232 | A read takes as much as was asked for, as fits and as is there, and leaves the rest; a first line that was asked for ends behind its newline. |
| `CliRunEndings.AnEndedStreamIsClosed` | src/agent_runtime/process.py:1235-1255 | The end of a stream closes it; that of stdout sends what remains unless the channel is shut, and ends a first-line exchange. |
| `CliRunEndings.ALineIsSentUnlessTheChannelIsShut` | src/agent_runtime/process.py:1287-1299 | A complete line is sent exactly while the channel is not aborted, ended or full. |
| `CliRunEndings.WhatAnEndingIsAnsweredWith` | src/agent_runtime/process.py:1150-1206 | The outcome of every ending: complete exactly when all was done or what was asked for was there, and the reason of every other one. |
| `CliExchanges.CliExchange.Exchange` | src/agent_runtime/process.py:1114-1148 | The loop over the reports of the selector reaches the specified state, ending and outcome. |
| `CliExchanges.CliExchange.ReadOutput` | src/agent_runtime/process.py:1208-1232 | One read takes what fits off the pipe and ends, collects or finishes as specified. |
| `CliExchanges.CliExchange.CollectChunk` | src/agent_runtime/process.py:1269-1285 | A chunk is collected, its lines are sent, and the limit ends the exchange. |
| `CliExchanges.CliExchange.SendCompleteLines` | src/agent_runtime/process.py:1287-1299 | The loop sends each line that became complete until one is refused, and keeps the rest. |
| `CliExchanges.CliExchange.FinishStream` | src/agent_runtime/process.py:1235-1255 | The end of a stream closes it, and that of stdout sends the last line too. |
| `CliLineChannels.CliLineChannel.Send` | src/agent_runtime/process.py:248-258 | A line is taken in exactly while the run is open, not aborted and not too far ahead. |
| `CliLineChannels.CliLineChannel.Look` | src/agent_runtime/process.py:225-246 | Lines come first in, first out, before the outcome, and a complete outcome only after all of them. |
| `CliLineChannels.CliLineChannel.Terminate` | src/agent_runtime/process.py:264-272 | The first outcome wins, and an incomplete one discards the waiting lines. |
| `CliLineChannels.CliLineChannel.RequestAbort` | src/agent_runtime/process.py:216-217 | From its first region on no line is taken in. |
| `CliLineChannels.CliLineChannel.DropLines` | src/agent_runtime/process.py:218-220 | The second region discards the lines that wait. |

## Left out

- The JSON codec of the wire is a parameter of the decoder and the encoder: what is asked of it is one line of valid UTF-8 that reads back to the event. Pydantic validation of an event's shape is part of it.
- The position the JSON library names for a broken text, and the exact depth its recursion allows, are parameters; integers past 4300 digits are refused as the interpreter does by default.
- Strings of the text protocol hold no lone surrogates, since Dafny's characters are Unicode scalar values; escapes may still name one.
- `_matches_schema` is a parameter: which arguments a tool accepts.
- In the theorems about recognition the opening line does not overlap itself at a line start (`PlainNamespace`), as no namespace without a line feed lets it; the source only asks that the namespace is not empty.
- A run without a barrier (`calls` is None in the merger), `settle` and `abort_forwards` of the barrier, `_narrowed_to` and `McpRelayOwner` are not modelled: single branches or effects on libraries.
- `run_frames` without a runner: started, a decided failure and its commit, with no concurrency.
- Failures of the run records and of the quarantine's own bookkeeping during a reap are not modelled; a recorded failure of any step appears as a stop that raises.
- The supervisor may be interrupted between two clock readings of one region: the machine allows more interleavings than the source, never fewer.
- Sockets, selectors, pipes, transports, threads' start-up, `/proc` and the mount table: their answers are parameters.
- KillingUntilGone.KillUntilGone: the clock is monotone and a wait ends early by less than an interval; a bound is a real number, so an infinite or undefined one does not occur.
- Quarantines.LostGroupsKeepThePlace: an ended run's own response may release late at any time, an active run's response releases nothing, as the callers of the lease promise.
- AnchoredLeaders.EveryCallNamesTheLeader: after a loss was committed by another caller the watcher may still make the one call it was about to make; the theorem excludes RELEASED, not LOST.
- CliExchanges.CliExchange.Exchange: both output streams are piped; the selector reports, the kernel and the other users of the channel are parameters.
- AnchoredLeaderHandles.AnchoredLeader.KillAndReap: an error of the rollback other than a loss is left out.
- SupervisedRuns.SupervisedRun.ReapFinishes: the region has no await, so the order of its hand-over, commit and record is told by their results alone.
- TurnSlots.ASlotIsFreedOnce: the home reservation that is released with a slot is not modelled, only that its release may raise; a reap that its event loop abandons keeps its slot.
- `LastHolderRemoval`, `CachedProbe`, private homes, credentials, provider adapters, routing, configuration: little state or facts of libraries and the file system.
