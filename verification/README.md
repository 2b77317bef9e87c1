# A verified model of the Codex gateway

The gateway puts an HTTP API in front of the Codex command-line agent. It runs
Codex as a subprocess and translates its events for two APIs (chat completions and
Responses), limits each API key, and runs coding jobs in the background with a log
of events that clients follow. This project models the parts in which state changes
step by step, and proves what they promise over every input, run and interleaving.

| file | what it models |
|---|---|
| `PyText.dfy` | white space stripping as Python does it |
| `JsonText.dfy` | a JSON reader and a JSON printer in any layout, with their round trip |
| `ToolCalling.dfy` | the brace scanner and the parser of tool calls in model output |
| `CodexEvents.dfy` | the events that Codex emits |
| `ResponsesWire.dfy` | the Responses stream and its grammar, as a monitor |
| `ResponseEmitter.dfy` | the stateful emitter, the stream driver, the collector |
| `ChatStream.dfy` | chat streaming and its grammar, the non-streaming handler, the route's wrapper |
| `Pipeline.dfy` | keepalives, the subprocess runner, and how bad endings reach clients |
| `DiffTruncation.dfy` | UTF-8, and the two cuts of a job's diff |
| `ConcurrencySlots.dfy` | the counter of concurrent requests |
| `TokenLedger.dfy` | token charges, true-up and the usage tables |
| `JobProtocol.dfy` | the jobs table; one job under creation, worker, cancellation and time |
| `JobRuns.dfy` | one worker run with all it records; the creating and cancelling routes |
| `JobEvents.dfy` | the event log, replay into live subscription, and the bytes on the wire |
| `WorkspaceJanitor.dfy` | the clean-up pass, alone and against running jobs |
| `PlanCache.dfy` | the cache of plan limits under overlapping reloads and updates |

Code that updates objects or runs loops is modelled by classes and methods, proved
against specification functions and predicates. Where several parties act at once, a
protocol is a set of atomic steps, and a run is any sequence of them.

## Where the code does not do what its comments say

Each of these is proved below, with the exact condition where one exists and with an
input or run that shows it.

- An exception in the event source of a Responses stream ends in
  `response.completed`, unless Codex had reported a failure before; the comment
  promises a failed frame (`CompletedIff`, `StreamRun`). An output line too long for
  the reader is such an input (`OverlongLineReportedCompleted`).
- A limit of 0 is documented as no limit (`src/gateway/routes/admin_tiers.py:49`); the
  slot check refuses it, except when the count has sunk to -2 or below
  (`ZeroLimitAdmitsIff`, `ZeroLimitAdmits`).
- Once the slot counter has lapsed under its holders it can turn negative, and then
  the count 0 of an admitted request reads as a refusal (`LateRefreshBreaksCap`;
  `AdmittedIff` for all runs).
- A time limit has no effect on a stream once a frame has gone out for an event: the
  keepalive wrapper asks for every frame in a new task, and the runner's timer cancels
  the one in which it was set (`LimitInResponses`, `LimitInChat`, `LimitLost`).
- A lost release is not healed while clients go on trying, since refused requests renew
  the key: under a limit of 1 the key stays locked for as long as they do
  (`LeaksHealIff`, `LostReleaseLocksOut`).
- An upstream that raises `TimeoutError` itself is never noticed by the keepalive
  wrapper (`KeepaliveWrap`, `TimeoutErrorNeverEnds`).
- A job shown as cancelled can still run to success, when the cancel flag lapses
  while the job waits or when the flag comes just after the worker has looked
  (`FinalLeftIff`, `CancelForgotten`, `CancelOvertaken`); a failed enqueue also
  overwrites it (`EnqueueFailureOverwrites`).
- An enqueue error after the job is in the queue lets the creating request mark a job
  failed that succeeds or has succeeded (`EnqueueErrorOverwritesSuccess`).
- What Codex and the runner report never makes a job fail: after failed turns, error
  events and bad exits it succeeds like any other (`JobSucceedsIff`,
  `FailedTurnSucceeds`), and its recorded exit code is not that of the process
  (`ExitCodeNotTheProcess`).
- A charge that fails open is trued up all the same, which moves a counter that was
  never charged (`CounterMeansTokens`, `FailOpenDrifts`).
- An event published between the replay and the subscription is lost to that
  subscriber; if it is the terminal one, the subscriber waits for ever
  (`FinishedJobAsSeen`, `EndCanBeLost`).
- An update of plan limits can be undone in the cache by a reload that was under way
  (`UpdateTakesEffectIff`, `StaleReloadHappens`).
- A wrapped tool call is missed when the whole reply reads as JSON of another kind
  (`WrappedReplyParses`), for instance when it is put into a list
  (`BracketedReplyMissed`).

Of the chat route's wrapper taken alone: a stream that breaks between its finish frame
and `[DONE]` gets a second finish frame, and one that breaks before its first frame gets
no role (`BrokenStreamIsClosed`). Exceptions of the event source do not get that far,
since `stream_chunks` turns them into a finish reason (`ChatWire`).

## Model

| member | source | states |
|---|---|---|
| JsonText.LoadsPrint | src/chat/tool_calling.py:155-165 | reading is the inverse of printing for every JSON value and every layout of the printer; the partner of the parser's use of `json.loads` |
| JsonText.ReadsAnywhere | src/chat/tool_calling.py:153-165 | the text of an object, however it is written, is read in the same way in any surroundings |
| JsonText.PrintReads | src/chat/tool_calling.py:153-165 | what the printer writes for an object is such a text |
| JsonText.NumberGrammar | src/chat/tool_calling.py:155-165 | what the reader takes for a number is exactly what the grammar of RFC 8259 section 6 derives, fraction and exponent included |
| JsonText.ShortEscapes | src/chat/tool_calling.py:155-165 | the short escapes of RFC 8259 section 7, and no others |
| JsonText.UnicodeEscapes | src/chat/tool_calling.py:155-165 | hexadecimal escapes in either case, surrogate pairs, and malformed ones |
| ToolCalling.ExtractJsonObject | src/chat/tool_calling.py:92-123 | the scanning loop computes the specification `Extract` |
| ToolCalling.ExtractIsShortestBalanced | src/chat/tool_calling.py:99-123 | a result starts at the first brace and is the shortest text there whose braces balance outside strings, counted prefix by prefix; None exactly when no prefix balances |
| ToolCalling.ExtractStable | src/chat/tool_calling.py:105-123 | text appended after the result does not change it |
| ToolCalling.ExtractsEveryObject | src/chat/tool_calling.py:92-123 | whenever the text at the first brace reads as a JSON object, in any layout and with strings holding quotes, backslashes and braces, the extractor returns exactly that object's text |
| ToolCalling.ExtractsCore | src/chat/tool_calling.py:92-123 | the text of any object, however it is written, is extracted whole after brace-free prose and before anything |
| ToolCalling.FencedReply | src/chat/tool_calling.py:82-89 | stripping undoes fencing, with or without the language tag and surrounding white space |
| ToolCalling.ParseToolResponse | src/chat/tool_calling.py:126-193 | the result is a call list exactly if the decoded text says that list: the entire one, which is unique, never empty, never a subset; every name in a result is whitelisted; None means that the text says no list |
| ToolCalling.UnlistedNameRefused | src/chat/tool_calling.py:188-190 | one name that is not whitelisted makes a reply, bare or fenced, no tool call at all |
| ToolCalling.MalformedRefused | src/chat/tool_calling.py:170-187 | so does a missing or empty list, or an entry that is no object or lacks a string name or an object of arguments |
| ToolCalling.LookupIsLast | src/chat/tool_calling.py:184-185 | of repeated keys the last counts |
| ToolCalling.WrappedReplyParses | src/chat/tool_calling.py:126-193 | round trip for every text that `json.loads` reads as a list of whitelisted calls, indented or escaped in whatever way, and all surrounding text without an earlier brace: the reply decodes to that list if and only if the cleaned text is not itself JSON of another kind |
| ToolCalling.BracketedReplyMissed | src/chat/tool_calling.py:155-172 | every object put into a list is such JSON, and no call list is found in it |
| ToolCalling.PrintedReplyReads | src/chat/tool_calling.py:126-193 | every non-empty list of whitelisted calls has such texts |
| ToolCalling.PlainReplyParses | src/chat/tool_calling.py:153-158 | bare and fenced, all those texts round-trip without condition |
| ResponsesWire.AcceptedMeans | src/responses/events_emitter.py:106-299 | what the grammar gives frame by frame: every frame of a bracket carries the number of items done before it, and a terminal frame is the last and lists the items done |
| ResponsesWire.BracketsAre | src/responses/events_emitter.py:114-183 | every finished item of an accepted stream ends a bracket of one shape, frame by frame: announcement, part, progress or errors only, deltas of that item, none empty, text and part with what the deltas join to, and the item with that text; under the id announced where ids are kept |
| ResponseEmitting.ChunksJoin | src/responses/responses_helpers.py:23-36 | chunks join to the text for every size, zero and negative included, and all but the last are exactly that long |
| ResponseEmitting.ResponseEmitter.Emit | src/responses/events_emitter.py:76-81 | frames are numbered without gap over the whole run |
| ResponseEmitting.ResponseEmitter.EmitAgentMessage | src/responses/responses_helpers.py:59-113 | from an open bracket, deltas that are the chunks of the text, then the three closing frames with the whole text; the stored item holds that text; accepted by the grammar |
| ResponseEmitting.ResponseEmitter.CloseOpenItem | src/responses/events_emitter.py:223-263 | an item without text is closed as an empty, incomplete one and the next index is free |
| ResponseEmitting.ResponseEmitter.OnCodexEvent | src/responses/events_emitter.py:106-221 | every event keeps the invariant that ties all fields to what a reader of the trace has seen; exact effect on items, error, usage, open item and deltas, and the id under which a message is announced |
| ResponseEmitting.LastUsageFits | src/responses/events_emitter.py:186-194 | the usage kept is that of the last completed turn that carries one, field by field |
| ResponseEmitting.LastFailureFits | src/responses/events_emitter.py:196-214 | the error kept is that of the last failing event, by its kind: code and message |
| ResponseEmitting.IdOrSays | src/responses/responses_helpers.py:80-81 | which of the three ids an item gets |
| ResponseEmitting.IdsKeptWhen | src/responses/events_emitter.py:114-183 | where messages have ids, and completions those of their announcements, every bracket keeps its id |
| ResponseEmitting.ResponseEmitter.Finalize | src/responses/events_emitter.py:265-282 | one terminal frame, failed with the last error or completed with items and usage; none after a cancellation |
| ResponseEmitting.ResponseEmitter.Cancel | src/responses/events_emitter.py:284-299 | closes what is open, then one cancelled frame with all items; a second call emits nothing |
| ResponsesHandling.StreamResponses | src/responses/stream_handler.py:41-110 | for every event list, chunk size, disconnection and ending: gapless numbers, the bracket grammar, one terminal frame that is last and tells the truth about the events field by field (usage of the last turn that has one, code and message of the last failure), the text of the items equal to the answer; only an item still open when the run is finalized stays open |
| ResponsesHandling.HandleEvent | src/responses/stream_handler.py:79-80 | one turn of the loop keeps emitter and events in step, and puts out frames for exactly the events that show |
| ResponsesHandling.CollectResponse | src/responses/sync_handler.py:35-145 | the collector's text, its one item, usage field by field or the estimate, error by the kind of the failing event, and exactly when an exception gets through |
| ResponsesHandling.StreamRefinesSync | src/responses/sync_handler.py:57-121 | over events cut at the first terminal one, streaming and collecting report the same status, text and usage, or the same error |
| ResponsesHandling.FailureReportedIff | src/responses/events_emitter.py:196-214 | a stream is reported failed exactly when a handled event failed |
| ResponsesHandling.CompletedIff | src/responses/stream_handler.py:95-110 | an uncancelled stream ends in `response.completed` exactly when no handled event failed, exceptions of the source included |
| ChatStreaming.AcceptedCounts | src/chat/stream_handler.py:219-230 | a well-formed stream has one role, one finish frame, at most one usage frame, and `[DONE]` with only comments after it |
| ChatStreaming.StreamChunks | src/chat/stream_handler.py:148-230 | for every event list and ending: well formed, content and progress of exactly the events read, usage equal to the token sum; the finish is `error` exactly if the turn was read to its end and failed or the source raised with neither its end nor the cap met, `length` exactly if a message reached the cap before the turn ended, `stop` otherwise; a cancelled task leaves a well-formed prefix |
| ChatStreaming.ThoughtsSay | src/chat/stream_handler.py:150-187 | the progress line of each kind of event |
| ChatStreaming.TokenSumsAddUp | src/chat/stream_handler.py:169-169 | tokens are counted message by message |
| ChatStreaming.CapOvershootsByOnePiece | src/chat/stream_handler.py:168-177 | before the last event read the running count is below the cap; finishing for length means that it was reached |
| ChatStreaming.HandleSync | src/chat/sync_handler.py:50-181 | for every cap the whole answer or its truncation if that is shorter, and `error`, `length` or `stop` accordingly; tool calls, all of offered tools, exactly when tools were offered and the whole text decodes to a call list; exceptions exactly when they get through |
| ChatStreaming.StreamAgreesWithSync | src/chat/sync_handler.py:76-114 | without a cap the stream carries the synchronous text and finish reason |
| ChatStreaming.StreamWithUsageCapture | src/gateway/routes/chat_completions.py:164-204 | passes the stream on, closes it exactly when it failed before `[DONE]`, and counts the payload bytes |
| ChatStreaming.PayloadsAddUp | src/gateway/routes/chat_completions.py:182-184 | which frames count towards the bytes |
| ChatStreaming.BrokenStreamIsClosed | src/gateway/routes/chat_completions.py:188-195 | of the wrapper alone: wherever a stream breaks there is one `[DONE]`; the whole is well formed if and only if the break came between first data frame and finish frame |
| ChatStreaming.KeepAlivesChangeNothing | src/gateway/routes/chat_completions.py:157-158 | keepalives do not change how a stream reads |
| KeepaliveWrapping.KeepaliveWrap | src/gateway/sse_helpers.py:44-74 | one output per wait for every schedule, never two calls outstanding, ends only when the upstream has ended; never ends on an upstream `TimeoutError` |
| KeepaliveWrapping.KeepalivesTransparent | src/gateway/sse_helpers.py:57-68 | without its keepalives the output is the upstream sequence, in order and once each, as far as it has arrived |
| KeepaliveWrapping.TimeoutErrorNeverEnds | src/gateway/sse_helpers.py:60-66 | over an upstream that raises `TimeoutError` the wrapper never ends, and puts out nothing but keepalives once the items are through |
| ChatPipeline.ChatWire | src/gateway/routes/chat_completions.py:157-204 | streaming, keepalives and wrapper together: at every moment a well-formed beginning of the answer, and once all is through the complete stream with the whole answer and the right finish reason |
| CodexRunning.StderrBuffer.Drain | src/codex/runner.py:91-104 | however stderr is chunked, the buffer is the last `cap` bytes |
| CodexRunning.LastIs | src/codex/runner.py:99-102 | the last bytes are all of them or exactly as many as asked for, from the end |
| CodexRunning.RunCodex | src/codex/runner.py:226-304 | the parsed lines in order, then at most one added error: for a time limit that passes while the task that set the timer still waits, and otherwise after a bad exit without a terminal event, with the last 4096 bytes of stderr; none for an exception while the output is read, which reaches the consumer |
| CodexRunning.ParsedAddUp | src/codex/runner.py:249-256 | lines are read one by one, and those that do not parse are skipped |
| CodexRunning.AddedIs | src/codex/runner.py:258-304 | the error that is added, field by field, and exactly when |
| BadEndings.TimeoutReported | src/responses/events_emitter.py:203-214 | if the runner reports a timeout, a Responses stream fails with it; the collector does if the turn had not ended and has the turn's outcome otherwise |
| BadEndings.LimitInResponses | src/gateway/sse_helpers.py:58-61 | served with a task for every frame, a Responses stream fails for the time limit if and only if the limit passes before any frame has gone out for an event, and is otherwise what it would be without a limit; the collector, in one task, reports it unless the turn has ended |
| BadEndings.LimitLost | src/codex/runner.py:247-265 | a run whose limit passes after the thread was announced is served to its end and completes |
| BadEndings.TimeoutInChat | src/chat/stream_handler.py:168-208 | if the runner reports a timeout, then for every token cap the chat stream finishes with `error` for it if neither the turn had ended nor the cap been reached, and otherwise as it would have without it |
| BadEndings.LimitInChat | src/gateway/routes/chat_completions.py:157-158 | as it is served, a chat stream finishes with `error` for the time limit if and only if the limit passes before the first chunk is out, and otherwise meets the events there would be without a limit |
| BadEndings.ChatStoppedIff | src/chat/stream_handler.py:168-208 | the chat loop has been left exactly when the turn has ended or the token sum has reached the cap |
| BadEndings.StreamRun | src/responses/stream_handler.py:67-110 | the runner under the Responses stream as it is served: completed exactly when the run was not cancelled and no event delivered under the limit failed, whatever exception ended the output |
| BadEndings.OverlongLineReportedCompleted | src/responses/stream_handler.py:95-106 | a run that yields nothing because reading raises is reported as completed |
| BadEndings.BadExitNeverSilent | src/codex/runner.py:294-304 | a bad exit is never collected as a success unless Codex completed its turn |
| Utf8.DecodeEncodedChar | src/workers/git_diff.py:72-79 | decoding reads back an encoded code point whatever follows |
| Utf8.Rfc3629Examples | src/workers/git_diff.py:72-72 | the encodings of the examples in RFC 3629 section 7 |
| Utf8.EncodedLimits | src/workers/git_diff.py:72-72 | the encodings of the first and last character of each length |
| Utf8.CutDecodes | src/workers/git_diff.py:76-79 | cutting the encoding at any byte and decoding leniently gives a prefix of the text |
| Utf8.FitIsLongest | src/workers/git_diff.py:76-79 | that prefix is the longest whose encoding fits, and loses at most three bytes below the limit |
| DiffTruncation.CaptureDiff | src/workers/git_diff.py:66-86 | stored text, original size and truncation flag |
| DiffTruncation.CutTwice | src/gateway/schemas/jobs.py:115-120 | a cut followed by a smaller one is the smaller one |
| DiffTruncation.ShownDiffIsCutOnce | src/gateway/schemas/jobs.py:112-140 | the diff in a response is the response cut of git's own output, across both layers, and its flag tells whether that was too long |
| ConcurrencySlots.RedisKey.ConcurrentCheck | src/infra/redis_lua/concurrent_check.lua:12-28 | the script counts or refuses, leaves a refused count unchanged and renews the expiry in both cases |
| ConcurrencySlots.Call | src/gateway/middleware/rate_limit.py:188-335 | by which exits a request gives back what it took, with Redis errors and cancellations of the task that did or did not let the command run |
| ConcurrencySlots.AdmittedIff | src/gateway/middleware/rate_limit.py:194-208 | in every run a request is let in exactly if holders plus leaks minus wiped slots are below its limit and not -1 |
| ConcurrencySlots.CounterConserved | src/gateway/middleware/rate_limit.py:188-216 | over every interleaving the counter is holders plus leaks minus slots wiped by a lapse |
| ConcurrencySlots.TimelyRunIsExact | src/gateway/middleware/rate_limit.py:337-369 | with refreshes less than 60 s apart the key never lapses while held, the counter is holders plus leaks and never negative, and admission is exactly being below the limit |
| ConcurrencySlots.CapHolds | src/gateway/middleware/rate_limit.py:194-208 | in such runs holders never exceed the cap, and in any run by no more than the slots wiped |
| ConcurrencySlots.UncountedNeverDecrements | src/gateway/middleware/rate_limit.py:322-335 | in every run a request let in on a Redis error never touches the counter afterwards |
| ConcurrencySlots.LeaksHealIff | src/infra/redis_lua/concurrent_check.lua:16-26 | in every run leaks go away only with the key, which lapses exactly when it has an expiry and no check, refused ones included, and no refresh came for 60 s |
| ConcurrencySlots.LostReleaseLocksOut | src/infra/redis_lua/concurrent_check.lua:16-26 | for any number of requests with any gaps below 60 s: after one lost release under a limit of 1 all of them are refused, with nobody holding |
| ConcurrencySlots.ZeroLimitAdmitsIff | src/infra/redis_lua/concurrent_check.lua:22-28 | a limit of 0 or less is refused in every timely run, whatever the other limits; in any run it is let in exactly when the slots wiped exceed those held and leaked by at least two and by more than the negated limit |
| ConcurrencySlots.ZeroLimitAdmits | src/infra/redis_lua/concurrent_check.lua:22-28 | a run in which a limit of 0 lets a request in |
| ConcurrencySlots.LateRefreshBreaksCap | src/gateway/middleware/rate_limit.py:337-345 | the bound is sharp: a run with one late refresh breaks the cap, makes the counter negative and refuses a request with nobody holding |
| UsageTables.UsageTable.Increment | src/db/crud/usage_counter.py:46-65 | the upsert adds to one row and leaves the others |
| UsageTables.RowsAreTotals | src/db/crud/usage_daily.py:28-72 | after any increments in any order each row is the sum of what was added under its key |
| TokenLedger.Ledger.TpmCheck | src/infra/redis_lua/tpm_check.lua:20-50 | a charge is all or nothing, allowed exactly if it fits |
| TokenLedger.Ledger.TrueUp | src/gateway/middleware/usage_tracking.py:125-220 | with each store failing or not: the charged window moves by the difference, the ledgers by the tokens used |
| TokenLedger.IncrementedIs | src/gateway/middleware/usage_tracking.py:173-217 | what an upsert adds to a usage row, field by field |
| TokenLedger.CountersConserved | src/gateway/middleware/rate_limit.py:241-302 | over every interleaving, roll-over and error included, each counter is the sum of the requests' contributions less what an expiry wiped, and nothing is wiped within a minute of the window's end |
| TokenLedger.CounterMeansTokens | src/gateway/middleware/usage_tracking.py:141-158 | at any time the counter is tokens used by the trued-up plus estimates of the others if and only if the drifts of lost charges and true-ups add up to what an expiry wiped, which is nothing within a minute of the window's end |
| TokenLedger.FailOpenDrifts | src/gateway/middleware/rate_limit.py:280-301 | for every estimate and use, a charge that failed open leaves the counter short of the use by the estimate |
| TokenLedger.ChargedIff | src/infra/redis_lua/tpm_check.lua:38-46 | in every run a charge is accepted exactly if the contributions to its window, less what an expiry wiped, leave room for it, and then stays within the limit; a denied one charges nothing |
| JobsTable.Table.MarkCancelled | src/db/crud/jobs.py:159-176 | the guarded update and its row count |
| JobProtocol.RunKeepsInv | src/workers/job_handlers.py:71-280 | in every run the worker's place determines what the row can be, but for the creating request writing over it after a wrong enqueue error; at most one terminal event is published, and no workspace outlives the worker |
| JobProtocol.TerminalEventIsFinal | src/workers/job_handlers.py:198-271 | at most one terminal event, last of the worker's, and the row holds the matching status for ever after, unless the creating request, told of an error by an enqueue that was done, writes over it |
| JobProtocol.FinalLeftIff | src/db/crud/jobs.py:72-176 | in every run, exactly which steps leave a final status; only a cancelled one is left unless an enqueue erred and was done |
| JobProtocol.OutcomeStays | src/db/crud/jobs.py:89-138 | in every run a succeeded or failed job stays so, unless its enqueue erred and was done |
| JobProtocol.DeleteOnlyCancelsQueued | src/gateway/routes/jobs.py:237-249 | any number of DELETE requests changes the row only from queued to cancelled |
| JobProtocol.CancelWins | src/workers/job_handlers.py:73-81 | if the flag is live when the worker looks, early or at a further event, the job ends cancelled, unless overridden as above, with one `job.cancelled` and no workspace; after an early look it never runs |
| JobProtocol.CancelForgotten | src/workers/job_handlers.py:73-101 | a run in which a cancelled job runs to success after the flag has lapsed |
| JobProtocol.CancelOvertaken | src/workers/job_handlers.py:73-101 | a run in which a cancelled job runs to success with the flag live throughout |
| JobProtocol.EnqueueFailureOverwrites | src/gateway/routes/jobs.py:152-165 | a run in which a cancelled job ends failed, without any terminal event |
| JobProtocol.EnqueueErrorOverwritesSuccess | src/gateway/routes/jobs.py:152-165 | a run in which the enqueue errs and is done: the job succeeds, announces it, and ends failed |
| JobRuns.StreamEvents | src/workers/job_handlers.py:133-176 | every event before a live flag is published and accumulated: summary, error messages, tokens, exit code |
| JobRuns.RunCodexJob | src/workers/job_handlers.py:54-280 | for every script of failures: the events published in order, the last of them announcing what the row then says, succeeded with the result, failed with the verdict's code, or cancelled; no workspace left; a job that is not in the table gets nothing |
| JobRuns.VerdictSays | src/workers/job_handlers.py:71-271 | exactly when a run ends in which way and with which error code |
| JobRuns.RowSays | src/workers/job_handlers.py:192-271 | status, result, error code and workspace in the row for each verdict |
| JobRuns.EventsSay | src/workers/job_handlers.py:102-229 | the published events one by one, with their contents |
| JobRuns.ResultSays | src/workers/job_handlers.py:178-203 | the result recorded: summary, files, exit code, tokens, and the last 4096 characters of the error messages |
| JobRuns.RecordsAddUp | src/workers/job_handlers.py:157-176 | everything recorded is recorded event by event, in order |
| JobRuns.RecordsOfOne | src/workers/job_handlers.py:157-176 | what each kind of event adds |
| JobRuns.LinesJoin | src/workers/job_handlers.py:178-179 | parts are joined with one line break between neighbours |
| JobRuns.JobSucceedsIff | src/workers/job_handlers.py:103-271 | the worker over the runner, for every output and every end: the job succeeds if and only if the process exited, with whatever code and reports, the set-up worked, no flag was found and the diff could be captured; out of time it fails with `timeout`, since the worker's timer comes before the runner's, and an exception while the output is read fails it |
| JobRuns.FailedTurnSucceeds | src/workers/job_handlers.py:128-232 | a failed turn with exit code 1 is recorded as succeeded, with exit code 0 and no error |
| JobRuns.ExitCodeNotTheProcess | src/workers/job_handlers.py:170-176 | a bad exit adds its message to the result, but the exit code recorded is what it was without it |
| JobRunsInProtocol.FollowsProtocol | src/workers/job_handlers.py:71-280 | every run of `RunCodexJob` is that of some run of the job protocol: the status it leaves in the row, events of the same kinds, no workspace |
| JobRoutes.Gateway.CreateJob | src/gateway/routes/jobs.py:135-175 | queued and announced, or failed and not announced, although the job may be in the queue |
| JobRoutes.Gateway.CancelJob | src/gateway/routes/jobs.py:219-256 | a queued job is flagged and cancelled, a running one flagged and its row left alone, any other untouched; the answer is the row as it then is |
| JobRoutes.CancelFollowsProtocol | src/gateway/routes/jobs.py:232-249 | the route leaves row and flag as the protocol's DELETE does, and the flag live for a job that was not over, so that `CancelWins` speaks of this route |
| JobRoutes.CreateFollowsProtocol | src/gateway/routes/jobs.py:135-175 | so does creation: row, log, and whether the job is delivered |
| JobRoutes.CancelIdempotent | src/gateway/routes/jobs.py:219-249 | cancelling twice is cancelling once, and requests for different jobs commute |
| JobEvents.ReplayThenSubscribe | src/gateway/routes/jobs.py:307-355 | under every interleaving with publishers, what is shown is the log as of the replay and one contiguous later run of it, decodable entries only, cut at the first terminal one; exactly when it closes, leaves or goes on |
| JobEvents.CatchesUp | src/gateway/routes/jobs.py:336-354 | once publishing stops, a subscriber gets through all it was sent |
| JobEvents.ReplayOfFinishedJob | src/gateway/routes/jobs.py:317-329 | with the terminal event in the backlog the output is exactly the log through it |
| JobEvents.NothingMissedIff | src/gateway/routes/jobs.py:316-338 | nothing is missed if and only if the replay held the end or nothing decodable was published in between |
| JobEvents.EndSeenIff | src/gateway/routes/jobs.py:316-355 | the end is seen if and only if it was not published in between |
| JobEvents.ClientRecovers | src/gateway/routes/jobs.py:327-327 | an event source that reads the bytes by the rules of the HTML standard, section 9.2.6, recovers every event in order, keepalives or not |
| JobEvents.ClientReceivesShown | src/gateway/routes/jobs.py:317-354 | what the subscription shows is what the client receives: one event for each entry with its type, or `message`, and its whole text |
| JobSubscribers.FinishedJobAsSeen | src/workers/event_publisher.py:33-61 | for every run of the job protocol: what a subscriber learns of the end, that it is the end the row shows unless that is overridden, and exactly when it learns everything |
| JobSubscribers.EndCanBeLost | src/gateway/routes/jobs.py:317-338 | a run in which the job finishes between replay and subscription and the subscriber never learns of it |
| WorkspaceJanitor.CleanupStaleWorkspaces | src/workers/janitor.py:38-100 | with nothing else going on exactly the old directories inside the root go that bear the name of no job or of a finished one, and they are counted; nothing goes when query or scan fails |
| WorkspaceJanitor.ActiveWorkspacesSurvive | src/workers/janitor.py:54-97 | in every interleaving with jobs no workspace of a job queued or running at that moment is removed, jobs created or brought back after the query included, if query and worker lag stay below the hour |
| WorkspaceJanitor.SlowPassLosesWorkspace | src/workers/janitor.py:54-85 | the bound is sharp: for every wait and lag that use up the hour there is a run in which a running job loses its workspace |
| PlanCache.Process.Fill | src/db/crud/plans.py:77-81 | the reload loop replaces what it brings and keeps the rest |
| PlanCache.Process.GetLimits | src/db/crud/plans.py:53-91 | hit, reload and fallback, with the cache afterwards |
| PlanCache.FallbackIs | src/db/crud/plans.py:32-41 | the limits built in, tier by tier |
| PlanCache.FilledIs | src/db/crud/plans.py:77-81 | a reload replaces what it brings and leaves the rest alone |
| PlanCache.PlansOfIs | src/db/crud/plans.py:77-79 | a result set says of a tier what its last row says, and of no other tier |
| PlanCache.Process.UpdateTier | src/gateway/routes/admin_tiers.py:105-146 | refused, or committed and the cache dropped |
| PlanCache.StalenessBounded | src/db/crud/plans.py:69-91 | under any interleaving a returned value was the row's at a moment within the time to live before the call or during it; the limits built in are returned only after a failed query or for a row that did not exist |
| PlanCache.UpdateTakesEffectIff | src/gateway/routes/admin_tiers.py:124-135 | after commit and invalidation, all later calls in all continuations, but for those whose own query fails, get the tier's new limits or later ones, if and only if no reload that read other limits for the tier is still able to fill the cache |
| PlanCache.CurrentLimitsServedIff | src/gateway/routes/admin_tiers.py:124-135 | the same on the limits themselves: without a further update all later calls whose query does not fail get exactly the limits in the table, if and only if there is no such reload |
| PlanCache.StaleReloadHappens | src/db/crud/plans.py:75-81 | a run that ends with such a reload |

## Left out

- Responses streaming: a generator closed in the middle of an item (`GeneratorExit` between two frames); cancellation is modelled at event boundaries.
- Responses routes: the wrappers around the stream, event ids, timestamps, model names and metadata.
- Random ids: supplied as parameters; generated item ids are any non-empty strings.
- JsonText.LoadsPrint: lone surrogate escapes are rejected where Python accepts them, numbers are kept as text, and the recursion limit of Python's reader is not modelled.
- ToolCalling.ParseToolResponse: argument dictionaries are kept as member lists, so repeated keys in arguments are not collapsed.
- Event parsing: fields that no handler reads are dropped.
- Chat prompts, `tiktoken` counting and truncation: parameters; their results are arbitrary.
- Usage tracking: the cap on background tasks and the alternative key names of a usage report; its total is the sum of both parts.
- Rate limits: the sliding window for requests per minute, edge-IP limits, and the monthly quota check, whose results are inputs here.
- ConcurrencySlots.Call: the key does not lapse during the single call; the lapse is part of the many-request model.
- Token estimates are whole numbers; the code stores floats.
- CodexRunning.RunCodex: a process whose output can no longer be read is not terminated, and waiting for it may never end; the exception is modelled as reaching the consumer.
- CodexRunning.RunCodex: a time limit that passes while an event is being handled, between the arrival of one line and the wait for the next, is taken to pass before or after it.
- Jobs: recovery of orphans, repeated delivery, and store failures while a worker records its outcome. The job invariants do not hold there.
- Jobs: access checks, repository checks, time stamps, error texts, daily usage and the archive of stderr. A failed job's event carries its error code in place of the text.
- JobRuns.RunCodexJob: the checks of the cancel flag are inputs and the stores answer; how flags come and go, and stores that fail before an outcome is recorded, are subjects of `JobProtocol`.
- Protocols with several parties are values changed by atomic steps, not objects sharing memory; statements on one row or key are atomic.
- JobEvents.ReplayThenSubscribe: publishing is one step, although the code pipelines three commands; the log's own expiry after a day is left out.
- Janitor: several passes at once, directories not made by workers, and clocks that go back. Files removed only in part are removed.
- Plan cache: one process; other processes keep their own caches until they expire. Row deletion is not modelled.
- Git, cloning, archives, HTTP, signals, logging, metrics, admin pages and authentication: input and output only.
