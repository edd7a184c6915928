# Verified core of the analyst platform

This project models, in Dafny, the parts of the platform whose correctness is hard to
see from any single body, and proves what each is for.

- **The event stream** (`SseFraming`, `SseFields`, `RunEvents`, `EventStream`, `RunStream`). A run's
  events are numbered by `append_event`, replayed from a cursor by `_event_stream`, printed
  as Server-Sent Events, cut anywhere by the network, parsed incrementally by
  `parseSseBuffer` and resumed after drops by `streamRunEvents`. Main results: parsing does
  not depend on how the text is cut; the parser emits what a line-at-a-time automaton over
  the raw characters emits (CR, LF and CRLF all end lines, HTML standard sections 9.2.5 and
  9.2.6); it inverts the printer; and over any drops and reconnects the client processes
  events in order, each once.
- **Chunking** (`Chunking`, `ChunkingTheorems`). For every text, size and overlap the loop
  terminates with legal indices, its chunks rebuild the normalised text, and every word that
  fits in a chunk is whole in some chunk, words and letters being those of the raw text.
- **Queue, worker, rows** (`JobQueue`, `QueueProtocol`, `QueueOverlap`, `QueueDrain`, `Rows`,
  `Worker`, `WorkerTheorems`, `StrandedRows`, `QueueRefinement`, `DeadLetters`, `RunHistory`,
  `RunOverlap`). Conservation of
  jobs under crashes, what overlapping workers can break and exactly when, the delivery bound,
  a measure that bounds every run without new jobs, at-least-once delivery that writes one
  terminal answer, a sweep that settles every stranded row whatever Redis holds, the in-memory
  queue as an abstraction of the Redis queue, which rows a crash strands, what two deliveries of
  one run at once can write, and the worker's commits as the browser reads them (`EndToEnd`).
- **Refresh sessions** (`RefreshSessions`, `RefreshTheorems`, `SingleFlight`). Rotation
  chains are disjoint acyclic paths with at most one live session, a replayed token ends its
  lineage for good, and the browser's shared refresh never makes the server detect a reuse.
- **The agent graph** (`AgentGraph`, `AgentTheorems`). The exact node bound, exactly when
  the recursion limit is large enough, and answers grounded in gathered evidence.
- **Limits** (`RateLimit`, `DailyQuota`). The exact fixed-window bound, and a daily quota
  that is exact under every interleaving of SQL statements.

`Wrappers` and `Text` hold an option type, counting and string primitives.

Code that changes things step by step is a method or a class, proved against a function of
its inputs or of the old state; the theorems are about those functions. Every choice the
environment makes (network cuts, crashes, commits between two queries, clocks, model
replies, query row order) is a parameter that the theorems quantify over.

## Where the code and its documentation differ

- The worker's comment that a reader who reconnects misses nothing
  (backend/app/worker.py:123-127) holds per connection only up to the last event read.
  `_event_stream` reads events and status in two queries, and a commit between them can close
  the stream before its terminal event. `FinishedStreamIsWhole` and `StreamOfHistoryIsWhole`
  give the exact condition and `SplitReadLosesTerminalEvent` the input.
- The graph's recursion limit, `max(8, 4 * max_steps)`, is not always as large as the number
  of nodes a run may execute. `LimitIsSafeExactlyWhen` says exactly when it is, and
  `BoundIsMet` gives a run that reaches the bound.
- "No user's upload or question is lost" (backend/app/worker.py:242-247) fails in two ways until
  a worker next starts and sweeps. The write of a last failure may fail:
  `DeliverySettlesOrRetries` has the exact condition, `UnrecordedFailureStrands` the input. And
  `recover_expired` gives up a job whose last holder crashed without failing its row
  (backend/app/services/queue.py:151): `CrashesAloneDeadLetter` and `LastCrashStrandsRun` are the
  inputs, `RecoveryKeepsExactlyWhen` and `RecoveryTracksExactlyWhen` the exact conditions.
- A run whose job lapses while its worker lives can be completed twice, with two terminal events:
  `TwoTerminalEntriesExactlyWhen` is the exact condition and `AnsweredTwice` a schedule.
- A retry at the moment the limiter's hint names can be refused again, because the hint is
  truncated: `RetryAtHintSucceedsExactlyWhen` and `RetryAtHintCanFail`.
- A job whose visibility lapses while its worker lives has two holders, and its id can then be
  pending twice: `StepKeepsDistinctExactlyWhen` and `OverlapDuplicatesPending`.
- The framing keeps frames whose data is empty and trims `event` and `id`, where the HTML
  standard drops the former and does not do the latter. The model follows the code.
- The comment that the fallback router spends no budget on a route that came back empty
  (backend/app/agents/supervisor.py:104-107) is not true of the web, because line 102 does not
  count `web_unavailable`: `FallbackRepeatsExactlyWhen` is the exact condition and
  `FallbackRepeatsWeb` a run.

## Model

| member | source | states |
|---|---|---|
| SseFraming.ParseFrame | frontend/src/lib/sse.ts:52-74 | the loop over a frame's lines folds each into `event`, `id` and `data` and yields no frame exactly when none was set |
| SseFraming.BlankLine | frontend/src/lib/sse.ts:41 | `indexOf("\n\n")`: a blank line, and none begins before it; -1 exactly when there is none |
| SseFraming.ParseSseBuffer | frontend/src/lib/sse.ts:33-50 | the buffer loop returns the frames and `rest` of the parsing function, with a trailing lone CR held back |
| SseFraming.NormalizeAppend | frontend/src/lib/sse.ts:36 | normalising line endings distributes over any cut that does not split a CRLF |
| SseFraming.ScanAppend | frontend/src/lib/sse.ts:38-49 | the leftmost double-newline search over a text equals the search over a prefix, resumed from its remainder |
| SseFraming.ParseAppend | frontend/src/lib/sse.ts:33-50 | parsing may stop at any character, even inside a CRLF, and resume from `rest`, with the same frames and the same final `rest` |
| SseFraming.FeedIsParse | frontend/src/lib/sse.ts:24-50 | chunking invariance: any partition of a text, carrying `rest`, parses as the whole text at once |
| SseFraming.RunNormalized | frontend/src/lib/sse.ts:36 | reading raw CR, LF and CRLF endings one character at a time is reading the normalised text |
| SseFraming.FoldTextIsFoldLines | frontend/src/lib/sse.ts:57 | splitting a frame into lines and folding them is folding it character by character |
| SseFraming.ParseIsAutomaton | frontend/src/lib/sse.ts:33-74 | refinement: the frames of a buffer are what the line-at-a-time automaton dispatches over its raw characters |
| SseFields.FrameMeans | frontend/src/lib/sse.ts:52-74 | the frame of any lines, comments, bare fields, optional spaces and repetitions included: none exactly when no line names `event`, `id` or `data`; otherwise the last event and id, trimmed, and the data lines in order |
| SseFields.EveryRawFrame | frontend/src/lib/sse.ts:57-67 | every raw frame is such lines |
| Text.TrimOfPadded | frontend/src/lib/sse.ts:68 | trimming removes the whitespace around a text and nothing else |
| Text.AsciiWhitespace | backend/app/ingestion/chunking.py:11 | what counts as whitespace among the ASCII characters |
| Text.WhitespaceDiffers | frontend/src/lib/sse.ts:68 | where `trim` and Python's `strip` and `split` differ |
| RunEvents.MaxSequenceOfLog | backend/app/services/run_store.py:93-98 | `coalesce(max(sequence), 0)` over the table is the length of the run's log |
| RunEvents.EventTable.constructor | backend/app/services/run_store.py:81-108 | an empty table is valid: every run's sequences are contiguous from 1 and its events carry its owner |
| RunEvents.EventTable.AppendEvent | backend/app/services/run_store.py:81-108 | the new event has the next number and the run's organization, is last in its run's log, and no other log changes |
| RunEvents.MatchingIsDrop | backend/app/services/run_store.py:117-121 | the `where` clause selects the run's log without its first `after` events |
| RunEvents.OrderOfOrdered | backend/app/services/run_store.py:122 | ordering rows already in sequence order changes nothing |
| RunEvents.OrderSorts | backend/app/services/run_store.py:122 | whatever order the table gives its rows in, the query's are the same rows in order of sequence |
| RunEvents.EventsSinceIsSuffix | backend/app/services/run_store.py:111-124 | resumption is exact: the query from any cursor is the log after it, in order |
| RunEvents.EventsSinceIsScoped | backend/app/services/run_store.py:117-121 | a query for another organization sees no event of the run |
| EventStream.ParseDigitsOfDecimal | backend/app/api/routes/runs.py:232 | `int` inverts the printing of a number |
| EventStream.CursorRoundTrip | backend/app/api/routes/runs.py:222-234 | a printed id sent back as `Last-Event-ID` is the number it was |
| EventStream.ParsesExactlyNumerals | backend/app/api/routes/runs.py:232 | `int` accepts digits with single underscores between them and nothing else |
| EventStream.CursorOfOthers | backend/app/api/routes/runs.py:229-234 | no header, an empty one and one that is not a number replay from the start |
| EventStream.CursorOfNumber | backend/app/api/routes/runs.py:227-234 | a number with whitespace around it is that number |
| EventStream.CursorOfSigned | backend/app/api/routes/runs.py:232 | a number may carry a sign; a negative one replays from the start |
| EventStream.FrameOfPrinted | backend/app/api/routes/runs.py:222-224 | the printed lines of an event parse to its id, type and data |
| EventStream.BlankLineOfSse | backend/app/api/routes/runs.py:222-224 | the first blank line after a printed event begins is its own end |
| EventStream.ParseOfPrinted | backend/app/api/routes/runs.py:222-224 | round trip: parsing the printed events returns exactly their frames, with empty `rest` |
| EventStream.SendEvents | backend/app/api/routes/runs.py:208-210 | one printed frame per event in order, the cursor on the last event |
| EventStream.EventsOfTick | backend/app/api/routes/runs.py:202-207 | what a tick's query returns is the piece of the final log between the cursor and what was committed |
| EventStream.OneTick | backend/app/api/routes/runs.py:200-214 | a tick extends the output by exactly the events not yet sent |
| EventStream.EventStream | backend/app/api/routes/runs.py:191-219 | whatever commits land between any two queries, the output is the log from the cursor to the last event read: no gap, no repetition; it ends as the two stop conditions say |
| EventStream.TextOfYields | backend/app/api/routes/runs.py:208-210 | the yielded strings, concatenated, are the printed log |
| EventStream.AppendOnlyIsLegal | backend/app/services/run_store.py:81-108 | with an append-only table the reads of a stream only grow and never pass the final log |
| EventStream.FollowReachesLastRead | backend/app/api/routes/runs.py:195-219 | the final cursor is the last tick's read, and a finished stream's last tick saw a terminal status |
| EventStream.FollowEndsExactlyWhen | backend/app/api/routes/runs.py:195-219 | a stream ends with the first poll that sees the run terminal and nothing new, otherwise after 3600 polls, otherwise with its connection |
| EventStream.FinishedStreamIsWhole | backend/app/api/routes/runs.py:200-217 | a stream the server ended is the whole log if and only if the first poll that saw the run terminal read something new, however little, or all had been sent before; no other poll can lose events |
| EventStream.SplitReadLosesTerminalEvent | backend/app/api/routes/runs.py:200-217 | the race: one commit between the two queries ends a stream one event early |
| RunStream.TableIsSource | backend/app/services/run_store.py:81-108 | the table `append_event` builds is a valid source for each of its runs |
| RunStream.ReachedWithinLog | backend/app/api/routes/runs.py:195-219 | a connection ends between its cursor and the end of the log |
| RunStream.Serve | backend/app/api/routes/runs.py:191-219 | the text of a connection is what the polling loop yields over the growing table: the printed log from the cursor to the last event read |
| RunStream.ConcatOfChunks | frontend/src/lib/api.ts:549-553 | the chunks a connection delivers are its text, wherever it is cut |
| RunStream.ParseOfPrefix | frontend/src/lib/api.ts:549-555 | a dropped connection yields exactly the frames that arrived whole |
| RunStream.HandleFrames | frontend/src/lib/api.ts:557-562 | the cursor becomes the last non-empty id and handlers see the recognised types in order |
| RunStream.CursorIsLastId | frontend/src/lib/api.ts:558 | the cursor is the last id that is not empty |
| RunStream.CursorStays | frontend/src/lib/api.ts:558 | without one it stays |
| RunStream.RecognizedAreKnown | frontend/src/lib/api.ts:559-561 | `onEvent` hears exactly of the frames whose type is known, in order, each once |
| RunStream.OpenMeans | frontend/src/lib/api.ts:523-543 | a connection is read if and only if its first answer, or the one after a refreshed 401, is 2xx with a body; otherwise it fails with that answer's status |
| RunStream.OrdinaryAnswerIsRead | frontend/src/lib/api.ts:523-543 | an ordinary 2xx answer is read |
| RunStream.ReadChunks | frontend/src/lib/api.ts:545-563 | the read loop processes the frames of the concatenated chunks |
| RunStream.CursorOfFrames | frontend/src/lib/api.ts:557-558 | after the frames of consecutive events the next `Last-Event-ID` is the last event's number |
| RunStream.Receive | frontend/src/lib/api.ts:545-563 | of a printed log cut short anywhere and chunked anyhow the client makes the frames that arrived whole |
| RunStream.Consume | frontend/src/lib/api.ts:522-564 | one open connection, polling loop to read loop: exactly the events that arrived whole are processed, and the cursor moves past exactly those |
| RunStream.Attempt | frontend/src/lib/api.ts:522-572 | one pass: reading if open, and the outcome as the connection's own fields determine it |
| RunStream.TurnIsExact | frontend/src/lib/api.ts:566-596 | one more connection keeps delivery exact |
| RunStream.Turn | frontend/src/lib/api.ts:567-583 | a turn sends the current cursor and keeps delivery exact |
| RunStream.StreamRunEvents | frontend/src/lib/api.ts:500-604 | end to end, for every table growing by `append_event` under the server's polls and any openings, cuts, drops and reconnects: the frames processed are events `start + 1` to `k`, each once, in order; each request resumed where the previous ones stopped; every connection but the last failed in a way worth another try, and the last did not or was the fifth |
| RunStream.ReadToItsEnd | frontend/src/lib/api.ts:537-571 | when the first answer is readable and reading ends, one request is made and the client closes |
| RunStream.RefusedAtOnce | frontend/src/lib/api.ts:528-590 | a 4xx that a refresh does not mend ends the run after one request, with its status |
| RunStream.FramesOfOneRequest | frontend/src/lib/api.ts:545-564 | after one request the frames are exactly the events the server sent, if they all arrived, and none if it was refused |
| RunStream.WholeConnectionReachesEnd | frontend/src/lib/api.ts:545-564 | an undropped connection whose polls each saw one snapshot brings the client to the end of the log |
| Chunking.LastSpace | backend/app/ingestion/chunking.py:21 | `rfind`: the last space of a range, or -1 when it has none |
| Chunking.EndOf | backend/app/ingestion/chunking.py:19-23 | a window is not empty, at most `chunk_size` long, and ends early only on a space |
| Chunking.WalkBack | backend/app/ingestion/chunking.py:34-35 | the walk back stops at the first space before, or at `start`, and passes none |
| Chunking.NextStart | backend/app/ingestion/chunking.py:30-38 | every index is legal, a negative one included, and the next start is beyond this one |
| Chunking.FindEnd | backend/app/ingestion/chunking.py:19-23 | the end branch computes the window's end |
| Chunking.FindNextStart | backend/app/ingestion/chunking.py:30-38 | the inner loop and its fallback compute the next start |
| Chunking.ChunkText | backend/app/ingestion/chunking.py:4-40 | the two errors exactly on their inputs, otherwise the trimmed non-empty texts of the windows in order |
| ChunkingTheorems.NormalizingKeepsWords | backend/app/ingestion/chunking.py:11 | normalising keeps the words of the text, in order |
| ChunkingTheorems.NormalizeTextIsNormalized | backend/app/ingestion/chunking.py:11 | no whitespace remains but single spaces between words |
| ChunkingTheorems.RunIsWord | backend/app/ingestion/chunking.py:11 | each maximal run of non-whitespace in the raw text is a word, between the words before it and those after it |
| ChunkingTheorems.WordsHoldLetters | backend/app/ingestion/chunking.py:11 | the words put together are the raw text without its whitespace |
| ChunkingTheorems.NormalizingKeepsLetters | backend/app/ingestion/chunking.py:11 | normalising loses, adds and moves no letter |
| ChunkingTheorems.EndIsLastSpace | backend/app/ingestion/chunking.py:19-23 | a window ends with the text, at the last space in reach, or, with none, at full size |
| ChunkingTheorems.NextStartIsLastWordStart | backend/app/ingestion/chunking.py:30-38 | the next window starts at the last word beginning that keeps the overlap, if one lies beyond this start, otherwise where this window ended |
| ChunkingTheorems.NextStartOverlaps | backend/app/ingestion/chunking.py:30-38 | the next window starts at this one's end or shares `overlap - 1` positions or more, and ends no earlier |
| ChunkingTheorems.NextStartInsideWord | backend/app/ingestion/chunking.py:30-38 | one step starts strictly inside a word only if that word exceeds `chunk_size` |
| ChunkingTheorems.SpansProgress | backend/app/ingestion/chunking.py:17-38 | over a whole text starts strictly increase, ends never decrease, and the overlap is kept |
| ChunkingTheorems.StartsInsideLongWordsOnly | backend/app/ingestion/chunking.py:17-38 | no window starts inside a word of at most `chunk_size` letters |
| ChunkingTheorems.WordInSomeSpan | backend/app/ingestion/chunking.py:17-38 | a word of at most `chunk_size` letters lies whole in some window |
| ChunkingTheorems.PositionInSomeSpan | backend/app/ingestion/chunking.py:17-38 | every non-space position lies in some window |
| ChunkingTheorems.SpansAreShort | backend/app/ingestion/chunking.py:19-23 | every window is 1 to `chunk_size` positions of the text |
| ChunkingTheorems.ChunksAreValid | backend/app/ingestion/chunking.py:25-27 | every chunk is a trimmed substring of the normalised text, 1 to `chunk_size` long |
| ChunkingTheorems.LetterInSomePiece | backend/app/ingestion/chunking.py:4-40 | every letter of the normalised text lies in some chunk |
| ChunkingTheorems.ChunksRebuildText | backend/app/ingestion/chunking.py:4-40 | the chunks written at their offsets rebuild the normalised text exactly |
| ChunkingTheorems.EveryShortWordInSomeChunk | backend/app/ingestion/chunking.py:4-40 | every maximal run of non-whitespace in the raw text that fits in a chunk appears in one as a whole word |
| JobQueue.RedisJobQueue.Enqueue | backend/app/services/queue.py:88-94 | the job's data and id are stored together, the id last in line |
| JobQueue.RedisJobQueue.Claim | backend/app/services/queue.py:96-111 | the first id is popped; it is in flight until its deadline if its job is readable, dropped if not |
| StrandedRows.ClaimHoldsUntilDeadline | backend/app/services/queue.py:110-139 | a claimed job is its holder's until `visibility` later: recovery before then leaves it, recovery then or later takes it back |
| StrandedRows.UnreadableIsCleared | backend/app/services/queue.py:106-150 | data that cannot be read is cleared by a claim and by recovery, and handed to nobody |
| JobQueue.RedisJobQueue.Ack | backend/app/services/queue.py:113-117 | the job leaves the in-flight set and the data hash |
| JobQueue.RedisJobQueue.Retry | backend/app/services/queue.py:119-135 | one more attempt recorded: pending again, or dead exactly when attempts run out |
| JobQueue.RedisJobQueue.FailClaim | backend/app/services/queue.py:98-110 | a claim that raises leaves the queue as it was, or its popped id in nobody's hands, or its write done and nobody told |
| JobQueue.RedisJobQueue.RecoverExpired | backend/app/services/queue.py:137-155 | each id the query lists, up to a failure, is retried, gone and unreadable ones cleared, and the answer counts those pending again |
| StrandedRows.RecoveryClearsLapsed | backend/app/services/queue.py:137-155 | after a whole recovery exactly the jobs whose deadline is still to come are in flight |
| JobQueue.InMemoryJobQueue.Enqueue | backend/app/services/queue.py:170-175 | the job waits last |
| JobQueue.InMemoryJobQueue.Claim | backend/app/services/queue.py:177-181 | the first waiting job, if any, is removed and returned |
| JobQueue.InMemoryJobQueue.Ack | backend/app/services/queue.py:183-184 | nothing changes |
| JobQueue.InMemoryJobQueue.Retry | backend/app/services/queue.py:186-194 | one more attempt recorded: waiting last, or dead exactly when attempts run out |
| QueueProtocol.StepKeepsBounds | backend/app/services/queue.py:88-155 | live and held jobs have attempts left and dead ones have used exactly all, even with overlapping holders |
| QueueProtocol.RecoverKeepsShape | backend/app/services/queue.py:137-155 | recovery moves lapsed ids to pending or dead and loses none |
| QueueProtocol.StepConserves | backend/app/services/queue.py:88-155 | with one worker at a time, every step, crashes included, keeps every job in one place and its deliveries counted |
| QueueProtocol.EveryRunConserves | backend/app/services/queue.py:88-155 | in every run each enqueued job is exactly one of acked, dead, pending, in flight or orphaned by a crash inside `claim`, and was delivered at most `max_attempts` times |
| QueueOverlap.StepKeepsKnown | backend/app/services/queue.py:88-155 | with any number of workers every id in the queue was enqueued and data is filed under its job's id |
| QueueOverlap.EveryRunIsBounded | backend/app/services/queue.py:88-155 | in every run of any number of workers live jobs have attempts left and dead ones have used exactly all |
| QueueOverlap.StepKeepsDistinctExactlyWhen | backend/app/services/queue.py:119-155 | pending ids stay distinct in a step if and only if it does not put back, with attempts left, an id already pending |
| QueueOverlap.OverlapDuplicatesPending | backend/app/services/queue.py:119-155 | a run from the empty queue in which a job lapses, is claimed again and both holders put it back: its id is then pending twice |
| QueueRefinement.RedisRefinesMemory | backend/app/services/queue.py:96-194 | claim then ack or retry on Redis is claim then ack or retry on the in-memory queue, same jobs, same order |
| QueueRefinement.PassRefinesTurn | backend/app/worker.py:60-108 | a pass of the worker over Redis, recovery included, is a pass over the in-memory queue |
| QueueRefinement.PutAllRefines | backend/app/services/queue.py:88-94 | enqueueing on Redis is enqueueing on the in-memory queue |
| QueueRefinement.RedisWorkerRefinesMemory | backend/app/worker.py:60-108 | over whole runs, from the sweep on, without crash or outage, a worker over Redis does to rows and jobs what a worker over the in-memory queue does |
| QueueDrain.RecoverLowersWeight | backend/app/services/queue.py:137-155 | each recovered job costs an attempt, so recovery lowers the drain measure |
| QueueDrain.StepLowersMeasure | backend/app/services/queue.py:96-155 | every effective claim, ack, retry, recovery or crash of one worker strictly lowers one number |
| QueueDrain.RunsAreShort | backend/app/services/queue.py:96-155 | from any reachable state, with crashes anywhere and no new jobs, no run of effective steps is longer than that number |
| QueueDrain.ProgressUnlessDrained | backend/app/services/queue.py:96-155 | without a crash a run can go on exactly while something is pending, held or in flight; at its end every job is acked, dead or orphaned |
| Rows.CreatedIsSound | backend/app/services/run_store.py:43-61 | a new run is sound: no terminal entry, answer, error or citation |
| Rows.EmitKeepsSound | backend/app/worker.py:123-127 | progress events keep a live run sound |
| Rows.MarksKeepSound | backend/app/services/run_store.py:149-178 | each mark of a live run leaves it sound: one terminal entry, last, exactly when completed or failed |
| Rows.RunMarksSay | backend/app/services/run_store.py:43-178 | what each mark says of a run: status, answer, error, citations, attempts |
| Rows.DocumentMarksSay | backend/app/services/document_store.py:31-110 | what each mark says of a document: status, chunk count, reason |
| Rows.StaleRunsAre | backend/app/services/run_store.py:127-136 | a run is stale when the change that left it queued or running lies before the cutoff, and never once it is terminal |
| Rows.ProgressKeepsStale | backend/app/services/run_store.py:127-136 | progress events do not keep a run from going stale |
| Rows.StaleDocumentsAre | backend/app/services/document_store.py:113-122 | the same for documents |
| Worker.BackgroundWorker.Work | backend/app/worker.py:110-212 | the row after executing a run or ingesting a document, the branch for a settled or missing row, and which exception escapes |
| Worker.BackgroundWorker.MarkPermanentlyFailed | backend/app/worker.py:216-240 | only an unsettled row is failed, with the message for its cause; a failed write changes nothing |
| Worker.HandleDelivers | backend/app/worker.py:76-108 | handling a job delivers it to the row it names and touches no other row |
| Worker.BackgroundWorker.SettleJob | backend/app/worker.py:85-106 | the queue calls of one job, in the `try` and in the exception branch, whether each works, fails undone or fails done |
| Worker.BackgroundWorker.Handle | backend/app/worker.py:76-108 | the rows and the queue after one job: acked, retried, given up with its row failed, or the worker dead because the exception branch raised |
| Worker.BackgroundWorker.RecoverStrandedRows | backend/app/worker.py:242-266 | a fresh job for every stale document, then for every stale run, behind what waits, up to an exception if there is one |
| Worker.BackgroundWorker.RunOnce | backend/app/worker.py:63-73 | a pass recovers, claims and handles; an outage in either of the first ends the pass, not the worker |
| Worker.BackgroundWorker.RunForever | backend/app/worker.py:60-74 | over the Redis queue: the sweep, which may be cut short, then the passes in order, up to a crash |
| WorkerTheorems.DeliverKeepsSound | backend/app/worker.py:76-240 | one delivery of any job for a run, even one a crash cuts short, keeps the run sound |
| WorkerTheorems.DeliveriesKeepSound | backend/app/worker.py:76-240 | any number of deliveries, retries, failed acks and crashes leaves at most one terminal entry, in last place, and citations written once |
| WorkerTheorems.TerminalIsFinal | backend/app/worker.py:115-116 | no delivery changes a terminal run: status, answer, citations or log |
| WorkerTheorems.SettledRunStays | backend/app/worker.py:115-116 | a run that is completed, failed or cancelled is left as it is by every delivery |
| WorkerTheorems.TerminalLogIsFrozen | backend/app/worker.py:115-116 | the row a run had when it became terminal is its row for ever |
| WorkerTheorems.NeverCancelled | backend/app/worker.py:76-240 | the worker settles runs only as completed or failed |
| WorkerTheorems.OneAnswerForever | backend/app/worker.py:76-240 | a settled run has exactly one terminal entry, last in its log; log, answer and citations then never change |
| WorkerTheorems.TurnLowersBudget | backend/app/worker.py:60-106 | every claim-and-settle strictly lowers the deliveries still possible |
| WorkerTheorems.Drain | backend/app/worker.py:60-74 | without new jobs the queue empties after at most that many deliveries |
| WorkerTheorems.DeliverySettlesOrRetries | backend/app/worker.py:76-175 | a delivery settles its run or puts the job back if and only if the run was settled, or the work succeeds, or the exception branch works and either records the failure or has an attempt left for a failure that was not refused |
| WorkerTheorems.IngestionSettlesOrRetries | backend/app/worker.py:76-212 | the same for documents, where one that had failed also stays failed when the work raises at once |
| WorkerTheorems.RunEndsAs | backend/app/worker.py:76-240 | one delivery completes a live run, with exactly the work's answer and citations, if and only if the work was done, and fails it, with the message for its cause, if and only if the job was given up |
| WorkerTheorems.DocumentEndsAs | backend/app/worker.py:177-240 | one delivery makes a document ready, with its chunk count, if and only if the work was done and the file readable; failed for extraction when it was not; failed for indexing when the job was given up |
| WorkerTheorems.SettledDocumentStays | backend/app/worker.py:182 | a document that is ready or deleted is never touched again |
| WorkerTheorems.JobsWithoutWork | backend/app/worker.py:76-114 | a job of unknown type or for a row that is gone is acknowledged; one without a usable id is retried until given up; no row changes |
| StrandedRows.PassEndsDocument | backend/app/worker.py:60-212 | the same of a document over a pass of the worker |
| StrandedRows.PassEndsRun | backend/app/worker.py:60-175 | the same of a run over a pass of the worker |
| StrandedRows.DeletionDeletes | backend/app/services/document_store.py:106-110 | a deletion marks the documents named and no other row |
| WorkerTheorems.DrainSettles | backend/app/worker.py:60-106 | a drain settles every run and document that is settled or has a job waiting, and cancels no run |
| WorkerTheorems.SweepThenDrainSettles | backend/app/worker.py:242-266 | over the in-memory queue, from any contents: after the sweep and a drain, under any outcomes and deletions, every run the sweep found is completed or failed and every document ready, failed or deleted |
| StrandedRows.PassIsSafe | backend/app/worker.py:60-74 | from any filed Redis value a pass that claims lowers the queue's weight or leaves nothing in line |
| StrandedRows.PassTracks | backend/app/worker.py:60-108 | a pass leaves every row that is settled or has a job waiting settled or with a job waiting |
| StrandedRows.SweptWeight | backend/app/worker.py:242-266 | what a sweep adds to that weight: per row, one place in line and `max_attempts` deliveries |
| StrandedRows.SweepThenPassesSettle | backend/app/worker.py:60-106 | over Redis, whatever it holds (ids without data, unreadable data, ids twice in line, lapsed jobs of dead workers): whenever nothing is in line every row the sweep found is settled, such a moment comes within as many claims as the queue weighs plus one, and the runs then stay completed or failed |
| WorkerTheorems.UnrecordedFailureStrands | backend/app/worker.py:216-240 | a last attempt whose failure cannot be written leaves the run `running` |
| RunHistory.DeliveryIsCommits | backend/app/worker.py:76-240 | a delivery, crashed or not, is its work's commits in order and, if the job is given up, the failure |
| RunHistory.DeliveriesAreCommits | backend/app/worker.py:76-240 | a sequence of deliveries is the sequence of their commits, so the states a poll may find are the states between those commits |
| EndToEnd.Append | backend/app/services/run_store.py:81-108 | `append_event` keeps the table's rows of a run equal to the run's log, numbered |
| EndToEnd.Write | backend/app/services/run_store.py:149-178 | a commit, written through `append_event`, keeps them equal, and touches no other run's events |
| RunHistory.HistoryGrows | backend/app/services/run_store.py:149-178 | commits only append to a run's log, and nothing once it is terminal |
| RunHistory.EventsAreNamed | backend/app/services/run_store.py:59-177 | the first event is `run_started`, numbered 1; the last of a settled run is `completed` or `failed` |
| RunHistory.PollsAreLegal | backend/app/services/run_store.py:156-178 | polls between any commits see a growing log, and one that sees the run terminal sees all of it, because the terminal status is committed with the last event |
| RunHistory.StreamOfHistoryIsWhole | backend/app/api/routes/runs.py:195-219 | when a stream over a run's history is the whole log, exactly |
| RunHistory.CompletionBetweenQueries | backend/app/api/routes/runs.py:200-217 | the race from the worker's side: a run that completes between a poll's two queries ends the stream before its last event |
| EndToEnd.HistoryBegins | backend/app/services/run_store.py:43-61 | a valid table and a run's row begin a history |
| EndToEnd.HistoryGoesOn | backend/app/services/run_store.py:81-108 | a history goes on with a commit of the run or with other runs' events |
| EndToEnd.PollsAreAppendOnly | backend/app/api/routes/runs.py:200-214 | polls at any times of a history see a table that only grows |
| EndToEnd.PollsAreTicksAt | backend/app/api/routes/runs.py:200-214 | what those polls see of the run is what its commits wrote by then |
| EndToEnd.ReaderIsServed | frontend/src/lib/api.ts:500-604 | so exact delivery over drops and reconnects holds for a run while its worker writes it |
| EndToEnd.ReaderGetsWholeRun | frontend/src/lib/api.ts:522-564 | from commits to frames: an uncut connection the server ends brings the client to the end of the run's log if and only if the first poll that saw the run terminal read something new, or all had been sent before |
| RunOverlap.EveryScheduleKeepsInv | backend/app/worker.py:110-120 | two overlapping deliveries, under any interleaving of checks and commits: who may still write, and how many terminal entries there are |
| RunOverlap.TwoTerminalEntriesExactlyWhen | backend/app/worker.py:110-120 | when both deliveries succeed, the log has two terminal entries if and only if both checked the row before either completed and not both carry citations, which the unique constraint on their positions would refuse |
| RunOverlap.AnsweredTwice | backend/app/worker.py:110-120 | a schedule in which a run is answered twice and its first answer overwritten |
| DeadLetters.CrashesAloneDeadLetter | backend/app/services/queue.py:137-155 | a run of one worker at a time in which crashes alone use up a job's attempts: it is dead, and nothing about it is left in the queue |
| DeadLetters.RecoveryKeepsExactlyWhen | backend/app/services/queue.py:137-155 | a lapsed job waits again if and only if it has an attempt left, and is dead otherwise |
| DeadLetters.RecoveryTracksExactlyWhen | backend/app/services/queue.py:137-155 | an unsettled row whose only job lapsed keeps a job if and only if the crash was not the job's last attempt |
| DeadLetters.LastCrashStrandsRun | backend/app/worker.py:60-74 | a pass over such a job leaves its run `running` and the queue empty |
| RefreshSessions.AuthService.IssueSession | backend/app/auth/service.py:505-537 | a new live session without a successor |
| RefreshSessions.AuthService.RevokeSessionLineage | backend/app/auth/service.py:422-443 | on any table, cycles included, the walk stops, revokes exactly what the links reach, keeps earlier dates and counts the newly revoked |
| RefreshSessions.AuthService.Refresh | backend/app/auth/service.py:360-420 | the answer by token, revocation, expiry and membership; a reuse revokes the lineage, a success rotates, a refusal changes nothing |
| RefreshSessions.AuthService.EndSession | backend/app/auth/service.py:445-460 | logging out revokes one live session |
| RefreshSessions.AuthService.RevokeAll | backend/app/auth/service.py:229-235 | a password reset revokes every live session of the user and no other |
| RefreshTheorems.ApplyKeepsChained | backend/app/auth/service.py:360-460 | every operation keeps links leading to newer sessions of the same user, no two to one, and linked sessions revoked |
| RefreshTheorems.EveryRunIsChained | backend/app/auth/service.py:360-460 | every reachable table has that shape |
| RefreshTheorems.ExchangedExactlyWhen | backend/app/auth/service.py:366-397 | a refresh adds a session if and only if the token is known, unrevoked and unexpired and its user active |
| RefreshTheorems.ExpiryIsFixed | backend/app/auth/service.py:360-460 | no operation moves a session's expiry or user |
| RefreshTheorems.ExpiredIsNeverExchanged | backend/app/auth/service.py:386-387 | once a token's expiry has come, no refresh of it ever adds a session |
| RefreshTheorems.SignInAddsSession | backend/app/auth/service.py:505-537 | signing in adds one live session, last |
| RefreshTheorems.SignOutEndsSession | backend/app/auth/service.py:445-460 | logging out ends the session named and no other |
| RefreshTheorems.ResetEndsAllSessions | backend/app/auth/service.py:229-235 | a password reset leaves its user no live session, keeps earlier dates and touches no other user |
| RefreshTheorems.LineageKeepsDates | backend/app/auth/service.py:438-440 | revoking a lineage keeps the dates set before |
| RefreshTheorems.ChainsAreAcyclic | backend/app/auth/service.py:413 | no chain returns to a session |
| RefreshTheorems.ChainsAreDisjoint | backend/app/auth/service.py:425-427 | chains that share a session are one chain |
| RefreshTheorems.OneLivePerChain | backend/app/auth/service.py:405-413 | at most one session of a chain is live, and it is the last |
| RefreshTheorems.LineageRevocation | backend/app/auth/service.py:422-443 | revoking a lineage newly revokes at most one session, leaves no live descendant and touches no other chain |
| RefreshTheorems.DeadLineageStaysDead | backend/app/auth/service.py:369-384 | no operation revives a revoked lineage |
| RefreshTheorems.ReplayEndsLineage | backend/app/auth/service.py:369-384 | after a replay, whatever follows, no token the replayed one leads to is exchanged again |
| RefreshTheorems.RotationHandsOn | backend/app/auth/service.py:405-420 | a rotation spends the old token, links it to one new live session, and changes no other session |
| SingleFlight.StepKeepsInv | frontend/src/lib/http.ts:192-263 | every step between two awaits, of the page, the network, the server or another device, keeps the protocol's invariant |
| SingleFlight.ReuseExactlyAfterLoss | backend/app/auth/service.py:375-384 | the reuse branch fires for a token of this browser if and only if the answer that rotated the token was lost on the way |
| SingleFlight.EveryRunKeepsInv | frontend/src/lib/http.ts:192-263 | the invariant holds in every run, and without lost answers no token is lost |
| SingleFlight.SingleFlightIsSafe | frontend/src/lib/http.ts:192-263 | under any interleaving: at most one refresh outstanding, its token last of its chain unless that token's rotation was lost, at most two attempts and one refresh or join a call; with no answer lost, no reuse is ever detected |
| SingleFlight.FirstUnauthorizedWaits | frontend/src/lib/http.ts:240-246 | the first 401 of a call makes it wait for the refresh under way, or for one it sends with the cookie as it is |
| SingleFlight.RefreshedCallsRetry | frontend/src/lib/http.ts:246-252 | after a rotation the page can read every waiting call makes its second attempt, no other call is touched, and the page is signed in |
| SingleFlight.UnrefreshedCallsExpire | frontend/src/lib/http.ts:194-213 | a refresh that fails, is refused, unreadable or lost ends the session and every waiting call |
| SingleFlight.SecondUnauthorizedExpires | frontend/src/lib/http.ts:251-259 | a second 401 ends the call and the session without another refresh |
| SingleFlight.CallsEndAsTheirAttempts | frontend/src/lib/http.ts:240-262 | a call succeeds, or fails otherwise, only as its own attempt did |
| SingleFlight.FinishedStays | frontend/src/lib/http.ts:240-262 | a finished call never changes |
| SingleFlight.PageSessions | backend/app/auth/service.py:445-537 | signing in gives the page a fresh session and cookie; signing out ends the one it had and drops the cookie |
| SingleFlight.ExpiryEndsSession | frontend/src/lib/http.ts:246-258 | a call ends as expired only from a refused refresh or a second 401, in a step that ends the page's session |
| SingleFlight.TwoRequestsEndTheSession | frontend/src/lib/http.ts:184-191 | why it is shared: two refreshes with one cookie revoke the whole chain |
| AgentGraph.RunBudget.constructor | backend/app/agents/workflow.py:27-31 | no tool call counted yet |
| AgentGraph.RunBudget.RecordToolCall | backend/app/agents/workflow.py:33-34 | one more tool call |
| AgentGraph.RunBudget.Exhausted | backend/app/agents/workflow.py:36-45 | tool calls first, then the deadline |
| AgentGraph.Step | backend/app/agents/workflow.py:108-188 | one node with the shared budget object is one step of the step function, and counts one execution |
| AgentGraph.RunWorkflow | backend/app/agents/workflow.py:91-210 | the compiled graph follows the step function, and ends in a recursion error if and only if the run would execute more nodes than the limit |
| AgentTheorems.RunIsBounded | backend/app/agents/workflow.py:108-210 | every run, for any router and critic, executes at most `2 * min(max_tool_calls, ceil(max_steps / 2)) + 3 * (max_revisions + 1)` nodes |
| AgentTheorems.BoundIsMet | backend/app/agents/workflow.py:108-210 | some router and critic reach exactly that bound |
| AgentTheorems.LimitIsSafeExactlyWhen | backend/app/agents/workflow.py:91-94 | no run exceeds the recursion limit if and only if the bound does not |
| AgentTheorems.LimitIsSafeForSettings | backend/app/agents/workflow.py:91-94 | safe with at most one revision, or three and four steps or more; with two tool calls or more no other setting up to three revisions is |
| AgentTheorems.FirstRouteGathers | backend/app/agents/supervisor.py:32-108 | before evidence is gathered neither the router nor the fallback can finish |
| AgentTheorems.RoutesAreEnabled | backend/app/agents/supervisor.py:32-108 | every route chosen has an edge to an enabled node |
| AgentTheorems.RouterIsObeyed | backend/app/agents/workflow.py:118-129 | while gathering is allowed, the router's enabled choice leads to the specialist it names, at the cost of a tool call |
| AgentTheorems.SupervisorStops | backend/app/agents/workflow.py:108-129 | without tool calls, time or steps the supervisor goes to the answer, naming tool calls first; a refused provider ends the run |
| AgentTheorems.FallbackOrder | backend/app/agents/supervisor.py:94-108 | without a usable reply: data for a numeric question, then documents, then the web, then the answer, each exactly when the ones before do not apply |
| AgentTheorems.SpecialistsCite | backend/app/agents/workflow.py:131-151 | a specialist adds what it found with a citation of its kind for each |
| AgentTheorems.CriticDecides | backend/app/agents/workflow.py:180-188 | the critic ends the run when it approves or revisions are used up, and sends it back otherwise |
| AgentTheorems.GenerationAnswers | backend/app/agents/workflow.py:153-178 | an empty answer fails the run; any other is its answer |
| AgentTheorems.ExceptionsEndRuns | backend/app/agents/workflow.py:91-94 | an exception from a node ends the run where it stood |
| AgentTheorems.CompletedRunsAnswer | backend/app/agents/workflow.py:153-178 | a run that completes has an answer |
| AgentTheorems.FallbackRepeatsExactlyWhen | backend/app/agents/supervisor.py:94-108 | in every state of every run, the fallback picks a route already tried if and only if the web is all that is left and was found unavailable |
| AgentTheorems.FallbackRepeatsWeb | backend/app/agents/supervisor.py:94-108 | a run that goes to an unavailable web twice |
| AgentTheorems.RunIsGrounded | backend/app/agents/workflow.py:108-178 | in every run: the first pass gathers exactly when it had a tool call, a step and time left, only enabled nodes are reached, and citations equal documents plus queries |
| AgentTheorems.AnswersAreGrounded | backend/app/agents/workflow.py:108-210 | when an answer is due, evidence has been gathered if and only if the first pass had a tool call, a step and time left |
| RateLimit.InMemoryRateLimiter.Check | backend/app/services/rate_limit.py:45-55 | one key's counter moves, in the open window or a new one, and the verdict and hint follow from it |
| RateLimit.HitCounts | backend/app/services/rate_limit.py:48-52 | a check opens a window of its own length or counts in the open one |
| RateLimit.HintIsWholeSeconds | backend/app/services/rate_limit.py:53-55 | a check is refused beyond `limit`; the hint is the time left in whole seconds, at least one |
| RateLimit.InMemoryRateLimiter.Reset | backend/app/services/rate_limit.py:57-59 | no counter remains |
| RateLimit.AtMostTwoLimitsPerWindow | backend/app/services/rate_limit.py:45-55 | any closed interval one window long contains at most `2 * limit` allowed checks |
| RateLimit.TwoLimitsAreReached | backend/app/services/rate_limit.py:45-55 | that bound is reached |
| RateLimit.OpenWindowIsCounted | backend/app/services/rate_limit.py:48-53 | the open window holds as many allowed checks as its counter says, up to the limit |
| RateLimit.RefusedOnlyWhenFull | backend/app/services/rate_limit.py:51-54 | a check is refused only if the window's length before it already holds `limit` allowed checks |
| RateLimit.RetryAtHintSucceedsExactlyWhen | backend/app/services/rate_limit.py:54 | a retry at exactly the hinted moment is allowed if and only if the window had at most one second, or whole seconds, left |
| RateLimit.RetryAtHintCanFail | backend/app/services/rate_limit.py:45-55 | from an empty limiter, a check refused with a hint of one second whose retry a second later is refused |
| RateLimit.RetryHintPlusOneSucceeds | backend/app/services/rate_limit.py:54 | waiting one second beyond the hint always succeeds |
| DailyQuota.StepKeepsInv | backend/app/services/run_store.py:234-271 | every SQL statement of every call keeps one row, the exact count and the limit |
| DailyQuota.EveryScheduleKeepsInv | backend/app/services/run_store.py:234-271 | the same over every interleaving |
| DailyQuota.QuotaIsExact | backend/app/services/run_store.py:234-271 | one usage row at most and exactly one once a call is done; the count is the accepted calls on top of what was there and never passes the limit; when all calls are done as many were accepted as the allowance permits |
| DailyQuota.SomeCallCanStep | backend/app/services/run_store.py:242-254 | no deadlock: until all calls are done some call can take a step |

## Left out

The event stream

- Text decoding and JSON: streams begin as decoded characters; an event's payload is any text without CR or LF, which is what the JSON encoder writes.
- Integer parsing covers ASCII digits, signs, underscores and whitespace; other Unicode digits and the limit on very long numbers are not modelled.
- RunEvents.EventTable.AppendEvent: does not model two concurrent writers of one run, where the unique constraint turns the second insert into an error.
- RunStream.StreamRunEvents: the set of recognised event types is a parameter; the refresh after a 401 is a boolean; a caller's abort is one way a connection ends; back-off delays are not modelled.
- EventStream.EventStream: the poll delay counts as exactly 0.5 seconds of elapsed time, as the code's own counter does; the fetch of a run that is gone is the same `finished` flag as a terminal one.
- The remaining route handlers, the run listing and the feedback queries.

Queue, worker and rows

- JSON dumping and loading of a job is a value that is either readable or not; the pipelines are atomic, as MULTI and EXEC make them.
- JobQueue.RedisJobQueue.RecoverExpired: the order of the lapsed ids is any order the query may answer.
- Worker.BackgroundWorker.RunForever: one clock reading a pass; deletions reach the rows between passes.
- StrandedRows.SweepThenPassesSettle: one worker, no crash, a whole sweep, no job lost to an outage inside `claim` after its pop, and final failures that can be written; data filed under its job's own id, as `EveryRunIsBounded` shows of every run; one `handle` call is atomic with respect to deletion, and new uploads are not interleaved.
- QueueRefinement.RedisWorkerRefinesMemory: over runs without crash or outage that start with nothing in flight; the in-memory queue has no counterpart of jobs in flight.
- Rows: timestamps other than `updated_at` are not kept; the JSON of an event's data is a parameter.
- RunHistory.PollsAreLegal: the runs of one worker at a time; two at once are the subject of `RunOverlap`.
- RunOverlap.TwoTerminalEntriesExactlyWhen: deliveries whose work succeeds, as far as the completion's own write; a failure write looks at the row again first, and transactions that append to one run at the very same moment are ordered by the unique sequence number.

Sessions

- Tokens, hashes, access tokens, passwords and audit rows: ids are issued in increasing order, which stands for fresh random ids and an injective hash; rows are never deleted.
- Registration, login and invitation appear as issuing a session.
- SingleFlight.SingleFlightIsSafe: one page of one browser; sign-in and sign-out are single steps; a state machine of what happens between awaits, not a class.

Agent graph and limits

- The graph library is a step function with one recursion unit per node; generated text, tool results and the matching of numeric words in the question are arbitrary inputs.
- Budgets are non-negative; the publishing of progress and conversation memory do not change the modelled state.
- The Redis rate limiter, client identification and key naming; several keys are independent entries of one map.
- DailyQuota.QuotaIsExact: inserting the day's row and committing it are one step, which the unique constraint makes indistinguishable.

Elsewhere

- The SQL validator, document parsers, configuration, email, migrations, telemetry and user interface.
