# Verified core of the Reins runtime

This project models the algorithms and protocols at the heart of `@reins/core` in Dafny and proves what
they promise: for every input, every run or every reachable state. `dafny verify dfyconfig.toml` checks all of it.

| Modules | What they model |
|---|---|
| `CronExpression`, `CronGrammar`, `NextRun`, `WatcherCadence`, `WatcherSpacing` | cron fields and their matcher, the grammar they read, the bounded search for the next run, the expressions that watcher intervals are printed as, and how far apart these fire |
| `SchedulerModel`, `JobRecords`, `CronScheduler` | the job scheduler over a store that may fail: as a state machine, by what becomes of a job's record, and as the object that does exactly what the state machine says |
| `RateLimit`, `Executor` | the sliding-window limiter, refined from counting over the full history, and the executor with its audit log |
| `AxTree`, `SnapshotLimit`, `SnapshotDiff` | breadth-first depths over a graph that may be cyclic; the token limit of a page snapshot; the keyed difference of two |
| `Transcript` | the append-only JSONL transcript, torn writes and their repair |
| `Json5`, `JsonPieces` | the comment and trailing-comma strippers, against a piecewise reading of the text, and what these pieces are |
| `Tokenizer`, `MessageCut`, `Truncation`, `WindowGaps`, `ContextManager`, `ContextRecords` | token estimates, cutting one message, the truncation strategies, the gaps the sliding window leaves, `prepare`, and what all of them keep |
| `CdpClient`, `CdpSession` | commands, responses, timeouts, closes and reconnects of the browser client; its session, its domains and what each call changes |
| `AgentLoop`, `AgentTurns`, `Generation`, `GenerationRecords`, `StreamRegistry`, `ToolResults` | the agent loop and its single steps, the event stream of a provider generation and what it forwards to a channel, its subscribers, and the splitting of tool results |
| `Summary`, `Compaction`, `CompactionRecords` | what compaction extracts, its ordered writes under failures, and what is written |
| `Chunking`, `ConversationBridge`, `BridgeDeliveries` | cutting chat messages, and recognising redelivered ones |
| `Text` | the JavaScript string operations the others rely on |

Code that changes state is a class whose methods are proved equal to a step function; what the runs of these steps
guarantee is proved as lemmas about that function. Loops are methods proved against the function or relation that
says what they compute. What such a function computes is in turn stated without it, in terms of what goes in and what
comes out; the modules named `...Records`, and `WatcherSpacing`, `CdpSession`, `AgentTurns`, `JsonPieces` and
`BridgeDeliveries`, do little else.

## What the code does that one might not expect

- Weekday 7 is tried on every day, not on Sunday only, so a weekday field that covers 7 matches all days.
  `WeekdaySevenIsSunday` says exactly when the code still agrees with "7 means Sunday".
- Day of month and day of week must both match, unlike in POSIX crontab; and a step after a single number, as in
  `5/2`, adds nothing to it. `CronGrammar` states what every expression means.
- A job whose save fails after its execution stays due and runs again: `RunsTwiceIffSaveFails`.
- `stripTrailingCommas` is not idempotent: `CommasNotIdempotent` gives the input, `CommasIdempotentIffNotDoubled`
  the exact condition.
- The strategies prefer the model's context window where `prepare` prefers the configured maximum. The end-to-end
  bound holds if and only if the window does not exceed the maximum (`BoundHoldsIff`, down to limits too small for any
  message); `WideWindowOverflows` shows a conversation that is too large otherwise.
- The sliding window skips a message that does not fit and goes on with older ones, so its result can have gaps:
  `WindowWithGap` shows an input, `WindowGaplessIff` says when there is none.
- The token count of a cut snapshot includes the truncation marker, which is added after the comparison with the
  limit: `CountExceedsIff`.
- A `connect` or a reconnection under way when the client disconnects can still connect it. `DisconnectFinalIff` and
  `ConnectedAfterDisconnectIff` say exactly when.
- A response without error and result makes a pending attach command disappear: it is never resolved or rejected, and
  has no timer. `CommandsConservedIff` is the exact condition, `AttachLost` the run.
- When a channel accepts one live text of a message and declines another, the declined one never reaches it:
  `TextLost`. Text streamed in a step that is aborted is part of no completed content, so a channel that has not taken
  it live never gets it: in `AbortedTextLost` it gets the notice for an empty response at most.
  `AgentLoop.ChannelGetsAllIff` is the exact condition for getting all text.
- On a runtime that shows midnight as hour 24, a watcher with an hour step that does not divide 24 is checked less often
  than asked: `BoundKeptIff`. For five hours `FiveHoursLate` gives a wait of nine.
- A watcher can be checked more often than asked: one for seven minutes is checked at minutes 56 and 0. `NotMoreOftenIff`
  says for which intervals this happens; every interval above an hour that is no number of hours is among them.
- `create` accepts a blank id, which `update` then refuses: `CreateMeans`, `UpdateSucceedsIff`.
- A message whose addition throws after storing it is stored again when it is redelivered after 200 others:
  `TornRedeliveryIff`, `TornStoredTwice`. So is every message when the bridge has restarted in between:
  `RestartRedeliveryIff`, `RestartStoredTwice`.
- A memory store with neither `persistNow` nor `flush`, as `InMemoryMemoryStore` is, counts as persisted: messages are
  replaced although none of their memories would survive a crash. `PersistedFirstIff` is the exact condition,
  `NeverPersisted` the run. A process that stops during a compaction can leave the session compacting for good:
  `StuckIff`.
- Only tests call `repair` of the transcript store. Entries appended to a file whose last line is unfinished or lacks
  its newline are lost: `TornAppendLoses`, `AppendKeepsAllIff`.
- Two channel messages with different channel ids can share a de-duplication key when one channel id is the part of
  the other before a colon. `ChannelsShareKeyIff` is the exact condition.
- Elements of two roles can share a snapshot key if and only if one role is the other up to a colon:
  `RolesShareKeyIff`.

## Parameters and assumptions

- `Number(text)`, the time zone tables and the clock are parameters (`Host`, `now`). The watcher cadence is about
  stretches of time in which the zone keeps its offset from UTC; its clock shows midnight as hour 0 or as hour 24, and
  `Number` reads back printed natural numbers up to the largest safe integer (`SomeHostReadsDecimals` shows that this
  can be met).
- `JSON.stringify` and `JSON.parse` of transcript entries are an abstract codec with stated laws: an entry is read back
  from its line, a line has no newline, and no proper prefix of a line is an entry. Only what is said of appends without
  a repair needs one more: a line, whole or cut off, that another one continues is not an entry. `UnaryIsLawful` is an
  instance of all of them.
- Every read and write may fail, as a parameter says; a failed one changes nothing. Generated ids are fresh.
- A memory counts as persisted once `persistNow` or `flush` has succeeded. That a store may write its file whenever it
  saves a memory, as `LocalFileMemoryStore` does, is not used.
- Operations do not overlap in time, except for the events of the CDP client, which may interleave in any way.

## Model

| member | source | states |
|---|---|---|
| `CronExpression.WeekdaySevenIsSunday` | src/cron/scheduler.ts:443-536 | for every valid weekday field the matcher agrees with "7 means Sunday" on all days if and only if the field does not cover 7 or covers Monday to Saturday by itself |
| `CronExpression.SevenMatchesMonday` | src/cron/scheduler.ts:506-536 | the valid field `7` matches Monday, on which it does not fire without the alias |
| `CronExpression.DueIgnoresPadding` | src/cron/scheduler.ts:443-504 | white space around an expression changes neither its fields nor the minutes it is due |
| `CronExpression.FieldsAreWords` | src/cron/scheduler.ts:491-504 | the fields of an expression are its words, whatever runs of white space stand between, before and behind them |
| `CronGrammar.ItemRead` | src/cron/scheduler.ts:574-637 | every item `*`, `a`, `a-b`, with or without a step, is read back as the range and step it prints; a zero step is refused |
| `CronGrammar.FieldAccepted` | src/cron/scheduler.ts:546-572 | a printed field is accepted if and only if every item is in range and has no zero step |
| `CronGrammar.FieldMatches` | src/cron/scheduler.ts:506-544 | a printed field matches a value if and only if one of its items covers the value or the alias |
| `CronGrammar.ScheduleAccepted` | src/cron/scheduler.ts:411-441 | every five-field expression of the grammar is accepted if and only if each item is within the range of its field |
| `CronGrammar.ScheduleDue` | src/cron/scheduler.ts:443-489 | such an expression is due exactly at the times that all five fields cover |
| `NextRun.ComputeNextRunAt` | src/cron/scheduler.ts:639-681 | the minute-by-minute loop computes the specified outcome, errors for a bad expression or zone included |
| `NextRun.SearchIsLeast` | src/cron/scheduler.ts:639-681 | the answer is minute m if and only if m is the earliest due minute strictly after `from` and within 366 days; the search gives up if and only if there is none |
| `NextRun.NextRunIgnoresPadding` | src/cron/scheduler.ts:86-111 | searching with the untrimmed schedule, as `create` does, finds what the stored trimmed one gives |
| `WatcherCadence.Printed` | src/browser/watcher-cron-manager.ts:44-69 | every interval is printed as an expression of the cron grammar |
| `WatcherCadence.PrintedExpressionValid` | src/browser/watcher-cron-manager.ts:44-69 | every string that `intervalToCron` prints is accepted by the validator |
| `WatcherCadence.PrintedExpressionDue` | src/browser/watcher-cron-manager.ts:44-69 | a printed expression is due at a minute if and only if the rhythm of the interval names the minute and hour that the clock shows |
| `WatcherCadence.NeverCheckedLessOftenThanAsked` | src/browser/watcher-cron-manager.ts:44-69 | for every interval and every start the search finds a next firing, at most max(1, ceil(s/60)) minutes and at most a day on, when the zone keeps its offset over that time and midnight is shown as hour 0 or the hour step divides 24 |
| `WatcherCadence.BoundKeptIff` | src/cron/scheduler.ts:683-697 | in every stretch of constant offset a day longer than the interval, that bound holds from every start if and only if midnight is shown as hour 0 or the printed hour step divides 24 |
| `WatcherCadence.FiveHoursLate` | src/browser/watcher-cron-manager.ts:44-69 | 18000 seconds are printed as `0 */5 * * *`; with midnight shown as 24 the firing after 20:00 is at 5:00, not within five hours |
| `WatcherSpacing.AskedMeans` | src/browser/watcher-cron-manager.ts:44-69 | the minutes asked for are the least whole number, one at least, that covers the interval |
| `WatcherSpacing.FiresIff` | src/browser/watcher-cron-manager.ts:44-69 | the minutes at which the printed expression fires: all, the multiples of m in an hour, full hours, or hours shown as multiples of m/60; minutes 0 and 59 for other intervals above an hour |
| `WatcherSpacing.NotMoreOftenIff` | src/browser/watcher-cron-manager.ts:44-69 | in every stretch of constant offset of two days or more, a watcher is never checked more often than asked if and only if the minutes asked for divide the hour, or are whole hours that divide the day or of which none is counted as midnight |
| `SchedulerModel.NoDoubleRun` | src/cron/scheduler.ts:240-295 | over every run with a clock that never goes back, with any failures: a saved execution is not repeated in its minute; a job is active if and only if it has a next run, which is the earliest matching minute after its last update |
| `SchedulerModel.NeverTwiceAMinute` | src/cron/scheduler.ts:240-295 | over every run with successful saves and a clock that never goes back no job is executed twice in one minute |
| `SchedulerModel.TickMeans` | src/cron/scheduler.ts:240-258 | in whatever order a tick walks the jobs in memory, it calls `onExecute` once for each due job and for no other, and changes exactly the due jobs whose new record can be saved |
| `SchedulerModel.RunsTwiceIffSaveFails` | src/cron/scheduler.ts:250-258 | a due job visited again later in the same minute, whatever operations on other jobs lie between, runs twice if and only if the save after the first run failed |
| `SchedulerModel.RunKeepsInv` | src/cron/scheduler.ts:76-314 | every sequence of create, update, remove, tick, start and list operations keeps the cache, next-run and once-per-minute invariants |
| `SchedulerModel.GetAnswersStore` | src/cron/scheduler.ts:194-206 | after any run with any failures, `getJob` answers what the store would answer, or fails only when a job outside memory cannot be read |
| `SchedulerModel.AtMostMaxRuns` | src/cron/scheduler.ts:260-285 | a job created with `maxRuns` n and then left alone has at most n saved executions over any later run |
| `SchedulerModel.SuccessfulSaves` | src/cron/scheduler.ts:240-295 | with successful saves every execution is a saved one, so the two bounds above are about all calls of `onExecute` |
| `SchedulerModel.ExecutesAtMostMaxRuns` | src/cron/scheduler.ts:260-285 | with successful saves such a job is executed at most n times in all |
| `SchedulerModel.CalendarForward` | src/cron/scheduler.ts:639-681 | the real calendar meets what the state machine needs: next runs lie in later minutes |
| `JobRecords.SearchMeans` | src/cron/scheduler.ts:639-681 | a next run is found if and only if some minute within 366 days matches; it is the start of the earliest one |
| `JobRecords.AfterRunMeans` | src/cron/scheduler.ts:260-295 | the record after a run: one run more; completed if and only if the run succeeded and was the last one allowed, active with the earliest next matching minute if and only if it succeeded, was not the last and there is one, failed otherwise; schedule, zone and limit unchanged |
| `JobRecords.TickRecords` | src/cron/scheduler.ts:240-295 | for every job: a running tick executes it once if it is due, and memory and store then hold that record if it can be saved; otherwise both keep what they had |
| `JobRecords.CreateMeans` | src/cron/scheduler.ts:76-129 | `create` succeeds if and only if the job is well formed, its id is free, a next run exists and the save succeeds; the stored record field by field; nothing changes on a refusal, which names something that is the case |
| `JobRecords.UpdateMeans` | src/cron/scheduler.ts:131-182 | `update` saves a record with exactly the patched fields changed, in store and memory, or changes neither; a refusal names something that is the case for the patched record |
| `JobRecords.UpdateSucceedsIff` | src/cron/scheduler.ts:131-182 | of a known job it succeeds if and only if the save does, the id is not blank and the patched record is well formed |
| `JobRecords.RemoveMeans` | src/cron/scheduler.ts:184-192 | a removal takes this job out of memory and store and no other one, or changes nothing |
| `CronScheduler.Scheduler.Start` | src/cron/scheduler.ts:38-59 | start refills memory from the store once; a failed listing changes nothing |
| `CronScheduler.Scheduler.Stop` | src/cron/scheduler.ts:61-74 | stop ends the running state and touches no job |
| `CronScheduler.Scheduler.GetJob` | src/cron/scheduler.ts:194-206 | memory first, the store otherwise |
| `CronScheduler.Scheduler.Create` | src/cron/scheduler.ts:76-129 | new state and result of `create`, every refusal included |
| `CronScheduler.Scheduler.Update` | src/cron/scheduler.ts:131-182 | new state and result of `update`, every refusal included |
| `CronScheduler.Scheduler.Remove` | src/cron/scheduler.ts:184-192 | removes from the store first, from memory only after that succeeded |
| `CronScheduler.Scheduler.ListJobs` | src/cron/scheduler.ts:208-221 | listing refills memory from the store |
| `CronScheduler.Scheduler.GetRequiredJob` | src/cron/scheduler.ts:297-314 | a job found in the store only is brought into memory |
| `CronScheduler.Scheduler.ExecuteJob` | src/cron/scheduler.ts:260-295 | calls `onExecute` exactly once and saves the record that the outcome asks for, which `JobRecords.AfterRunMeans` describes |
| `CronScheduler.Scheduler.RunTick` | src/cron/scheduler.ts:240-258 | one tick walks every job in memory: each due job is executed exactly once, no other one is, and memory keeps what could be saved |
| `RateLimit.PruningChangesNoAnswer` | src/cron/rate-limit.ts:30-88 | for every nondecreasing sequence of requests and usage queries the pruned arrays answer as counting over the full history does |
| `RateLimit.AnswersCountGrants` | src/cron/rate-limit.ts:30-88 | over every nondecreasing run of a new limiter each operation is answered from the requests granted less than 60 000 and less than 3 600 000 milliseconds before: granted if and only if both are fewer than the limits, the window that refuses, and the usage |
| `RateLimit.GrantedIff` | src/cron/rate-limit.ts:30-66 | when no grant is later than now, a request is granted if and only if the last minute and the last hour hold fewer grants than their limits; a full minute is reported first; the usage is these two counts |
| `RateLimit.CountInMeans` | src/cron/rate-limit.ts:73-88 | the count of a window is the number of grants later than its start and not later than its end |
| `RateLimit.WindowBound` | src/cron/rate-limit.ts:30-55 | no half-open window of the given width holds more grants than its limit |
| `RateLimit.UsageTellsCapacity` | src/cron/rate-limit.ts:57-66 | a burst of requests at the instant of a usage query is granted in full if and only if the reported counts leave room for it |
| `RateLimit.RateLimiter.TryAcquire` | src/cron/rate-limit.ts:30-55 | granted if and only if the last minute and the last hour hold fewer grants than their limits, with the window that refused; the time of a grant is remembered |
| `RateLimit.RateLimiter.GetUsage` | src/cron/rate-limit.ts:57-66 | reports how many grants the last minute and the last hour hold, and grants nothing |
| `RateLimit.RateLimiter.PruneWindows` | src/cron/rate-limit.ts:73-88 | the backward splicing keeps every entry later than the cutoff as often as it was there, in order, and no other |
| `RateLimit.RateLimiter.Reset` | src/cron/rate-limit.ts:68-71 | forgets everything |
| `RateLimit.RateLimiter.Limits` | src/cron/rate-limit.ts:30-55 | at any moment no minute and no hour since the last reset has seen more grants than its limit |
| `Executor.ExecutorSafety` | src/cron/executor.ts:79-141 | over every sequence of calls: one audit entry per call that completes pre-execution, the handler called exactly on a grant, as many executed or failed entries as handler calls, and no window with more handler calls than its limit |
| `Executor.ExecuteMeans` | src/cron/executor.ts:79-141 | for every call: the handler is called if and only if the hook lets it proceed and both windows have room; the one audit entry, its event, time, success and duration; and whether the call returns or throws |
| `Executor.CronExecutor.Execute` | src/cron/executor.ts:79-141 | skip, rate limit, run or fail: the audit entry, the handler call and the outcome of one call |
| `AxTree.ParseAxNodes` | src/browser/snapshot.ts:288-344 | on every node list, with cycles, repeated and dangling ids, it terminates and gives every node, in order, the length of a shortest child path from the roots, or 0 |
| `AxTree.Search` | src/browser/snapshot.ts:314-327 | the queue loop ends with sound and complete depths |
| `AxTree.DoneIsShortest` | src/browser/snapshot.ts:314-327 | an empty queue means that every recorded depth is the shortest |
| `AxTree.StartQueue` | src/browser/snapshot.ts:301-312 | the queue starts with the nodes nobody lists as a child, or with the first node when there are none |
| `SnapshotLimit.ApplyTokenLimit` | src/browser/snapshot.ts:381-418 | keeps the longest prefix of nodes within the limit and reports its cost plus the marker's |
| `SnapshotLimit.CountExceedsIff` | src/browser/snapshot.ts:398-411 | the reported count exceeds the limit if and only if all nodes together do and some first ones of them cost between the limit less the marker and the limit |
| `SnapshotLimit.CountAboveLimit` | src/browser/snapshot.ts:409-411 | an input on which it does |
| `SnapshotDiff.NodeKeyInjective` | src/browser/snapshot.ts:87-89 | for roles without a colon keys are equal if and only if role, id and name are, a missing name counting as empty |
| `SnapshotDiff.RolesShareKeyIff` | src/browser/snapshot.ts:87-89 | elements of two different roles can share a key if and only if one role is the other up to one of its colons |
| `SnapshotDiff.NodeKeyExact` | src/browser/snapshot.ts:87-89 | for all other pairs of roles keys are equal if and only if role, id and name are |
| `SnapshotDiff.NodeKeyCollision` | src/browser/snapshot.ts:87-89 | two different elements with the same key |
| `SnapshotDiff.ComputeDiff` | src/browser/snapshot.ts:200-238 | the loops compute the added, changed and removed elements of the last-wins key maps, in key order |
| `SnapshotDiff.DiffIsPatch` | src/browser/snapshot.ts:200-238 | removing, adding and overriding as the difference says turns what the previous snapshot shows into what the current one shows, and no key is in two lists |
| `SnapshotDiff.EmptyDiffIffSameViews` | src/browser/snapshot.ts:200-238 | the difference is empty if and only if both snapshots show the same |
| `SnapshotDiff.SelectDistinct` | src/browser/snapshot.ts:200-238 | the keys of each list are the chosen ones, in key order, none twice |
| `SnapshotDiff.DiffMeans` | src/browser/snapshot.ts:200-238 | an element is listed as added, removed or changed if and only if it is the last one with its key and the other snapshot has none with it, or its last one differs in value, focus or being disabled |
| `SnapshotDiff.KeysInOrder` | src/browser/snapshot.ts:200-238 | the lists follow the order in which the keys are first seen |
| `Transcript.CrashRecovery` | src/conversation/transcript-store.ts:119-146 | whatever prefix of a transcript's bytes survives, repair restores the file of exactly the entries wholly present in it |
| `Transcript.WholeIsLongest` | src/conversation/transcript-store.ts:204-257 | "wholly present" is the longest run of entries whose lines fit into the prefix, a last newline aside |
| `Transcript.RepairedFileReads` | src/conversation/transcript-store.ts:67-84 | for every content: the repaired file reads without error, a second repair changes nothing, and later appends read back behind the recovered entries |
| `Transcript.TornAppendKeepsOldEntries` | src/conversation/transcript-store.ts:47-65 | a crash inside an append loses none of the earlier entries |
| `Transcript.TornAppendLoses` | src/conversation/transcript-store.ts:47-84 | entries appended behind an unfinished line, or one without its newline, make the file unreadable from that line on and are lost by a repair |
| `Transcript.AppendKeepsAllIff` | src/conversation/transcript-store.ts:47-84 | an append without repair keeps all entries if and only if nothing of a further line is left in the file |
| `Transcript.CreateRepairPlan` | src/conversation/transcript-store.ts:204-257 | the loop finds the repaired content and whether it differs |
| `Transcript.ParseLines` | src/conversation/transcript-store.ts:165-180 | all entries, or the number of the first bad line among the non-empty ones |
| `Transcript.ParseFails` | src/conversation/transcript-store.ts:165-200 | reading fails with number n if and only if the n-th non-empty line is the first that is not an entry |
| `Transcript.SessionIdIff` | src/conversation/transcript-store.ts:335-349 | a session id is accepted if and only if it is not blank and contains no slash, no backslash and no two dots in a row |
| `Transcript.TranscriptStore.AppendBatch` | src/conversation/transcript-store.ts:47-65 | appends the serialized batch to the one file and refuses bad session ids |
| `Transcript.TranscriptStore.Read` | src/conversation/transcript-store.ts:67-84 | reads the whole file, a missing one as empty |
| `Transcript.TranscriptStore.ReadTail` | src/conversation/transcript-store.ts:86-101 | the last entries, none for a count that is not positive |
| `Transcript.TranscriptStore.Repair` | src/conversation/transcript-store.ts:119-146 | replaces the file by its repaired content and says whether it was rewritten |
| `Json5.StripJson5Comments` | src/conversion/parser.ts:208-279 | the character loop removes exactly the comment pieces of the text |
| `Json5.StripOfRendering` | src/conversion/parser.ts:208-279 | for every way to write tokens, strings, white space and comments, stripping gives the same text with only the comments gone |
| `Json5.StripIdempotent` | src/conversion/parser.ts:208-279 | stripping twice strips nothing more |
| `Json5.RenderLex` | src/conversion/parser.ts:208-279 | every text is the rendering of the well-formed pieces it is read as |
| `Json5.LexRender` | src/conversion/parser.ts:208-279 | well-formed pieces are read back from their rendering |
| `Json5.NextNonWhitespace` | src/conversion/parser.ts:330-339 | the next visible character, or none |
| `Json5.StripTrailingCommas` | src/conversion/parser.ts:281-328 | the character loop removes exactly the commas outside strings that a closing bracket follows |
| `Json5.CommentsThenCommas` | src/conversion/parser.ts:110-123 | both strippers together drop exactly the comments and the trailing commas of the comment-free text |
| `Json5.CleanOfRendering` | src/conversion/parser.ts:110-123 | the same, for every way to write the text |
| `Json5.CommasIdempotentIffNotDoubled` | src/conversion/parser.ts:315-322 | a second removal changes nothing if and only if no comma is directly followed by a trailing one |
| `Json5.CommasNotIdempotent` | src/conversion/parser.ts:315-322 | the input on which it is not idempotent |
| `Json5.ParseConfig` | src/conversion/parser.ts:110-123 | strict JSON first, the cleaned text otherwise |
| `JsonPieces.StringEndMeans` | src/conversion/parser.ts:208-279 | a string goes on to the first quote like its own that no backslash escapes, or to the end of the text |
| `JsonPieces.BlockEndMeans` | src/conversion/parser.ts:208-279 | a block comment goes on to the first place at which it is closed, or to the end of the text |
| `JsonPieces.FirstPieceMeans` | src/conversion/parser.ts:208-279 | a string begins at either quote, a comment at two slashes or a slash and a star, and anything else is one character |
| `JsonPieces.CommaMeans` | src/conversion/parser.ts:281-339 | a comma is dropped if and only if nothing but white space separates it from a closing brace or bracket |
| `MessageCut.TruncateTextToBudget` | src/context/strategies.ts:46-57 | the shrinking loop computes the cut text |
| `MessageCut.CutFits` | src/context/strategies.ts:46-57 | the cut text is a prefix within the budget, the longest one among the first 4 * budget characters |
| `MessageCut.CutMessageFits` | src/context/strategies.ts:59-84 | a message that is too large fits after cutting if and only if it is text with room for its other fields |
| `Tokenizer.EstimateMeans` | src/context/tokenizer.ts:11-22 | the estimate is the least number that is at least one, the number of words, and a quarter of the length without padding |
| `Tokenizer.WordsMean` | src/context/tokenizer.ts:9-18 | words are counted one by one, whatever separators stand between them |
| `ContextRecords.TokensMean` | src/context/tokenizer.ts:42-45 | a conversation costs three tokens and what its messages cost |
| `Tokenizer.MessageTokensMean` | src/context/tokenizer.ts:24-40 | a message costs five tokens and what its content, tool calls and tool result id cost |
| `ContextRecords.CutMessageMeans` | src/context/strategies.ts:59-84 | only the text of a message is cut, and only if the message costs more than it may; no other field changes |
| `Truncation.DropOldestTruncate` | src/context/strategies.ts:190-214 | the splicing loop leaves out the fewest oldest unprotected messages, then cuts what still does not fit |
| `Truncation.DropOldestFits` | src/context/strategies.ts:190-214 | when the protected messages fit, so does the result; dropping fewer of the oldest would overflow |
| `Truncation.SlidingWindowTruncate` | src/context/strategies.ts:216-264 | the loop from the newest message selects greedily, message by message |
| `Truncation.KeepRecentTruncate` | src/context/strategies.ts:266-334 | the loop from the newest chunk selects greedily, chunk by chunk |
| `Truncation.BuildChunks` | src/context/strategies.ts:279-303 | the loop pairs each user message with the assistant message right after it |
| `Truncation.WindowGuarantee` | src/context/strategies.ts:216-334 | with unique ids and protected messages that fit: order kept, every protected message kept, within the limit, every chunk whole or left out, and none left out that could be added back |
| `Truncation.SelectSettles` | src/context/strategies.ts:231-242 | a chunk that is left out by the greedy pass would still overflow the final selection |
| `Truncation.SinglesDisjoint` | src/context/strategies.ts:216-264 | single messages are chunks the guarantee applies to |
| `Truncation.PairsDisjoint` | src/context/strategies.ts:266-334 | pairs are chunks the guarantee applies to |
| `Truncation.PairsCover` | src/context/strategies.ts:279-303 | the chunks hold every message once, in order |
| `Truncation.PairTogether` | src/context/strategies.ts:279-303 | adjacent user and assistant messages form one chunk |
| `Truncation.PairNeverSplit` | src/context/strategies.ts:266-334 | of such a pair both or neither are kept |
| `ContextRecords.PartsMean` | src/context/strategies.ts:190-334 | system messages and summaries are protected, all others are not |
| `ContextRecords.DropFirstMeans` | src/context/strategies.ts:190-214 | dropping the oldest k leaves the protected messages up to some place and everything from there on |
| `ContextRecords.DropOldestOverflows` | src/context/strategies.ts:190-214 | when the protected messages exceed the limit, only they are left, each cut to the limit less three tokens |
| `ContextRecords.WindowOverflows` | src/context/strategies.ts:244-264 | then a window strategy keeps them whole, with the newest other message cut to one token, or cuts each of them |
| `ContextRecords.NewestFirst` | src/context/strategies.ts:231-242 | a chunk is selected if and only if it fits together with the protected messages and the selected chunks behind it |
| `ContextRecords.PairsShape` | src/context/strategies.ts:279-303 | a chunk is one message, or a user message and an assistant message |
| `WindowGaps.WindowGaplessIff` | src/context/strategies.ts:231-242 | with k the least number of oldest messages to leave out for the rest to fit, the sliding window selects exactly that rest if and only if each of these k messages costs more than the room left |
| `WindowGaps.WindowWithGap` | src/context/strategies.ts:216-264 | three messages costing 6, 100 and 6 under a limit of 20: the first and the third are returned |
| `ContextManager.SystemPromptOnce` | src/context/manager.ts:71-91 | the prompt is added once, in front, and only to a conversation without system message; nothing else changes |
| `ContextManager.WindowFits` | src/context/strategies.ts:216-334 | the result of a window strategy fits if and only if something was selected or the newest message can be cut to fit |
| `ContextManager.PrepareMessages` | src/context/manager.ts:30-51 | adds the prompt, refuses without a limit or with too small a one, and runs the strategy only on a conversation over the limit |
| `ContextRecords.PrepareMeans` | src/context/manager.ts:30-51 | with a maximum in force: refused if less than one token is left beside the reserved ones; returned whole if it fits; otherwise handed to the strategy with the window in place of the maximum |
| `ContextRecords.MaximumMeans` | src/context/manager.ts:93-111 | the maximum in force: the one asked for, else the window, else the limit known for the model, else the default; a zero window or model limit counts as absent |
| `ContextRecords.SystemPromptMeans` | src/context/manager.ts:71-91 | the system message that is put in front, and when |
| `ContextManager.PrepareFits` | src/context/manager.ts:30-51 | when the window does not exceed the maximum and the protected messages fit, what `prepare` returns is within the maximum minus the reserved tokens if and only if the strategy can fit it |
| `ContextManager.BoundHoldsIff` | src/context/manager.ts:30-51 | that bound holds for every conversation and prompt the strategy can manage at its own limit if and only if the window does not exceed the maximum, or no conversation costs anything between the two limits |
| `ContextManager.WideWindowOverflows` | src/context/strategies.ts:41-44 | a conversation of 10 tokens that passes a maximum of 9 under a window of 10, with every strategy |
| `CdpClient.CommandsAccounted` | src/browser/cdp-client.ts:160-235 | over every interleaving each issued command is in exactly one of pending, resolved, rejected and lost, settled at most once, and the live timers are those of the pending commands |
| `CdpClient.CommandsConservedIff` | src/browser/cdp-client.ts:206-216 | no command is lost if and only if no pending attach command is answered with neither an error nor a result |
| `CdpClient.AttachLost` | src/browser/cdp-client.ts:380-395 | a run after which an issued command is neither pending nor settled and has no timer |
| `CdpClient.IdsNeverReused` | src/browser/cdp-client.ts:174-235 | an id is never handed out twice, reconnects included |
| `CdpClient.SettledForAReason` | src/browser/cdp-client.ts:200-234 | over every interleaving a command is resolved only by a response with its id and no error, and rejected only by an error response with its id, a timer, a close or disconnect, or a refused send |
| `CdpClient.TimeoutIsLocal` | src/browser/cdp-client.ts:201-204 | after any run a live timer rejects the one command it was set for and no other; a cleared one does nothing |
| `CdpClient.ResponseIsLocal` | src/browser/cdp-client.ts:380-395 | after any run a response to a pending command removes that command and its timer only, settles it for the first time unless it is lost, and a second response then does nothing |
| `CdpClient.NothingLeftBehind` | src/browser/cdp-client.ts:397-416 | a close or a disconnect leaves no command and no timer behind |
| `CdpClient.ConnectedAfterDisconnectIff` | src/browser/cdp-client.ts:139-172 | over every run before a disconnect and every run after it without a further `connect`: the client is connected at some later moment if and only if an attempt under way at the disconnect opens its socket |
| `CdpClient.DisconnectFinalIff` | src/browser/cdp-client.ts:160-172 | a disconnect is final until the next `connect` if and only if no attempt is under way |
| `CdpClient.AttemptsOccur` | src/browser/cdp-client.ts:259-289 | a `connect` and a reconnection can be under way at a disconnect |
| `CdpSession.SessionIff` | src/browser/cdp-client.ts:200-416 | after any run the client has a session id if and only if an attach command was answered with it and since then no other one was, and the connection was neither closed nor given up |
| `CdpSession.DomainsIff` | src/browser/cdp-client.ts:174-181 | after any run the domains to enable again are those of all commands ever given that end in `.enable`, sent or not |
| `CdpSession.SendMeans` | src/browser/cdp-client.ts:174-235 | the state after `send` field by field: a new id and timer, a rejection, or a refusal that tells a client that has given up from one that has not |
| `CdpSession.RespondMeans` | src/browser/cdp-client.ts:380-395 | the state after a response field by field: the settlement, the session id, and nothing for an unknown id |
| `CdpSession.CloseMeans` | src/browser/cdp-client.ts:397-416 | after any run a close rejects every pending command, ends the session, keeps the domains, and starts a reconnection unless one is under way or a disconnect was asked for |
| `CdpSession.DisconnectMeans` | src/browser/cdp-client.ts:160-172 | after any run a disconnect does the same, stays asked for and starts nothing |
| `CdpSession.ThreeAttempts` | src/browser/cdp-client.ts:422-452 | a reconnection gives up after its third failed attempt and not before |
| `CdpSession.AttemptSucceeds` | src/browser/cdp-client.ts:422-452 | an attempt that opens its socket connects the client, and with all domains enabled again ends the reconnection |
| `CdpClient.Client.Send` | src/browser/cdp-client.ts:174-235 | new state and result of `send`, the refused and the throwing case included |
| `CdpClient.Client.HandleResponse` | src/browser/cdp-client.ts:380-395 | clears the timer, removes the command, resolves or rejects it, or throws before it does either |
| `CdpClient.Client.CommandTimeout` | src/browser/cdp-client.ts:200-204 | a timer rejects its own command |
| `CdpClient.Client.RejectAllPending` | src/browser/cdp-client.ts:470-476 | rejects all pending commands in the order of their ids |
| `CdpClient.Client.HandleClose` | src/browser/cdp-client.ts:397-416 | rejects everything and starts one reconnection unless a disconnect was asked for |
| `CdpClient.Client.Disconnect` | src/browser/cdp-client.ts:160-172 | marks the disconnect, drops the socket and rejects everything |
| `CdpClient.Client.Connect` | src/browser/cdp-client.ts:139-151 | starts an attempt and clears the flags unless the client is connected or an attempt is under way |
| `CdpClient.Client.FinishConnect` | src/browser/cdp-client.ts:153-158 | the attempt ends, with the socket open or not |
| `CdpClient.Client.ReconnectOpened` | src/browser/cdp-client.ts:435-439 | a reconnection attempt opens its socket, whatever was asked for meanwhile |
| `CdpClient.Client.ReconnectFailed` | src/browser/cdp-client.ts:422-452 | a failed attempt is followed by the next, up to three; then the loop gives up |
| `CdpClient.Client.ReconnectDone` | src/browser/cdp-client.ts:439-444 | all domains enabled again end the loop |
| `Generation.StreamShape` | src/daemon/server.ts:3449-3663 | for every execution: sequence numbers 0, 1, 2, ...; exactly one terminal event, the last; `message_start` first if and only if an event arrived that starts a message |
| `Generation.ChunksAreContent` | src/daemon/server.ts:3909-4002 | in single-turn mode the chunks concatenate to the completed content |
| `AgentLoop.ChannelGetsAllIff` | src/daemon/server.ts:3611-3627 | for every course of the agent loop: the channel of a completed message gets all text streamed if and only if it takes all live texts, or none of them but the whole response, and no abort has cut off a visible part; and never both live texts and the whole |
| `AgentLoop.AbortedTextLost` | src/harness/agent-loop.ts:318-371 | a text streamed before an abort and declined live is lost: the content is empty and at most the notice for an empty response is sent |
| `AgentLoop.ContentIsText` | src/harness/agent-loop.ts:271-516 | over every run of the loop the completed content is all text streamed, up to white space, except for that of a step cut short by an abort |
| `AgentLoop.InkOfFinalText` | src/harness/agent-loop.ts:996-1009 | finalizing the blocks and taking their text loses nothing but white space |
| `AgentLoop.RunWithProvider` | src/harness/agent-loop.ts:271-516 | the loop yields the specified events: compaction, tokens, tool calls and results of each step, and the `done`, error or throw that ends it |
| `AgentLoop.Turned` | src/harness/agent-loop.ts:283-515 | one step: aborts, stream, text block, tool calls, step limit and escalation, in the order of the code |
| `AgentTurns.TurnMeans` | src/harness/agent-loop.ts:283-515 | tool calls are made if and only if the stream ended by itself, its last finish event asks for tools, there are calls, a step is left and neither guard nor abort intervenes; the events are the compaction, the stream, one start per call made in order and one end each unless a tool throws; the next step is taken if and only if all calls were made, none threw and no abort followed |
| `AgentTurns.BlocksMean` | src/harness/agent-loop.ts:373-502 | what a step adds to the accumulated content: its text, and one block for each call and each result |
| `AgentTurns.RunMeans` | src/harness/agent-loop.ts:271-516 | the loop takes steps until one is not followed by another, yields their events in order and ends as the last one says |
| `AgentTurns.FinalTextPlain` | src/types/conversation.ts:51-70 | content without tool blocks, or with one text, is returned as it is |
| `AgentTurns.FinalTextGrows` | src/types/conversation.ts:51-70 | with tool blocks each further text is a paragraph of its own, without padding at the end, and blank ones leave no trace |
| `Generation.SingleTurnGetsAllIff` | src/daemon/channel-service.ts:276-312 | in single-turn mode the channel gets all text if and only if it takes the whole response or the response is blank |
| `Generation.TextLost` | src/daemon/server.ts:3738-3764 | the second of two live texts, declined after the first was accepted, is never sent |
| `Generation.NothingUnflushed` | src/daemon/server.ts:3731-3764 | the texts between tool calls and the buffer are together exactly the text received |
| `Generation.FlushedAreSegments` | src/daemon/server.ts:3738-3764 | what is offered at tool calls is each of these texts, trimmed, unless blank |
| `Generation.LoopMeans` | src/daemon/server.ts:3711-4002 | from any point of either event loop, what is published, returned and offered live is what the event list asks for |
| `GenerationRecords.NarrativeMeans` | src/daemon/server.ts:3711-4002 | one published body for each event shown, saying what the event says, in order; the start if anything but an error in the loop arrived; and how it ended |
| `GenerationRecords.LiveTextsMean` | src/daemon/server.ts:3738-3907 | what is offered live: in the loop only, the texts between tool calls that are not blank, without padding, and the rest unless the loop failed |
| `GenerationRecords.CutAtToolCalls` | src/daemon/server.ts:3830-3836 | the text is cut exactly where tool calls start |
| `GenerationRecords.WholeMeans` | src/daemon/server.ts:3611-3627 | the whole response is offered if and only if the message was completed and no live text was taken |
| `Generation.Daemon.ExecuteProviderGeneration` | src/daemon/server.ts:3449-3663 | publishes exactly the narrative of the execution, offers the channel the live texts or the whole response, knows what the channel takes, the notice for a blank response included, and always ends the execution |
| `Generation.Daemon.GenerateWithHarness` | src/daemon/server.ts:3711-3907 | the harness loop with its channel buffer does what the loop function says |
| `Generation.Daemon.GenerateSingleTurn` | src/daemon/server.ts:3909-4002 | the single-turn loop does what the loop function says |
| `Generation.Daemon.FlushChannelBuffer` | src/daemon/server.ts:3738-3764 | offers the trimmed text unless it is blank, and remembers whether any offer was accepted |
| `StreamRegistry.FollowersAreIndependent` | src/daemon/server.ts:320-378 | over every interleaving each subscriber receives of its stream exactly what it would receive alone |
| `StreamRegistry.SubscriberSeesWholeStream` | src/daemon/server.ts:347-369 | who subscribes before a generation and stays receives exactly its events, each once and in order |
| `StreamRegistry.StreamKeyInjective` | src/daemon/server.ts:323-325 | stream keys tell messages apart when conversation ids have no colon |
| `StreamRegistry.Registry.Subscribe` | src/daemon/server.ts:327-335 | adds the subscriber to its stream only |
| `StreamRegistry.Registry.Unsubscribe` | src/daemon/server.ts:337-346 | removes the subscriber, and the stream with its last one |
| `StreamRegistry.Registry.Emit` | src/daemon/server.ts:348-369 | gives the event to every subscriber of the stream exactly once |
| `ToolResults.ExpandToolResultMessages` | src/daemon/server.ts:4065-4128 | the flushing loop computes the expansion by runs of blocks |
| `ToolResults.ExpandSound` | src/daemon/server.ts:4065-4128 | expanding keeps all content in order, leaves no tool result in an assistant message, and is idempotent |
| `ToolResults.NoneMixed` | src/daemon/server.ts:4065-4128 | no assistant message of the result has a tool result among its blocks |
| `ToolResults.SplitMeans` | src/daemon/server.ts:4084-4124 | the messages made hold tool results from the user or other blocks from the assistant, and are named by message, role and place |
| `ToolResults.RunIdMeans` | src/daemon/server.ts:4088-4104 | these names |
| `ToolResults.SplitAlternates` | src/daemon/server.ts:4065-4128 | a split message becomes non-empty messages of alternating roles |
| `ToolResults.ExpandNothing` | src/daemon/server.ts:4069-4083 | a conversation without tool results in assistant messages passes through unchanged |
| `ToolResults.MessagePassesThrough` | src/daemon/server.ts:4069-4083 | so does every message that needs no splitting, between the expansions of what surrounds it |
| `ToolResults.RunsAreRuns` | src/daemon/server.ts:4084-4124 | the runs hold the blocks in order, are not empty, of one kind each, and alternate |
| `ToolResults.SplitMessage` | src/daemon/server.ts:4084-4124 | the two buffers and their flushes give one message per run |
| `Summary.ExtractMemories` | src/conversation/compaction.ts:194-230 | the first ten memorable messages, in order |
| `Summary.CollapseMeans` | src/conversation/compaction.ts:243-244 | collapsing white space keeps every other character in order and leaves single spaces only |
| `Summary.GenerateSummary` | src/conversation/compaction.ts:232-262 | the taken lines joined, or the text for nothing to summarize |
| `Summary.SummaryIsLongest` | src/conversation/compaction.ts:240-255 | of the prefixes of the lines exactly those that the summary extends fit the token limit |
| `CompactionRecords.ExtractedMeans` | src/conversation/compaction.ts:194-230 | one memory for each of the first ten messages of user or assistant with a preference or a decision, in order: content, kind, tags and conversation |
| `CompactionRecords.SummaryMeans` | src/conversation/compaction.ts:232-262 | the summary is as many lines, one for each message with text, as stay within the limit; fixed texts for no messages and no line |
| `Compaction.NothingLostEarly` | src/conversation/compaction.ts:100-165 | whatever fails and wherever the process stops: nothing is recorded or removed before all memories are saved, and the conversation is untouched or replaced as a whole after both entries were appended and synced |
| `Compaction.PersistedFirstIff` | src/conversation/compaction.ts:273-285 | nothing is ever recorded or removed before all memories survive a crash, if and only if the memory store can persist or there is nothing to remember |
| `Compaction.NeverPersisted` | src/conversation/compaction.ts:273-285 | with a store that can only save, a compaction in which everything succeeds persists none of its memories |
| `Compaction.LeftCompactingIff` | src/conversation/compaction.ts:187-191 | the session is left compacting if and only if the reset was needed and failed |
| `Compaction.StuckIff` | src/conversation/compaction.ts:78-104 | a process that stops leaves the session compacting, and every later compaction skipped, if and only if the first write was done and the last one was not the finishing or resetting one |
| `Compaction.SuccessIff` | src/conversation/compaction.ts:70-192 | success is reported if and only if every step succeeds, and then all of it has happened |
| `Compaction.SavedConversation` | src/conversation/compaction.ts:91-98 | the new conversation is one system message, of the given id, whose text is the heading followed by the summary of the removed messages, and then exactly the last `keepRecentMessages` |
| `CompactionRecords.JobMeans` | src/conversation/compaction.ts:91-165 | all that is written: the memories and the summary of the messages before the last `keepRecentMessages`, and in their place a system message whose text is the heading and exactly this summary |
| `CompactionRecords.SavedLines` | src/conversation/compaction.ts:149-154 | with the built-in summarizer every line that the summary takes is in the text of the saved message |
| `CompactionRecords.PlanMeans` | src/conversation/compaction.ts:100-172 | the writes of a compaction in their order, one by one |
| `CompactionRecords.LogMeans` | src/conversation/compaction.ts:100-191 | what is attempted, whatever fails: the plan up to the first failure, and the reset if and only if the first write succeeded and the last one did not |
| `CompactionRecords.ResultMeans` | src/conversation/compaction.ts:70-192 | success if and only if the finishing write is done, with summary, counts and conversation; an exception if and only if some attempt throws, the reset included |
| `CompactionRecords.ThresholdMeans` | src/conversation/compaction.ts:264-271 | a session is compacted from the given share of its window on, rounded down, and from one token on at least |
| `Compaction.DefaultsMean` | src/conversation/compaction.ts:45-58 | without options, or with a ratio that is not finite, a session is compacted from 12800 tokens on if it has more than ten messages, with a summary cut at 400 tokens |
| `Compaction.CompactionService.Compact` | src/conversation/compaction.ts:70-192 | the early exits, every attempted write in order up to the first failure, the reset, and the result |
| `Compaction.Work` | src/conversation/compaction.ts:109-186 | the part under `try` performs the plan of writes and stops at the first failure |
| `Chunking.ChunkMessage` | src/channels/formatting.ts:292-322 | the cutting loop computes the chunks |
| `Chunking.ChunksSound` | src/channels/formatting.ts:292-408 | for every text and limit: no chunk too long, all but the last at least half as long, a bound on their number, and the text restored with at most one newline per cut |
| `Chunking.CutsAtBestPlace` | src/channels/formatting.ts:300-318 | a cut is at the last line break of the second half, else at the last space there, else at the limit |
| `Chunking.ChunksStep` | src/channels/formatting.ts:292-322 | a text that is too long is cut at the best place, one line break in front of the rest is dropped, and the rest is cut in the same way |
| `ConversationBridge.KeysEqualIff` | src/channels/conversation-bridge.ts:187-194 | for colon-free conversation ids keys are equal if and only if conversation, role, platform and the joined channel part are |
| `ConversationBridge.ChannelsShareKeyIff` | src/channels/conversation-bridge.ts:187-194 | two channels can share a key if and only if one id is the other up to one of its colons |
| `ConversationBridge.ColonFreeSeparable` | src/channels/conversation-bridge.ts:187-194 | channel ids without colons are separable |
| `ConversationBridge.KeyInjective` | src/channels/conversation-bridge.ts:187-194 | keys of separable channels tell messages apart |
| `ConversationBridge.StoredAtMostOnce` | src/channels/conversation-bridge.ts:105-161 | after any run, restarts included, a conversation holds at most one message per identity whose addition succeeded since the bridge was started |
| `ConversationBridge.StoredOnceWhenNeverTorn` | src/channels/conversation-bridge.ts:105-161 | when no addition throws after storing and the bridge is not restarted, at most one message per identity is stored at all |
| `ConversationBridge.AddedAtMostOnce` | src/channels/conversation-bridge.ts:105-161 | one bridge adds a channel message successfully at most once, even if it was removed since |
| `ConversationBridge.RedeliveryReturnsOriginal` | src/channels/conversation-bridge.ts:119-124 | after a delivery returned an id, every later one of the same message to the same bridge returns that id and adds nothing |
| `BridgeDeliveries.IdentityIff` | src/channels/conversation-bridge.ts:113-185 | a message has an identity if and only if its metadata name `tui`, `telegram` or `discord`, a channel and a message; it is made of exactly these, the conversation and the role |
| `BridgeDeliveries.ChannelRedelivery` | src/channels/conversation-bridge.ts:119-124 | from such metadata: after a delivery returned an id, every later one with the same metadata to the same bridge returns that id and adds nothing, whatever happens in between |
| `BridgeDeliveries.ChannelDelivery` | src/channels/conversation-bridge.ts:119-161 | a first delivery is answered from the last 200 messages if one has the same role, platform, channel and message, and added otherwise; what the bridge remembers |
| `BridgeDeliveries.PlainDelivery` | src/channels/conversation-bridge.ts:113-161 | a message without identity is added each time |
| `BridgeDeliveries.AddMeans` | src/channels/conversation-bridge.ts:149-156 | what an addition stores |
| `BridgeDeliveries.KeyMeans` | src/channels/conversation-bridge.ts:187-194 | the key is conversation, role, platform, channel and message as they are given, joined by colons |
| `ConversationBridge.RedeliveryAfterTornAdd` | src/channels/conversation-bridge.ts:126-147 | a message whose addition threw after storing is found in the history when it is redelivered at once |
| `ConversationBridge.TornRedeliveryIff` | src/channels/conversation-bridge.ts:126-161 | redelivered after any other deliveries, it is stored again if and only if it is no longer among the last 200 messages, and otherwise answered with its first id |
| `ConversationBridge.TornStoredTwice` | src/channels/conversation-bridge.ts:126-161 | after 200 further messages it is stored again |
| `ConversationBridge.RestartRedeliveryIff` | src/channels/conversation-bridge.ts:126-161 | redelivered after a restart of the bridge, a stored message is stored again if and only if it is no longer among the last 200 messages, and otherwise answered with its id |
| `ConversationBridge.RestartStoredTwice` | src/channels/conversation-bridge.ts:126-161 | after a restart and 200 further messages it is stored again |
| `ConversationBridge.NeverMerged` | src/channels/conversation-bridge.ts:105-161 | with separable channels the returned id belongs to the same conversation, role, platform, channel and message id |
| `ConversationBridge.MergedIffKeysEqual` | src/channels/conversation-bridge.ts:105-161 | a delivery is answered with the id of a different message that the bridge added if and only if their keys are equal |
| `ConversationBridge.Bridge.AddMessage` | src/channels/conversation-bridge.ts:105-161 | new state and result: known key, duplicate in the history, or a new message |
| `ConversationBridge.Manager.GetHistory` | src/conversation/manager.ts:259-279 | the last 200 messages of a conversation that exists |

## Left out

- AxTree.ParseAxNodes: gives depths alone; the roles, names and flags that the source copies from the node are not modelled. Nor are `takeSnapshot`, the filters and the formatters; the cost of a node's text is a parameter of the token limit.
- WatcherCadence.NeverCheckedLessOftenThanAsked: says nothing of a wait during which the zone changes its offset, as at the ends of daylight saving, nor of intervals above some 17 billion years, whose minutes a number does not hold exactly.
- WatcherCadence.BoundKeptIff: is about stretches of constant offset that are a day longer than the interval, for the same reason.
- CronScheduler.Scheduler.Stop: does not clear the interval timer or wait for a tick under way, because ticks do not overlap other operations here.
- ConversationBridge.Manager.GetHistory: leaves out the `before` and `roles` options, which the bridge does not use.
- ConversationBridge.StoredAtMostOnce: does not count additions that threw after storing, nor those before the last restart; `TornRedeliveryIff` and `RestartRedeliveryIff` say when these are stored again.
- Generation.Daemon.ExecuteProviderGeneration: does not relate the order of channel forwards to that of published events, and leaves out finish reasons, token usage and the choice of provider and model, which is one parameter (`Preflight`).
- AgentLoop.RunWithProvider: takes what the provider, the tools, the abort signal, the compaction of the context and the doom-loop guard do as given, step by step; the abort signal of the tools is that of the loop, as the daemon passes it. The requests it sends and the content of tool results are left out, and so is the older `run`.
- The `SummarisationStrategy`: its summary comes from an external model.
- Floating point: seconds, token ratios and windows are real or integer numbers without rounding; dates have no range limit.
- Strings are sequences of characters; surrogate pairs and UTF-8 decoding errors are not told apart.
- Stored timestamps that cannot be parsed, and job fields that are only carried along (description, tags, payload parameters, creation time).
- Ticks that overlap, and updates or removals during `onExecute`, which the source overwrites.
- The order in which a tick walks the job map is a parameter; `TickMeans` shows that it makes no difference to a job.
- I/O errors of the transcript store, its sync handles, and rewriting files that are not valid UTF-8.
- The discovery and listeners of the CDP client, and the length of its waits; the commands that re-enable domains are ordinary sends, and the failure of one of them is an event of its own.
- Callbacks of stream subscribers that subscribe or unsubscribe while an event is delivered.
- Compaction's callers, its regular expressions (two predicates on the trimmed text), and stores whose failed writes have an effect after all.
- The channel router and the mapping from users to conversations of the bridge; generated message ids are serial numbers.
- Formatting of chat markdown: it depends on look-behind and replacement patterns of JavaScript regular expressions.
- HTTP routing, WebSocket transport, authentication, browser automation, voice, the command line and the setup wizard.
