# codexlens: a verified model of ingestion, selection and apply

codexlens reads append-only JSONL session logs into a derived store, attributes every row to a session,
correlates tool calls with their results, selects what a report shows for a period, and applies edits to
instruction files as one transaction. This project models the parts of it that carry state, loops and
arithmetic, and proves what they guarantee over all inputs, all runs and all failure patterns.

Code that changes things step by step is modelled by classes and methods with loops; each is proved equal to a
function of its inputs or of its old state, and the results below are about those functions, so they hold of the
loops. What the program gets from outside (file contents, the decoding of a line, file-system failures, the
meaning of a status text) is a parameter, so every result holds whatever it is.

| file | part of codexlens |
|---|---|
| `Bytes.dfy`, `Order.dfy`, `Decimals.dfy`, `Utf8.dfy`, `FileSystem.dfy`, `Subsequences.dfy` | options, slices, parts of lists by their positions, white space, bytes and newlines; strict orders and stable sorting; decimal numerals; UTF-8; files and failing steps |
| `JsonlReader.dfy` | the buffered line reader |
| `MonitorScan.dfy`, `Monitor.dfy`, `MonitorRuns.dfy`, `MonitorContents.dfy` | the incremental monitor: scans and digests, one poll, whole runs, what is stored told line by line |
| `Sessions.dfy`, `SessionMerging.dfy`, `SessionReferences.dfy`, `SessionRun.dfy`, `RowTurns.dfy`, `TurnHistories.dfy`, `UsageRows.dfy` | attribution of rows to sessions and turns during normalisation; merged sessions; what is known of each turn; which usage rows remain |
| `SessionPolls.dfy`, `LogsOfOneSession.dfy`, `UsagePolls.dfy`, `PollDivergences.dfy` | rows and usage rows that polls leave, the store's renaming included, against one run over the same records |
| `Correlation.dfy`, `CallFailures.dfy`, `PendingCalls.dfy` | finding the call of a result; when a call counts as failed; what one poll hands to the next |
| `Duplicates.dfy`, `DuplicatePairs.dfy` | marking duplicate results |
| `FileOperations.dfy`, `FileOperationSets.dfy`, `FileOperationRuns.dfy`, `FileOperationRepeats.dfy`, `FileOperationReports.dfy` | file operations: one extraction, its meaning, polls against one batch, the same with repeated results, better ones in a later poll included |
| `UnidentifiedOperations.dfy`, `RepeatedEdits.dfy` | file operations of calls and results without ids |
| `FileOperationRekeys.dfy`, `FileOperationReplacements.dfy`, `SessionOperations.dfy` | the same when the state session of a log is replaced between polls; the sessions that file operations name |
| `Civil.dfy`, `Timestamps.dfy`, `TimestampTexts.dfy` | calendar, instants and their texts |
| `Selection.dfy`, `ReportSelection.dfy`, `ReportOutput.dfy` | periods, selection of report data, the report in terms of its rows |
| `TextBlocks.dfy`, `TextBlockMeaning.dfy`, `DiffBatch.dfy`, `DiffFates.dfy` | appending text once; rendering a batch of proposals |
| `Apply.dfy`, `ApplySafety.dfy`, `ApplyOutcomes.dfy`, `ApplyRun.dfy`, `ApplyPlans.dfy` | the apply transaction: its steps, its safety, its outcome, planning and running it, what can be planned |
| `Instructions.dfy`, `InstructionFiles.dfy`, `InstructionChain.dfy` | the instruction chain under a byte budget |
| `Discovery.dfy` | the walk over rollout directories and the list of inputs |
| `Commands.dfy`, `CommandLines.dfy` | splitting command lines and removing wrappers |

## Where the code does less than it promises

Each of these is proved: a failing input, and exactly when the code does meet the promise.

- **File operations of polls against one batch.** `docs/specs/post-mvp.md` (section 4) says that retracting operations
  keeps live and batch ingestion equivalent. It does not in three ways.
  - A call that failed by its own status gets, in a later poll, a result that says it did not fail. One batch keeps
    the call's file operations and polling never stores them: the call is then a pending one, whose keys are claimed
    but whose operations are not emitted. `FileOperationRuns.PollsEqualBatchIff` shows that this is the only way in
    logs in which every call and result has an id and a line of its own, no id is used for two calls, a call has at
    most one result, which does not come before it and fits its session and turn, at most 1024 calls wait at a time,
    and the polls attribute every row as one batch does. `FileOperationRuns.LateRecoveryHappens` is such a log.
  - A better result of the same call comes in a later poll: the polls have settled the call by then, one batch goes by
    the better result (`FileOperationRepeats.BetterReportComesTooLate`,
    `FileOperationRepeats.BetterReportLaterHappens`). When results are repeated without contradiction,
    `FileOperationReports.ReportedPollsEqualBatchIff` says exactly when both agree: by the first report and by the best
    one the same calls keep their operations, a call that recovers late keeping none in the polls, and where the two
    reports differ neither adds operations of its own. If no report that comes in a later poll is better than those
    before it, the first way is again the only one: `FileOperationRepeats.PollsEqualBatchWithRepeatsIff`. The other
    assumptions are those above.
  - A call waits for its result while the state session of the log is replaced. The store renames its rows, the pending
    call keeps the old session, so its result no longer matches it: the operations of a call that turns out to have
    failed stay (`FileOperationReplacements.WaitingCallIsNeverRetracted`,
    `FileOperationReplacements.WaitingCallHappens`). `FileOperationReplacements.RekeyedPollsEqualBatchIff` says, for
    logs as above whose state session is replaced once, that polls and one batch agree if and only if no call recovers
    late before the replacement or after it and no call waits across it whose result, matched with it, would say
    otherwise about the call or name other operations than alone.
- **Rows of polls against one run.** Polls can attribute rows to other sessions than one run over the same records.
  `SessionPolls.PollsAttributeAlikeIff` says exactly when they do not: every poll starts in the session the run is in,
  or with metadata; its metadata leads to the same sessions; and the store renames the rows of a replaced state session
  to the one the run renames them to. It holds for every cut of a log whose candidates all have the first one's id, or
  one of the two a rollout id, if the first poll reads a record: `LogsOfOneSession.LogsOfOneSessionAgree`. It fails
  when later metadata is merged into a session the polls no longer hold
  (`PollDivergences.LaterMetadataMergesElsewhere`), when the store renames to the least session of a poll that names two
  (`PollDivergences.StoreRenamesToAnother`), and when the first poll takes in lines but no record
  (`PollDivergences.EmptyFirstPollLosesFallback`).
- **Duplicates of worse results.** A result is marked as a duplicate of one of an earlier poll even when it is the
  better of the two, so the exit code read one poll after the output belongs to no kept result:
  `Duplicates.DuplicatesReachKeptResults` says exactly when quality falls, `Duplicates.BetterResultMayRepeatAWorse`
  is such a pair.
- **Repeated token counts.** Repeats are dropped within one poll only. Polls leave the rows of one run over the same
  records, usage rows included, if and only if they attribute them alike and no usage row, under the session it has in
  the end, repeats one of an earlier poll: `UsagePolls.PollsKeepRowsIff`. A count reported before and after the state
  session is replaced repeats although its two rows were first attributed to different sessions:
  `PollDivergences.RepeatAcrossTheReplacement`.
- **Turn ids used by two sessions.** The turn handed to the next poll is the first one listed under the current id. If
  another session of the same log used that id before, the next poll can name a session it does not know:
  `SessionReferences.NextRunIsKnownIff`, `SessionReferences.ReusedTurnIdIsHandedOver`.
- **Lines called incomplete.** A poll that its byte budget stops early reports the next line as an incomplete final
  line although its newline is there: `MonitorRuns.HeldLineIsIncompleteIff`,
  `MonitorRuns.CompleteLineIsCalledIncomplete`.
- **Failed writes.** A poll remembers the identities it accepted before it writes. When the write fails and the poll is
  repeated, the records with those identities are skipped and never stored: `MonitorRuns.RetryStoresTheSameIff`. A
  restart on a changed source is forgotten in the same way, so that the rows of the old source stay in front:
  `MonitorRuns.RestartIsForgotten`.
- **Smaller identity window.** Reopening a monitor with a smaller `max_event_identities` keeps the oldest identities
  of the carried window, not the most recent ones: `MonitorRuns.SmallerLimitKeepsNewestIff`,
  `MonitorRuns.OlderIdentityIsKept`.
- **Printed instants.** The parser accepts offsets that lead to an instant outside the years 0000 to 9999, which then
  prints as text the parser refuses: `Timestamps.FormatRoundTripIff`, `Timestamps.ParsedInstantMayNotPrint`.
- **A file with a temporary name.** If a file already has the name of one of the temporary files, a failing apply
  deletes it; apart from that the transaction is all-or-nothing: `ApplySafety.SafeUnderEveryFailureIff`,
  `ApplySafety.TakenTempHappens`.

## Model

| member | source | states |
|---|---|---|
| JsonlReader.PlainJsonlReader.NextLine | src/rollout.rs:54-101 | whatever pieces the buffer delivers, a call returns the report of the bytes up to the next newline under the next number and leaves the rest, and returns nothing exactly at the end of the input |
| JsonlReader.ReadAll | src/rollout.rs:305-341 | calling the reader to the end yields the newline split of the whole input, numbered from 1 |
| JsonlReader.LinesAreReports | src/rollout.rs:54-101 | line number i is reported as oversized with its exact byte count exactly when its content exceeds the limit, and as its bytes otherwise |
| JsonlReader.RawLinesRoundTrip | src/rollout.rs:54-101 | joining the lines with newlines gives the input back, completed by a final newline if it lacked one |
| JsonlReader.NoNewlineInRawLines | src/rollout.rs:54-101 | no line contains a newline, so together with the round trip the split is the only one |
| JsonlReader.LinesConcat | src/rollout.rs:54-101 | reading a text that ends with a line and then more is reading both parts with continued numbering |
| JsonlReader.BufferStep | src/rollout.rs:60-95 | one chunk without a newline lies before the first newline, and the first newline of a chunk is that of the input |
| MonitorScan.ScanCompleteEnd | src/monitor.rs:468-496 | the chunked backward and forward scans find the place past the last newline of the poll window, else past the first newline after it, else the start |
| MonitorScan.CompleteEndProgress | src/monitor.rs:468-496 | the end moves exactly when a newline is left, and then lies just past one |
| MonitorScan.CompleteEndBound | src/monitor.rs:319-322 | the end never passes the last newline and stands still only there |
| MonitorScan.CountNewlinesBetween | src/monitor.rs:498-511 | the buffered count is the number of newlines between the two offsets, however reads are cut |
| MonitorScan.PrefixDigest | src/monitor.rs:518-536 | the digest is that of the exact prefix, or none when the file is shorter |
| MonitorScan.UpdateDigestConcat | src/monitor.rs:538-544 | feeding the digest in pieces is feeding it at once |
| MonitorScan.CompleteEndIs | src/monitor.rs:468-496 | a poll takes in its window up to the last newline in it, else what follows up to the next newline, else nothing |
| MonitorScan.KnownDigests | src/monitor.rs:518-544 | the digests of no bytes and of one letter are the published values of 64-bit FNV-1a |
| Monitor.ParseWindow | src/monitor.rs:452-466 | parsing a window with a line offset gives the records and diagnostics of its lines under the file's own numbers |
| Monitor.ParseConcat | src/monitor.rs:452-466 | parsing two adjacent windows is parsing them as one |
| Monitor.FilterConcat | src/monitor.rs:393-430 | filtering repeats poll by poll is filtering all records at once |
| Monitor.WindowHoldsLastIdentities | src/monitor.rs:393-430 | the identity queue always holds the last accepted identities, as many as fit, none twice |
| Monitor.AcceptsEverythingIff | src/monitor.rs:393-430 | nothing is skipped exactly when no record repeats one of the identities within the window before it, and accepted and skipped add up to all |
| Monitor.LocalMonitor.ResetCursor | src/monitor.rs:383-391 | resetting forgets offset, line, sequence, digest and identities |
| Monitor.LocalMonitor.FilterDuplicates | src/monitor.rs:393-430 | the queue-based loop accepts and skips exactly what the filter function says and leaves its queue |
| Monitor.LocalMonitor.CheckSource | src/monitor.rs:206-222 | a source shorter than the offset is a truncation, one whose prefix digest changed a rotation, and only those reset the cursor |
| Monitor.LocalMonitor.PollRollout | src/monitor.rs:205-349 | one poll changes monitor, store and report, its status and the line held back included, exactly as the poll function says, also when nothing is written |
| Monitor.Store.IngestCanonical | src/monitor.rs:300-303 | on the first poll or after a transition the source's rows are replaced |
| Monitor.Store.AppendCanonical | src/monitor.rs:303-313 | otherwise rows and diagnostics are appended to those already stored |
| Monitor.Store.Write | src/monitor.rs:295-319 | the store is written exactly when rows are replaced or something new was read; otherwise it stays as it was |
| MonitorRuns.IngestConcat | src/monitor.rs:205-349 | storing a prefix and then the rest stores what storing both at once does, with sequence numbers continued |
| MonitorRuns.PollKeepsSync | src/monitor.rs:205-349 | after a poll of any file, grown or rewritten, the store holds exactly the accepted records of the file's prefix up to the cursor, provided a changed prefix has a changed digest |
| MonitorRuns.RestartKeepsSync | src/monitor.rs:136-173 | reopening the monitor from its cursor keeps that, and keeps cursor and identities |
| MonitorRuns.SmallerLimitKeepsNewestIff | src/monitor.rs:136-173 | reopening under a limit keeps the newest identities if and only if they all fit or none is kept |
| MonitorRuns.OlderIdentityIsKept | src/monitor.rs:136-173 | with two identities carried and room for one, the older one is kept |
| MonitorRuns.EveryRunStaysSynced | src/monitor.rs:205-349 | along every interleaving of rewrites, truncations, growth, polls and restarts, the store holds exactly what one pass over the current prefix would store, the offset is 0 or just past a newline, and line, sequence and identities fit it |
| MonitorRuns.StoredRowsAreLines | src/monitor.rs:229-349 | stored rows are numbered 1, 2, 3 and stem from strictly increasing lines of the prefix that decode to them |
| MonitorRuns.EveryRecordIsParsed | src/rollout.rs:343-369 | conversely every decodable line gives its record |
| MonitorContents.DiagnosticsAreLines | src/rollout.rs:305-369 | the diagnostics stored for a prefix are, in the order of lines, one for each line over the limit, with its number and length, and one for each other line that does not decode, with its number, and nothing else |
| MonitorContents.RecordsAreLines | src/rollout.rs:343-369 | the records of a prefix are, in the order of lines, those of the lines within the limit that decode to one, with their numbers, and nothing else |
| MonitorContents.StoredAreNew | src/monitor.rs:393-430 | the rows stored for a prefix are, in order and numbered from 1, its records whose identity, if there is one, is none of the last ones accepted before it |
| MonitorContents.StatusIs | src/monitor.rs:206-222 | a poll reports truncation exactly when the file is shorter than the cursor, rotation exactly when it is not and its prefix has another digest, and otherwise, in this order of precedence, repeated identities, bytes held back, something written, or nothing; it says how many rows it added, and that it wrote exactly when it replaced or changed what is stored |
| MonitorRuns.AppendOnlyRun | src/monitor.rs:205-349 | while the source only grows, over any number of polls the correspondence holds without any assumption about digests, and the offset never goes back |
| MonitorRuns.AppendOnlyPoll | src/monitor.rs:205-349 | while the source only grows, no poll sees a transition, and a poll only adds rows and diagnostics behind those stored |
| MonitorRuns.PollsReachTheEnd | src/monitor.rs:319-322 | each poll of an unchanged file takes in at least one more line until the last newline is reached, whatever the poll budget |
| MonitorRuns.HeldLineIsIncompleteIff | src/monitor.rs:222-247 | a poll reports the line after those taken in exactly while bytes are left, and that line lacks its newline if and only if none lies beyond the poll budget, or only the one the poll had to exceed it for |
| MonitorRuns.CompleteLineIsCalledIncomplete | src/monitor.rs:222-247 | with two complete lines and a budget of one byte the second line is reported as incomplete |
| MonitorRuns.IdleMeansCaughtUp | src/monitor.rs:295-340 | an idle poll has read the whole file and left the store alone, and every later poll of a file read to its end is idle and changes nothing |
| MonitorRuns.EnoughPollsEqualBatch | src/monitor.rs:205-349 | enough polls store what one pass over all complete lines stores: all its records if and only if none repeats a recent identity, and all its diagnostics |
| MonitorRuns.RetryStoresTheSameIff | src/monitor.rs:248-330 | repeating a poll whose write failed stores what it should have stored if and only if it accepted no record with an identity |
| MonitorRuns.RestartIsForgotten | src/monitor.rs:206-330 | repeating a poll that had restarted on a changed source and whose write failed sees no transition and leaves the rows and diagnostics of the old source in front |
| Sessions.Least | src/normalize.rs:1569-1577 | the first entry of an ordered map that qualifies is the one with the least key |
| SessionReferences.MergeKeepsSessions | src/normalize.rs:1533-1616 | merging a candidate of the log removes no rollout session, brings in one under the merged id, and changes no other |
| SessionMerging.MergedIs | src/normalize.rs:1396-1616 | a candidate is merged with the session of its id, else with the first of the same log, and with the state session of its id, else of its log, else of another shared identity; the first one keeps its id and each field takes the first value given, in that order, except that a rollout session replaces one of the state database and one of another log replaces the one of its id |
| SessionMerging.MetaIs | src/normalize.rs:171-212 | metadata makes its merged session current and ends the turn; where that replaces a session of the state database, every row, turn and parent that named the one names the other, and nothing else changes |
| SessionReferences.MetaKeepsSound | src/normalize.rs:171-212 | after session metadata every named session is known and is a rollout session, also when the state fallback is replaced under another id |
| SessionReferences.DataRenamed | src/normalize.rs:1417-1466 | rekeying rows that name only the fallback leaves them naming only the new session and keeps turns distinct |
| SessionReferences.UpdateKeepsTurns | src/normalize.rs:1715-1805 | adding or updating a turn and recording a lifecycle event never list a turn of one session twice |
| SessionReferences.TakeKeepsSound | src/normalize.rs:161-352 | every kind of record keeps the invariant that links rows, session map and current session |
| SessionReferences.EveryNamedSessionIsKnown | src/normalize.rs:120-376 | in every run, from nothing or from a carried context whose turn belongs to the session the run starts in, each session named by a record, turn, message, call, result, usage row or snapshot is in the final map under its own id, no turn is listed twice, and once the log named a session nothing refers to the state fallback |
| SessionReferences.KnownFromContextIff | src/normalize.rs:120-160 | from a context, all runs name only known sessions if and only if the carried turn belongs to the session the run starts in, or to none |
| SessionReferences.HandOverFitsIff | src/normalize.rs:350-376 | a run hands over such a context exactly when the id of its current turn was not used by another session before |
| SessionReferences.NextRunIsKnownIff | src/normalize.rs:350-376 | so the run of the next poll, whatever it reads, names only known sessions if and only if the current turn id was not used by another session before |
| SessionReferences.ReusedTurnIdIsHandedOver | src/normalize.rs:354-356 | two sessions of one log that start a turn of the same id hand over the first one's turn, and the next run can then name a session it does not know |
| SessionReferences.StoredContextFitsIff | src/monitor.rs:586-618 | after a restart the stored context fits exactly when it carries no turn, its last row names no session or one of the log, or the run starts again in the state session that row names |
| SessionReferences.TakeAddsOneRow | src/normalize.rs:161-352 | a record adds one row, with its sequence number, to each list it belongs on and none to the others, also when rows are rekeyed |
| SessionReferences.EveryRecordGetsItsRows | src/normalize.rs:161-352 | after any run each list of messages, calls, results, snapshots and records holds in order one row for every record that belongs on it and no other |
| RowTurns.EveryRowNamesItsTurn | src/normalize.rs:161-352 | after any run the row of a turn context names its own turn or none, and every other row the turn its record gives, else the one set last before it by a turn context, a start event with a turn or, to none, session metadata, else the carried one; rows are numbered in order |
| TurnHistories.TurnsTellTheirHistory | src/normalize.rs:1715-1805 | after any run each turn has the completion time of its last completing or aborting event, the start time of its last start event or, where that gives none, of its first context since, each setting as it was given first, and exactly its lifecycle events in order with kind, time and number; every turn that an event or a context names is listed once |
| TurnHistories.HandOverCarries | src/normalize.rs:350-376 | what a run hands over meets the condition under which the next run's turns tell their history |
| SessionRun.Normalizer.constructor | src/normalize.rs:134-160 | a run starts from the carried session, or else from the state session of the same log |
| SessionRun.Normalizer.MergeRolloutSession | src/normalize.rs:1533-1616 | taking out, merging and putting back the session changes the map and returns the id as the merge function says |
| SessionRun.Normalizer.RekeySessionReferences | src/normalize.rs:1417-1466 | the loops over all lists rename the session everywhere, and parents in the map, and nothing else |
| SessionRun.Normalizer.UpdateTurn | src/normalize.rs:1715-1758 | the turn is found or added, and its working directory, model, reasoning effort and start are filled in where they were unknown |
| SessionRun.Normalizer.RecordLifecycle | src/normalize.rs:1760-1805 | the turn is found or added, its start or completion set by the event, and the event kept |
| SessionRun.Normalizer.TakeMeta | src/normalize.rs:171-212 | metadata merges the session, rekeys a replaced fallback, makes the session current and ends the turn |
| SessionRun.Normalizer.TakeRecord | src/normalize.rs:161-352 | one record changes rows, map and current ids as the step function says |
| SessionRun.NormalizeRecords | src/normalize.rs:120-376 | the loop over all records, the removal of repeated usage rows and the context handed to the next poll compute the run that the results above are about |
| SessionRun.FindFirstTurn | src/normalize.rs:354-356 | the search finds the first turn listed under an id |
| SessionRun.DeduplicateUsage | src/normalize.rs:2259-2274 | the retaining loop with its set of keys keeps the rows the deduplication function keeps |
| UsageRows.DeduplicatedKeeps | src/normalize.rs:2259-2274 | a usage row is kept exactly when it names neither session nor turn or no earlier row has its session, turn and counters, and the kept rows stay in order |
| UsageRows.UsageRemainsIff | src/normalize.rs:120-392 | there is a usage row for every record that counts tokens, and after any run it remains if and only if it names neither session nor turn or no earlier one has, after rekeying, its session, turn and counters |
| UsageRows.RepeatedReportLeavesOneRow | src/normalize.rs:2259-2274 | two reports of the same token counts in one turn leave one row |
| UsageRows.DeduplicatedRenamed | src/normalize.rs:1417-1466 | rekeying the state fallback before or after deduplication gives the same rows |
| UsageRows.PollsKeepUsageIff | src/normalize.rs:2259-2274 | lists of usage rows deduplicated one by one hold what their concatenation deduplicated at once holds if and only if no row repeats, by session, turn and counters, one of an earlier list |
| UsageRows.RepeatAcrossPollsIsKept | src/normalize.rs:2259-2274 | a row repeated in the next list is kept twice then |
| SessionPolls.RunNames | src/normalize.rs:161-376 | after a run each record's row names the session current after that record, except that rows of a state fallback the run replaced, those it started with included, name the first session its metadata led to |
| SessionPolls.TurnIdIsHandedOver | src/normalize.rs:350-376 | the id of the turn handed to the next poll is the current one, also when the turn handed over is another session's |
| SessionPolls.PollsStayInStep | src/monitor.rs:258-345 | after any polls the store holds one row per record, with the sequence numbers and turns of one run over all records, and either its rows name one session throughout, the state session or none, or polls and run have both reached a session of the log |
| SessionPolls.RenamingEndsTheFallback | src/monitor.rs:569-584 | only a poll that ends in a session of the log renames stored rows, and after it none does |
| SessionPolls.RecordsAgreeIff | src/normalize.rs:120-376 | polls leave the record rows that one run leaves, renaming included, if and only if every poll starts and goes on in that run's sessions and the store renames as the run does |
| SessionPolls.StoredFollows | src/store.rs:775-785 | after any polls, renaming included, each list but the usage rows holds in order the rows of the records that belong on it |
| SessionPolls.PollsAttributeAlikeIff | src/monitor.rs:258-345 | so messages, calls, results and snapshots have the sessions, turns and numbers one run over all records gives them under exactly the same condition |
| LogsOfOneSession.LogsOfOneSessionAgree | src/normalize.rs:1533-1616 | that condition holds for every cut into polls of a log whose candidates each have the first one's id or share a rollout id with it on either side, provided the first poll reads a record |
| UsagePolls.UsageIsPicked | src/normalize.rs:120-376 | the usage rows of all polls before deduplication, under their final sessions, are those of the records that count tokens |
| UsagePolls.StoredUsageIs | src/store.rs:775-785 | what the store keeps of them is what deduplication keeps poll by poll, whether rows are renamed before or after it |
| UsagePolls.PollsKeepRowsIff | src/normalize.rs:378-392 | polls leave every list of one run over all records, usage rows included, if and only if they attribute rows alike and no usage row repeats, under its final session, one of an earlier poll |
| PollDivergences.RepeatAcrossTheReplacement | src/store.rs:2168-2206 | a count reported under the state session and again after the session that replaces it is kept twice by polls, although they attribute all rows as one run does |
| PollDivergences.LaterMetadataMergesElsewhere | src/normalize.rs:1558-1590 | after metadata of two sessions, metadata with a rollout id that comes in the next poll is merged into the second, in one run into the first |
| PollDivergences.StoreRenamesToAnother | src/monitor.rs:569-584 | when the poll that replaces the state session names two sessions, the store renames to the one with the least id, the run to the first named |
| PollDivergences.EmptyFirstPollLosesFallback | src/monitor.rs:264-290 | a first poll that takes in no record carries no session, and the state session of the log is not looked for again |
| Correlation.MatchingCallIs | src/normalize.rs:2027-2054 | the lookup returns the first exact context match, otherwise the only compatible call, otherwise none |
| Correlation.IsMatchUnique | src/normalize.rs:2027-2054 | that description determines the result |
| Correlation.BuildIndex | src/analysis.rs:132-145 | the loop groups the calls by id, keeping their order, and leaves none out |
| Correlation.MatchingCallIndexed | src/analysis.rs:201-219 | the single pass over the indexed calls returns what the list-filtering lookup returns, for every call list and result |
| Correlation.CandidatesWithId | src/analysis.rs:201-219 | filtering by id first and by context afterwards finds the same candidates |
| Correlation.FirstExactStays | src/analysis.rs:205-215 | stopping at the first exact match is right: later candidates do not change it |
| CallFailures.CallFailsWhenTold | src/normalize.rs:2069-2146 | a call counts as failed exactly when a result that counts for it says so, by its exit code or without one by its outcome or status, or when none of them has an exit code or a status and the call's own status says so; those of its own session and turn count, else the only one that contradicts neither, and for a call without an id only if it is the only one of its session and turn |
| CallFailures.MatchedAre | src/normalize.rs:2069-2119 | the results matched with a call are exactly those |
| CallFailures.PassedOverWhen | src/normalize.rs:510-522 | a result adds nothing exactly when it is a duplicate, says that it failed, or is matched with a call that failed itself: by the exit codes of its results, else by what a result with them says if any has a status, else by its own status |
| PendingCalls.PendingAre | src/normalize.rs:395-423 | of the calls that no result of their id answers without contradicting their session or turn, the newest 1024 wait on, in order |
| PendingCalls.RecentAre | src/normalize.rs:425-432 | the newest 1024 results are carried along, in order |
| DuplicatePairs.PairIsReduced | src/normalize.rs:2148-2283 | of two results of one call in one session and turn, the better one stays, the first of equally good ones, and the other is marked with its key and place, if they are equal reports of unknown outcome or do not contradict each other, or do so only because one has no exit code or was guessed from output; otherwise both stay |
| DuplicatePairs.EquivalentIs | src/normalize.rs:2209-2243 | whether two results repeat each other, for any two |
| DuplicatePairs.BetterIs | src/normalize.rs:2197-2207 | an exit code beats a status, a status beats output, and output beats nothing |
| DuplicatePairs.KeyIs | src/normalize.rs:2245-2283 | the key is made of session, turn, call id, exit code, status and both outputs, on lines of their own where both are there |
| DuplicatePairs.EarlierPollStands | src/normalize.rs:2152-2163 | a result that repeats one of an earlier poll is marked with that one's place and key, whatever else it says |
| Duplicates.EquivalenceIsNotTransitive | src/normalize.rs:2209-2243 | a result of unknown outcome can be equivalent to two results that contradict each other, so one representative per class cannot be expected |
| Duplicates.FindEquivalent | src/normalize.rs:2152-2155 | the search finds the first equivalent earlier result |
| Duplicates.FindRepresentative | src/normalize.rs:2164-2168 | the search through positions finds the first equivalent representative |
| Duplicates.MarkDuplicateToolResults | src/normalize.rs:2148-2195 | marking in place, with representatives replaced when a better result comes, leaves the results of the marking function |
| Duplicates.LinkedExplains | src/normalize.rs:2151-2194 | each step links a result to a prior one, to a strictly better later one, or to an earlier one of at least its quality, and never marks one that stays a representative |
| Duplicates.DuplicatesReachKeptResults | src/normalize.rs:2148-2243 | the results not marked are exactly the representatives; every duplicate carries key and place of an equivalent result, and following them reaches a kept or prior result within four hops, never at lower quality if and only if the first equivalent prior result, when there is one, is no worse |
| Duplicates.NeverLowerIff | src/normalize.rs:2148-2207 | quality can fall at no other hop than the one to an earlier poll, and does exactly when the first equivalent prior result is worse |
| Duplicates.BetterResultMayRepeatAWorse | src/normalize.rs:2148-2207 | a result with an exit code is marked as repeating one of an earlier poll that has none |
| FileOperations.TakePriorCalls | src/normalize.rs:479-494 | the loop over pending calls claims the keys of those that did not fail and retracts all operations of those that did |
| FileOperations.TakeCurrentCalls | src/normalize.rs:495-509 | the loop over current calls emits the operations of those that did not fail whose key is new |
| FileOperations.TakeResults | src/normalize.rs:510-590 | the loop over results emits what they add, unless they repeat a call without an id |
| FileOperations.FindRepeated | src/normalize.rs:552-573 | the search finds the first announced operation that a later result without an id repeats |
| FileOperations.ExtractFileOperations | src/normalize.rs:470-609 | the three loops together compute the extraction that the results below are about |
| UnidentifiedOperations.UnidentifiedRowsGive | src/normalize.rs:470-590 | in one log a call without an id that did not fail leaves one operation for each path and kind it names, and a result without an id that stands leaves one for each path and kind it names more often than calls announced them before its line and earlier results have not used up; every operation is at the place of a row just read |
| UnidentifiedOperations.RepeatedIsFirst | src/normalize.rs:552-573 | a result's operation repeats the first open announcement of its session, path and kind exactly when that one comes before the result's line, and uses up that one and no other |
| RepeatedEdits.OperationsLeft | src/normalize.rs:470-590 | when calls and results without ids name one path and kind, each call leaves its operation, and a result its own exactly when the calls before it are already repeated, so that calls and results less the repetitions are left |
| RepeatedEdits.CallsThenResults | src/normalize.rs:552-573 | n calls followed by m results leave the greater of n and m operations, the first n results none |
| RepeatedEdits.ResultsThenCalls | src/normalize.rs:2063-2067 | results before their calls repeat nothing, so every row leaves its own operation |
| FileOperationSets.MatchIsFind | src/normalize.rs:2027-2054 | with unique ids and fitting contexts the lookup is the lookup by id |
| FileOperationSets.MatchingResultsAre | src/normalize.rs:2069-2119 | then a call's results are its one result, if there is one |
| FileOperationSets.CallFailsIs | src/normalize.rs:2121-2146 | then a call counts as failed exactly when its result failed, or nothing says otherwise by exit code or status and its own status means failure |
| FileOperationSets.ExtractIs | src/normalize.rs:470-609 | then the emitted operations are those of the calls and results that did not fail, one per call, path and kind, and the retracted ones those of failed pending calls |
| FileOperationSets.EmittedStemFromRows | src/normalize.rs:470-659 | with or without ids, every emitted operation has the session and the place of a call or result just read |
| SessionOperations.OperationSessionsAreKnown | src/normalize.rs:120-659 | every file operation a run emits, whatever calls were pending before, names a session of the run's final map under its own id |
| SessionOperations.RenamesOnce | src/monitor.rs:569-584 | over any polls the store renames the rows of a log at most once |
| SessionOperations.FinalIsOneRuns | src/monitor.rs:258-345 | when polls attribute a log as one run does and the store renames at one poll, the calls and results of the polls, the earlier ones renamed, have the sessions of that one run, and all renamed ones were of the session replaced |
| FileOperationRuns.MarkedIsKept | src/normalize.rs:2148-2195 | results of different calls are never marked as duplicates |
| FileOperationRuns.UnansweredTwice | src/normalize.rs:395-423 | carrying over the unanswered calls poll by poll keeps the calls unanswered by all results so far |
| FileOperationRuns.PollExplains | src/normalize.rs:378-423 | one poll that retracts and then inserts keeps the store equal to what the calls and results read so far give, except for calls that recovered late |
| FileOperationRuns.RunIsExplained | src/normalize.rs:352-423 | the same after every sequence of polls |
| FileOperationRuns.AtOnceIs | src/normalize.rs:378-392 | reading everything at once stores exactly what the calls and results that did not fail give |
| FileOperationRuns.PollsEqualBatchIff | src/normalize.rs:378-609 | in logs with ids everywhere, at most one result per call, at most 1024 calls waiting and one attribution for polls and batch, the two leave the same operations, by session, turn, path, kind and place, if and only if no call that failed by its own status gets a result saying otherwise in a later poll |
| FileOperationRuns.LateRecoveryLosesOperations | src/normalize.rs:479-509 | whenever a call and its result do so, the polls lose what the call named |
| FileOperationRuns.LateRecoveryHappens | src/normalize.rs:479-509 | such a log exists: a failed edit whose exit code, read one poll later, is zero |
| FileOperationRepeats.ExtractOfOriginals | src/normalize.rs:470-609 | results marked as duplicates change nothing in what an extraction emits or retracts |
| FileOperationRepeats.KeptAreBest | src/normalize.rs:2148-2195 | when the reports of a call do not contradict each other, marking leaves exactly the first best report of each call not reported before, and changes nothing in it but its key |
| FileOperationRepeats.ChosenAtOnce | src/normalize.rs:2148-2195 | unless a later poll brings a better report, choosing the best reports poll by poll or from the whole log comes to the same |
| FileOperationRepeats.PollsReduce | src/normalize.rs:378-423 | poll by poll, a log with repeated reports and the log of the best reports of the poll that reports a call first leave the same pending calls and the same operations |
| FileOperationRepeats.AtOnceReduces | src/normalize.rs:378-392 | so they do when read at once, unless a later poll brings a better report |
| FileOperationRepeats.PollsEqualBatchWithRepeatsIff | src/normalize.rs:378-609 | a call may be reported any number of times, within a poll or across polls, without contradiction and no better later: polls and one batch leave the same operations if and only if, by the best reports, no call that failed by its own status recovers in a later poll |
| FileOperationRepeats.WellFormedNeedsNoReduction | src/normalize.rs:378-609 | logs with at most one result per call are a special case of these |
| FileOperationRepeats.BetterReportComesTooLate | src/normalize.rs:378-609 | when a first report leaves a call standing and a better one of a later poll fails it, polls and one batch differ |
| FileOperationRepeats.BetterReportLaterHappens | src/normalize.rs:378-609 | such reports exist, and no call in that log recovers late |
| FileOperationReports.BothReport | src/normalize.rs:2148-2195 | polls and one batch go by one report each of every call reported at all |
| FileOperationReports.StoredBy | src/normalize.rs:378-609 | polls store what the first reports give, late recoveries left out, and one batch what the best reports of all give, better ones in later polls included |
| FileOperationReports.ReportedPollsEqualBatchIff | src/normalize.rs:378-609 | with reports that do not contradict each other, better in a later poll or not, polls and one batch leave the same operations if and only if the same calls keep theirs by first and by best report, late recoveries left out, and where the two differ neither adds operations of its own |
| FileOperationRekeys.ExtractAlike | src/normalize.rs:470-609 | pending calls of a session that no new row names change nothing in what an extraction emits, and nothing in what it retracts outside that session |
| FileOperationRekeys.EarlyUnderNew | src/store.rs:775-785 | renaming the stored operations of the earlier polls gives what those polls would have stored under the new session |
| FileOperationRekeys.TwoRuns | src/normalize.rs:378-423 | after any number of polls past the replacement, the store is the renamed operations of the earlier ones with what the later ones store by themselves, and the earlier calls still wait |
| FileOperationReplacements.StoredIsBoth | src/normalize.rs:378-423 | so the store is that of two separate logs under the new session |
| FileOperationReplacements.RekeyedPollsEqualBatchIff | src/normalize.rs:378-609 | when the state session is replaced between polls, the renamed store equals what one run over the log stores if and only if no failed call recovers late before the replacement or after it, and no call waits across it whose result, matched with it, says otherwise about the call or adds other operations than alone |
| FileOperationReplacements.WaitingCallIsNeverRetracted | src/normalize.rs:479-494 | a call that its own status does not fail keeps its operations when its failing result comes after the replacement |
| FileOperationReplacements.WaitingCallHappens | src/normalize.rs:120-160 | such a log exists: an edit, then under the session that replaced the state session its exit code 1; no call in it recovers late |
| Civil.CivilOfDaysOfCivil | src/period.rs:139-162 | converting any valid date to days and back gives the date |
| Civil.DaysOfCivilOfDays | src/period.rs:139-162 | converting any number of days, negative ones included, gives a valid date and back the same number |
| Civil.CountsDays | src/period.rs:139-147 | the next calendar day, by month lengths and leap years, has the next number, counted from 1970-01-01 |
| Civil.YearRecovered | src/period.rs:149-162 | the year is recovered from the day of the era for every day of every year, leap days included |
| Civil.FloorByCorrection | src/period.rs:139-162 | subtracting the divisor less one before a truncating division of a negative number is flooring |
| Decimals.PadDigitsRoundTrip | src/period.rs:88-102 | a number printed with any width parses to itself |
| Timestamps.FractionRoundTrip | src/period.rs:56-102 | the trimmed fraction of a second parses back to the same nanoseconds |
| Timestamps.FormatRoundTripIff | src/period.rs:23-102 | an instant prints as text that parses to it if and only if its year is 0000 to 9999; otherwise the text is refused |
| Timestamps.ParsedInstantMayNotPrint | src/period.rs:23-102 | an accepted text whose offset leads to the year before 0000 prints as text that is refused |
| Timestamps.OrderAndWindowAreExact | src/period.rs:104-110 | instants are ordered by nanoseconds, and lying within a number of seconds is exact to the nanosecond |
| TimestampTexts.ParseIsExact | src/period.rs:23-86 | a text is an instant exactly when it is a valid date with a four-digit year, 'T' or 't', a clock time, at most nine digits of fraction and 'Z', 'z' or a signed offset of up to 23:59; it is the instant whose local time less the offset that is |
| TimestampTexts.AnyOffsetParsesAlike | src/period.rs:56-86 | one instant written under any two offsets parses to the same instant |
| TimestampTexts.FormatIsExact | src/period.rs:88-102 | an instant with a four-digit year prints as such a text that means it, with 'T', 'Z' and a fraction of three zeros for full seconds and otherwise without trailing zeros |
| Selection.AdjacentPeriodsPartition | src/period.rs:202-205 | two periods that share a bound contain each instant of their union exactly once |
| Selection.BoundsAreExact | src/period.rs:179-200 | a missing period, an unreadable lower bound, an unreadable upper bound and reversed bounds are each reported exactly when they are given, the lower bound first |
| Selection.AcceptedPeriod | src/period.rs:179-205 | the instants of an accepted period are those not before the lower and before the upper bound, as far as they are given |
| Selection.EmptyIffBoundsMeet | src/period.rs:202-220 | an accepted period is called empty exactly when it contains no instant |
| Selection.WiderKeeps | src/period.rs:202-220 | a wider period keeps every instant and every span that overlapped |
| Selection.TallyConserves | src/period.rs:474-497 | with a period, included, excluded and unknown records add up to all, and the included ones are those selected |
| Selection.SelectDirect | src/period.rs:473-534 | the loop collects the positions in the period, the sessions and turns they name, and the tally |
| Selection.GroupBy | src/period.rs:601-629 | the grouping loop maps each key to all its positions in order |
| ReportSelection.FindPreceding | src/period.rs:539-548 | the search loop finds the chosen preceding message |
| ReportSelection.PrecedingIsLatest | src/period.rs:1065-1086 | it precedes the user's message in the same session, and no other preceding one comes later |
| ReportSelection.AddContextMessages | src/period.rs:535-552 | the loop adds to the messages in the period exactly the chosen ones before the user's |
| ReportSelection.PullCalls | src/period.rs:601-653 | the loop over grouped keys adds exactly the calls correlated with a selected result |
| ReportSelection.PullResults | src/period.rs:601-679 | the loop over grouped keys adds exactly the results correlated with a selected call |
| ReportSelection.SelectTurns | src/period.rs:738-793 | the loop selects the turns named by selected rows or themselves in the period, with their sessions |
| ReportSelection.SelectSessions | src/period.rs:499-510 | the loop adds the sessions that themselves fall into the period |
| ReportOutput.SelectReportData | src/period.rs:463-848 | the report holds of each of the nine lists the selected rows and no others, in order: those in the period by their own time or that of their line, the calls and results paired with such ones, the last assistant message before a selected user message, turns and sessions named by rows in the period or overlapping it; a turn shows each of its ends and events exactly when it lies in the period |
| ReportSelection.WideningKeepsSelection | src/period.rs:463-848 | widening the period never drops a selected position, session or turn, including those pulled in by correlation and context |
| ReportSelection.WideningKeepsData | src/period.rs:463-848 | widening never drops a record, session, message, call, result, file operation, usage row or snapshot from the output, counted with repetitions |
| ReportOutput.PairsAreShownWhole | src/period.rs:561-693 | a call and the result paired with it are both in the report as soon as either lies in the period |
| ReportOutput.ReportIs | src/period.rs:463-848 | the report data of any data and period meet that description |
| ReportOutput.PairedIs | src/period.rs:561-659 | a call and a result are paired when they share an id and contradict each other neither in session nor in turn, or when both lack an id and are the only call and the only original result of exactly their session and turn |
| ReportOutput.ContextIs | src/period.rs:1065-1086 | the message shown with a user message is the last of the latest assistant messages of its session before it |
| ReportOutput.TouchingSharesAnInstant | src/period.rs:202-220 | a span of time that touches a period shares an instant with it |
| TextBlocks.AppendText | src/advisor/diff.rs:306-322 | editing the string in place appends the text once, after a newline, and closes the last line |
| TextBlocks.AppendedIsContained | src/advisor/diff.rs:306-338 | text that is not blank is found again after it was appended, whatever the content |
| TextBlocks.AppendIsIdempotent | src/advisor/diff.rs:306-338 | appending the same text a second time changes nothing, and the old content stays in front |
| TextBlocks.NeedleIsNonempty | src/advisor/diff.rs:324-338 | a text has lines to look for exactly when it is not blank |
| TextBlocks.NormalizedAppended | src/advisor/diff.rs:324-338 | after appending, the normalised lines end with those of the text |
| TextBlockMeaning.ContainsIs | src/advisor/diff.rs:324-338 | a text is found exactly when its lines up to the last that is not blank, of which there must be one, stand in a row somewhere in the content, but for white space at the end of lines |
| TextBlockMeaning.SplitIs | src/advisor/diff.rs:332-338 | the lines hold no newline, and joined by newlines they are the text |
| TextBlockMeaning.AppendedIs | src/advisor/diff.rs:306-322 | a text that is not found is written behind the content, after a blank line unless there is none to separate it from or one is there already, with a newline at the end |
| DiffBatch.CountPaths | src/advisor/diff.rs:200-225 | the counting loop counts how often each path is a target or a source |
| DiffBatch.RenderDiffs | src/advisor/diff.rs:200-264 | the loop over the sorted proposals puts each on the list its fate says |
| DiffBatch.EachProposalOnce | src/advisor/diff.rs:200-264 | rendered diffs stand next to their own proposals, and skipped entries have the target of theirs and the reason its fate gives |
| DiffBatch.RenderedOrSkipped | src/advisor/diff.rs:200-264 | the proposals rendered and those skipped are together those given, counted with repetitions, and none is both |
| DiffBatch.SkippedIff | src/advisor/diff.rs:200-264 | a proposal is skipped exactly when its fate among all of them is to be skipped |
| DiffBatch.RenderedIff | src/advisor/diff.rs:200-264 | a proposal is rendered exactly when its fate among all of them is to be rendered |
| DiffBatch.RenderedAreDisjoint | src/advisor/diff.rs:200-264 | no rendered proposal, the last and a lone one included, has one path as target and source, and no path is touched by two of them |
| DiffBatch.RenderingIgnoresInputOrder | src/advisor/diff.rs:200-264 | any reordering of the proposals renders the same diffs in the same order |
| DiffFates.BatchIs | src/advisor/diff.rs:200-264 | each proposal given is skipped for low confidence, else for sharing a path with another of high confidence or with itself, else for having no diff or an empty one, else it is rendered with its diff |
| DiffFates.RenderedInOrder | src/advisor/diff.rs:200-264 | the rendered diffs stand in the order of their targets |
| DiffFates.TiedIff | src/advisor/diff.rs:202-207 | proposals are ordered by target, then action, then problem |
| Order.SortIsStable | src/advisor/diff.rs:202-207 | sorting keeps elements that compare equal in their order |
| Order.LexIs | src/discovery.rs:182-187 | texts and paths compare where they first differ, and a proper prefix comes first |
| ApplyRun.AddProposal | src/advisor/apply.rs:129-182 | the loop accepts a proposal exactly when its hashes match and no path is taken, and then adds its changes and keys |
| ApplyRun.PrepareApply | src/advisor/apply.rs:117-191 | a plan is made exactly when every proposal is accepted, no path occurs twice and something changes; it holds all changes, sorted, next to the sorted keys of the same paths |
| ApplyRun.SortedPlanAligns | src/advisor/apply.rs:153-190 | changes sorted by path and the sorted keys of the same paths line up position by position |
| ApplyPlans.AcceptableIff | src/advisor/apply.rs:117-191 | a batch can be planned exactly when it is not empty, every proposal is accepted, changes just the paths it may write and read the texts whose hashes it expects, no two changes are for one canonical path, and one of them changes something |
| ApplyPlans.PlanIs | src/advisor/apply.rs:129-190 | the plan holds one change for each change of the batch, for its canonical path, with its old and new text and the expected hash, and no other |
| ApplyRun.Verify | src/advisor/apply.rs:583-601 | re-reading before writing passes exactly when every target still holds what the plan saw |
| ApplyRun.CreateBackupDir | src/advisor/apply.rs:660-690 | the loop tries up to 100 names and takes the first that can be made |
| ApplyRun.CreateBackups | src/advisor/apply.rs:692-705 | the copying loop stops at the first failure, leaving the copies made |
| ApplyRun.WriteOne | src/advisor/apply.rs:716-740 | one change is written to a new temporary file and renamed, which is removed on failure |
| ApplyRun.RestoreBackups | src/advisor/apply.rs:763-779 | the restoring loop copies each backup back in order and stops at the first failure |
| ApplyRun.FailApply | src/advisor/apply.rs:742-761 | a failure restores the files written so far and reports whether that succeeded |
| ApplyRun.RunPlan | src/advisor/apply.rs:579-647 | the whole transaction leaves the files and the outcome of its step function |
| ApplyRun.OptimizeApply | src/advisor/apply.rs:76-191 | nothing is touched without confirmation or for a rejected batch; otherwise the plan lines up and the run is safe |
| ApplySafety.BackupDirIsNew | src/advisor/apply.rs:660-690 | the backup directory is new, so no existing file lies in it |
| ApplySafety.BackUpKeepsFiles | src/advisor/apply.rs:692-714 | backing up changes nothing outside the backup directory and, when it succeeds, holds every target's content under its own number |
| ApplySafety.WriteChangeIs | src/advisor/apply.rs:716-740 | one write changes its target to the new content or changes nothing but its temporary file |
| ApplySafety.WriteFromIs | src/advisor/apply.rs:623-640 | writing changes a prefix of the targets up to the failing one and nothing else |
| ApplySafety.RestoreIs | src/advisor/apply.rs:763-779 | restoring gives each listed file its backed-up content, or leaves it as it was when that copy fails |
| ApplySafety.AllOrNothing | src/advisor/apply.rs:579-647 | for every pattern of failing steps: success leaves every target at its new content, every other outcome except failed recovery at its old one, failed recovery between the two with the backups intact, and no other file changes |
| ApplySafety.TakenTempIsLost | src/advisor/apply.rs:716-740 | when nothing else goes wrong, a file that already has the temporary name of a planned change is deleted |
| ApplySafety.TakenTempHappens | src/advisor/apply.rs:716-740 | such a file system and plan exist: one edit beside a file called like its temporary file |
| ApplySafety.SafeUnderEveryFailureIff | src/advisor/apply.rs:579-779 | that guarantee holds under every pattern of failures if and only if no reachable temporary name is taken, or writing is never reached |
| ApplyOutcomes.OutcomeIs | src/advisor/apply.rs:579-779 | whichever steps fail, the batch is refused exactly when a target cannot be read or is not as planned, backing up fails exactly when no free directory can be made, a copy fails or the manifest does, and otherwise writing stops at the first change whose steps or temporary name fail, named by its number; it is rolled back when each target begun can be checked and copied back, and otherwise reported as a failed recovery |
| ApplyOutcomes.RestoredUpTo | src/advisor/apply.rs:763-779 | backups are copied back in order up to the first that fails: the files before it hold what was backed up, and no other file changes |
| ApplyOutcomes.AttemptsApart | src/advisor/apply.rs:660-690 | each attempt at a backup directory has a name of its own |
| ApplyOutcomes.NamesAreSpelled | src/advisor/apply.rs:660-740 | backup directories, backups, manifest and temporary files are named as in these examples |
| Utf8.Utf8IffEncoded | src/instructions.rs:724-734 | the bytes taken for UTF-8 are exactly the encodings of sequences of code points, surrogates excluded |
| Utf8.ScanOfPrefix | src/instructions.rs:724-734 | a prefix of valid text is at worst cut short, and no longer prefix than the valid part is valid |
| Utf8.TruncateUtf8 | src/instructions.rs:724-734 | cutting keeps the longest valid prefix within the limit, and fails exactly when what is left is invalid before its end |
| Utf8.TextCanBeCut | src/instructions.rs:724-734 | valid text can be cut at any limit, losing at most three bytes more than asked and never more than needed |
| Utf8.NotInvalidIff | src/instructions.rs:724-734 | bytes are refused as invalid exactly when no continuation makes them text |
| Utf8.CutIs | src/instructions.rs:724-734 | a file can be cut exactly when what comes within the limit is the beginning of some text, and the cut is the longest text within the limit |
| Instructions.ReadCandidate | src/instructions.rs:481-569 | reading one byte beyond the limit classifies a candidate as missing, unreadable, empty, selected or truncated |
| Instructions.ReadFits | src/instructions.rs:481-569 | a usable file's text is valid, within the limit and the beginning of the file, and the whole file exactly when it is not cut |
| InstructionFiles.ReadIs | src/instructions.rs:481-569 | absent files are missing; files that fit and hold nothing or white space are empty; other text that fits is selected whole; a longer file is truncated to the longest text within the limit; all others are unreadable |
| InstructionFiles.CandidatesAre | src/instructions.rs:391-423 | the candidates of a directory are AGENTS.override.md, then AGENTS.md, then the configured names other than those two in their order, and their scope says whether it is the root |
| InstructionFiles.FirstUsableIs | src/instructions.rs:391-479 | an override that can be used hides the standard file, and that hides the fallbacks, of which the first that can be used counts |
| InstructionFiles.DirectoriesAre | src/instructions.rs:695-708 | the directories looked at are those from the root down to the working directory, or the root alone when that is not under it |
| InstructionFiles.GlobalFileIs | src/instructions.rs:365-389 | the home directory adds its override or else its standard file, whole and outside the budget, and every file looked at is listed |
| Instructions.SelectCandidates | src/instructions.rs:434-479 | the loop takes the first usable candidate, as long as budget is left, with or without a budget to count |
| Instructions.ProjectDirectories | src/instructions.rs:695-708 | walking upwards and reversing gives every directory from the root to the working directory |
| Instructions.Resolve | src/instructions.rs:82-157 | the chain is the global file followed by the walk over the directories until the budget is used |
| InstructionChain.SelectProjectIs | src/instructions.rs:434-479 | one directory adds its first usable candidate and its bytes, or none of its candidates is usable |
| InstructionChain.GreedyStaysInBudget | src/instructions.rs:442-466 | the text selected never exceeds the budget, and a file cut short uses it up |
| InstructionChain.ChainIsGreedy | src/instructions.rs:82-157 | for every file tree and budget: positions count from zero, project files come from directories in order from root to working directory, at most one each and each the first usable one, a directory is passed over only without usable candidate or budget, the text is valid and within the budget, and only the last file can be cut short |
| Discovery.Walker.Walk | src/discovery.rs:277-359 | the recursive walk ends on every finite directory graph, links and cycles included; what it newly visits is reached under the root and has all its children visited, and it adds exactly the rollout files there |
| Discovery.Walker.AddInput | src/discovery.rs:391-421 | a file is added exactly when it lies under the root |
| Discovery.WalkRolloutTree | src/discovery.rs:258-276 | from a fresh start the inputs are, by identity, exactly the rollout files listed in the directories reachable under the root, each under a path that leads to it name by name, and none when there is no directory to start from |
| Discovery.ReachedIsIn | src/discovery.rs:277-359 | a set that holds a directory and the children of its members holds everything reachable from it |
| Discovery.Retain | src/discovery.rs:188-191 | the retaining loop keeps the first input of each identity |
| Discovery.Finish | src/discovery.rs:182-191 | the final list ascends by path, holds each collected identity once and no other, each under its least path and, of that, the least kind |
| Commands.CommandTokens | src/analysis.rs:925-959 | the character loop computes the tokens that the results below are about |
| Commands.TokensTakeNoRoom | src/analysis.rs:925-959 | tokens with one separator each never exceed the command by more than one character, and none is empty |
| Commands.SplitLineGivesTokens | src/analysis.rs:925-959 | a line of escaped tokens splits into those tokens, whatever characters they hold |
| CommandLines.WordsAreSplit | src/analysis.rs:925-959 | however words are spelled, bare, with backslashes, in single or double quotes or in any mixture, and whatever white space separates them, splitting the line gives their texts without the empty ones |
| CommandLines.UnfinishedLines | src/analysis.rs:925-959 | a quote that is never closed ends with the line, and a backslash at the end stands for itself |
| Commands.StripWrapperArguments | src/analysis.rs:994-1015 | the loop removes options, their values and assignments and leaves a tail of the tokens |
| Commands.ArgumentsAreGone | src/analysis.rs:994-1015 | what is left starts with neither an option nor an assignment, unless a double dash ended the arguments there |
| CommandLines.ArgumentsComeOff | src/analysis.rs:994-1015 | what comes off in front of a command is exactly its options, with the values of those that take one, and its assignments; after a double dash everything stays |
| Commands.UnwrappedIsLighter | src/analysis.rs:961-992 | every wrapper removed, a shell script joined and split again included, makes the tokens strictly lighter |
| Commands.StripCommandWrappers | src/analysis.rs:961-992 | removing wrappers ends for every token list and leaves none in front |
| Commands.ShellsAreTransparent | src/analysis.rs:977-990 | handing a command to a shell does not change the command that is found |
| CommandLines.WrappersAreTransparent | src/analysis.rs:961-976 | env and sudo with their own options, and command, change nothing about the command found |
| CommandLines.ShellRunsItsScript | src/analysis.rs:977-990 | a shell, whatever options come first, stands for the words of what follows its first -c or -lc, joined by single spaces, and for itself without one |
| CommandLines.CommandsStay | src/analysis.rs:961-992 | nothing is taken from a command that starts with no wrapper |

## Left out

- FileOperationRuns.PollsEqualBatchIff: assumes that every call and result has an id and a line of its own, ids are not reused for another call, a call has at most one result, whose session and turn fit it and which does not come before it, at most 1024 calls wait at a time, and polls and batch attribute each row to the same session and turn; a state session replaced between polls is covered by `FileOperationReplacements.RekeyedPollsEqualBatchIff`, and calls without ids (`UnidentifiedOperations.UnidentifiedRowsGive`) are not compared between polls and batch.
- FileOperationRepeats.PollsEqualBatchWithRepeatsIff: under the other assumptions of the line above, drops that of one result per call for reports that agree, none better in a later poll, and repeated while an earlier one is still among the 1024 carried along; better reports in a later poll are covered by `FileOperationReports.ReportedPollsEqualBatchIff`, and with contradicting reports equivalence is not transitive (`Duplicates.EquivalenceIsNotTransitive`), so no condition is given for them.
- FileOperationReports.ReportedPollsEqualBatchIff: makes the assumptions of the line above except that no later report is better.
- FileOperationReplacements.RekeyedPollsEqualBatchIff: assumes ids, one result per call, lines of their own and at most 1024 waiting calls as above, that later rows always name a session other than the one replaced, and that what a command touches does not depend on the session of its row.
- SessionPolls.PollsAttributeAlikeIff: compares all lists but the turns; restarts between polls, which rebuild the context from the store (`SessionReferences.StoredContextFitsIff`), are not part of it, and every poll is taken to read at least one line, since one that reads none normalises nothing.
- LogsOfOneSession.LogsOfOneSessionAgree: a condition on the records that is sufficient; the exact one, `SessionPolls.PollsAttributeAlikeIff`, is about the sessions of the runs.
- UsageRows.PollsKeepUsageIff: about lists of usage rows only; `UsagePolls.PollsKeepRowsIff` compares polls with one run.
- MonitorRuns.RetryStoresTheSameIff: is about a poll without a restart whose accepted identities have room in the window; that the failed poll has also moved the normalisation context on (`src/monitor.rs:290`) is not modelled.
- UnidentifiedOperations.UnidentifiedRowsGive: is about one log, whose rows have lines of their own, whose calls without ids come in the order of their lines, and whose calls and results without ids do not contradict each other in their turns where they name one session.
- RepeatedEdits.OperationsLeft: is about one poll in which no row has an id and all name one path and kind once; `UnidentifiedOperations.UnidentifiedRowsGive` has none of these limits.
- TurnHistories.TurnsTellTheirHistory: is about metadata read from rollout logs, and a carried turn that, where the run starts in a state session, belongs to that session or to none; hand-overs are like that (`TurnHistories.HandOverCarries`).
- ApplyOutcomes.OutcomeIs: assumes that no target is called like a temporary file of the same transaction.
- FileOperationSets.ExtractIs: assumes ids everywhere and at most one result per call, because otherwise the matching is by position in one poll; `FileOperationRepeats.ExtractOfOriginals` removes the results marked as duplicates first.
- Monitor.LocalMonitor.PollRollout: the normalisation of the accepted records, and the context it carries, are modelled in `Sessions.dfy` and `FileOperations.dfy`, not inside the poll; messages of diagnostics are not modelled.
- Monitor.Store.AppendCanonical: the retraction of file operations and the renaming of a replaced session are modelled where polls are folded (`FileOperationRuns.PollExplains`, `FileOperationRekeys.TwoRuns`, `SessionPolls.RecordsAgreeIff`), not as arguments of this call.
- SessionRun.NormalizeRecords: marking of results, extraction of file operations and the calls and results handed to the next poll are modelled in `Duplicates.dfy`, `FileOperations.dfy` and `FileOperationRuns.dfy`, not inside this loop.
- MonitorRuns.EveryRunStaysSynced: assumes that the digests of the prefixes compared differ when the prefixes do; collision freedom of the hash is not claimed.
- SessionReferences.EveryNamedSessionIsKnown: requires that a carried turn belongs to the session the run starts in or to none, since it is false otherwise (`SessionReferences.KnownFromContextIff`); diagnostics, which may name a candidate that was merged away, are not covered.
- ApplySafety.AllOrNothing: requires that no reachable temporary name is taken, since the statement is false otherwise; copies and renames are atomic and may fail, partial copies are not modelled.
- Discovery.WalkRolloutTree: which of several paths to a file is collected is not stated; each one collected leads to it, and the final list keeps the least of them.
- Instructions.Resolve: where the walk starts is a parameter; validation and discovery of the project root, diagnostics and the truncation flag of the whole result are not modelled. A fallback name is taken as one path component.
- ReportOutput.SelectReportData: observed times, unknown-event counters, coverage state and instruction joins are not modelled.
- ApplyRun.PrepareApply: whether scope, proposal and patch are acceptable is one given answer per proposal; the policy behind it and the text of the manifest are not modelled.
- Sorting and deduplication of emitted file operations: the store holds them as a set, which sorting and removing equal neighbours do not change.
- Descriptive session metadata and its conflict diagnostics: merged field by field like the identifying fields, which are modelled.
- The flag that a result belongs to a known call (`matched_call`): it is stored, and otherwise read only to set it for later results.
- Text of deduplication keys, meaning of status texts, observation of paths in commands, white-space test of instruction files, canonical paths: parameters of the model.
- Diagnostics of discovery, polling of state databases, I/O errors other than a failed write, races within one poll, sleeping between polls, bounded machine integers in offsets and counters.
- JSON decoding, zstd, SQLite, redaction, the remaining lenses, configuration inventory, command-line parsing and rendering.
- Sorting of findings by position: the comparison is not transitive when timestamps are missing, so no order theorem is claimed.
