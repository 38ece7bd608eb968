# Verified models of the agent runtime

This Dafny project models the parts of the runtime whose guarantees span many functions and many steps:
codecs that read their input piece by piece, schedulers and limiters cut into atomic steps at their
`await`s, transactions over files and tables with a failure possible at every step, and listings, logs
and caches over unbounded runs. To verify: `dafny verify dfyconfig.toml`.

| Modules | What they model |
|---|---|
| `ContentLength`, `CommandLine`, `WebSocketFrames`, `ZipDirectory` | codecs, against an independent decoder or the condition for being accepted |
| `HookScheduler`, `MediaLimiter`, `ImageSemaphore`, `JobBoard`, `WriteQueues`, `WriteChains` | concurrency: every interleaving of the steps between two awaits |
| `ContextTypes`, `ContextSummary`, `ContextQuotes`, `ContextLedger`, `ContextReads`, `LedgerRuns` | context compression: keys, tables, summaries of summaries, what is read again, coverage over all runs |
| `PluginTypes`, `PluginVersions`, `PluginManager`, `PluginLaws`, `PluginOutcomes` | plugin update and rollback: a failure at any step, and what success stores |
| `Documentation`, `DocumentationRuns`, `SourceCache` | documentation generations with a crash at any step, and the source cache |
| `LogRotation`, `LogRuns`, `Listing` | log files and paginated listings over unbounded runs |
| `Results`, `Text`, `Bytes`, `Waiters`, `Lists` | shared vocabulary |

Code that changes state is a class or a method here; its contract equates the new state with a function of
the old one, and the lemmas are about that function and about runs of it. Expressions are functions.
Asynchronous code is an event for each stretch between two awaits, and theorems about it quantify over all
sequences of events.

Where a promise does not hold of the code, the model keeps the code and proves exactly when it does hold:

- A listing read page by page is the sorted listing if and only if each source meets the item in place `r`
  below its cap and among the first `limit * (r / limit + 1) + 1` items of its walk. The file walk stops at its
  limit before it sorts, and a search stops at 500 matches (`Listing.PaginationIsExact`,
  `Listing.ExactlyWhenSourcesMeetInTime`, `Listing.DescendingWalkIsListedWrong`). A search also reads 4000 files
  at most, and lists all matches only if none lies behind them (`Listing.SearchIsListedExactly`).
- The image semaphore loses a wake-up if and only if the last promised slot belongs to a waiter that was woken and is
  aborted before it resumes (`ImageSemaphore.StepKeepsWakeUps`, `ImageSemaphore.WakeUpsCanBeLost`).
- A plugin update that fails restores everything if and only if the version to be archived has no snapshot and
  no foreign files in the archive yet and the clock makes it the newest (`PluginLaws.UpdateIsAllOrNothing`). The
  first attempt usually satisfies this. Once it has failed past archiving and has been recovered, the archive keeps
  a snapshot of the version, so the retry does not (`PluginLaws.RetryIsNotRecoverable`).
- A rollback that fails is not recovered. For each failure the plugin is as it was before if and only if what the
  failed step left behind happens to equal it: nothing was touched before the package is deleted, file failures
  must have left the same stripped files, and later ones need two versions with the same files and documents
  (`PluginLaws.FailedRollbackIsHarmlessExactly`). After any failure behind the archiving no later rollback succeeds if
  and only if the left-over package does not analyse or the outgoing version is not trusted
  (`PluginLaws.FailedRollbackIsStuckExactly`). A failing update then repairs the plugin as long as its record has not been
  replaced, and recovers nothing afterwards (`PluginLaws.FailedUpdateHealsAFailedRollback`,
  `PluginLaws.FailedUpdateAfterLateFailure`). A rollback that does succeed lays the left-over files over the archived
  outgoing version (`PluginLaws.RetryMixesTheArchive`).
- Cleaning up documentation chooses by the fast check; a rollback is possible afterwards if and only if the
  chosen generation passes the deep check, even when an older intact one is deleted
  (`Documentation.RollbackAfterCleanup`, `Documentation.CleanupCanTakeTheIntactOne`).
- The log files hold a suffix of everything written, throughout a run, if and only if no prune deletes a file after
  it had to skip an older one (`LogRuns.LogsHoldASuffixExactly`, `LogRuns.FailedDeletesCanLeaveAHole`).
- The source cache stays within 2 GiB, throughout a run, if and only if no activation in it finds room by counting
  as deleted what could not be deleted (`SourceCache.RunsStayWithinLimitExactly`, `SourceCache.StuckSourcesOverflow`).
- A context compression keeps every compressed block covered if and only if each block entrusted to what it retires
  is handed over or held elsewhere, which outdated copies of summaries violate (`LedgerRuns.CommitKeepsCoverageExactly`,
  `LedgerRuns.OutdatedCopiesLoseCoverage`). In every reachable state it is kept.

## Model

| member | source | states |
|---|---|---|
| ContentLength.ParseContentLength | src/mcp/content-length-protocol.ts:46-68 | the loop over the header lines finds the first Content-Length field and its number, or the error |
| ContentLength.Parser.constructor | src/mcp/content-length-protocol.ts:12-13 | a new parser has an empty buffer |
| ContentLength.Parser.Push | src/mcp/content-length-protocol.ts:15-43 | a push returns the messages of all complete frames and keeps the rest, or throws and keeps the bad frame |
| ContentLength.Parser.ReadFrame | src/mcp/content-length-protocol.ts:19-40 | one pass of the loop reads the frame at the front of the buffer |
| ContentLength.DrainAppend | src/mcp/content-length-protocol.ts:15-43 | reading a and b at once is reading a, then b behind what a left, errors included |
| ContentLength.ChunkingIsIrrelevant | src/mcp/content-length-protocol.ts:15-43 | however bytes are cut into chunks, pushes that do not throw give the messages and the buffer of one push |
| ContentLength.BadFrameIsPermanent | src/mcp/content-length-protocol.ts:27-38 | after a push has thrown every later one throws the same error |
| ContentLength.EncodedFront | src/mcp/content-length-protocol.ts:5-10 | an encoded message in front of any bytes is read as that message, and nothing else is consumed |
| ContentLength.EncodedBytes | src/mcp/content-length-protocol.ts:5-10 | the bytes of an encoded message: the field with the number of bytes, an empty line, the body |
| ContentLength.FirstFieldDecides | src/mcp/content-length-protocol.ts:48-68 | among any lines the first Content-Length field decides; without one the header is refused |
| ContentLength.HeaderIsReadByLines | src/mcp/content-length-protocol.ts:46-68 | the lines of any header joined by line breaks give the header, none holds a line break |
| ContentLength.StreamRoundTrip | src/mcp/content-length-protocol.ts:5-43 | any list of encoded messages, cut into any chunks, is read back and the buffer ends empty |
| CommandLine.QuoteArg | native/windows-sandbox-helper/main.cpp:112-142 | the loop with its counter of backslashes writes the quoted form |
| CommandLine.BuildCommandLine | native/windows-sandbox-helper/main.cpp:443-444 | what follows the program splits into exactly the arguments under every variant of Microsoft's rules |
| CommandLine.EscapedReadsBack | native/windows-sandbox-helper/main.cpp:123-140 | inside quotes the escaped text is read back, whatever backslashes and quotes it holds |
| CommandLine.QuotingRoundTrip | native/windows-sandbox-helper/main.cpp:112-142 | splitting the joined quoted arguments gives the argument list back, for all lists |
| CommandLine.QuotingIsInjective | native/windows-sandbox-helper/main.cpp:112-142 | different argument lists are never written the same |
| WebSocketFrames.CreateClientTextFrame | src/manager/backend.ts:377-398 | the buffer written by the loops is header, mask and masked payload; from 65536 bytes on it throws |
| WebSocketFrames.WriteMasked | src/manager/backend.ts:394-396 | the loop leaves the header alone and masks each byte with its mask byte |
| WebSocketFrames.MaskedTwice | src/manager/backend.ts:394-396 | masking twice gives the payload back |
| Bytes.XorIsExclusive | src/manager/backend.ts:394-396 | masking is the exclusive or, bit by bit |
| WebSocketFrames.ClientFrameDecodes | src/manager/backend.ts:377-398 | a decoder following sections 5.2 and 5.3 of RFC 6455 reads one final masked text frame with the payload, whatever follows |
| WebSocketFrames.TryReadServerTextFrame | src/manager/backend.ts:400-426 | the reader of server frames, branch by branch |
| WebSocketFrames.ReaderRefinesDecoder | src/manager/backend.ts:400-426 | on unmasked buffers the reader is the RFC decoder restricted to short text frames |
| WebSocketFrames.ReaderWaitsForTheWholeFrame | src/manager/backend.ts:416-418 | nothing on a proper prefix, the same answer whatever follows the frame |
| WebSocketFrames.ServerFrameReadsBack | src/manager/backend.ts:400-426 | every text frame under 65536 bytes is returned exactly when its last byte is there |
| WebSocketFrames.LongFramesAreNeverRead | src/manager/backend.ts:413-415 | frames of 65536 bytes or more are never returned |
| ZipDirectory.FindEndRecord | src/godot-documentation/manager.ts:624-644 | the backward search through the tail finds the last end record of the whole file |
| ZipDirectory.CheckDirectoryBounds | src/godot-documentation/manager.ts:645-658 | the tests on the end record hold exactly when the directory lies inside the file |
| ZipDirectory.InspectRecord | src/godot-documentation/manager.ts:673-707 | the checks on the record at the cursor, no read outside the directory |
| ZipDirectory.InspectRecords | src/godot-documentation/manager.ts:670-716 | the loop accepts when all announced records are accepted and their total is bounded |
| ZipDirectory.InspectArchive | src/godot-documentation/manager.ts:617-720 | the inspection as a whole |
| ZipDirectory.ReadIsExact | src/godot-documentation/manager.ts:673-707 | a record is read exactly when it is acceptable and its bytes are there |
| ZipDirectory.SignaturesInBytes | src/godot-documentation/manager.ts:637-676 | the bytes with which the two kinds of records begin |
| ZipDirectory.SafeNamesStayInside | src/godot-documentation/manager.ts:697-703 | on the bytes: no control character, no leading slash of either kind, no drive, no two dots between slashes or ends |
| ZipDirectory.ChainIsExact | src/godot-documentation/manager.ts:672-713 | records read one after the other are exactly records printed end to end |
| ZipDirectory.InspectIsExact | src/godot-documentation/manager.ts:617-720 | accepted if and only if between 1 and 50000 safe, supported records lie end to end in bounds with a bounded total |
| ZipDirectory.PrintEntry | src/godot-documentation/manager.ts:673-707 | an entry printed from its fields is acceptable exactly when it is harmless: not encrypted, no link, a safe name, small enough |
| ZipDirectory.PrintedArchiveIsSoundExactly | src/godot-documentation/manager.ts:617-720 | the archive printed from a list of entries satisfies the condition for being accepted exactly when all entries are harmless and within the bounds |
| ZipDirectory.PrintedArchiveIsAcceptedExactly | src/godot-documentation/manager.ts:617-720 | an archive printed from any list of entries (sections 4.3.12 and 4.3.16 of the PKWARE APPNOTE) is accepted exactly when they are harmless and within the bounds, provided that no later position of the file passes for an end record |
| ZipDirectory.PrintedArchiveIsReadByItsLastEnd | src/godot-documentation/manager.ts:624-658 | with any comment, the last position that passes for an end record decides: if it is the printed one the entries do, otherwise only the directory it announces |
| HookScheduler.HookRuntime.ScheduleBackground | src/hooks/runtime.ts:393-401 | a task starts below the cap and waits otherwise; other sessions are untouched |
| HookScheduler.HookRuntime.DrainBackground | src/hooks/runtime.ts:404-412 | the oldest waiting task starts when there is room |
| HookScheduler.HookRuntime.FinishRun | src/hooks/runtime.ts:380-390 | a finishing task leaves its context, its controller and its slot, and the queue is drained |
| HookScheduler.HookRuntime.CancelBackground | src/hooks/runtime.ts:201-206 | all controllers are aborted, queue and context dropped |
| HookScheduler.HookRuntime.ConsumeAdditionalContext | src/hooks/runtime.ts:195-199 | the pending contexts are joined and cleared |
| HookScheduler.EveryRunKeepsInv | src/hooks/runtime.ts:362-412 | in every interleaving: exact count of at most 8, waiting only at 8, first in first out, each task in exactly one place |
| HookScheduler.EveryReachableStateIsSound | src/hooks/runtime.ts:362-412 | the same for every state reached from the empty runtime |
| HookScheduler.ClampIsIdle | src/hooks/runtime.ts:388 | the clamp at zero never takes effect |
| HookScheduler.ContextIsPending | src/hooks/runtime.ts:370-377 | in every state the context is what finished tasks have said since it was last taken or dropped, in order |
| HookScheduler.JoinOfParts | src/hooks/runtime.ts:195-199 | texts are joined with an empty line between them and nothing else |
| HookScheduler.CancelReachesEveryTask | src/hooks/runtime.ts:201-206 | after a cancel every running task has been aborted and nothing waits |
| HookScheduler.StartsAreAPrefix | src/hooks/runtime.ts:404-412 | without cancels the started tasks are a prefix of the scheduled ones |
| HookScheduler.NewTasksRunOrWait | src/hooks/runtime.ts:393-401 | in every reachable state a new task can be scheduled; it runs below eight and waits last otherwise |
| HookScheduler.FinishedTasksLeaveTheirContext | src/hooks/runtime.ts:370-387 | a run in which a task finishes with something to say |
| MediaLimiter.RequestLimiter.TryToEnter | src/providers/media-request-limiter.ts:6-14 | from the test of the loop to the next await: enter, park or throw |
| MediaLimiter.RequestLimiter.Leave | src/providers/media-request-limiter.ts:16 | both counters go down and every parked request is woken |
| MediaLimiter.RequestLimiter.Reject | src/providers/media-request-limiter.ts:10 | an aborted waiter is no longer parked |
| MediaLimiter.EveryReachableStateIsSound | src/providers/media-request-limiter.ts:1-17 | at most 4 in all and 2 per provider, the total is the sum over providers, whoever is parked is blocked by a cap |
| MediaLimiter.ParkedRequestsWillBeWoken | src/providers/media-request-limiter.ts:6-16 | for each parked request some running one will wake it |
| MediaLimiter.AbortedRequestsDoNotEnter | src/providers/media-request-limiter.ts:7-14 | a request aborted before it runs never enters |
| MediaLimiter.AbortIsFinal | src/providers/media-request-limiter.ts:7-14 | over any run, a request aborted before it runs never does |
| MediaLimiter.ThirdRequestWaitsItsTurn | src/providers/media-request-limiter.ts:6-16 | a run in which a third request for a provider waits and an exit lets it in |
| ImageSemaphore.WorkerSlots.TryToAcquire | src/media/image-processing.ts:26-35 | a pass of the loop: acquire, park or throw |
| ImageSemaphore.WorkerSlots.ReleaseSlot | src/media/image-processing.ts:36 | a release wakes the waiter parked longest |
| ImageSemaphore.EveryRunIsSafe | src/media/image-processing.ts:24-37 | in every interleaving, aborts included, at most 2 workers run |
| ImageSemaphore.StepKeepsWakeUps | src/media/image-processing.ts:24-37 | a step keeps every slot taken or promised while anyone is parked, if and only if it is not the abort of the last promised waiter |
| ImageSemaphore.ReachableRunsKeepWakeUpsExactly | src/media/image-processing.ts:24-37 | a run never loses a wake-up if and only if it has no such step |
| ImageSemaphore.NoLateAbortsSuffice | src/media/image-processing.ts:29-33 | runs that never abort a waiter between its wake-up and its resumption lose none |
| ImageSemaphore.WakeUpsCanBeLost | src/media/image-processing.ts:24-37 | a run after which a request waits although nothing runs |
| LogRotation.Logger.PruneLogs | src/logger.ts:172-189 | the oldest files but the active one go until the total fits; failed deletions are skipped |
| LogRotation.Logger.CreateLogStream | src/logger.ts:127-159 | the stream is kept, or moves to the last file with room or the next index |
| LogRotation.ListedOldestFirst | src/logger.ts:113-124 | the listing is sorted by modification time, has the same files, and ties stay in order |
| LogRotation.PruneTakesTheOldest | src/logger.ts:172-189 | in any directory, what a prune deletes is no newer than what it could have deleted and kept |
| LogRotation.Logger.DropStream | src/logger.ts:221-228 | a stream that failed is forgotten, the files are not touched |
| LogRotation.WritesLastOrNext | src/logger.ts:127-163 | the last file of the date if it has room and was not just left, otherwise the lowest index above all used ones |
| LogRotation.Logger.WriteRecord | src/logger.ts:302-321 | a record goes to the stream, which is pruned around once it is full |
| LogRuns.PruneIsSufficient | src/logger.ts:172-189 | after a prune the total is within the limit, or only the active file and files that cannot be deleted are left |
| LogRuns.PruneDropsOldest | src/logger.ts:172-189 | a prune whose deletions succeed drops a prefix of the files in order of date and index |
| LogRuns.PruneKeepsSuffixExactly | src/logger.ts:172-189 | a prune keeps a suffix of everything written if and only if it deletes no file after skipping an older one |
| LogRuns.EveryRunKeepsInv | src/logger.ts:191-234 | over any run of writes, restarts and failed deletions the files stay in order, each within its limit or with one oversized record, the stream is the last, and the contents are the records in order with some left out |
| LogRuns.LogsKeepOrder | src/logger.ts:302-321 | the same from the empty directory |
| LogRuns.LogsHoldASuffixExactly | src/logger.ts:172-234 | throughout a run from the empty directory the files hold a suffix of all records if and only if no prune in it leaves a hole |
| LogRuns.NoFailuresSuffice | src/logger.ts:182-187 | runs whose deletions succeed leave no hole |
| LogRuns.FailedDeletesCanLeaveAHole | src/logger.ts:182-187 | for any limits, three writes from the empty directory after which an old record stands in front of a gap |
| Listing.CallWorkspaceIndexedTool | src/mcp/mcp-host.ts:578-658 | one page: sources asked for limit and offset and one, answers merged, sorted and cut, token if there is more |
| Listing.AskSources | src/mcp/mcp-host.ts:589-644 | the merged and sorted answers of the sources |
| Listing.TokenRoundTrip | src/mcp/mcp-host.ts:584-587 | the offset in a token is read back |
| Listing.LimitIsNearest | src/mcp/mcp-host.ts:578-583 | the number from 1 to 500 nearest to the request, 200 or 50 without one |
| Listing.TokensAreReadLeniently | src/mcp/mcp-host.ts:584-587 | missing and foreign tokens begin at the front, of any other the leading digits count |
| Listing.TokenLeadsOn | src/mcp/mcp-host.ts:640 | there is a token exactly when there is more, and it leads to the next offset |
| Listing.FollowIsPaging | src/mcp/mcp-host.ts:631-640 | following the tokens concatenates the pages and ends |
| Listing.PaginationIsExact | src/mcp/mcp-host.ts:588-644 | all pages together are the sorted listing if and only if the items of each page are in the answers for that page |
| Listing.ExactlyWhenSourcesMeetInTime | src/workspace/files.ts:355-386 | the listing is exact if and only if each source meets the item in place r below its cap and among the first limit * (r / limit + 1) + 1 items of its walk |
| Listing.OrderedWalksAreListedExactly | src/mcp/mcp-host.ts:588-644 | sources that walk in order are listed exactly, each item once, whatever the limit |
| Listing.CappedSourcesAreCutShort | src/workspace/source-index.ts:86-120 | a source with more matches than its cap is never listed completely |
| Listing.SearchIsListedExactly | src/workspace/source-index.ts:79-123 | the pages of a search are the sorted list of all matches if and only if no match lies in a file behind the first 4000 and each source meets its matches in time |
| Listing.OverlookedExactly | src/workspace/source-index.ts:7-91 | a match is overlooked exactly when it lies behind the first 4000 files of an available source |
| Listing.SearchMeetsInTimeExactly | src/workspace/source-index.ts:85-123 | a search meets its matches in time exactly when each is among the first 500 and early enough for its page |
| Listing.ExactListingMeetsTheFirstPage | src/workspace/files.ts:355-386 | if the listing is exact, each source meets its items of the first page among its first limit + 1 |
| Listing.DescendingWalkIsListedWrong | src/workspace/files.ts:355-386 | three files met in descending order, one on a page, are listed wrongly |
| ContextSummary.FilterFileRefs | src/context/context-summary.ts:53-61 | the filter with its set of seen keys keeps first occurrences |
| ContextSummary.DistinctKeepsFirstOccurrences | src/context/context-summary.ts:53-61 | an element stays exactly when no earlier one has its key, in the old order |
| ContextSummary.DistinctIsFaithful | src/context/context-summary.ts:53-61 | no key is lost and none occurs twice |
| ContextSummary.FileRefKeyIsInjective | src/context/context-summary.ts:49-51 | references without NUL have the same key only when they are the same |
| ContextSummary.UniqueStringsIsFaithful | src/context/context-summary.ts:45-47 | the texts are trimmed, not blank, distinct, and none is lost |
| ContextReads.UniqueStringsTell | src/context/context-summary.ts:45-47 | each text that is not blank is there trimmed, once, and nothing else is |
| ContextReads.MergeTellsAll | src/context/context-summary.ts:63-89 | a merge has every text of every field, every file and every failure of each summary |
| ContextSummary.MergeSummaries | src/context/context-summary.ts:63-89 | the loop that pushes everything and then removes repetitions |
| ContextSummary.MergeInGroups | src/context/context-summary.ts:63-89 | merging in groups and then merging the results is merging everything at once |
| ContextSummary.CreateCapsule | src/context/context-summary.ts:91-111 | the capsule, loop and all |
| ContextSummary.CapsuleQuotesEveryRawBlock | src/context/context-summary.ts:95-102 | every raw block that is not blank is quoted in the list for its kind |
| ContextQuotes.QuotesTheWords | src/context/context-summary.ts:95-102 | a block is quoted exactly when it is raw and not blank: its label and its words, one blank apart, cut after 320 characters |
| ContextQuotes.CapsuleQuotesTheWords | src/context/context-summary.ts:91-111 | the capsule has that quotation, of user messages among the goals and of the others among the facts |
| ContextQuotes.MessagesAreQuoted | src/context/context-ledger.ts:98-125 | the block built for a message quotes what was said, under who said it |
| ContextQuotes.ToolResultsAreQuoted | src/context/context-ledger.ts:127-157 | the same for the result of a tool |
| ContextSummary.NoWarningsMeansCovered | src/context/context-summary.ts:134-152 | no warning means that each file reference and failure code of each block is in the summary |
| ContextSummary.NoWarningsMeansFailuresAreNamed | src/context/context-summary.ts:143-150 | and a failure with the code of each single one |
| ContextSummary.CapsulePasses | src/context/context-summary.ts:91-152 | the capsule of any block list passes the validator without warnings |
| ContextLedger.CreateMessageKeys | src/context/context-ledger.ts:75-88 | the map of occurrences numbers equal messages |
| ContextLedger.SameKeyExactly | src/context/context-ledger.ts:64-73 | two messages have one key exactly when occurrence, request, role and time agree, and the text where there is no request |
| ContextLedger.KeysAreDistinct | src/context/context-ledger.ts:64-88 | no two messages of a list share a key |
| ContextLedger.AppendKeepsKeys | src/context/context-ledger.ts:75-88 | appended messages leave earlier keys unchanged |
| ContextLedger.HistoryAndBlocksAgree | src/context/context-ledger.ts:98-125 | the key computed for a message is the one that the block built for it covers |
| ContextLedger.FilterDropsTheCoveredHistory | src/context/context-ledger.ts:90-96 | covering the keys of a history removes that history and nothing said since |
| ContextLedger.FilterKeepsTheSkippedHistory | src/context/context-ledger.ts:90-96 | when some messages of a history were passed over, exactly those and what was said since remain |
| ContextLedger.FilteringTwiceDropsMore | src/context/context-ledger.ts:90-96 | filtering a filtered list again can drop repeated messages that nothing covers |
| ContextLedger.Database.UpsertBlock | src/context/context-ledger.ts:159-196 | a conflict updates the row but keeps its session, request, kind, level and time of creation |
| ContextLedger.UnrepeatedIsFaithful | src/context/context-ledger.ts:272-275 | the lists of covered ids and keys lose nothing and repeat nothing |
| ContextLedger.UsedGenerationsAreRefused | src/context/context-ledger.ts:312-345 | a generation that a session has used is refused, so its generations stay unique |
| ContextLedger.Database.CommitCompression | src/context/context-ledger.ts:257-347 | the transaction retires the blocks, adds the summary and the record with its token counts, or changes nothing |
| ContextReads.CommittedRows | src/context/context-ledger.ts:276-345 | the new row and the new record field by field, and that all other rows are as they were or retired |
| ContextReads.CommittedSummaryIsRead | src/server/session-compression.ts:203-222 | after a commit the session reads every text of the committed summary and of the active ones that were not retired |
| ContextLedger.Database.LoadActive | src/context/context-ledger.ts:198-214 | the latest generation, exactly the active summaries by time of creation and id, and exactly the keys they cover |
| ContextLedger.Database.ClearSession | src/context/context-ledger.ts:356-367 | both tables lose exactly the rows of the session |
| LedgerRuns.BuildersBuild | src/context/context-ledger.ts:98-157 | the constructors build active raw blocks that cover their own message and nothing else |
| LedgerRuns.SelectsInOrder | src/context/context-ledger.ts:226-241 | each id in turn gives its row, if that is an active one of the session |
| LedgerRuns.BuildersTakeOver | src/context/context-ledger.ts:98-157 | a block takes over session, request, text, files, protection and time, and a token estimate that is not negative |
| LedgerRuns.CommitCoverage | src/context/context-ledger.ts:272-275 | what a session covers grows by exactly the ids and keys of the compressed blocks, and loses nothing |
| LedgerRuns.StepCoverage | src/context/context-ledger.ts:159-367 | for each step and each session exactly what is covered afterwards; files and failure codes are never lost |
| LedgerRuns.EveryReachableStateIsCovered | src/context/context-ledger.ts:159-367 | in every interleaving over any sessions each compressed raw block is in an active summary, and summaries list raw blocks only |
| LedgerRuns.FirstCompression | src/context/context-ledger.ts:257-347 | a run from empty tables in which a block is recorded, compressed and covered |
| LedgerRuns.CoverageNeverShrinks | src/context/context-ledger.ts:159-347 | until a session is cleared nothing that it covers is lost, over any run |
| LedgerRuns.CommitFailsOnlyOnARepeatedId | src/context/context-ledger.ts:271-345 | a commit fails if and only if this request has committed this generation before |
| LedgerRuns.FailedAttemptsLeaveNothing | src/context/context-ledger.ts:336-345 | an attempt that is given up or fails frees its session and touches no table |
| LedgerRuns.CompressionMovesTheHorizon | src/server/session-compression.ts:225-335 | after a compression that passes over any messages, such as blank ones, exactly those and later messages are read |
| LedgerRuns.CommitKeepsCoverageExactly | src/context/context-ledger.ts:272-316 | whatever list of blocks a commit is given, compressed blocks stay covered if and only if each one entrusted to what is retired is handed over or held by a summary that stays |
| LedgerRuns.OutdatedCopiesLoseCoverage | src/context/context-ledger.ts:312-316 | given an outdated copy of a summary a commit leaves a compressed block uncovered |
| WriteQueues.Queue.Enqueue | src/godot-documentation/store.ts:243 | a call joins the queue |
| WriteQueues.Queue.Begin | src/godot-documentation/store.ts:244-248 | the head mutates a copy of what its predecessor left, or throws |
| WriteQueues.Queue.EndWrite | src/godot-documentation/store.ts:249-252 | the atomic write succeeds, or the operation ends without effect |
| WriteQueues.Queue.Settle | src/godot-documentation/store.ts:250 | the draft becomes the snapshot |
| WriteQueues.EveryRunIsSerial | src/godot-documentation/store.ts:239-255 | in every run the snapshot is the fold of the successful updates in call order, and between operations the file agrees |
| WriteQueues.StoppingLeavesAPrefix | src/godot-documentation/store.ts:243-252 | whenever the process stops the file holds a prefix of the calls, each whole or not at all |
| WriteQueues.DrainedQueueHoldsTheFold | src/plugins/store.ts:107-135 | when everything is settled file and snapshot are the fold of all calls |
| WriteChains.OperationsExcludeEachOther | src/godot-documentation/store.ts:243-252 | with each call awaiting the promise it found, at most one operation runs; earlier calls are settled and later ones have not begun |
| WriteChains.ChainRefinesQueue | src/godot-documentation/store.ts:243-252 | every run of the promise chain is a run of the queue with the same calls, outcomes, file and snapshot |
| WriteChains.SettledChainHoldsTheFold | src/plugins/store.ts:107-135 | when every call is settled file and snapshot are the fold of the calls in order |
| WriteChains.SecondCallWaits | src/godot-documentation/store.ts:243-252 | a second call cannot start while the first is on its way and can once it has failed |
| WriteQueues.EnabledImpliesDocuments | src/godot-documentation/store.ts:246-248 | an enabled store has a document at every moment, in memory and on disk, whatever the mutators do |
| WriteQueues.GuardChangesOnlyEnabled | src/godot-documentation/store.ts:246-248 | the guard changes nothing but enabled, and that only without documents |
| WriteQueues.UpdateTouchesOneDocument | src/plugins/store.ts:107-135 | an update writes its own document from what is read of it and leaves the two others |
| WriteQueues.DocumentsAreIndependent | src/plugins/store.ts:107-135 | behind the shared queue trust and records each follow their own updates alone |
| PluginTypes.ReadableTwice | src/plugins/store.ts:97-101 | writing back the profiles as read does not change what is read |
| PluginOutcomes.DocumentsAreRead | src/plugins/store.ts:97-101 | a profile is read with exactly its plugins that are installed, in order |
| PluginOutcomes.StripCopies | src/plugins/manager.ts:30-33 | everything is copied but what lies under node_modules or .git |
| PluginVersions.PruneKeepsTheNewest | src/plugins/versions.ts:31-36 | pruning leaves exactly one version, the newest, and no unfinished directory is touched |
| PluginVersions.NewestIsTheFirst | src/plugins/versions.ts:31-33 | among versions of the same time the one listed first is kept |
| PluginVersions.LatestSurvives | src/plugins/versions.ts:31-36 | a version stored at a later time than all others survives |
| PluginVersions.ArchiveHoldsOneVersion | src/plugins/versions.ts:11-37 | after archiving on such a clock the archive holds one version, the one just archived with its record and stripped files |
| PluginManager.Manager.ArchiveVersion | src/plugins/versions.ts:11-37 | archiving step by step, with what is left when a step fails |
| PluginManager.Manager.DeleteOutdated | src/plugins/versions.ts:33-36 | the loop deletes all versions but the first after sorting |
| PluginManager.Manager.ExchangePackage | src/plugins/manager.ts:302-331 | archive, delete, copy, and the three documents, with a failure at any step |
| PluginManager.Manager.UpdateFromSource | src/plugins/manager.ts:286-350 | checks, exchange and the recovery path |
| PluginOutcomes.UpdateIsRefusedExactly | src/plugins/manager.ts:286-298 | which check refuses an update; nothing is changed then |
| PluginOutcomes.UpdateSucceedsExactly | src/plugins/manager.ts:286-334 | an update succeeds if and only if its checks pass, the package analyses and no step fails |
| PluginOutcomes.UpdateRequiresReview | src/plugins/manager.ts:308-333 | a successful update stores the scanned version, not enabled and to be reviewed, in record and trust; other records and entries stay; profiles lose the plugin and nothing else |
| PluginManager.Manager.RollbackVersion | src/plugins/manager.ts:356-380 | checks and exchange, without a recovery path |
| PluginOutcomes.RollbackIsRefusedExactly | src/plugins/manager.ts:356-360 | which check refuses a rollback; nothing is changed then |
| PluginOutcomes.RollbackSucceedsExactly | src/plugins/manager.ts:356-380 | a rollback succeeds if and only if its checks pass, the package analyses and no step fails |
| PluginOutcomes.RollbackRestoresTheVersion | src/plugins/manager.ts:369-376 | a successful rollback stores the archived record and its trust; active profiles list their former plugins, each once and in order, and then the plugin; the others are as they were read |
| PluginLaws.UpdateIsAllOrNothing | src/plugins/manager.ts:286-350 | over every failure records, trust, profiles as read and stripped files are as before, if and only if the archive and the clock are as stated |
| PluginLaws.UsualUpdatesAreRecoverable | src/plugins/versions.ts:11-37 | with the version not archived yet and the clock ahead of all others the condition holds |
| PluginLaws.RetryIsNotRecoverable | src/plugins/manager.ts:302-343 | after an update that failed past archiving and was recovered, a retry is not recoverable, unless the restored package does not analyse |
| PluginLaws.BrokenCopyIsRestored | src/plugins/manager.ts:335-339 | with a former snapshot a copy that breaks off makes the recovery restore a damaged version |
| PluginLaws.RollbackUndoesUpdate | src/plugins/manager.ts:286-380 | rolling back an update restores files and record up to times and error states, if and only if the old version was trusted, cleanly archived and kept |
| PluginLaws.RollbackUndoesRollback | src/plugins/manager.ts:356-380 | going to another version and back restores files and record, under the same kind of condition and only then |
| PluginLaws.RollbackLeavesOneVersion | src/plugins/versions.ts:30-63 | after a rollback the archive holds exactly the outgoing version |
| PluginLaws.FailedRollbackIsHarmlessExactly | src/plugins/manager.ts:356-380 | for every failure the plugin is as before if and only if what the failed step left equals it |
| PluginLaws.LateFailuresAreNeverHarmless | src/plugins/manager.ts:369-380 | once the clock has moved on since the record was written, a failure after switching the record never leaves the plugin as it was |
| PluginLaws.RetryAfterFailedRollback | src/plugins/manager.ts:356-380 | after any failure behind the archiving a rollback to the outgoing version succeeds if and only if it is trusted and the left-over package analyses; it restores files and record |
| PluginLaws.RetryMixesTheArchive | src/plugins/versions.ts:11-37 | such a retry lays the files it found over the archived outgoing version, which stays intact if and only if they change nothing |
| PluginLaws.FailedRollbackIsStuckExactly | src/plugins/manager.ts:356-380 | after any such failure every later rollback fails if and only if the left-over package does not analyse or the outgoing version is not trusted |
| PluginLaws.FailedUpdateHealsAFailedRollback | src/plugins/manager.ts:333-343 | with a broken package and the outgoing record in place an update fails and its recovery brings the outgoing version back |
| PluginLaws.FailedUpdateAfterLateFailure | src/plugins/manager.ts:333-343 | once the record is replaced such an update fails and recovers nothing |
| PluginLaws.RollbackNeverLosesTheOutgoingVersion | src/plugins/manager.ts:356-380 | wherever a rollback fails the outgoing files are in place or in the archive |
| JobBoard.Jobs.Start | src/godot-documentation/manager.ts:1247-1290 | one job at a time; a foreground job aborts and replaces a background job |
| JobBoard.Jobs.Finish | src/godot-documentation/manager.ts:105-125 | the job is remembered among the last 20 and frees the board if it is the active one |
| JobBoard.OneJobAtATime | src/godot-documentation/manager.ts:105-125 | at most one unfinished job has not been aborted, it is the active one, and only background jobs are preempted |
| JobBoard.PreemptedJobsFinishLate | src/godot-documentation/manager.ts:1247-1290 | a run in which a background job is preempted and finishes after its successor has begun, without releasing it |
| Documentation.CandidatesAreExact | src/godot-documentation/health.ts:196-212 | the candidates are exactly the other generations that pass the fast check, newest first |
| Documentation.CandidatesAreStable | src/godot-documentation/health.ts:211 | candidates of the same time stay in the order of the directories |
| Documentation.FastCheckSeesExactly | src/godot-documentation/health.ts:147-174 | the fast check sees every change of the index but one of its hash or soundness |
| Documentation.DeepCheckSeesExactly | src/godot-documentation/health.ts:147-174 | the deep check passes only the index that was built, and only for its branch |
| Documentation.BuiltForExactly | src/godot-documentation/health.ts:147-174 | a built generation serves exactly the records with its branch, commit, counts and bytes |
| Documentation.FirstCandidateIsNewest | src/godot-documentation/health.ts:196-212 | the first candidate is the newest valid generation other than the active one |
| Documentation.CleanupKeepsAtMostTwo | src/godot-documentation/manager.ts:1484-1526 | a cleanup whose deletions succeed leaves of each document the active and the newest valid other generation, untouched |
| Documentation.RollbackAfterCleanup | src/godot-documentation/manager.ts:1484-1526 | a rollback is possible after a cleanup if and only if the kept candidate passes the deep check |
| Documentation.NewerDamageHidesTheIntactOne | src/godot-documentation/manager.ts:1484-1526 | with a newest candidate that passes only the fast check a cleanup deletes the intact ones |
| Documentation.CleanupCanTakeTheIntactOne | src/godot-documentation/manager.ts:1484-1526 | three generations for which this happens |
| Documentation.RollbackFindsTheNewestIntact | src/godot-documentation/manager.ts:1173-1178 | a repair by rollback points to the newest intact other generation and describes it, and fails only if there is none |
| Documentation.Library.CleanUp | src/godot-documentation/manager.ts:1484-1526 | the loops delete every directory that nothing refers to |
| Documentation.Library.Activate | src/godot-documentation/manager.ts:934-959 | rename into place, pointer switch, cleanup |
| Documentation.Library.RollBack | src/godot-documentation/manager.ts:1124-1178 | candidates are tried from the newest on, the first intact one becomes active |
| Documentation.RolledBackPointsBack | src/godot-documentation/manager.ts:1140-1155 | the record points to the generation and describes it, branch and source stay |
| Documentation.Library.Remove | src/godot-documentation/manager.ts:1459-1482 | the record goes first, then exactly the generations of the document, unless moving them fails |
| DocumentationRuns.StepKeepsInv | src/godot-documentation/manager.ts:880-960 | each single step of each job keeps every pointer on a fully built generation |
| DocumentationRuns.EveryActiveGenerationIsBuilt | src/godot-documentation/manager.ts:880-1526 | in every run of jobs with crashes anywhere each record points to an existing, fully built generation unless it was damaged from outside |
| DocumentationRuns.CrashesKeepTheDisk | src/godot-documentation/manager.ts:880-960 | a crash can come at any time, keeps what is on disk, and no job goes on |
| DocumentationRuns.FirstActivation | src/godot-documentation/manager.ts:880-960 | a run from nothing in which a generation is built, becomes active and outlives the cleanup |
| DocumentationRuns.StepwiseCleanup | src/godot-documentation/manager.ts:1501-1525 | deleting file by file ends where the uninterrupted cleanup ends |
| DocumentationRuns.ActivateIsARun | src/godot-documentation/manager.ts:880-960 | activation as a whole, failed deletions included, is a run of the steps of a build |
| DocumentationRuns.RollBackIsARun | src/godot-documentation/manager.ts:1124-1178 | a repair by rollback as a whole is a run of its checks and the pointer switch |
| DocumentationRuns.RemoveIsARun | src/godot-documentation/manager.ts:1459-1482 | removal as a whole is a run of its two steps |
| DocumentationRuns.EveryCleanupKeepsAtMostTwo | src/godot-documentation/manager.ts:1484-1526 | after any run, whatever crashes left behind, a complete cleanup keeps at most the active and the newest valid other generation |
| SourceCache.Cache.Prune | src/godot-documentation/source-cache.ts:56-72 | the eviction loop and its error |
| SourceCache.Cache.Activate | src/godot-documentation/source-cache.ts:74-90 | an existing source is touched, a new one is put in place once there is room |
| SourceCache.TouchSetsTheTime | src/godot-documentation/source-cache.ts:76-80 | touching sets the time of the last access and nothing else |
| SourceCache.PruningMakesRoomExactly | src/godot-documentation/source-cache.ts:56-72 | pruning succeeds if and only if the installed sources and what is required fit into 2 GiB, and then everything does |
| SourceCache.SortIsStable | src/godot-documentation/source-cache.ts:62-64 | entries of the same time stay in the order of the directory |
| SourceCache.FullExactlyWhenReferencedAloneExceed | src/godot-documentation/source-cache.ts:69-71 | pruning throws if and only if the referenced bytes alone exceed the target |
| SourceCache.VictimsAreTheOldest | src/godot-documentation/source-cache.ts:62-68 | what goes is the shortest sufficient prefix of the unreferenced entries by last access, all of them if none suffices |
| SourceCache.ReferencedEntriesStay | src/godot-documentation/source-cache.ts:57-63 | no referenced source is ever evicted |
| SourceCache.FailedDeletesAreCountedAsDone | src/godot-documentation/source-cache.ts:66-90 | for every outcome of the rename the directory ends with what was counted, what was put in place and the bytes that could not be deleted |
| SourceCache.RunsStayWithinLimitExactly | src/godot-documentation/source-cache.ts:56-90 | whatever deletions fail, a run stays within 2 GiB throughout if and only if no activation in it overflows |
| SourceCache.EveryRunStaysWithinLimit | src/godot-documentation/source-cache.ts:74-90 | runs whose deletions succeed stay within 2 GiB throughout |
| SourceCache.StuckSourcesOverflow | src/godot-documentation/source-cache.ts:66-67 | from the empty directory, a source that fills it and cannot be deleted, and then any other one |

## Left out

- JSON, UTF-8, SHA-256, regular expressions and locale order: a hash or JSON text is the value it was made from, orders are total orders on numbers, and `trim` and `\s` use the white space of the language.
- Text longer than one code unit per character: a Dafny character stands for a UTF-16 code unit when an excerpt is cut.
- ContentLength.ParseContentLength: does not model lengths above 2^53, which `parseInt` rounds.
- CommandLine.BuildCommandLine: does not model the program name, which Windows splits by other rules, nor the shell and batch branches.
- CommandLine.QuoteArg: the backslash counter is unbounded here and 32 bits wide in the source.
- WebSocketFrames.TryReadServerTextFrame: like the source it ignores the final bit and assumes unmasked frames.
- ZipDirectory.InspectArchive: does not model short reads of the file; names are checked on their bytes, which is the same because all checks are for ASCII characters.
- Listing.PaginationIsExact: assumes that a source meets its items in the same order whenever it is asked; the concurrent search gives no such promise.
- HookScheduler.HookRuntime.FinishRun: does not model the running of the hook itself, its records and its messages.
- LogRuns.EveryRunKeepsInv: an error of the log stream counts as a restart; a second process writing the same directory is not modelled.
- Context rendering, search over blocks and the prompts of the model.
- WriteQueues.EveryRunIsSerial: forced re-initialisation, which resets the queue of the documentation store, is not modelled.
- PluginLaws.UpdateIsAllOrNothing: failures of the recovery steps themselves and concurrent changes of the documents are not modelled; the runtime that is stopped before the exchange is not part of this model.
- PluginManager.Manager.UpdateFromSource: directory names made from ids and fingerprints are taken to be distinct, and the fingerprint is a parameter, so nothing is said about recomputing it.
- Installing, removing and trusting plugins: sequences of the same steps and document updates with neither recovery nor undo; package scanning and downloads.
- DocumentationRuns.EveryActiveGenerationIsBuilt: one job at a time; the overlap of a preempted background job with its successor and of a removal with a new job is not modelled.
- Building the index, its text splitting, branch resolution and downloads of documentation.
- SourceCache.RunsStayWithinLimitExactly: directories that cannot be read are not counted, as in the source; one that appears during the rename is taken to be the same source, because its name is the hash of its bytes.
- Windows access control, pipes and the sandbox profile, network, processes, SQLite, image operations and settings schemas.
