# Witty service: verified models of its stateful algorithms

Dafny models of four groups of algorithms in the Witty agent service whose guarantees hold only over whole runs,
with proofs of those guarantees. Where the code does not keep a promise on all inputs, the model keeps the code as
it is, a lemma gives a concrete input, and another lemma says exactly when the promise is kept.

**Backport archive.** `LogMerge` is the reorder buffer that merges the logs of concurrent cvekit runs into one file
in sequence order. `LogMergeProofs` follows its manifest through every history of registrations, completions and
crashes between the log write and the manifest write; `LogMergeSources` says which logs end up in the file, given
that a run's logs come from its caller or from a directory scan; `LogMergeCrash` follows the file through the
crashes, `LogMergeIds` says of which histories its results speak, and `LogMergeLayout` what the file holds piece by
piece. `RunLifecycle` has the files of a task (manifest, run files, reports), the record held in memory, the workers
with their failure branches, and crashes between two writes; `RunEvents` tells what each step writes and what a run's
events look like. `CaseState` has the three stages of a case, the events that move it and the counters, and
`CaseTables` the table of what an event makes of a case.
`TaskLogLock` and `RepositoryLock` are the two re-entrant cross-process locks as threads, of processes that may be
killed, stepping over an exclusive `flock`. `ReportRows` merges report rows by identity.

**Turn events.** `RunTurn` is the transducer every runtime shares: duplicate tool starts, hooks, artifact events and
usage placement, over the event kinds of `TurnEvents` and the paths of `ArtifactPaths`; `ArtifactTrace` reads a turn's
artifact events off its tool calls. `Usage` normalises token counts from a JSON tree with a worklist, and `UsageOrder`
tells where each field comes from without it; `Messages` reads replies off a turn; `OpenClaw` and `Dsh` are the hooks
of two runtimes.

**Stream fan-out.** `StreamRegistry` broadcasts a session's events to queues, with generations and sentinels;
`ConsumeWs` is the socket consumer that numbers, batches, checkpoints and finishes a message.

**Commit lists.** `Csv` is the CSV dialect (section 2 of RFC 4180, read strictly with a field limit), and `CsvLayout`
the texts it accepts; `CommitImport` validates, serialises and parses commit lists, and `CommitImportRows` says what it
reports of every item and every row.

Code that updates variables or objects is modelled by classes and methods whose contracts tie the new state to a
function of the old one; the results are then proved about those functions, over all histories, schedules and inputs.

What the proofs say of the code's own traps:

- The merge's "already written" test looks for the run id anywhere in the log, so a run whose id an earlier log
  mentions is left out of the log for good (`LogMergeSources.GuardCanDropARun`); the log is complete exactly when no
  run is shadowed this way (`LogMergeSources.InOrderExactly`).
- A run closed with an empty list of logs although a directory scan finds some has its block in the log or not,
  depending on the order of completion (`EmptyDeliveryDependsOnOrder`); the order never matters exactly when every run
  but the first leaves the same log either way (`OrderIndependentExactly`).
- A completion that finds no logs and loses its manifest write, and is repeated with logs, puts its block behind a
  later run's (`LateLogsReverseBlocks`); blocks stay in sequence order exactly when no step delivers logs late
  (`LogMergeCrash.InOrderExactly`), and are never duplicated (`CrashesNeverDuplicate`). Two runs with logs show both
  (`BothOrdersHappen`).
- Starting a resolution again on a case that already has a handling result leaves the handling running under the old
  result (`ReopenedHandlingOutOfStep`); states and results stay in step exactly when no event does that
  (`HandlingInStepExactly`).
- A whole thinking block that arrives twice makes the pending tail be sent again (`RepeatedBlockDuplicatesText`),
  exactly when a tail was pending (`RepeatedBlockExactly`).
- A late chunk that disagrees with the block already shown cannot be reconciled (`BlockReconciledExactly`), and a
  stale tail can swallow the start of the next block (`NextBlockLosesItsStart`), exactly when the block's first chunk is
  mistaken for the tail's continuation (`NextBlockIntactExactly`).
- Steps that state totals which differ from their counts unbalance a turn's usage exactly when the differences do not
  cancel (`SumBalancedExactly`).
- A path whose white space hides behind a "." part is not normalised for good (`HiddenSpace`,
  `NormalizedAgainExactly`).
- `cleanup` forgets the generation counter, so a superseded consumer can write into a later stream
  (`CleanupBreaksIsolation`); it does so exactly when some consumer has finished since it began and as many have begun
  since as had then (`IsolationExactly`).
- A subscription to a session that is gone makes it look active (`OrphanSubscriptionBlocks`), and its reader waits for
  ever unless somebody ends or forcibly starts a stream while it is listed (`StuckExactly`), which is what happens to a
  client that replays its snapshot while the stream ends (`EndInGapLeavesReaderStuck`).
- A reconnecting client is certain of the whole stream and its end exactly when neither a push nor an end falls between
  its snapshot and its subscription (`ReconnectCompleteExactly`).
- A socket that ends silently, or a cancelled consumer, leaves the events still waiting unpersisted and the message
  unfinished (`SilenceLosesPendingEvents`): none wait exactly when nothing was stored or the last stored event filled
  the buffer or found its window passed (`SilenceLosesExactly`). Of the text it loses what came after the last due
  checkpoint (`SilenceLosesText`); deltas of up to three characters count no tokens, so that a long text in such
  pieces waits for the two-second checkpoint and can be lost whole (`ShortDeltasAreLost`).
- A crash between the run file and the manifest of a new run leaves that file marked running through every recovery
  (`CrashedCreationStaysRunning`, `RecoveryExactly`), until the next creation replaces it.
- A worker whose last step raises, say in writing the summary, goes on to its failure branch only once it gets the lock
  again, and marks whatever run is current then as failed: the completed one (`LateFailureRewritesFinished`) or a new
  one at work (`LateFailureHitsNextRun`). `TerminalSurvivesExactly` says when a terminal run's file survives,
  `PastForever` that past runs always do, and `EndsMatchExactly` when a run can end up paused and finished at once.
- The three-digit pattern freezes reports of terminal runs only up to run 999 (`FrozenExactly`).
- A client of the repository lock shared by two threads lets one of them in beside the other
  (`SharedClientBreaksExclusion`): exclusion holds in every schedule exactly when no two threads share a client
  (`ExclusionExactly`), provided targets are set between blocks (`RetargetingBreaksExclusion`).
- A killed holder of the repository lock leaves its record in the file (`KilledHolderLeavesRecord`); a record is true
  exactly when it was not left behind by a kill or a failing clear (`RecordTrueExactly`).
- An accepted commit list with a cell over 131072 characters is archived but refused when imported again
  (`LongTitleDoesNotReturn`), and that is the only way it can be refused (`RoundTrip`).

## Model

| member | source | states |
|---|---|---|
| LogMerge.TaskArchive.BeginCvekitRun | src/witty_service/application/backport_run_store.py:1346-1377 | a new run is registered last, with the next sequence number, running and unmerged |
| LogMerge.TaskArchive.CompleteCvekitRun | src/witty_service/application/backport_run_store.py:1395-1442 | an unknown or already merged run changes nothing; any other is stamped and the drain runs to its end, with the new archive as LogMergeLayout.FileLayout describes its file |
| LogMerge.TaskArchive.MergeReadyRuns | src/witty_service/application/backport_run_store.py:1452-1522 | the drain loop terminates and computes the merge of every run that is next in sequence and finished; what its blocks hold is LogMergeLayout.BlockLayout |
| LogMergeProofs.MergedIsLongestFinishedPrefix | src/witty_service/application/backport_run_store.py:1395-1522 | after every step of every history of begins, completes and lost completes, sequence numbers are 1..n and the merged runs are exactly the longest finished prefix |
| LogMergeProofs.DrainClosed | src/witty_service/application/backport_run_store.py:1470-1522 | one drain merges the stretch of finished runs after the merged ones, in order, and folds their logs into the file in that order |
| LogMergeSources.LogIsFunctionOfSources | src/witty_service/application/backport_run_store.py:1470-1522 | without crashes the log is a function of the merged runs and of the logs used for each; those are what a completion of the run delivered or, for any run but the first, what the scan finds |
| LogMergeSources.ManifestForm | src/witty_service/application/backport_run_store.py:1395-1452 | without crashes, and with ends fixed per run, the manifest is a function of what was registered and which runs were completed |
| LogMergeSources.InOrderExactly | src/witty_service/application/backport_run_store.py:1503-1522 | the log is the in-order concatenation of the runs' blocks, each once, if and only if no run with logs finds its id in what was written before it; otherwise it is strictly shorter |
| LogMergeSources.GuardCanDropARun | src/witty_service/application/backport_run_store.py:1517 | for any two registrations, when the first run's block shows the second run's id, both are merged and the second block is missing |
| LogMergeSources.MentionedRunIsDropped | src/witty_service/application/backport_run_store.py:1517 | with nothing redacted, any first log that mentions the second id anywhere does that |
| LogMergeSources.OrderIndependentExactly | src/witty_service/application/backport_run_store.py:1494-1502 | for fixed registrations, ends and deliveries per run, histories that complete the same runs in any order and number of times leave the same archive if and only if each run but the first leaves the same log whether its logs are delivered or scanned |
| LogMergeSources.ContributesSameExactly | src/witty_service/application/backport_run_store.py:1494-1517 | where no block is redacted away, that is: the run's id already shows, or neither source has logs, or both give the same block |
| LogMergeSources.EmptyDeliveryDependsOnOrder | src/witty_service/application/backport_cvekit_client.py:345-347 | a run closed with no logs although the scan finds some: after one order of completion its block is missing, after the other it is there, and the manifests are equal |
| LogMergeCrash.CrashesNeverDuplicate | src/witty_service/application/backport_run_store.py:1395-1522 | over every history in which manifest writes may be lost after any number of log appends, whatever each attempt delivers, as long as blocks show their own run's id: the log is blocks of registered runs, as one of their completions stamped them, from delivered or scanned logs, with no run twice |
| LogMergeCrash.InOrderExactly | src/witty_service/application/backport_run_store.py:1395-1522 | over those histories, when each block that they can write shows its own run's id and no other registered one, the blocks stand in sequence order if and only if no step delivers logs late: to the run next in sequence that has no block while a later run has one |
| LogMergeCrash.AgreeingStaysInOrder | src/witty_service/application/backport_run_store.py:1395-1522 | they do whenever the attempts to complete a run agree on whether it has logs |
| LogMergeCrash.ReplayExactly | src/witty_service/application/backport_run_store.py:1395-1522 | repeating a complete whose manifest write was lost leaves the log as it is if and only if the run is not the next pending one, or it delivers no logs now, or its id already shows |
| LogMergeCrash.LateLogsReverseBlocks | src/witty_service/application/backport_run_store.py:1494-1517 | the history of two registrations, the second run's completion, a lost completion of the first without logs, and its completion with logs: the file has the blocks in reverse and they are not in sequence order |
| LogMergeIds.PlainIsIdentified | src/witty_service/application/backport_run_store.py:1503-1517 | blocks tell their runs apart whenever no id shows in another, in the task id, an operation, an outcome, a time stamp or another run's logs, and redaction hides and invents none |
| LogMergeIds.BothOrdersHappen | src/witty_service/application/backport_run_store.py:1395-1522 | with nothing redacted, two runs that both have logs: in sequence order when the lost completion delivered its log, reversed when it delivered none |
| LogMergeIds.HeaderIs | src/witty_service/application/backport_run_store.py:1505-1511 | a header is its fields in order: sequence, run id, task id, operation, outcome, start and end |
| LogMergeLayout.BlockLayout | src/witty_service/application/backport_run_store.py:1503-1516 | before redaction a block holds each log of the run exactly once, in path order, behind the header and a line break, one line break between two of them, and nothing else |
| LogMergeLayout.FileLayout | src/witty_service/application/backport_run_store.py:1503-1522 | over every history with lost manifest writes, with nothing redacted: the file is those pieces, run after run as the blocks stand, one line break between two pieces and nothing else |
| LogMergeLayout.PiecesAre | src/witty_service/application/backport_run_store.py:1494-1522 | the pieces of a finished stretch of runs are those of the runs that have logs, in sequence order, each with its own logs |
| LogMergeLayout.OrderlyFileLayout | src/witty_service/application/backport_run_store.py:1503-1522 | without crashes, with nothing redacted and no run shadowed, the file is exactly those pieces laid out in sequence order |
| RunLifecycle.RunStore.CreateAsyncRecord | src/witty_service/application/backport_run_store.py:722-787 | the run-all branch: refuses, resumes the paused or interrupted run, or starts the next run from the current report |
| RunLifecycle.RunStore.UpdateCurrentExecution | src/witty_service/application/backport_run_store.py:823-857 | rewrites only the current run: status and body, a paused event when it is paused and does not already end in one, finished when terminal; that this leaves no two paused events in a row is RunEvents.EventsTidy |
| RunLifecycle.RunStore.RecordProgress | src/witty_service/application/backport_run_store.py:859-931 | rewrites the body of the current run only |
| RunLifecycle.RunStore.GetAsyncRecord | src/witty_service/application/backport_run_store.py:933-963 | an inactive running current run becomes interrupted, with one interrupted event at most; everything else is left alone |
| RunLifecycle.RunStore.WriteReport | src/witty_service/application/backport_cvekit_client.py:911-924 | writes the report unless it is frozen, and then raises without writing |
| RunLifecycleProofs.StepKeeps | src/witty_service/api/backport.py:356-391 | every request, worker step, failure branch, report write and crash keeps the files in order, rewrites no run file below the current number and no frozen report, and moves the current number by at most one and only off a terminal run |
| RunLifecycleProofs.EveryHistoryInOrder | src/witty_service/api/backport.py:412-566 | in every history runs below the current number exist and are terminal, terminal runs are finished, and the resume count of a run is the number of its resumed events |
| RunLifecycleProofs.TerminalForever | src/witty_service/application/backport_run_store.py:823-857 | a terminal run that no worker is at work on stays terminal in every history, and up to run 999 its report never changes |
| RunLifecycleProofs.PastForever | src/witty_service/application/backport_run_store.py:823-857 | the file of a run below the current number never changes in any history, nor, up to run 999, its report |
| RunLifecycleProofs.TerminalSurvivesExactly | src/witty_service/api/backport.py:519-564 | a terminal run's file is the same throughout a history if and only if, while that run is current, no failure branch and no worker still at work on it gets to write something else than the file says |
| RunLifecycleProofs.LateFailureRewritesFinished | src/witty_service/api/backport.py:542-564 | a first run completes, its summary cannot be written, and the failure branch marks the completed run failed |
| RunLifecycleProofs.LateFailureHitsNextRun | src/witty_service/api/backport.py:542-564 | a second run created before that failure branch gets the lock is marked failed while its worker is at work, and then paused with an end |
| RunLifecycleProofs.EndsMatchExactly | src/witty_service/application/backport_run_store.py:841-856 | in every history the finished runs are the terminal ones throughout if and only if no worker pauses a run that a failure branch has ended under it |
| RunLifecycleProofs.NumberNeverFalls | src/witty_service/application/backport_run_store.py:741-785 | the current run number never falls in any history |
| RunLifecycleProofs.RunsChain | src/witty_service/application/backport_run_store.py:741-785 | in every history, whenever the current number moves it moves by one to a run that starts from nothing but its predecessor's report at that moment; that report, up to run 999, and the predecessor's file are the same at the end of the history |
| RunLifecycleProofs.ResumeKeepsRun | src/witty_service/application/backport_run_store.py:726-740 | a resumption rewrites only the current run, with the same body, and its resume count is again the number of its resumed events |
| RunLifecycleProofs.RecoveryExactly | src/witty_service/application/backport_run_store.py:933-963 | listing the runs with no busy worker leaves none up to the current number running, and none at all if and only if no run file lies beyond the current number |
| RunLifecycleProofs.CrashedCreationStaysRunning | src/witty_service/application/backport_run_store.py:776-785 | a crash between the run file and the manifest of a first run leaves run 1 marked running after recovery |
| RunLifecycleProofs.NextCreationReplacesOrphan | src/witty_service/application/backport_run_store.py:741-785 | the next creation that goes through replaces such a file by a fresh run under the same number |
| RunLifecycleProofs.ReportNameRead | src/witty_service/application/backport_run_store.py:1105-1111 | the three-digit pattern reads a run's report name back to its number exactly for the runs up to 999 |
| RunLifecycleProofs.FrozenExactly | src/witty_service/application/backport_run_store.py:1105-1111 | a run's report is frozen if and only if the run is terminal and its number is at most 999 |
| RunLifecycleProofs.ReportOfRun1000IsNotFrozen | src/witty_service/application/backport_cvekit_client.py:911-924 | the report writer replaces the report of a terminal run 1000 |
| RunEvents.EventsTidy | src/witty_service/application/backport_run_store.py:722-963 | in every history no run has two pauses in a row, is noted interrupted twice or begins with a resumption; a paused run ends in its pause, a running one is new or ends in its resumption, an interrupted one has its interruption |
| RunEvents.EndNotesPause | src/witty_service/application/backport_run_store.py:841-856 | a worker that ends its run appends one paused event exactly when it pauses a run that does not already end in one, and changes the events in no other way |
| RunEvents.FilesExactly | src/witty_service/application/backport_run_store.py:722-963 | what every step writes into the run files in every reachable state: which file, resumed, interrupted, with a new body, ended, or untouched, and the one new file a creation starts |
| RunEvents.ManifestExactly | src/witty_service/api/backport.py:412-566 | the status every step leaves in the manifest, by the outcome, the action and how far its writes get |
| RunEvents.ReportsExactly | src/witty_service/application/backport_run_store.py:741-785 | the current number and the reports after every step: only a creation that starts a run copies one, and only an unfrozen one is replaced |
| RunEvents.RecordExactly | src/witty_service/api/backport.py:412-566 | the record in memory and the workers on the way to their failure branch after every step: pause requests, ends, a later creation that disowns them, and crashes |
| CaseState.SummaryCase.SetDetectionFromRow | src/witty_service/application/backport_run_store.py:222-255 | sets an unsettled detection from a row by the first rule that applies, and nothing else of the case |
| CaseState.SummaryCase.Update | src/witty_service/application/backport_run_store.py:257-378 | the in-place update of the three stages, phase by phase, then the report and engine notes |
| CaseState.RunCases.RecordProgress | src/witty_service/application/backport_run_store.py:878-931 | finds the first case the event is about, or appends one, and updates only that |
| CaseStateProofs.SummaryTextBlank | src/witty_service/application/backport_run_store.py:177-180 | a shortened text is empty if and only if the value is blank, and never exceeds its limit |
| CaseStateProofs.UpdateKeepsConsistent | src/witty_service/application/backport_run_store.py:257-378 | every event keeps the states and results of detection and final stage in step, "applied" with a completed final stage, a commit and a settled detection, and a direct application with a clean or later failed check; handling is the subject of HandlingStep |
| CaseStateProofs.EveryReachableCaseConsistent | src/witty_service/application/backport_run_store.py:771-775 | from any report through any events every case of a run has that consistency |
| CaseStateProofs.HandlingStep | src/witty_service/application/backport_run_store.py:271-299 | one event keeps handling state and result in step if and only if it does not start a resolution of a case that already has a handling result |
| CaseStateProofs.HandlingInStepExactly | src/witty_service/application/backport_run_store.py:257-378 | in every run handling is in step, or running under an older result; it is in step throughout if and only if no event starts a resolution of a case that already has a result |
| CaseStateProofs.ReopenedHandlingOutOfStep | src/witty_service/application/backport_run_store.py:278-282 | a resolution that fails and is started again leaves any case running with the result of the failure |
| CaseStateProofs.DetectionStep | src/witty_service/application/backport_run_store.py:222-378 | one event never lowers a detection, and changes a settled one only when it is a failed check, to failed |
| CaseStateProofs.DetectionNeverGoesDown | src/witty_service/application/backport_run_store.py:222-378 | over any events a detection never goes down in not started, running, completed, failed, and a settled result changes only to failed, and only if some event that found this very case was a failed check |
| CaseStateProofs.NoVerdictWithoutEvidence | src/witty_service/application/backport_run_store.py:222-378 | in every run each settled detection is accounted for by the row its case was made from, or by an event that found or added that very case |
| CaseStateProofs.BecomesAppliedExactly | src/witty_service/application/backport_run_store.py:301-360 | a case becomes applied if and only if an application completes, or a skip is reported, with a non-blank commit |
| CaseStateProofs.OneCaseChanges | src/witty_service/application/backport_run_store.py:894-929 | an event changes at most one case, adds one only when it is about none, and never changes a row number |
| CaseStateProofs.CountsPartition | src/witty_service/application/backport_run_store.py:380-421 | the counters tally each case once as applied, else failed, else equivalent, else unprocessed; they add up to the total without the clamp; conflict-resolved counts the applied cases whose detection is a conflict, and direct the other applied ones |
| CaseTables.EventExactly | src/witty_service/application/backport_run_store.py:222-378 | the whole table of one event: the detection, handling and final stage, the report and engine notes and the applied commit of a case after it, by phase, phase state and row |
| CaseTables.ProgressExactly | src/witty_service/application/backport_run_store.py:878-931 | in every run an event without a row id changes nothing; any other renames and moves the first case with its row number or commit, or one that begins with it and comes last, as that table says |
| CaseTables.InitialExactly | src/witty_service/application/backport_run_store.py:190-220 | a run begins with one case per report row, in order, named and detected by its row |
| CaseTables.RowSaysOne | src/witty_service/application/backport_run_store.py:222-255 | at most one verdict fits a row, so the detection rules never contradict each other |
| CaseTables.SummaryExactly | src/witty_service/application/backport_run_store.py:177-180 | a summary keeps the words of a text in order with one space between them; one that is too long ends in an ellipsis behind as much as fits, without white space before it |
| TaskLogLock.FlockHolders.Enter | src/witty_service/application/backport_run_store.py:1281-1285 | counts the thread up and tells whether it was counted before |
| TaskLogLock.FlockHolders.Exit | src/witty_service/application/backport_run_store.py:1298-1307 | counts the thread down, removes it at zero, and drops an empty dictionary |
| TaskLogLock.MutualExclusion | src/witty_service/application/backport_run_store.py:1273-1307 | after any schedule of threads of any processes, with aborts and killed processes, at most one thread is in a body, and it owns the lock file |
| TaskLogLock.ReentryNeverBlocks | src/witty_service/application/backport_run_store.py:1281-1289 | a thread in a body enters a nested block's body in one step and keeps the lock |
| TaskLogLock.CountIsDepth | src/witty_service/application/backport_run_store.py:1281-1307 | a thread's count is its nesting depth, its entry exists exactly while that is positive, and a process without entries has no dictionary |
| TaskLogLock.NoDeadlock | src/witty_service/application/backport_run_store.py:1292-1297 | while any thread is in a block, some thread can acquire, leave or finish |
| RepositoryLock.WaitForLock | src/witty_service/application/backport_cvekit_client.py:220-258 | the polling loop ends within 2 * timeout polls, by acquisition exactly when the attempt that ends it succeeds, and announces, event by event, the seconds waited after each failed poll and then the lock or the timeout |
| RepositoryLock.TakeLock | src/witty_service/application/backport_cvekit_client.py:215-282 | an uncontended lock is announced at once; otherwise the wait ends in acquisition, announced with less than 600 seconds, or in a timeout with 600 or more, after at most 2 * timeout + 1 waiting events |
| RepositoryLock.WaitingEventsBounded | src/witty_service/application/backport_cvekit_client.py:223-258 | a wait ended by poll k announces k + 1 times that it waits, at most 2 * timeout + 1 |
| RepositoryLock.ExclusionExactly | src/witty_service/application/backport_cvekit_client.py:182-297 | over every schedule that sets targets between blocks, killed processes included, no two threads are inside blocks for one target, if and only if no two threads share a client |
| RepositoryLock.OneHolderPerTarget | src/witty_service/application/backport_cvekit_client.py:182-297 | for clients each used by one thread, and targets set at any time, at most one thread has a target's lock file, and a thread in the body of a counted block, nested or not, has one whose record names it |
| RepositoryLock.CountIsDepth | src/witty_service/application/backport_cvekit_client.py:197-213 | a client's count is the number of blocks its thread has open with a target |
| RepositoryLock.NestedRestores | src/witty_service/application/backport_cvekit_client.py:197-204 | entering and leaving a nested block restores counts, locks and records |
| RepositoryLock.RecordTrueExactly | src/witty_service/application/backport_cvekit_client.py:260-297 | after every schedule a record found names the thread in the body of the block that has the file if and only if it is not one that a kill or a failing clear left behind and no later record replaced |
| RepositoryLock.KilledHolderLeavesRecord | src/witty_service/application/backport_cvekit_client.py:260-272 | a holder whose process is killed: the target is free and the record still names it |
| RepositoryLock.SharedClientBreaksExclusion | src/witty_service/application/backport_cvekit_client.py:197-213 | for any two threads that share a client, a schedule that puts both in a counted body of one target |
| RepositoryLock.RetargetingBreaksExclusion | src/witty_service/application/backport_cvekit_client.py:149-156 | for any two threads with different clients, a schedule in which one sets a new target inside its block and enters it beside the holder |
| ReportRows.MergeKeepsIds | src/witty_service/application/backport_cvekit_client.py:897-909 | merging keeps the number of rows if and only if all are objects, then keeps the sequence of identities, and each row becomes the last update with its identity or stays |
| ReportRows.UpdatesAreLast | src/witty_service/application/backport_cvekit_client.py:902-904 | the dictionary of updates holds under each identity the last row with it, and nothing else |
| ReportRows.UpdateKeepsId | src/witty_service/application/backport_cvekit_client.py:2383-2395 | the row found under an identity has that identity |
| ReportRows.MergeInTurn | src/witty_service/application/backport_cvekit_client.py:897-909 | merging two update lists in turn is merging their concatenation |
| ReportRows.MergeIdempotent | src/witty_service/application/backport_cvekit_client.py:897-909 | merging the same updates again changes nothing |
| ReportRows.MergeExactly | src/witty_service/application/backport_cvekit_client.py:897-909 | of any list the merge keeps exactly the rows that are objects, in order, each as the last update with its identity, or as it was when there is none |
| ReportRows.RowIdExactly | src/witty_service/application/backport_cvekit_client.py:2383-2395 | the identity is the text, without white space around it, under the first of the six keys that holds one, else the rendering of the row |
| Usage.QueueIsLevelOrder | src/witty_agent_server/runtimes/usage.py:115-134 | the worklist ends on every JSON tree and visits its objects in level order |
| Usage.NormalizeUsagePayload | src/witty_agent_server/runtimes/usage.py:103-140 | each field is its first hit in level order under the container's own aliases, and a missing total is the sum of its parts |
| UsageOrder.PayloadExactly | src/witty_agent_server/runtimes/usage.py:103-140 | the objects of a payload are walked from the payload itself, the children of each, key by key and item by item under the tables of their keys, behind those of the objects before it; every field is the first number on the way under the first alias that has one, and a missing total is the sum of the four counts |
| UsageProofs.PayloadNormalizes | src/witty_agent_server/runtimes/usage.py:103-140 | a normalised payload reads back as itself |
| UsageProofs.NormalizeIdempotent | src/witty_agent_server/runtimes/usage.py:103-140 | normalising a normalised payload changes nothing |
| UsageProofs.SumIsFieldwise | src/witty_agent_server/runtimes/usage.py:148-156 | a turn's usage has a field exactly when some step has it, with the sum of the steps' values |
| UsageProofs.SumIsBalanced | src/witty_agent_server/runtimes/usage.py:136-156 | summing steps without a stated total keeps total = input + output + cache read + cache write |
| UsageProofs.SumBalancedExactly | src/witty_agent_server/runtimes/usage.py:136-156 | a turn's usage has total = input + output + cache read + cache write if and only if, once some step states a total, some step states a count and the stated totals add up to the counts stated with them |
| UsageProofs.BalancedExactly | src/witty_agent_server/runtimes/usage.py:136-140 | one step is balanced if and only if a total first found in the payload comes with a count and equals the sum of the first counts found |
| UsageProofs.ExcessesCancel | src/witty_agent_server/runtimes/usage.py:136-156 | two steps whose totals are one too high and one too low: neither is balanced, their sum is |
| RunTurn.SyncUsage | src/witty_agent_server/runtimes/runtime_base.py:333-349 | folds one payload into the total field by field |
| RunTurn.Emit | src/witty_agent_server/runtimes/runtime_base.py:133-157 | emitting a batch of hooked events yields what the whole stream so far should have yielded |
| RunTurn.RunTurnEvents | src/witty_agent_server/runtimes/runtime_base.py:100-157 | a turn's output is the placement of usage over the hooked, deduplicated stream, for every raw event list and also when the client fails; what that stream says of tools and artifacts is ArtifactTrace.OutputTraced |
| RunTurnProofs.UsageOnceAndPlaced | src/witty_agent_server/runtimes/runtime_base.py:133-157 | at most one usage event; it carries the sum of all usage before it and stands before the first terminal event that follows any usage, or at the end |
| RunTurnProofs.UsageReportedExactly | src/witty_agent_server/runtimes/runtime_base.py:133-157 | the usage event is missing exactly when there was no usage or the client failed before a terminal event could show it |
| RunTurnProofs.ErasedOutput | src/witty_agent_server/runtimes/runtime_base.py:119-157 | apart from usage the output is the hooked stream in order, nothing lost or added |
| RunTurnProofs.DedupKeepsFirstStarts | src/witty_agent_server/runtimes/runtime_base.py:313-331 | no non-empty tool call id is started twice, and events are dropped exactly when the input starts one twice |
| RunTurnProofs.DedupMembers | src/witty_agent_server/runtimes/runtime_base.py:313-331 | only starts of a call id already started are dropped |
| RunTurnProofs.DedupExactly | src/witty_agent_server/runtimes/runtime_base.py:314-331 | exactly the starts that repeat an earlier start's non-empty call id are dropped; all other events stay, in order |
| RunTurnProofs.OutputStartsDistinct | src/witty_agent_server/runtimes/runtime_base.py:100-157 | in a turn's output no non-empty tool call id is started twice |
| RunTurnProofs.ArtifactsPaired | src/witty_agent_server/runtimes/runtime_base.py:186-227 | in a turn's output every completed artifact follows a start with the same id, name, kind and path, whatever the extension tables say; which completions there are, with what status and content, is ArtifactTrace.OutputTraced |
| ArtifactTrace.OutputTraced | src/witty_agent_server/runtimes/runtime_base.py:186-227 | the tool and artifact events of a turn's output are its calls and responses in order, each write call that names an artifact followed at once by one start, and each response to such a call by one completion: "error" exactly for an error response and "ready" otherwise, with the size of the call's text, and with that text itself exactly when the response is no error and the text is inlineable, within 512 KiB and not sensitive |
| ArtifactPaths.NormalizedIsClean | src/witty_agent_server/runtimes/artifact_detector.py:138-148 | a normalised path consists of parts that are never empty, "." or ".." and hold no separator of either kind |
| ArtifactPaths.NormalizedAgainExactly | src/witty_agent_server/runtimes/artifact_detector.py:138-148 | normalising again changes nothing if and only if the normalised path has no white space at its ends |
| ArtifactPaths.HiddenSpace | src/witty_agent_server/runtimes/artifact_detector.py:141-148 | "./" before a name that starts with a space gives a path that normalises to another |
| ArtifactPaths.NormalizedExactly | src/witty_agent_server/runtimes/artifact_detector.py:138-148 | a path is usable exactly when some part of it names something and no part climbs; it is then known by the parts that name something, in order, absolute if it began with a slash of either kind |
| Messages.SendMessage | src/witty_agent_server/runtimes/runtime_base.py:279-292 | the reply is the concatenation of all message deltas |
| Messages.StreamMessage | src/witty_agent_server/runtimes/runtime_base.py:294-311 | streaming yields one chunk for each delta with text up to the first end, in order, and one closing chunk exactly when there is an end |
| Messages.StreamIsPrefixOfReply | src/witty_agent_server/runtimes/runtime_base.py:279-311 | streaming yields a prefix of the reply, and all of it exactly when no text follows the first end |
| OpenClaw.Runtime.OnMappedEvent | src/witty_agent_server/runtimes/openclaw_gateway_runtime.py:41-71 | the hook's new accumulators and output for every mapped event |
| OpenClaw.Runtime.OnThinkingEvent | src/witty_agent_server/runtimes/openclaw_gateway_runtime.py:73-97 | a block that extends the shown text sends the missing tail ahead and remembers it |
| OpenClaw.Runtime.OnThinkingDeltaEvent | src/witty_agent_server/runtimes/openclaw_gateway_runtime.py:99-144 | the prefix-matching loop cuts from a late delta the longest common prefix with the pending tail |
| OpenClawProofs.BlockReconciledExactly | src/witty_agent_server/runtimes/openclaw_gateway_runtime.py:73-144 | for any block, chunking and arrival point after the first chunk, what was emitted is what was received plus the pending tail if and only if the late text agrees with the block as far as both go |
| OpenClawProofs.RepeatedBlockExactly | src/witty_agent_server/runtimes/openclaw_gateway_runtime.py:73-97 | a further whole block keeps that balance exactly when no tail is pending |
| OpenClawProofs.RepeatedBlockDuplicatesText | src/witty_agent_server/runtimes/openclaw_gateway_runtime.py:73-144 | chunk "a", block "ab" twice and late chunk "b" make the consumer read "abb" |
| OpenClawProofs.NextBlockIntactExactly | src/witty_agent_server/runtimes/openclaw_gateway_runtime.py:99-144 | after any stale tail all the chunks of a following block go out, and the hook goes on as if there had been none, if and only if the block's first chunk is not mistaken for the tail's continuation |
| OpenClawProofs.NextBlockReconciled | src/witty_agent_server/runtimes/openclaw_gateway_runtime.py:73-144 | then the whole following block, chunks, block and late chunks, is reconciled exactly as the first one |
| OpenClawProofs.NextBlockSwallowed | src/witty_agent_server/runtimes/openclaw_gateway_runtime.py:99-144 | from the start of a turn: a chunk, its block and nothing late, then a block beginning with the text of the tail, which is swallowed whole |
| OpenClawProofs.NextBlockLosesItsStart | src/witty_agent_server/runtimes/openclaw_gateway_runtime.py:73-144 | chunk "a", block "aa", then a new block's chunk "a": the consumer reads "aa" |
| OpenClawProofs.AccumulatorIsSentText | src/witty_agent_server/runtimes/openclaw_gateway_runtime.py:50-71 | in every stream the accumulator is the concatenation of the message deltas sent |
| OpenClawProofs.CompletionRepairsTail | src/witty_agent_server/runtimes/openclaw_gateway_runtime.py:50-71 | after a completion that extends what was streamed, the reply over that output is the full text |
| OpenClawProofs.EventExactly | src/witty_agent_server/runtimes/openclaw_gateway_runtime.py:41-71 | every event that is no thinking adds itself and the report of its write to the turn, behind nothing but the text by which a completed message extends what was sent |
| OpenClawProofs.BlockForwarded | src/witty_agent_server/runtimes/openclaw_gateway_runtime.py:73-97 | a thinking block always goes out, and ahead of it exactly the tail by which it extends a shown text |
| OpenClawProofs.DeltaForwarded | src/witty_agent_server/runtimes/openclaw_gateway_runtime.py:99-144 | a thinking delta without text is dropped; of any other, exactly what it shares with the pending tail of its own block is cut off, and the rest, if any, goes out with the same running text |
| OpenClawProofs.HookIsPassive | src/witty_agent_server/runtimes/openclaw_gateway_runtime.py:41-71 | the hook invents no tool start and no artifact event, so the turn-level results apply to it |
| OpenClawProofs.HookIsTransparent | src/witty_agent_server/runtimes/openclaw_gateway_runtime.py:41-71 | the hook leaves tool events alone, so ArtifactTrace.OutputTraced applies to its turns |
| Dsh.Runtime.OnMappedEvent | src/witty_agent_server/runtimes/dsh_runtime.py:88-130 | the hook's new flags, text and output for every mapped event |
| Dsh.RunDshTurn | src/witty_agent_server/runtimes/dsh_runtime.py:45-69 | the turn with its closing pair of events on a client failure |
| DshProofs.OutputStarts | src/witty_agent_server/runtimes/dsh_runtime.py:45-130 | every non-empty output starts with `message.started` |
| DshProofs.OutputCloses | src/witty_agent_server/runtimes/dsh_runtime.py:88-130 | every `turn.completed` that is not an error has a `message.completed` before it |
| DshProofs.EventExactly | src/witty_agent_server/runtimes/dsh_runtime.py:88-130 | every event of a turn adds itself and the report of its write, behind a `message.started` exactly if it is the first and none itself, and, for a turn end that is no error before any message was completed, behind a completion with all deltas so far |
| DshProofs.FailureEndsTurn | src/witty_agent_server/runtimes/dsh_runtime.py:45-69 | a client failure at any point makes the output end with `stream.error`, then `turn.completed` |
| DshProofs.TurnEndCloses | src/witty_agent_server/runtimes/dsh_runtime.py:212-232 | at any point of a turn, started or not, a mapped turn end is led by a start if there was none, reports `stream.error` exactly for an error or a truncation, and closes with the whole text, except after an error, and `turn.completed` |
| DshProofs.HookIsPassive | src/witty_agent_server/runtimes/dsh_runtime.py:88-130 | the hook invents no tool start and no artifact event, so the turn-level results apply to it |
| DshProofs.HookIsTransparent | src/witty_agent_server/runtimes/dsh_runtime.py:88-130 | the hook leaves tool events alone, so ArtifactTrace.OutputTraced applies to its turns |
| StreamRegistry.SessionStreamRegistry.StartStream | src/witty_service/application/agent_manager.py:386-393 | ends the old stream, then a new generation with no subscribers and an empty buffer |
| StreamRegistry.SessionStreamRegistry.PushEvent | src/witty_service/application/agent_manager.py:404-413 | a push of the current generation goes to the buffer and each subscribed queue, any other changes nothing |
| StreamRegistry.SessionStreamRegistry.EndStream | src/witty_service/application/agent_manager.py:415-419 | marks the stream ended and gives each subscribed queue a sentinel |
| StreamRegistry.SessionStreamRegistry.Subscribe | src/witty_service/application/agent_manager.py:432-435 | a new empty queue joins the session's subscribers |
| StreamRegistry.SessionStreamRegistry.Unsubscribe | src/witty_service/application/agent_manager.py:437-440 | a subscribed queue leaves, others stay in order |
| StreamRegistry.SessionStreamRegistry.Cleanup | src/witty_service/application/agent_manager.py:445-449 | everything about the session is forgotten, its generation included |
| StreamRegistryProofs.BufferFollowsPushes | src/witty_service/application/agent_manager.py:404-413 | while nothing ends a stream it stays live and its buffer grows by exactly its pushes, whoever is subscribed |
| StreamRegistryProofs.BufferExactly | src/witty_service/application/agent_manager.py:386-449 | after every history the buffer of a session holds exactly the events pushed under its then current generation since the stream was last started or forgotten, in order |
| StreamRegistryProofs.LiveQueuesFollowBuffer | src/witty_service/application/agent_manager.py:404-413 | while nothing ends a stream a queue that stays subscribed grows by exactly its pushes |
| StreamRegistryProofs.SubscriberHearsAll | src/witty_service/application/agent_manager.py:404-427 | whoever subscribes to a live stream and stays until it is ended is delivered all of it from then on, and a sentinel |
| StreamRegistryProofs.SubscriberGetsBufferSlice | src/witty_service/application/agent_manager.py:404-435 | a subscriber of a live stream gets exactly the buffer from its subscription on, so a snapshot taken then completes it |
| StreamRegistryProofs.ReconnectCompleteExactly | src/witty_service/application/agent_manager.py:2172-2202 | over any gap of steps of any sessions, replaying a snapshot and subscribing afterwards is certain to show the whole stream and its end, whatever follows, if and only if neither a push of the stream nor an end of it falls into the gap |
| StreamRegistryProofs.StuckExactly | src/witty_service/application/agent_manager.py:432-440 | the reader of a session that is gone gets a sentinel if and only if somebody ends or forcibly starts a stream of it while the queue is listed; otherwise it gets nothing |
| StreamRegistryProofs.EndInGapLeavesReaderStuck | src/witty_service/application/agent_manager.py:2172-2202 | a stream ended and cleaned up before the subscription leaves the new queue empty for good unless that happens |
| StreamRegistryProofs.EndingClosesQueues | src/witty_service/application/agent_manager.py:415-427 | ending, restarting or releasing a live stream closes each of its queues with one sentinel |
| StreamRegistryProofs.EndedStaysEnded | src/witty_service/application/agent_manager.py:2194-2202 | once ended for a subscriber, nothing later changes what it is delivered |
| StreamRegistryProofs.RestartDetachesOldSubscribers | src/witty_service/application/agent_manager.py:386-393 | restarting a live stream gives its old subscribers a sentinel and, ever after, nothing |
| StreamRegistryProofs.GenerationIsNumber | src/witty_service/application/agent_manager.py:386-393 | for consumers that begin, push and finish, the generation is the number of those that began since one last finished |
| StreamRegistryProofs.PushTakenExactly | src/witty_service/application/agent_manager.py:404-413 | a consumer's push reaches the stream if and only if that number is what it was when the consumer began, and otherwise changes nothing |
| StreamRegistryProofs.IsolationExactly | src/witty_service/application/agent_manager.py:386-449 | in program order, a superseded consumer gets a push through if and only if some consumer finished since it began and as many began since the last finish as had when it began; one that is not superseded does if and only if none has finished since |
| StreamRegistryProofs.CleanupBreaksIsolation | src/witty_service/application/agent_manager.py:445-449 | three consumers in program order: the second finishes, the third begins under the first one's number, and the first one's event lands in the third's stream |
| StreamRegistryProofs.OrphanSubscriptionBlocks | src/witty_service/application/agent_manager.py:421-435 | subscribing to a session that is gone makes it active: no stream can be reserved for it and no push is taken until somebody ends, forgets or forcibly starts one |
| ConsumeWs.Consume | src/witty_service/application/agent_manager.py:1912-2116 | for every input sequence: the buffer is the one the inputs determine, written by every event that fills it or finds its window passed and by the closing flush; batches plus buffer are the accepted events numbered 1, 2, 3, ... in order, no batch over 64; the stored content and status are those of the exit, and on a silent end or a cancellation the text at the last due checkpoint that was accepted |
| ConsumeWs.TakeUp | src/witty_service/application/agent_manager.py:1989-2093 | one accepted frame is numbered, buffered, added to the text, checkpointed exactly when due and relayed, and ends the turn exactly when it says so |
| ConsumeWs.ErrorFrame | src/witty_service/application/agent_manager.py:1926-1965 | an error event finishes the message as failed with the text so far |
| ConsumeWs.Raised | src/witty_service/application/agent_manager.py:2094-2114 | an exception flushes, finishes the message as interrupted and notifies subscribers |
| ConsumeWs.FlushEvents | src/witty_service/application/agent_manager.py:1844-1865 | one attempt for the whole buffer, which is empty afterwards |
| ConsumeWs.FinalizeAbnormalTurn | src/witty_service/application/agent_manager.py:1867-1889 | flushes the buffer and, when there is a message, gives it the text so far and the status of the exit |
| ConsumeWs.Persist | src/witty_service/application/agent_manager.py:2014-2021 | one more event is numbered and buffered, and the buffer is written exactly when it is then full or its window has passed |
| ConsumeWs.Checkpoint | src/witty_service/application/agent_manager.py:2032-2053 | a non-empty text is stored, if the write succeeds, and the counters restarted exactly when 100 tokens or two seconds have passed or the message ends |
| ConsumeWs.EverythingPersisted | src/witty_service/application/agent_manager.py:1844-2116 | with a repository that accepts every write, an end by completion, error event or exception leaves exactly the numbered events persisted |
| ConsumeWs.BufferWaits | src/witty_service/application/agent_manager.py:2014-2021 | what the buffer holds and since when is the count of stored events, and the time of the flush, that the clock readings of the inputs give |
| ConsumeWs.SilenceLosesExactly | src/witty_service/application/agent_manager.py:1912-2116 | on a silent end or a cancellation the last accepted events are lost, as many as still wait, and none if and only if nothing was stored or the last stored event filled the buffer or found its window passed |
| ConsumeWs.SilenceLosesPendingEvents | src/witty_service/application/agent_manager.py:2094-2114 | one event and then a silent end: relayed, never persisted, the message never finished |
| ConsumeWs.SilenceLosesText | src/witty_service/application/agent_manager.py:2032-2053 | with accepted writes a silent end keeps the text up to the last due checkpoint and loses the rest, which is worth fewer than 100 tokens and came within two seconds of it |
| ConsumeWs.ShortDeltasAreLost | src/witty_service/application/agent_manager.py:2025-2053 | a text of any length that comes in deltas of at most three characters within two seconds counts no token and is lost whole by a silent end |
| ConsumeWs.StoredExactly | src/witty_service/application/agent_manager.py:1966-2021 | the events to persist are those of the handled frames of the stored kinds, each once, in order |
| ConsumeWs.ShownExactly | src/witty_service/application/agent_manager.py:1966-2093 | subscribers are relayed the events of the handled frames of the shown kinds, each once, in order |
| ConsumeWs.EndsAtFirst | src/witty_service/application/agent_manager.py:1912-2116 | the consumer stops at the first input that makes an end, with the exit of its kind, and only at none by silence |
| Csv.ReadWrittenRow | src/witty_service/application/backport_commit_import.py:278-285 | a written row of non-empty cells is read back as it was, or fails exactly when a cell is over the field limit |
| CsvLayout.ReadExactly | src/witty_service/application/backport_commit_import.py:85-97 | the strict reader reads a text as these rows if and only if the text is laid out as lines of plain or quoted cells with these texts, each within the field limit, each line ended in one of three ways and the last perhaps not at all; whatever else it is given it rejects |
| CommitImport.ValidateCommitEntries | src/witty_service/application/backport_commit_import.py:146-275 | the loop with its dictionary gives each item the verdict its first equal predecessor implies, then the size and emptiness limits |
| CommitImport.SerializeCommitEntries | src/witty_service/application/backport_commit_import.py:278-285 | the header line and one line per entry |
| CommitImport.ParseCommitImport | src/witty_service/application/backport_commit_import.py:61-143 | size, encoding and format rejections, then numbered non-blank rows, optional header, width errors, preview and validation; which rows and cells that reports is RowWidthExactly and RowErrorsExactly |
| CommitImport.HeaderColumns | src/witty_service/application/backport_commit_import.py:41-58 | the commit is in the first column and the title in the second exactly when two cells name them so, the other way round exactly when they name them so, and there is no header otherwise |
| CommitImport.FirstIndex | src/witty_service/application/backport_commit_import.py:236-255 | the first good item with a key, or none before |
| CommitImportRows.ValidatedExactly | src/witty_service/application/backport_commit_import.py:146-275 | the verdict on any list from what is wrong with each item: its problems once, item by item, the SHA's before the title's; its repetitions and conflicts against the first sound item with its SHA; and an entry for each first one, in order |
| CommitImportRows.RowsExactly | src/witty_service/application/backport_commit_import.py:99-143 | of the rows that are read, all but the blank ones and the header are shown under their numbers; those of two cells are validated and each of the others is one error |
| CommitImportRows.RowWidthExactly | src/witty_service/application/backport_commit_import.py:122-130 | a row is reported for its width if and only if it is neither blank nor the header and has not two cells |
| CommitImportRows.NoRowLost | src/witty_service/application/backport_commit_import.py:99-143 | a file imported without errors has the entry of each row that is neither blank nor the header on its list, and no other |
| CommitImportRows.RowErrorsExactly | src/witty_service/application/backport_commit_import.py:154-230 | more than 5000 rows of two cells are refused; otherwise a bad SHA, an empty title and a title of more lines are reported for exactly the rows that have them |
| CommitImportRows.RefusedExactly | src/witty_service/application/backport_commit_import.py:61-97 | a file is refused whole exactly when it is over one MiB, not UTF-8, or not read as rows, in this order |
| CommitImportRows.MarkIgnored | src/witty_service/application/backport_commit_import.py:80-81 | a byte-order mark before a text changes nothing as long as its bytes fit |
| CommitImportRows.HeaderExactly | src/witty_service/application/backport_commit_import.py:35-38 | an ASCII header cell is known by its letters and digits alone, the letters made small |
| CommitImportProofs.ErrorFreeExactly | src/witty_service/application/backport_commit_import.py:154-275 | a list is accepted if and only if it has 1 to 5000 items, each with a hexadecimal SHA and a single-line title, no SHA under two titles, and fits in one MiB once serialised |
| CommitImportProofs.ErrorFreeIsCanonical | src/witty_service/application/backport_commit_import.py:167-275 | an accepted list has distinct lowercase SHAs and stripped single-line titles, and holds the entry of every submitted item and nothing else |
| CommitImportProofs.FixedPoint | src/witty_service/application/backport_commit_import.py:146-275 | an acceptable list validates to itself without errors or warnings, however its rows are numbered |
| CommitImportProofs.ValidationIdempotent | src/witty_service/application/backport_commit_import.py:146-275 | validating an accepted result again changes nothing |
| CommitImportProofs.ReadArchive | src/witty_service/application/backport_commit_import.py:85-97 | the strict reader returns the archived table, or fails exactly when a cell is over the field limit |
| CommitImportProofs.RoundTrip | src/witty_service/application/backport_commit_import.py:61-285 | an accepted list, serialised and imported again, comes back unchanged with no errors or warnings if and only if every cell is within the reader's field limit; size and count limits are never hit |
| CommitImportProofs.LongTitleDoesNotReturn | src/witty_service/application/backport_commit_import.py:86-97 | a valid commit with a title of 131073 characters is accepted and then refused when imported back |

## Left out

- RunTurnProofs.ArtifactsPaired: assumes that mapped events contain no artifact events of their own; the extension tables and the list of sensitive names are parameters.
- LogMergeCrash.CrashesNeverDuplicate: assumes distinct registered ids that show in the blocks of their own runs; a redaction that hides an id is outside it, and so are operating-system failures and partial log writes.
- LogMergeCrash.InOrderExactly: assumes, as do AgreeingStaysInOrder and ReplayExactly, that ids are single-line tokens and that no block which the history can write shows another registered id; LogMergeIds.PlainIsIdentified says which texts are enough. A mentioned id drops a run already without crashes.
- LogMergeSources.OrderIndependentExactly: speaks of ends and deliveries fixed per run, since both are part of what is written; the scan finds the same logs throughout.
- LogMergeSources.LogIsFunctionOfSources: assumes that registered run ids differ, as a time stamp with a random suffix makes all but certain.
- RepositoryLock.ExclusionExactly: speaks of schedules that set a client's target while it counts no block, as the service does; RetargetingBreaksExclusion shows why.
- RepositoryLock.RecordTrueExactly: is about clients each used by one thread; a failing write of the record leaves the old one, and a failing clear leaves it, in the file.
- StreamRegistryProofs.IsolationExactly: a consumer's end and cleanup are one step, since nothing is awaited between them.
- RepositoryLock.WaitForLock: assumes each poll sleeps at least half a second on a monotone clock.
- Usage.NormalizeUsagePayload: numbers are reals, without rounding; the set of visited objects is not modelled, since the objects of a JSON tree are distinct.
- RunTurn.RunTurnEvents: the usage total is yielded as a snapshot, while the code yields the dictionary that later usage still changes.
- ConsumeWs.Consume: successive clock readings while one frame is handled are one reading, as are the two at which the flush and the checkpoint windows first open, and other tasks do not run inside the consumer.
- ArtifactTrace.OutputTraced: assumes that mapped events contain no artifact events of their own and a hook that lets tool events through, as every runtime's does; the extension tables, the sensitive names, JSON parsing and UTF-8 sizes are parameters.
- CommitImportRows.HeaderExactly: speaks of ASCII header cells; what other characters become is a parameter.
- CommitImportProofs.RoundTrip: lone surrogates, which cannot be encoded, are outside the model's characters.
- CommitImport.HeaderColumns: what lower-casing and the alphanumeric test make of characters outside ASCII is a parameter.
- Redaction, JSON and YAML text, log file names and the Markdown summaries: uninterpreted or absent.
- The case id string, run summaries and time stamps of runs: not part of the case and run models.
- An exception before a worker marks its record, and other requests while its failure branch waits, are the failed outcome of its last step, since the record keeps the others out.
- Scanning the runs after releasing the lock that guards the active ids: one step.
- Session-state synchronisation, access checks and the HTTP and WebSocket layers around the stream code.
- The translators from raw gateway and dsh frames to mapped events, except the dsh turn end.
- The opencode runtime: its hook puts the text of the deltas so far into a completed message; unlike the two hooks modelled it makes up, drops or cuts no event.
- Error classification and insights: each maps one payload, or one answer of another service, to a result, with no state that a turn or a run reads back.
- The messaging channels and the scheduled tasks: subsystems of their own, with their own queues and exclusion, that call `send_message` from outside; the models end at the events of a turn.
- Sandbox start and health checks: they drive processes and ports outside the service, and decide only whether a turn or a run begins.
- Git, cvekit subprocesses, the repository's database and file-system path resolution: inputs or not part of this model.
