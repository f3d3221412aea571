# Model of the revive differential testing framework

A Dafny model of the concurrent protocols and the algorithms at the core of the framework: a runner
that compiles, executes and compares smart-contract workloads on several platforms.

Protocols are modelled as step relations, one step for each stretch between two await points: an
`Action`, the condition `Enabled`, the step `Apply`, and legal runs as sequences of actions.  The
objects that the program updates in place are classes whose methods are proved equal to those steps
or to value functions; what is promised about whole runs is proved as lemmas about the steps.

| file | what it models |
|---|---|
| `CorpusProcessor.dfy` | the fail-fast scheduler: permits, trigger flag, drop guards, abort |
| `CompletionTracker.dfy`, `ReportAggregator.dfy` | the report aggregator: a history semantics, and the handlers with their nested maps |
| `TestPipeline.dfy` | scheduler and aggregator joined |
| `TransactionSubmission.dfy` | sending transactions: permits, account locks, nonces, the mempool limiter |
| `AsyncMap.dfy` | the asynchronous map with waiting readers |
| `CachedCompiler.dfy` | the single-flight compilation cache |
| `RepeatInterpreter.dfy`, `ForkMerge.dfy`, `CallFrameLogs.dfy` | repeat steps and the gas warm-up, consolidation of forks, log merging |
| `Word256.dfy`, `CalldataStack.dfy`, `CalldataText.dfy`, `Calldata.dfy`, `VariableTemplate.dfy` | calldata arithmetic, its text, its bytes and comparison, variable name templates |
| `Watcher.dfy` | the benchmark watcher |
| `ModeLanguage.dfy`, `ModeExpansion.dfy` | compiler modes: parsing, printing, expansion, allow-lists |
| `ReportMerge.dfy` | merging reports |
| `BlockMetrics.dfy`, `OpcodeProfile.dfy`, `Sampling.dfy`, `DirectoryWalk.dfy` | block metrics, opcode roll-up, even sampling, the directory walk |

`dafny verify dfyconfig.toml` checks the whole project.

What the proofs bring to light about the code:

- With fail-fast on, more than 30 definitions and a concurrency limit other than one, a definition can
  stay unreported: its future is dropped before its first poll, and the drop guard is created inside the
  future (`CorpusProcessor.AlwaysReportedIff`).  Its group is then never announced
  (`TestPipeline.SomeGroupUnannounced`); in every other configuration all are
  (`TestPipeline.EveryGroupAnnounced`).
- Sends without a `from` address take no account lock, so they can overtake each other between nonce
  and submission (`TransactionSubmission.OrderedIffSerial`).
- Consolidating forks can lose the update of a variable that the parent already has
  (`ForkMerge.LostUpdate`, with the exact condition in `ForkMerge.ParentVariable`).
- A stored artifact that cannot be read back is compiled and stored a second time, and that is the only
  way (`CachedCompiler.StoredOnceIffNoStaleWrite`).
- An item discovered after everything before it was reported makes its group be announced early, and
  that is the only way (`CompletionTracker.AnnouncedOnceIff`); `crates/core/src/helpers/test.rs:49-52` discovers
  everything first for that reason.  The panic of the announcement has one cause as well (`CompletionTracker.PanicIff`).
- The equivalence check of calldata accepts data that is longer or shorter than the items
  (`Calldata.ExtraDataIsAccepted`, `Calldata.MissingDataIsAccepted`).
- A merged report pairs the status of one run with the execution of another unless the first report with
  a status is the last with an execution (`ReportMerge.OneInputDecidesBoth`).
- The comment at `crates/common/src/iterators/files_with_extension_iterator.rs:10-12` calls the directory
  walk breadth-first; the code takes directories off the end of its list, and the model follows the
  code.  The empty-stack case at `crates/format/src/steps.rs:678-679` cannot occur, since splitting a
  text yields at least one part.

## Model

| member | source | states |
|---|---|---|
| `CorpusProcessor.AtMostOneReport` | crates/core/src/helpers/corpus_processor.rs:93-175 | In every interleaving, fail-fast on or off, no definition is ever reported twice (succeeded, failed or ignored) |
| `CorpusProcessor.ExactlyOneReportAtCompletion` | crates/core/src/helpers/corpus_processor.rs:93-211 | Once Completion is sent it is the last event and the only one of its kind, and before it a definition was reported exactly once if its future was polled and not at all otherwise; without fail-fast every definition was |
| `CorpusProcessor.ReportsTellTheRun` | crates/core/src/helpers/corpus_processor.rs:93-206 | For every run: a definition is reported as succeeded exactly when processing it succeeded, as failed exactly when it failed, as ignored exactly when it is reported without having been processed, which takes fail-fast and a failure of another; the fail-fast flags are set exactly by a failure |
| `CorpusProcessor.NoneStartsAfterFailure` | crates/core/src/helpers/corpus_processor.rs:105-142 | With fail-fast a task that starts or gets its permit after a failure ignores its definition and never processes it |
| `CorpusProcessor.PermitsWithinLimit` | crates/core/src/helpers/corpus_processor.rs:82-142 | Tasks holding a permit never exceed the concurrency limit |
| `CorpusProcessor.EveryDefinitionReported` | crates/core/src/helpers/corpus_processor.rs:93-211 | With fail-fast off, or at most 30 definitions, or a limit of one, every definition is reported exactly once before Completion, under fail-fast too |
| `CorpusProcessor.UnpolledDefinitionIsNeverReported` | crates/core/src/helpers/corpus_processor.rs:93-206 | In every other configuration some run completes with a definition nobody has reported: its future was dropped before its first poll, hence before the guard inside it existed |
| `CorpusProcessor.AlwaysReportedIff` | crates/core/src/helpers/corpus_processor.rs:93-211 | So every definition is sure to be reported exactly in those configurations |
| `CorpusProcessor.LeavingPollsAll` | crates/core/src/helpers/corpus_processor.rs:93-206 | There the joined future is never left, by the abort or by its end, with a future unpolled |
| `CorpusProcessor.EveryMaximalRunCompletes` | crates/core/src/helpers/corpus_processor.rs:93-211 | Every run is finite, and a run is stuck exactly when Completion has been sent |
| `CorpusProcessor.NotStuck` | crates/core/src/helpers/corpus_processor.rs:115-172 | While Completion is missing some action is enabled, a waiting task without permits pointing to a holder that can go on |
| `CorpusProcessor.StepKeepsTasks` | crates/core/src/helpers/corpus_processor.rs:100-175 | Every action keeps what the phase of each task says about its guard, its permit and its number of reports |
| `CorpusProcessor.StepKeepsPermits` | crates/core/src/helpers/corpus_processor.rs:82-171 | Every action keeps free plus held permits equal to the limit |
| `CorpusProcessor.StepKeepsStage` | crates/core/src/helpers/corpus_processor.rs:194-206 | Futures are dropped by an abort only, which takes fail-fast; none is unfinished at completion |
| `CorpusProcessor.StepKeepsCompletion` | crates/core/src/helpers/corpus_processor.rs:208-211 | The completion event is sent once and last |
| `CorpusProcessor.StepReports` | crates/core/src/helpers/corpus_processor.rs:105-173 | An action reports its own task only |
| `CorpusProcessor.CorpusRun.BeginTask` | crates/core/src/helpers/corpus_processor.rs:101-114 | The stretch from a task's first poll to its first await, including the early fail-fast skip |
| `CorpusProcessor.CorpusRun.PermitAnswered` | crates/core/src/helpers/corpus_processor.rs:115-142 | The stretch behind the semaphore: a closed semaphore or a triggered flag ignores the definition, otherwise the permit is kept |
| `CorpusProcessor.CorpusRun.FinishProcessing` | crates/core/src/helpers/corpus_processor.rs:146-171 | Reporting the result, tripping fail-fast on a failure (flag, closed semaphore, notification), disarming the guard, dropping the permit |
| `CorpusProcessor.CorpusRun.DropFuture` | crates/core/src/helpers/corpus_processor.rs:21-27 | Dropping an unfinished future runs the action of an armed guard and frees a permit |
| `CorpusProcessor.CorpusRun.DropFutures` | crates/core/src/helpers/corpus_processor.rs:195-206 | Leaving the select drops every unfinished future and keeps the invariant |
| `CorpusProcessor.CorpusRun.PollTask` | crates/core/src/helpers/corpus_processor.rs:100-175 | Polling a task runs exactly one enabled stretch of it, whatever the semaphore and the definition answer |
| `CorpusProcessor.CorpusRun.ProcessCorpus` | crates/core/src/helpers/corpus_processor.rs:77-211 | The whole corpus, for any schedule, any answers of the semaphore and any outcome of each definition: it ends, Completion is sent last and once, no definition has two reports, each polled one has one, in the configurations above every one has; a definition is reported by its outcome, or as ignored if another failed |
| `CorpusProcessor.CorpusRun.AbortAndComplete` | crates/core/src/helpers/corpus_processor.rs:195-211 | After the abort branch every polled definition has exactly one report and Completion is sent |
| `CompletionTracker.AnnouncedExactlyOnce` | crates/report/src/aggregator.rs:223-261 | For well-formed histories the completion event of a group is sent exactly once, at its last terminal event, with exactly the discovered items and their statuses, and the `expect` never fires; at every earlier point nothing has been sent |
| `CompletionTracker.PanicIff` | crates/report/src/aggregator.rs:223-250 | For every history at all: the aggregator panics exactly when some terminal event leaves its group nothing to await while an item of the group has been touched and not reported |
| `CompletionTracker.AnnouncedOnceIff` | crates/report/src/aggregator.rs:164-261 | With discoveries at any time, before, between and behind reports: a group is announced exactly once and with everything in it exactly when it is complete, something of it was reported, and nothing of it was discovered after all discovered before had been reported |
| `CompletionTracker.AwaitedIff` | crates/report/src/aggregator.rs:164-232 | For every history: an item is awaited exactly when it has been discovered and not reported since |
| `CompletionTracker.EmptyExactlyAtLast` | crates/report/src/aggregator.rs:223-232 | The awaited set of a group is empty after a terminal event exactly when it was the group's last one and all discovered items are reported |
| `CompletionTracker.FinalEntries` | crates/report/src/aggregator.rs:234-250 | At its last terminal event the group's reports are exactly the discovered items, each with its status |
| `CompletionTracker.RemainingOfPrefix` | crates/report/src/aggregator.rs:608-615 | The awaited set is the discovered items without the terminated ones |
| `CompletionTracker.ReportsOfPrefix` | crates/report/src/aggregator.rs:524-535 | The reported statuses are those of the terminal events received |
| `CompletionTracker.NoTouchNoPanic` | crates/report/src/aggregator.rs:411-416 | A history without updates to unreported items never panics |
| `CompletionTracker.NoTouchAllReported` | crates/report/src/aggregator.rs:411-416 | Without such updates every entry of a group has a status |
| `ReportAggregator.EachGroupIsAnnouncedOnce` | crates/report/src/aggregator.rs:164-261 | Over a whole run of the aggregator on well-formed events: no panic, and exactly the due completion events for every (file, mode) and for every file's compilation modes |
| `ReportAggregator.EveryRunIsConsistent` | crates/report/src/aggregator.rs:57-120 | Over every run the nested maps and the events sent are what the history functions say |
| `ReportAggregator.HandlesUpToCompletion` | crates/report/src/aggregator.rs:57-120 | Events are handled in order up to the first Completion or a panic |
| `ReportAggregator.CaseDiscoveryKeeps` | crates/report/src/aggregator.rs:164-171 | Discovering a case adds it to the awaited set of its file and mode only |
| `ReportAggregator.ExecutionUpdateKeeps` | crates/report/src/aggregator.rs:524-547 | An execution update creates at most an empty entry for its case and mode |
| `ReportAggregator.TestFinishedKeeps` | crates/report/src/aggregator.rs:186-221 | A terminal event removes the case from the awaited set and stores its status, for its file and mode only |
| `ReportAggregator.PostTestCaseStep` | crates/report/src/aggregator.rs:223-261 | The completion event is sent, or the panic happens, exactly when the history says so |
| `ReportAggregator.CompilationDiscoveryKeeps` | crates/report/src/aggregator.rs:173-184 | Discovering a compilation mode adds it to the file's awaited set only |
| `ReportAggregator.CompilationFinishedKeeps` | crates/report/src/aggregator.rs:363-391 | A compilation result is stored and its mode is no longer awaited |
| `ReportAggregator.PostCompilationStep` | crates/report/src/aggregator.rs:393-430 | The compilation event is sent exactly when no mode is awaited, with the status of every reported mode, and never panics |
| `ReportAggregator.ReportAggregator.HandleTestCaseDiscovery` | crates/report/src/aggregator.rs:164-171 | The handler in place, equal to its value function |
| `ReportAggregator.ReportAggregator.HandleExecutionUpdate` | crates/report/src/aggregator.rs:524-547 | The handler in place, equal to its value function |
| `ReportAggregator.ReportAggregator.HandleTestFinished` | crates/report/src/aggregator.rs:186-221 | The three terminal handlers in place, equal to their value function |
| `ReportAggregator.ReportAggregator.HandlePostTestCaseStatusUpdate` | crates/report/src/aggregator.rs:223-261 | The status update in place, equal to its value function |
| `ReportAggregator.ReportAggregator.HandleCompilationDiscovery` | crates/report/src/aggregator.rs:173-184 | The handler in place, equal to its value function |
| `ReportAggregator.ReportAggregator.HandleCompilationFinished` | crates/report/src/aggregator.rs:363-391 | The compilation handlers in place, equal to their value function |
| `ReportAggregator.ReportAggregator.HandlePostCompilationStatusUpdate` | crates/report/src/aggregator.rs:393-430 | The compilation status update in place, equal to its value function |
| `ReportAggregator.ReportAggregator.Aggregate` | crates/report/src/aggregator.rs:57-120 | The receive loop, equal to handling the events one by one |
| `TestPipeline.EveryStartedGroupAnnouncedOnce` | crates/report/src/aggregator.rs:223-261 | Scheduler and aggregator together, with any definitions ignored before the run: after any completed corpus run each (file, mode) whose tasks were all polled is announced exactly once with exactly its cases, every other group not at all, and nothing panics |
| `TestPipeline.EveryGroupAnnounced` | crates/core/src/differential_tests/entry_point.rs:73-103 | With fail-fast off, or at most 30 definitions reaching the corpus run, or a limit of one, every discovered group is announced exactly once with all its cases |
| `TestPipeline.SomeGroupUnannounced` | crates/core/src/helpers/corpus_processor.rs:93-206 | In every other configuration some run leaves a discovered group without any announcement |
| `TestPipeline.AnnouncedAsProcessed` | crates/report/src/aggregator.rs:223-261 | What is announced of a case is what happened to its definition: succeeded or failed exactly as processing it did, ignored exactly if it was not processed, or what was reported before the run |
| `TestPipeline.RunReportsNameTasks` | crates/core/src/helpers/corpus_processor.rs:93-211 | The reports of a completed run are of its tasks |
| `TestPipeline.ReceivedIsWellFormed` | crates/report/src/aggregator.rs:164-221 | What a corpus run sends, mixed with execution updates in any way, is a well-formed history |
| `TestPipeline.CompleteIffAllReported` | crates/report/src/aggregator.rs:223-232 | A group is complete exactly when each of its definitions was reported |
| `TransactionSubmission.MempoolPermitsConserved` | crates/node-interaction/src/connector.rs:353-413 | In every reachable state free permits, permits held by senders, permits in the channel and awaited entries are 10,000 |
| `TransactionSubmission.ReleasedOnceAfterBoth` | crates/node-interaction/src/connector.rs:1776-1819 | The `unreachable!` arm is never reached; a transaction's permit is released exactly once, when it was both observed and seen in a block, in either order |
| `TransactionSubmission.HandedOverIsSubmitted` | crates/node-interaction/src/connector.rs:350-413 | Handed to the limiter are exactly the transactions of the finished sends: with the account and payload that were to be sent and the nonce submitted for that account |
| `TransactionSubmission.SentPermitReleased` | crates/node-interaction/src/connector.rs:405-413 | The permit of a finished send has been released exactly once when the very transaction it submitted has been in a block and its observation has left the channel, and not before; it is parked exactly while only the block is missing |
| `TransactionSubmission.BlockBringsPermitBack` | crates/node-interaction/src/connector.rs:1785-1796 | Once the hand-over of a finished send has been received, the next block with its transaction brings exactly its permit back, unless an earlier block has |
| `TransactionSubmission.NoncesInOrder` | crates/node-interaction/src/connector.rs:1952-1981 | The nonces issued to an account are 0, 1, 2, ... whoever asks, and the transactions of an account whose sends exclude each other reach the submission call in strictly increasing nonce order |
| `TransactionSubmission.UnnamedSendsOvertake` | crates/node-interaction/src/connector.rs:350-412 | Otherwise some run submits two transactions of the account in the wrong order: a send without a `from` takes no account lock |
| `TransactionSubmission.OrderedIffSerial` | crates/node-interaction/src/connector.rs:350-412 | So the order is sure exactly when at most one transaction of the account is sent, or all of them name their sender, or there is a single submission permit |
| `TransactionSubmission.OnlyTheMempoolBlocks` | crates/node-interaction/src/connector.rs:350-396 | No circular wait: when no send can advance, all wait for mempool permits that are in the channel or awaited |
| `TransactionSubmission.HolderLeadsToProgress` | crates/node-interaction/src/connector.rs:363-396 | From any send holding a mempool permit the chain of waiting ends at a send that can advance |
| `TransactionSubmission.SubmissionWaitEnds` | crates/node-interaction/src/connector.rs:382-396 | A send waiting for a submission permit waits for one that can advance |
| `TransactionSubmission.HashIsFresh` | crates/node-interaction/src/connector.rs:409-413 | The hash handed to the limiter was never handed over before |
| `TransactionSubmission.ObserveOk` | crates/node-interaction/src/connector.rs:2176-2178 | Handing over a permit keeps the limiter's invariant |
| `TransactionSubmission.EncounterOk` | crates/node-interaction/src/connector.rs:1787-1796 | Seeing a transaction in a block keeps the limiter's invariant and its number of permits |
| `TransactionSubmission.EncounterAllOk` | crates/node-interaction/src/connector.rs:1785-1797 | So does a whole block, whose transactions all count as seen |
| `TransactionSubmission.ReceiveOk` | crates/node-interaction/src/connector.rs:1805-1817 | Receiving an observation keeps the invariant and the number of permits |
| `TransactionSubmission.StepKeepsMempoolPermits` | crates/node-interaction/src/connector.rs:353-413 | What an action takes from the senders' mempool permits it gives to the limiter, and conversely |
| `TransactionSubmission.StepKeepsSubmissionPermits` | crates/node-interaction/src/connector.rs:382-396 | Every action keeps free plus held submission permits |
| `TransactionSubmission.LocksUpdate` | crates/node-interaction/src/connector.rs:363-381 | An account stays locked by exactly its sender between lock and unlock |
| `TransactionSubmission.SubmitKeepsSubmitted` | crates/node-interaction/src/connector.rs:398-412 | A submission call comes with a nonce above all those submitted for its account |
| `TransactionSubmission.CachedZeroedNonceManager.GetNextNonce` | crates/node-interaction/src/connector.rs:1966-1979 | The next nonce of an address: zero at first, then one more each time |
| `TransactionSubmission.MempoolLimiter.SeeExtrinsic` | crates/node-interaction/src/connector.rs:1787-1796 | One extrinsic of a best block in place |
| `TransactionSubmission.MempoolLimiter.BestBlock` | crates/node-interaction/src/connector.rs:1785-1797 | All extrinsics of a block under one lock |
| `TransactionSubmission.MempoolLimiter.Serve` | crates/node-interaction/src/connector.rs:1765-1819 | Both background tasks over any sequence of hand-overs, blocks and receipts, each of them handled: no permit is lost, the dead arm stays dead, each permit is released exactly once when its hand-over was received and some block held its transaction |
| `TransactionSubmission.MempoolLimiter.ReceiveOne` | crates/node-interaction/src/connector.rs:1805-1817 | One message of the channel in place; its awaited arm is dead |
| `AsyncMap.NoLostWakeUp` | crates/common/src/futures/await_map.rs:28-117 | In every interleaving a waiting getter is ready exactly if its key has a value, and otherwise waits on the very notifier of the empty slot; values stay; no getter reaches `unreachable!` |
| `AsyncMap.SlotHoldsLastInsert` | crates/common/src/futures/await_map.rs:28-78 | In every run a key has a value exactly when it was inserted, alone or in a batch, and it is the one inserted last |
| `AsyncMap.ReturnedIsLastInsert` | crates/common/src/futures/await_map.rs:86-117 | A read that has returned was for its own key and returned the value last inserted for it before the half of the read that returned |
| `AsyncMap.InsertedKeyIsReadable` | crates/common/src/futures/await_map.rs:28-53 | Once a key has been inserted every waiting getter of it is ready, whatever happens afterwards |
| `AsyncMap.InsertWakesReaders` | crates/common/src/futures/await_map.rs:33-112 | At every point a key may be inserted, alone or in a batch, and then each pending read of it can take its next step and returns exactly the value inserted for it last |
| `AsyncMap.InsertOneKeeps` | crates/common/src/futures/await_map.rs:33-51 | An insert keeps the invariant and every value |
| `AsyncMap.InsertAllKeeps` | crates/common/src/futures/await_map.rs:60-78 | So does a batch, behind which each key named in it holds the value of its last item and every other slot is as before |
| `AsyncMap.StepKeepsInv` | crates/common/src/futures/await_map.rs:28-117 | So does every stretch of every task |
| `AsyncMap.AsyncHashMap.InsertValue` | crates/common/src/futures/await_map.rs:33-51 | The insert in place: slot, value, notification |
| `AsyncMap.AsyncHashMap.InsertValues` | crates/common/src/futures/await_map.rs:60-78 | The batch loop, with the same slots |
| `AsyncMap.AsyncHashMap.BeginGet` | crates/common/src/futures/await_map.rs:86-103 | The first half of a read |
| `AsyncMap.AsyncHashMap.EndGet` | crates/common/src/futures/await_map.rs:105-112 | The second half: a woken getter finds its value |
| `CachedCompiler.OneMutexOneCompilation` | crates/core/src/helpers/cached_compiler.rs:98-114 | A key keeps its mutex for ever, keys never share one, at most one request of a key is past its mutex |
| `CachedCompiler.StoredOnceIffNoStaleWrite` | crates/core/src/helpers/cached_compiler.rs:97-153 | For every run: a key is stored at most once, and not at all if it was cached from the start, exactly when no request stores it after failing to read it while it was in the cache |
| `CachedCompiler.StoredOnceReturnsOneOutput` | crates/core/src/helpers/cached_compiler.rs:97-153 | As long as that is so, all successful library-free requests for the key return the one cached output |
| `CachedCompiler.SingleFlight` | crates/core/src/helpers/cached_compiler.rs:97-153 | Hence, when stored entries can be read, at most one output is stored for a key, none if it was cached from the start, and all successful library-free requests return it |
| `CachedCompiler.LinkedReturnsItsAnswer` | crates/core/src/helpers/cached_compiler.rs:85-91 | For every run: a request with libraries succeeds exactly when the compiler answered it with an output, and returns that output; it fails exactly when the compiler failed or the request was dropped |
| `CachedCompiler.LinkedTouchesNothing` | crates/core/src/helpers/cached_compiler.rs:85-91 | What such a request does leaves the cache, the lock map and the mutexes alone |
| `CachedCompiler.UnlinkedReturnsHitOrAnswer` | crates/core/src/helpers/cached_compiler.rs:97-153 | A request without libraries that succeeded found its key, or was answered with what it returned and stored that; it fails exactly when the compiler or the write failed or it was dropped |
| `CachedCompiler.HitReturnsCached` | crates/core/src/helpers/cached_compiler.rs:116-131 | A request that found its key returns what the cache held for it at that moment |
| `CachedCompiler.CacheHoldsAnswers` | crates/core/src/helpers/cached_compiler.rs:132-153 | The cache holds what was on disk and, in order, the outputs stored since, each the compiler's answer to a request without libraries for that key |
| `CachedCompiler.StepKeepsLocks` | crates/core/src/helpers/cached_compiler.rs:98-114 | Every stretch keeps who holds which mutex |
| `CachedCompiler.Compiler.CompileContracts` | crates/core/src/helpers/cached_compiler.rs:97-153 | The next stretch of a request, from lock map to return, with the answers of its surroundings; nothing exactly when it has ended or another request holds its mutex |
| `CachedCompiler.Compiler.FindOrCreateMutex` | crates/core/src/helpers/cached_compiler.rs:104-112 | The lookup or insert under the write lock: a mutex another request has created meanwhile is used |
| `CachedCompiler.Compiler.ReadCache` | crates/core/src/helpers/cached_compiler.rs:116-131 | The lookup under the mutex: a hit ends the request with the stored output, a miss goes on to compile |
| `CachedCompiler.Compiler.TakeOutput` | crates/core/src/helpers/cached_compiler.rs:132-153 | The compiler's answer: stored next under the mutex, returned directly when libraries are given, or failing and freeing the mutex |
| `CachedCompiler.Compiler.Serve` | crates/core/src/helpers/cached_compiler.rs:85-153 | Any number of requests in any schedule, each turn taken, with any outcomes: requests with libraries return exactly what the compiler answered them; with readable entries each key is stored at most once and all its other requests return that output |
| `RepeatInterpreter.EveryRunMakesTheVisits` | crates/core/src/interpreter.rs:597-613 | However the forks of repeat steps interleave, a run visits the same steps the same number of times |
| `RepeatInterpreter.LeafRunsProductOfCounts` | crates/core/src/interpreter.rs:1064-1090 | A leaf runs as often as the product of its enclosing repeat counts, with receipts awaited as its innermost repeat asks; nothing else is visited |
| `RepeatInterpreter.OverriddenProductIsPower` | crates/core/src/interpreter.rs:1068-1068 | With the count overridden that product is override^depth |
| `RepeatInterpreter.WarmUpVisitsEachLeafOnce` | crates/core/src/interpreter.rs:371-418 | The warm-up run visits every leaf path of an arbitrarily nested program exactly once and awaits every receipt |
| `RepeatInterpreter.AwaitingKeepsLeaves` | crates/core/src/interpreter.rs:376-386 | Editing the receipt behaviour keeps all leaf paths and leaves no repeat that does not await |
| `RepeatInterpreter.OneEstimatePerPath` | crates/core/src/interpreter.rs:662-686 | A run asks for one estimate for each submitting path that is not cached yet, however often it is visited |
| `RepeatInterpreter.EstimatesAfterWarmUp` | crates/core/src/interpreter.rs:371-418 | After the warm-up the main run, for any counts and interleaving, asks for an estimate exactly for the paths it submits from that were not cached and did not submit in the warm-up; so for none exactly when there is no such path |
| `RepeatInterpreter.WarmUpCovers` | crates/core/src/interpreter.rs:371-418 | Every path a run visits the warm-up has visited |
| `RepeatInterpreter.NoEstimateAfterWarmUp` | crates/core/src/interpreter.rs:371-418 | In particular none when both runs submit from the same steps |
| `RepeatInterpreter.TurnBack` | crates/core/src/interpreter.rs:597-613 | One turn of any of the nested forks, followed by a run of what is left, is a run of what there was: advancing forks in any order makes an interleaving of their runs |
| `RepeatInterpreter.ShuffleIsPermutation` | crates/core/src/interpreter.rs:605-613 | An interleaving of two runs is a permutation of both |
| `RepeatInterpreter.Interpreter.GasLimit` | crates/core/src/interpreter.rs:662-686 | The cached limit, or a fresh estimate and a fifth more, which is cached; a failed estimate caches nothing |
| `RepeatInterpreter.Interpreter.InternalRunToCompletion` | crates/core/src/interpreter.rs:429-613 | Running the steps in order with the forks of each repeat step interleaved visit by visit, by any schedule: a legal run, or its beginning up to the first estimate that fails; all submissions go through the cache, with the estimates asked for in order, each cached limit its estimate and a fifth more, each visit submitted with it |
| `RepeatInterpreter.Interpreter.HandleGasWarmUp` | crates/core/src/interpreter.rs:371-418 | Nothing without gas caching, otherwise a warm-up run, which fails exactly when an estimate does |
| `RepeatInterpreter.Interpreter.RunToCompletion` | crates/core/src/interpreter.rs:352-418 | It fails exactly when an estimate asked for fails, and then during the warm-up; otherwise all estimates are made by the warm-up, one for each submitting leaf path not cached before, and each new entry of the cache is its estimate times 120/100 |
| `ForkMerge.OrderIndependentIffForksAgree` | crates/core/src/interpreter.rs:615-620 | A variable ends up the same for every completion order of the forks exactly when all forks holding it agree |
| `ForkMerge.NewVariableOfOneFork` | crates/core/src/interpreter.rs:615-620 | In particular when the parent does not have it and one fork at most writes it |
| `ForkMerge.ParentVariable` | crates/core/src/interpreter.rs:1083-1086 | A variable of the parent is order independent exactly when all forks end with the same value of it |
| `ForkMerge.StaleCopyUndoesAssignments` | crates/core/src/interpreter.rs:615-620 | A fork that does not write such a variable and finishes last restores the parent's value |
| `ForkMerge.LostUpdate` | crates/core/src/interpreter.rs:615-620 | A concrete lost update |
| `ForkMerge.MergedValue` | crates/core/src/interpreter.rs:615-620 | A merged variable has the value of some fork holding it, or the parent's if none does |
| `ForkMerge.Interpreter.HandleForks` | crates/core/src/interpreter.rs:597-624 | Taking forks in completion order up to the first failing one: tasks always, variables and contracts only when consolidating |
| `CallFrameLogs.FlattenRecoversExecutionOrder` | crates/core/src/interpreter.rs:1679-1701 | Flattening the trace of any call tree gives its logs in execution order without failed or reverted subtrees |
| `CallFrameLogs.FlattenIsPermutation` | crates/core/src/interpreter.rs:1679-1701 | For arbitrary positions the result is a permutation of all logs with no failed ancestor |
| `CallFrameLogs.NoPositionIsZero` | crates/core/src/interpreter.rs:1683-1687 | A log without a position counts as one in front of all sub-calls not flattened yet |
| `CallFrameLogs.FlattenCallFrameLogs` | crates/core/src/interpreter.rs:1679-1701 | The loop computes the flattening |
| `CallFrameLogs.FlattenChildrenBefore` | crates/core/src/interpreter.rs:1687-1690 | The inner loop flattens exactly the sub-calls made before the next log |
| `Word256.BitwiseAt` | crates/format/src/steps.rs:659-661 | Each bit of and, or and exclusive or depends on the same bit of the operands |
| `Word256.ShiftsMoveBits` | crates/format/src/steps.rs:662-667 | Shifts move every bit by the distance, dropping what leaves the word |
| `Word256.LongShiftsVanish` | crates/format/src/steps.rs:662-667 | Shifts by a word or more give zero |
| `Word256.Quotient` | crates/format/src/steps.rs:658-658 | Division rounds down |
| `Word256.ArithmeticIsExact` | crates/format/src/steps.rs:654-658 | Sums, differences and products are exact or fail, below zero or beyond 256 bits; division rounds down and fails exactly by zero |
| `Word256.BitwiseIsExact` | crates/format/src/steps.rs:659-661 | And, or and exclusive or on any two words, bit by bit |
| `Word256.BitIsDigit` | crates/format/src/steps.rs:659-667 | Bit i of a number is its binary digit of weight 2^i |
| `CalldataStack.ResolvePostfix` | crates/format/src/steps.rs:636-692 | The postfix tokens of any tree resolve to its checked 256-bit value and fail exactly when the tree does |
| `CalldataStack.RunPostfix` | crates/format/src/steps.rs:638-672 | Running them pushes the value on any stack |
| `CalldataStack.ResolvesIffPostfix` | crates/format/src/steps.rs:636-692 | A non-empty token list resolves to a value exactly when it is the postfix form of a tree with that value, and of one tree at most |
| `CalldataStack.PostfixIsInjective` | crates/format/src/steps.rs:636-672 | Different trees have different tokens |
| `CalldataStack.RunBuildsTrees` | crates/format/src/steps.rs:638-672 | A stack reached from the empty one holds the values of trees whose tokens are those consumed |
| `CalldataText.ResolveTextOfTree` | crates/format/src/steps.rs:694-708 | Writing a tree with spaces and resolving the text gives the tree's value, and fails exactly when it has none |
| `CalldataText.ResolvingTextIsOneTree` | crates/format/src/steps.rs:636-708 | A text resolves to a value exactly when it is the written form of one tree with that value |
| `CalldataText.TokensOfText` | crates/format/src/steps.rs:694-708 | Tokens read back from their text are the same |
| `CalldataText.TextOfTokens` | crates/format/src/steps.rs:694-708 | Every text is that of its tokens |
| `CalldataText.SplitJoin` | crates/format/src/steps.rs:695-695 | Splitting a joined text gives the parts back |
| `CalldataText.JoinSplit` | crates/format/src/steps.rs:695-695 | Joining the parts of a text gives it back |
| `CalldataText.LiteralIsTwosComplement` | crates/format/src/steps.rs:793-803 | Decimal literals up to 2^256-1 mean themselves, negative ones down to -2^255 their two's complement, all others and `-0` fail |
| `CalldataText.HexLiteral` | crates/format/src/steps.rs:793-803 | A literal behind 0x is read as its number in base 16, and fails beyond 256 bits |
| `CalldataText.NamesAreLookedUp` | crates/format/src/steps.rs:709-725 | Which names stand for a value that is looked up instead of being read as a literal: addresses, the chain's and the transaction's figures, variables |
| `CalldataText.WrittenArithmetic` | crates/format/src/steps.rs:636-708 | As text, `a b +`, `a b -`, `a b *` and `a b /` resolve to the exact sum, difference, product and rounded-down quotient of any two decimals, the left operand first, or fail exactly when there is none |
| `CalldataText.WrittenAnd` | crates/format/src/steps.rs:659-708 | `a b &` resolves to the bitwise and of a and b |
| `CalldataText.WrittenOr` | crates/format/src/steps.rs:660-708 | `a b |` resolves to their bitwise or |
| `CalldataText.WrittenXor` | crates/format/src/steps.rs:661-708 | `a b ^` resolves to their bitwise exclusive or |
| `CalldataText.WrittenShifts` | crates/format/src/steps.rs:662-708 | `a b <<` and `a b >>` move the bits of a by b, and fail exactly when b does not fit 64 bits |
| `CalldataText.ResolveCalldataItem` | crates/format/src/steps.rs:636-692 | The loop over tokens, resolving items as it goes |
| `Calldata.EncodeIsWords` | crates/format/src/steps.rs:563-591 | Resolved calldata fills exactly the space reserved, item by item the big-endian word of its value |
| `Calldata.EncodeFails` | crates/format/src/steps.rs:572-581 | It resolves exactly when all items do |
| `Calldata.CalldataIntoSlice` | crates/format/src/steps.rs:563-584 | The loop appends the words, stopping at the first item that fails |
| `Calldata.WordByte` | crates/format/src/steps.rs:577-577 | Byte 31 - j of a word is its j-th digit to the base of 256 |
| `Calldata.WordRoundTrip` | crates/format/src/steps.rs:577-577 | A word read back from its bytes is the same |
| `Calldata.IsEquivalent` | crates/format/src/steps.rs:593-629 | Bytes are compared; items give true or an error, never false |
| `Calldata.CompareItems` | crates/format/src/steps.rs:601-627 | The loop compares every item that has a chunk |
| `Calldata.EquivalentToOwnBytes` | crates/format/src/steps.rs:593-629 | Data encodes the items exactly when it is equivalent, has as many words as items, and no item is a wildcard |
| `Calldata.WildcardHasNoBytes` | crates/format/src/steps.rs:602-604 | A wildcard cannot be encoded |
| `Calldata.ExtraDataIsAccepted` | crates/format/src/steps.rs:601-601 | Data behind the last item is not compared |
| `Calldata.MissingDataIsAccepted` | crates/format/src/steps.rs:601-601 | Items without data are not compared |
| `VariableTemplate.ExpandSubstitutes` | crates/format/src/steps.rs:902-935 | Expanding a written template replaces each inner name by its decimal value, and nothing the values put in; it fails exactly on an empty or unknown name |
| `VariableTemplate.OneInnerName` | crates/format/src/steps.rs:902-935 | `$VARIABLE:` and a name, between texts, is replaced by the variable's value in decimal, and fails exactly without a name or a value |
| `VariableTemplate.EveryTextIsATemplate` | crates/format/src/steps.rs:902-935 | Every text is the written form of a template |
| `VariableTemplate.FindAfterText` | crates/format/src/steps.rs:908-909 | The first mark is found right behind a text without one |
| `VariableTemplate.ExpandTemplate` | crates/format/src/steps.rs:906-934 | The loop computes the expansion |
| `VariableTemplate.ResolveVariableNameTemplate` | crates/format/src/steps.rs:902-935 | The result is the substitution in the template the text stands for |
| `Watcher.AllObservedIsSafe` | crates/core/src/differential_benchmarks/watcher.rs:48-168 | In every interleaving, leaving because all transactions were observed implies that each hash submitted between the start event and completion is in an observed block, and that the observed blocks are the delivered ones from the threshold on |
| `Watcher.GivesUpAtThirtyEmptyBlocks` | crates/core/src/differential_benchmarks/watcher.rs:136-143 | Between two blocks the watcher has given up exactly when the last thirty blocks kept are empty |
| `Watcher.RunRecords` | crates/core/src/differential_benchmarks/watcher.rs:48-106 | The channel has carried exactly the events sent and the subscription exactly the blocks of the run, in order |
| `Watcher.NextBlockEndsTheWatch` | crates/core/src/differential_benchmarks/watcher.rs:152-160 | With submission complete and everything observed the next kept block ends the watch |
| `Watcher.StepKeepsWatchedInv` | crates/core/src/differential_benchmarks/watcher.rs:66-84 | The watched set is what was submitted since the start event, but for the hash being inserted |
| `Watcher.StepKeepsCompletionInv` | crates/core/src/differential_benchmarks/watcher.rs:85-89 | The flag is set exactly by the first completion event, behind which nothing is read |
| `Watcher.StepKeepsBlocksInv` | crates/core/src/differential_benchmarks/watcher.rs:106-150 | Observed hashes and blocks are those of the blocks kept |
| `Watcher.Watcher.ReceiveWhileAwaitingStart` | crates/core/src/differential_benchmarks/watcher.rs:48-55 | The start loop drops everything before the start event |
| `Watcher.Watcher.Receive` | crates/core/src/differential_benchmarks/watcher.rs:66-89 | Taking an event |
| `Watcher.Watcher.ReceiveBlock` | crates/core/src/differential_benchmarks/watcher.rs:106-118 | Ignoring a block or recording its hashes |
| `Watcher.Watcher.RecordBlock` | crates/core/src/differential_benchmarks/watcher.rs:136-150 | Counting empty blocks, giving up, recording the block |
| `Watcher.Watcher.RunConsumer` | crates/core/src/differential_benchmarks/watcher.rs:66-89 | A turn of the consumer is one enabled action of it, up to its next await, and nothing only when it waits for the channel or has ended |
| `Watcher.Watcher.RunBlockTask` | crates/core/src/differential_benchmarks/watcher.rs:100-160 | A turn of the block task is one enabled action of it, and nothing only before the start event and behind its end |
| `Watcher.Watcher.Run` | crates/core/src/differential_benchmarks/watcher.rs:41-168 | Both loops and the sender interleaved by any schedule, each turn taken: leaving because everything was observed means that each hash submitted between start and completion is in an observed block, and the watcher has given up exactly after thirty empty blocks in a row |
| `ModeLanguage.ParsePrint` | crates/common/src/types/mode.rs:323-430 | Parsing the printed form of any mode that has one returns it, for any single-comparator version |
| `ModeLanguage.ParsePrintParse` | crates/common/src/types/mode.rs:323-430 | Hence printing and parsing a parsed mode changes nothing |
| `ModeLanguage.ParsedIsValid` | crates/common/src/types/mode.rs:325-390 | A parsed mode has a flag only behind a pipeline and a well-formed version |
| `ModeLanguage.WrittenMode` | crates/common/src/types/mode.rs:393-430 | How every combination of pipeline, flag, level and optimizer setting reads, letter by letter |
| `ModeLanguage.WrittenComparison` | crates/common/src/types/mode.rs:393-430 | How each comparator of a version reads |
| `ModeLanguage.ReadNumberIff` | crates/common/src/types/mode.rs:375-381 | A version number is read exactly from its decimal form, without leading zeros and below 2^64, up to the first character that is not a digit |
| `ModeLanguage.ReadRequirementOfText` | crates/common/src/types/mode.rs:375-381 | A printed version requirement is read back |
| `ModeLanguage.ReadBackPipeline` | crates/common/src/types/mode.rs:354-361 | The pipeline and its flag are read back |
| `ModeLanguage.ReadBackLevel` | crates/common/src/types/mode.rs:363-369 | The level is read back |
| `ModeLanguage.ReadBackOptimizer` | crates/common/src/types/mode.rs:371-373 | The optimizer setting is read back |
| `ModeLanguage.Display` | crates/common/src/types/mode.rs:393-430 | The step-by-step printer writes exactly that form |
| `ModeExpansion.ToModesIsExact` | crates/common/src/types/mode.rs:482-536 | The expansion lists, without repeats, exactly the modes meeting the constraints, M and S overriding the flag |
| `ModeExpansion.SettingsAre` | crates/common/src/types/mode.rs:488-524 | The optimizer settings expanded are exactly those allowed, each once |
| `ModeExpansion.ReadModePrintMode` | crates/common/src/types/mode.rs:26-52 | Reading the printed form of a concrete mode returns it |
| `ModeExpansion.PrintModeIsInjective` | crates/common/src/types/mode.rs:14-24 | Modes ordered by text compare equal only when they are |
| `ModeExpansion.ReadModeIffSpecified` | crates/common/src/types/mode.rs:41-52 | A text is a concrete mode exactly when it gives pipeline, level and optimizer |
| `ModeExpansion.AllowsWhatWasParsed` | crates/common/src/types/mode.rs:557-616 | An allow-list allows exactly what one of its parsed modes asks for, versions ignored; an empty one everything |
| `ModeExpansion.ManyToModesIs` | crates/common/src/types/mode.rs:540-545 | The union of expansions is what one of the parsed modes asks for |
| `ReportMerge.MergeIsAssociativeAndIdempotent` | crates/report-processor/src/main.rs:136-219 | Merging whole reports is associative and idempotent |
| `ReportMerge.MergeExecutionIsLawful` | crates/report-processor/src/main.rs:169-215 | So is merging execution reports, with the empty one as left identity |
| `ReportMerge.MergeFileIsLawful` | crates/report-processor/src/main.rs:149-217 | So is merging file reports |
| `ReportMerge.MergeWithLaws` | crates/report-processor/src/main.rs:149-215 | Entry-by-entry merging inherits these laws |
| `ReportMerge.MergeInBatches` | crates/report-processor/src/main.rs:136-219 | Reports may be merged in batches |
| `ReportMerge.ExecutionKeysSurvive` | crates/report-processor/src/main.rs:181-183 | A (file, case, mode, platform) execution is in the result exactly when it is in an input, with the last input's value |
| `ReportMerge.MergedFields` | crates/report-processor/src/main.rs:169-215 | Field by field over all inputs: status and steps of the first report having them; metrics, executions, mined blocks, addresses and contract sizes of the last |
| `ReportMerge.FirstWins` | crates/report-processor/src/main.rs:169-215 | What merging two reports takes from the first is that of the first of all reports having it |
| `ReportMerge.LastWins` | crates/report-processor/src/main.rs:169-215 | What merging two reports takes from the second is that of the last of all reports having it |
| `ReportMerge.OneInputDecidesBoth` | crates/report-processor/src/main.rs:169-183 | For all reports: the merged status and the merged execution on a platform come from one input exactly when the first input with a status is the last one with an execution on that platform |
| `ReportMerge.StatusComesFromFirst` | crates/report-processor/src/main.rs:174-176 | The merged status depends on an input exactly when it is the first with one |
| `ReportMerge.ExecutionComesFromLast` | crates/report-processor/src/main.rs:181-183 | The merged execution on a platform depends on an input exactly when it is the last with one |
| `ReportMerge.FirstOfIsFirst` | crates/report-processor/src/main.rs:174-176 | The first of the values there are, as a position |
| `ReportMerge.LastOfIsLast` | crates/report-processor/src/main.rs:181-183 | The last of the values there are, as a position |
| `ReportMerge.MergedFiles` | crates/report-processor/src/main.rs:138-160 | Context and compilation reports are first-wins, metadata files are united |
| `ReportMerge.MergeExecutionEntries` | crates/report-processor/src/main.rs:174-215 | Merging one execution entry in place |
| `ReportMerge.MergeCompiledContracts` | crates/report-processor/src/main.rs:188-200 | The loop over compiled contracts |
| `ReportMerge.MergeAddresses` | crates/report-processor/src/main.rs:202-208 | The loop over contract addresses |
| `ReportMerge.InsertMissing` | crates/report-processor/src/main.rs:210-215 | The loop that keeps what is there |
| `ReportMerge.MergeModes` | crates/report-processor/src/main.rs:168-216 | The loop over modes |
| `ReportMerge.MergeCases` | crates/report-processor/src/main.rs:162-217 | The loop over cases |
| `ReportMerge.MergeFiles` | crates/report-processor/src/main.rs:149-218 | The loop over files |
| `ReportMerge.MergeReports` | crates/report-processor/src/main.rs:136-219 | The whole arm: an error without reports, otherwise the merge in order |
| `BlockMetrics.TransactionsConserved` | crates/report/src/aggregator.rs:969-1156 | The counts of the metrics sum to the transactions of all blocks |
| `BlockMetrics.TrimmedIsUnique` | crates/report/src/aggregator.rs:971-983 | Trimming is the only way to cut empty blocks off both ends |
| `BlockMetrics.TrimmedSplit` | crates/report/src/aggregator.rs:971-983 | Only empty blocks are cut off, and the ends left are not empty |
| `BlockMetrics.MetricsUnlessAllEmpty` | crates/report/src/aggregator.rs:980-983 | There are no metrics exactly when all blocks are empty |
| `BlockMetrics.OnlyTheFirstLacksRates` | crates/report/src/aggregator.rs:1013-1038 | Only the first record lacks rates; substrate rates also need the substrate's figures |
| `BlockMetrics.RatesConserveTransactions` | crates/report/src/aggregator.rs:1013-1038 | Over the time each spans the rates add up to the transactions behind the first block |
| `BlockMetrics.BlockCapacities` | crates/report/src/aggregator.rs:1070-1120 | Each of a block's five capacities is the largest number of average transactions that still fits its own resource, whenever there is room and the quotient fits 64 bits |
| `BlockMetrics.CapacityFits` | crates/report/src/aggregator.rs:1070-1120 | used + capacity * average <= limit < used + (capacity + 1) * average, for gas and for the substrate's four capacities |
| `BlockMetrics.NoCapacity` | crates/report/src/aggregator.rs:1070-1120 | A block at its limit or with an average of zero has no capacity |
| `BlockMetrics.FullnessIsPercentage` | crates/report/src/aggregator.rs:1040-1042 | Fullness is the percentage used, rounded down |
| `BlockMetrics.MetricsDescribeBlock` | crates/report/src/aggregator.rs:987-1156 | Every figure of a record is that of its own block: number, times and their distance from the first block, counts, pending; gas, reference time and proof size used of their own limits with the rounded-down percentage; and rates that come to the block's figures over the time since the block before, zero if there was none |
| `BlockMetrics.ByNumberIsStableSort` | crates/report/src/aggregator.rs:468-472 | Sorting keeps the blocks and the order of equal numbers |
| `BlockMetrics.RelativeNumbersDoNotWrap` | crates/report/src/aggregator.rs:1124-1124 | With sorted blocks the relative number is the difference |
| `BlockMetrics.MetricsOfPlatforms` | crates/report/src/aggregator.rs:461-484 | A platform gets metrics exactly when some block has a transaction, none of which is lost |
| `BlockMetrics.ComputeMetricsInformation` | crates/report/src/aggregator.rs:969-1156 | The loops compute one record per block between the first and last non-empty one |
| `BlockMetrics.Trim` | crates/report/src/aggregator.rs:971-985 | The search for both ends |
| `BlockMetrics.ExecutionReport.HandleMetricsComputation` | crates/report/src/aggregator.rs:461-484 | All platforms: sorted in place, metrics added |
| `OpcodeProfile.ProfileConserves` | crates/node-interaction/src/opcode_profile.rs:125-180 | The opcodes account for all steps; with the residual they are the consumed weight exactly when the steps do not exceed it, per component |
| `OpcodeProfile.ProfileIsUnique` | crates/node-interaction/src/opcode_profile.rs:154-159 | A trace has one profile, whatever the hash-map order |
| `OpcodeProfile.AccumulateKeepsSum` | crates/node-interaction/src/opcode_profile.rs:132-144 | Accumulating by opcode loses and adds nothing |
| `OpcodeProfile.AccumulatedOfOp` | crates/node-interaction/src/opcode_profile.rs:132-144 | What is accumulated for an opcode is the sum of its own rows, and nothing for an opcode without rows |
| `OpcodeProfile.ProfileByOpcode` | crates/node-interaction/src/opcode_profile.rs:125-159 | A profile has a row for exactly the opcodes of the trace, with the number of their own steps and what these cost |
| `OpcodeProfile.ProfileInOrder` | crates/node-interaction/src/opcode_profile.rs:154-159 | The rows come by reference time, heavier first, the same by opcode |
| `OpcodeProfile.SortIsOrderIndependent` | crates/node-interaction/src/opcode_profile.rs:154-159 | The row order does not depend on the order of the hash map |
| `OpcodeProfile.SortedIsUnique` | crates/node-interaction/src/opcode_profile.rs:154-159 | Rows in order are determined by their members |
| `OpcodeProfile.FromExecutionTrace` | crates/node-interaction/src/opcode_profile.rs:125-180 | The loop over steps and the sort |
| `OpcodeProfile.SummaryConserves` | crates/core/src/differential_benchmarks/tx_profiler.rs:164-225 | The summary's rows conserve count, ref time and proof size over all profiled traces |
| `OpcodeProfile.SummaryIsUnique` | crates/core/src/differential_benchmarks/tx_profiler.rs:186-186 | Profiles have one summary, whatever the hash-map order |
| `OpcodeProfile.TopRowsKeepSum` | crates/core/src/differential_benchmarks/tx_profiler.rs:188-215 | The top rows and Other have the sum of all rows |
| `OpcodeProfile.TopRowsAreHeaviest` | crates/core/src/differential_benchmarks/tx_profiler.rs:186-197 | An opcode without a row of its own weighs no more than any with one |
| `OpcodeProfile.SummaryRows` | crates/core/src/differential_benchmarks/tx_profiler.rs:186-215 | A summary has at most 65 rows, of which the last is the one shared exactly if it is behind 64 others |
| `OpcodeProfile.FailedAreCounted` | crates/core/src/differential_benchmarks/tx_profiler.rs:166-166 | The failed profiles are counted |
| `OpcodeProfile.AggregateToSummary` | crates/core/src/differential_benchmarks/tx_profiler.rs:164-225 | The loops over profiles and rows |
| `OpcodeProfile.TakeTop` | crates/core/src/differential_benchmarks/tx_profiler.rs:188-215 | The first 64 rows and one row for the others |
| `Sampling.IndicesAreEven` | crates/core/src/differential_benchmarks/tx_profiler.rs:88-91 | Picks run from first to last, strictly forward, with gaps of floor((n-1)/(k-1)) or one more |
| `Sampling.IndexIncreasing` | crates/core/src/differential_benchmarks/tx_profiler.rs:88-91 | The indices are strictly increasing |
| `Sampling.PicksAreASubsequence` | crates/core/src/differential_benchmarks/tx_profiler.rs:74-91 | A group's picks are min(n, k) of its transactions in inclusion order |
| `Sampling.SampleHoldsPicks` | crates/core/src/differential_benchmarks/tx_profiler.rs:48-72 | The sample holds of each step path exactly the picks of its group |
| `Sampling.SampleSize` | crates/core/src/differential_benchmarks/tx_profiler.rs:48-72 | The sample has the sum of min(n, k) entries; none for size zero |
| `Sampling.LargeSampleTakesAll` | crates/core/src/differential_benchmarks/tx_profiler.rs:79-82 | A large sample size takes everything |
| `Sampling.SampleOneGroup` | crates/core/src/differential_benchmarks/tx_profiler.rs:74-91 | The loop over one group |
| `Sampling.GroupByStep` | crates/core/src/differential_benchmarks/tx_profiler.rs:60-63 | Grouping in insertion order |
| `Sampling.SampleWatchedTxs` | crates/core/src/differential_benchmarks/tx_profiler.rs:48-72 | The whole selection, both modes |
| `DirectoryWalk.EachFileOnce` | crates/common/src/iterators/files_with_extension_iterator.rs:52-87 | On any finite tree with distinct names each matching file below readable directories is found exactly once, and nothing else |
| `DirectoryWalk.FoundBelow` | crates/common/src/iterators/files_with_extension_iterator.rs:71-85 | What is found lies below the directory |
| `DirectoryWalk.ExtensionIsBehindLastDot` | crates/common/src/iterators/files_with_extension_iterator.rs:74-79 | The extension of a name is what stands behind its last dot, exactly if something stands in front of the dot and the name is not `..` |
| `DirectoryWalk.CaseIsIgnored` | crates/common/src/iterators/files_with_extension_iterator.rs:76-79 | Extensions compare equal exactly when their characters do, but for the case of ASCII letters |
| `DirectoryWalk.FilesWithExtensionIterator.Next` | crates/common/src/iterators/files_with_extension_iterator.rs:52-87 | Yields one of the remaining files, pending ones last-in first-out, none exactly at the end; terminates by the size of the unvisited tree |
| `DirectoryWalk.FilesWithExtensionIterator.SearchNextDirectory` | crates/common/src/iterators/files_with_extension_iterator.rs:57-69 | Taking a directory off the stack keeps the remaining files, unreadable ones holding none |
| `DirectoryWalk.FilesWithExtensionIterator.SearchEntries` | crates/common/src/iterators/files_with_extension_iterator.rs:71-85 | The loop over entries keeps the remaining files |
| `DirectoryWalk.FilesWithExtensions` | crates/common/src/iterators/files_with_extension_iterator.rs:25-87 | The whole search below a root for a set of extensions: each matching file exactly once, whatever the order |
| `DirectoryWalk.FilesWithExtensionIterator.Collect` | crates/common/src/iterators/files_with_extension_iterator.rs:52-87 | Running to the end yields each remaining file as often as it was there |

## Left out

- TransactionSubmission.NoncesInOrder: no send comes with a preset nonce, which would bypass the nonce manager.
- TransactionSubmission.OnlyTheMempoolBlocks: assumes a submission limit above zero and that preparing and submitting a transaction end.
- TransactionSubmission.ReleasedOnceAfterBoth: transaction hashes are taken to be collision-free.
- CachedCompiler.StoredOnceIffNoStaleWrite: which reads of stored entries fail is arbitrary; the on-disk format, the limit of 100 concurrent compilations and the compilation reports are not modelled.
- CompletionTracker.AnnouncedOnceIff: that the events of an item name one discovered before, and that an item is terminated once, are preconditions; the joined model proves them of the scheduler.
- RepeatInterpreter.EstimatesAfterWarmUp: which steps submit in either run is an arbitrary set of paths; deployments made while an address is resolved count as submissions of their step, and a repeat step contributes none of its own.
- RepeatInterpreter.Interpreter.RunToCompletion: one set of submitting paths serves both runs of the method; forks are interleaved visit by visit, and what a visit itself waits for is not modelled.
- ModeLanguage.ParsePrint: a version requirement is one comparator with up to three numbers, the only form the mode grammar can hold; a bare version prints with a caret, as the code's library does.
- BlockMetrics.RatesConserveTransactions: rates are exact numbers; floating-point rounding is not modelled.
- BlockMetrics.CapacityFits: sums and products of 128-bit amounts do not overflow; relative timestamps wrap as 64-bit differences do.
- OpcodeProfile.ProfileConserves: additions of weights and counts do not overflow.
- DirectoryWalk.EachFileOnce: the tree is finite and does not change; cycles of symbolic links are not modelled.
- CalldataText.LiteralIsTwosComplement: digits are read as the 256-bit integer library reads them, which skips underscores and takes an empty text for zero.
- CalldataText.ResolveCalldataItem: what names stand for (chain, block, receipt and interpreter variables, addresses, random addresses) is an arbitrary answer of the context by position; block-hash offsets are not modelled.
- CorpusProcessor.AlwaysReportedIff: the polling order is that of the joined future of futures-util 0.3.31; the cooperative budget of the async runtime, which could end a poll earlier, is not modelled.
- The fairness of semaphores and mutexes: any waiter may be served next.
- The compile-only definition processor, which reports from inside its processing function.
- Running compilers and nodes, subscriptions, traces, HTTP, command line, configuration, logging and monitoring tasks.
- Assertions on receipts, balances and storage, account allocation, and library linking: no protocol of their own.
- The report fields that are plain copies of event data, compiled-contract information and the completion statistics on the console.
- The watcher's report and profiling behind its two tasks, and the case of a channel closed before any start event, in which the start loop never ends.
- The opcode and syscall catalogue, hash comparison of reports, and the round-robin pools: finite tables and small conversions.
