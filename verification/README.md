# LearnFlow evidence machinery: a Dafny model

These files model the parts of LearnFlow that decide what counts as evidence: the call ledger that
makes model evaluations resumable, the normaliser and packer that give every reader the same evidence,
the reference a saved learning history determines and the scorer that uses it, the matrix, ranking and
freshness audits behind a report, the packaging of a blind review, the bounded compaction of JSON
values, and the certificate renewal of the public endpoint. Main results are stated for all inputs, all
runs or all reachable states.

`dafny verify dfyconfig.toml` checks the whole project (Dafny 4.11).

| file | what it models |
|---|---|
| `Ledger.dfy` | the two append-only logs of the reader as a step system: concurrent runs, crashes, torn appends |
| `Reader.dfy` | the reader's own methods on these logs, with concurrent tasks, each turn of which is a step of that system |
| `Gather.dfy` | how far the event loop has run the gathered tasks when it reports the first failure |
| `Abandonment.dfy`, `Reruns.dfy` | the ledger's step system when an append raises and the event loop goes on, and the jobs run again then |
| `JsonLines.dfy` | when an appended row is read back |
| `Normalising.dfy` | from saved tables to canonical records |
| `Records.dfy` | which records these are, in terms of the saved rows |
| `Evidence.dfy`, `Packing.dfy` | four renderings of the records, and the selection that fits a budget in all of them |
| `Reference.dfy`, `Derivation.dfy`, `FieldEvidence.dfy` | the eleven-field reference, the evidence it rests on, as a whole and field by field |
| `Sources.dfy` | which saved rows count, what the reference says of them, and the method that derives it |
| `Scoring.dfy` | scores of outputs and of pairs |
| `Ranking.dfy` | Pareto layers by repeated removal of the frontier |
| `Matrix.dfy`, `Sharding.dfy` | exact condition matrices, strided shards |
| `SuiteSteps.dfy`, `Scheduler.dfy` | bounded workers: the steps of a run, and the loops that take them |
| `Receipts.dfy` | receipts of assessments, and the episodes and guidance that deliver them |
| `Freshness.dfy` | whether a decision rests on the latest assessment, and the report built on that audit |
| `Judgements.dfy` | what that audit demands of the saved rows |
| `Reviews.dfy` | the review streak that shows stability |
| `Relabelling.dfy` | packaging a review export under fresh ids, and undoing it |
| `Certificates.dfy` | the certificate on disk, the one loaded and the one recorded |
| `Compaction.dfy` | structural compaction of JSON values |
| `Percentiles.dfy` | the interpolated percentile of a bootstrap distribution |
| `Options.dfy`, `Runs.dfy`, `Sequences.dfy`, `Sorting.dfy` | missing values, runs of a step system, sequences without repetition, sorting by a key |

Where the code and its own promises part, the model follows the code and states the exact condition:

- Compaction is not idempotent: an array or object that overflows by two or more is cut again by a
  second pass (`Compaction.OverflowByTwoIsCutTwice`). One pass is a fixpoint exactly for settled values
  (`Compaction.IdempotentIffSettled`); two passes always are.
- The log of the reader is not read back when a row holds a raw U+2028, U+2029 or U+0085. Rows are read
  back if and only if each encodes to a single line (`JsonLines.RowsReadBackIffOneLineEach`).
- A row torn inside its line makes its log unreadable, and every later run is refused
  (`Ledger.BrokenLogStopsEveryRun`); every run can end so (`Ledger.TornReservationIsReachable`). A last row
  that lacks only its line end is read, but the next append is glued to it
  (`JsonLines.NextAppendContinuesAnUnfinishedRow`).
- `asyncio.gather` does not cancel the other tasks when one append raises. A caller that ends its event
  loop, as `main` does, sees a crash (`Abandonment.EndedLoopKeepsInv`), and `Ledger.dfy` and `Reader.dfy` are
  about such callers. In a loop that goes on, running the same jobs again calls no job twice if and only if the
  jobs or the call cap number at most one more than `concurrency` (`Reruns.RerunsCallOnceIff`): by the
  time the failure is reported, that many tasks have reserved or failed (`Gather.EnoughHaveTried`), and with one
  job more the first append can raise while another task still waits (`Reruns.AbandonedRunCallsAgain`). The
  output keeps one result per job if and only if the jobs or the cap number at most one
  (`Reruns.RerunsAnswerOnceIff`): with two, a task of the abandoned run can answer a job that the next run
  has closed as interrupted, and then every later run is refused (`Reruns.AbandonedRunAnswersAgain`).
- A `.pending` file left by a crash or a failing write blocks every later recording
  (`Certificates.CrashBlocksRenewals`): a renewal that finds a certificate on disk that is not the recorded
  one then reloads and ends in an error, each time; one that finds the recorded certificate still ends well
  (`Certificates.Installation.LoadIfNew`).
- An interrupted suite loses a job exactly when the run stops between taking and launching it, or its log
  or its launch fails, and leaves a process running without an exit code exactly when it stops between the
  launch and the list of active processes (`SuiteSteps.WhatAStopLoses`); both happen to every plan whose
  first process starts (`SuiteSteps.FirstJobCanBeLost`).
- `score_output` gives the reference itself a perfect score exactly if the ids it must cite were delivered
  (`Scoring.ReferenceScoresPerfectly`), which a valid selection need not do
  (`Scoring.UndeliveredReferenceIsNotWhole`).
- The evidence listed for the time limit omits a support request that has run out. That is enough only
  because every support request stands for the same eight hours (`FieldEvidence.FieldEvidenceSuffices`).

## Model

| member | source | states |
|---|---|---|
| Ledger.StepKeepsInv | evals/education_memory_counterfactual/reader.py:298-347 | Each step of the protocol (start, load, refuse, reconcile, begin, reserve, call, record, finish, crash, and any append left whole, unterminated or torn) keeps: one row per id in each log, every result answering a reservation with the same request, every call reserved, one lock holder, and the cap and the semaphore |
| Ledger.HistoryKeepsInv | evals/education_memory_counterfactual/reader.py:298-347 | The same invariant in every state of every history of any number of runs on one output |
| Ledger.CalledAtMostOnce | evals/education_memory_counterfactual/reader.py:298-347 | In every reachable state no job id has been sent to the provider twice |
| Ledger.CallsFollowTheirReservation | evals/education_memory_counterfactual/reader.py:335-345 | A call step sends an id never sent before, and an earlier step of the history had reserved it |
| Ledger.ReservationsComeFromReserve | evals/education_memory_counterfactual/reader.py:338-342 | Every id in the ledger was put there by a reserve step |
| Ledger.CrashSpendsReservations | evals/education_memory_counterfactual/reader.py:320-331 | A crash leaves every reserved id spent |
| Ledger.CrashedReservationIsNeverCalled | evals/education_memory_counterfactual/reader.py:320-331 | A spent id stays spent and is not called again, whatever runs follow |
| Ledger.LimitsAlwaysHold | evals/education_memory_counterfactual/reader.py:300-347 | In every reachable state: unique rows, no more calls than reservations, one process at most, the ledger within the running call cap, and the calls in flight within the semaphore and within four |
| Ledger.LostRowGuardsAreUnreachable | evals/education_memory_counterfactual/reader.py:305-314 | No reachable state makes a load report a result without a reservation, a result whose request differs from its reservation, or a duplicate id in a log |
| Ledger.ConfigurationsNeverMix | evals/education_memory_counterfactual/reader.py:308-312 | In every state of every history any two reservations have one configuration and one schema, and every result has those of the reservations |
| Ledger.LoadDemands | evals/education_memory_counterfactual/reader.py:305-319 | A load goes on exactly with a disk whose logs parse, repeat no id, fit the cap, answer only reservations with their own request, and hold only reservations of the run's configuration and schema with the messages of its jobs; otherwise the reason given is a fault of the disk, and no reason looked for before it is one |
| Ledger.AcceptedIffAcceptable | evals/education_memory_counterfactual/reader.py:277-293 | A run is accepted exactly with a cap, a concurrency and a number of jobs within their limits, a known schema, and distinct ids of 1 to 240 characters |
| Ledger.SelectedAreTakenUp | evals/education_memory_counterfactual/reader.py:331-332 | A job is selected exactly when its id is not in the ledger and the ledger, with the new jobs listed before it, leaves room under the cap |
| Ledger.FinishedRunIsComplete | evals/education_memory_counterfactual/reader.py:320-357 | A run that finishes leaves result ids equal to ledger ids, both logs untouched by the last step, the lock free, and every result of its jobs with the job's own request |
| Ledger.SelectionFits | evals/education_memory_counterfactual/reader.py:331-332 | The selected jobs are new and, with the attempts on record, stay within the cap |
| Ledger.RequestIsTheJobs | evals/education_memory_counterfactual/reader.py:315-316 | The request kept for an id is the request of the one job that has this id |
| Ledger.PendingCount | evals/education_memory_counterfactual/reader.py:331-331 | Pending jobs and jobs already attempted add up to all jobs |
| Ledger.SummaryAddsUp | evals/education_memory_counterfactual/reader.py:331-357 | new + skipped + deferred = jobs, and jobs are deferred only once the cap is used up |
| Ledger.LogsOnlyGrow | evals/education_memory_counterfactual/reader.py:257-262 | Along every history both logs are only appended to |
| Ledger.BrokenLogStopsEveryRun | evals/education_memory_counterfactual/reader.py:245-254 | Once a log holds a row that does not parse, or one without its line end that something follows, every later load is refused and changes nothing |
| Ledger.TornReservationIsReachable | evals/education_memory_counterfactual/reader.py:257-262 | For every accepted run there is a history, ending in a crash during its first reservation, after which the ledger does not parse |
| Ledger.TornResultIsReachable | evals/education_memory_counterfactual/reader.py:257-262 | And one, ending in a crash while the first result is written, after which the output does not parse though the call was made |
| Abandonment.EndedLoopKeepsInv | evals/education_memory_counterfactual/reader.py:343-350 | When an append raises and the caller ends the event loop, an abandoned run is a crashed one: the invariant holds in every state, whatever is abandoned |
| Gather.NextIsFair | evals/education_memory_counterfactual/reader.py:333-347 | Whatever a task does in its turn, every place of the semaphore stays accounted for, nobody waits while one is free, and once a failure is to be noticed, enough tasks have tried to reserve or will before the notice is run |
| Gather.EnoughHaveTried | evals/education_memory_counterfactual/reader.py:333-347 | When `gather` learns of the first failure, all tasks have come to their reservation, or at least one more than there are places, in whatever way the tasks before them ended |
| Gather.FirstFailureLeavesTheRest | evals/education_memory_counterfactual/reader.py:333-347 | For any number of tasks and places that bound is reached: the first task fails, the next ones take every place, and all others wait |
| Abandonment.NoticeAllowsAbandon | evals/education_memory_counterfactual/reader.py:343-347 | Whenever the event loop comes to the notice of a failure, the step system lets the run be abandoned, so its runs include those of the loop |
| Abandonment.CalledOnceUnlessReservedAgain | evals/education_memory_counterfactual/reader.py:336-347 | Whatever the other tasks of an abandoned run go on doing without the lock, no id is called twice as long as no reserve step finds its id in the ledger |
| Abandonment.LedgerIsUniqueIff | evals/education_memory_counterfactual/reader.py:336-342 | With abandoned runs going on, the ledger has one row per id exactly as long as no reserve step has found its id in it |
| Abandonment.OutputIsUniqueIff | evals/education_memory_counterfactual/reader.py:320-346 | With abandoned runs going on, the output has one row per id exactly as long as no result, of a call or of a reconciliation, has found its id in it |
| Abandonment.OnceUnlessStraysReserve | evals/education_memory_counterfactual/reader.py:335-347 | Nothing is called or reserved twice as long as no task of an abandoned run reserves; tasks that only call and record do no such harm |
| Abandonment.SmallRunsCallOnce | evals/education_memory_counterfactual/reader.py:331-347 | If every run has at most one job, or one call, more than its concurrency, nothing is called or reserved twice, however many runs are abandoned and whatever their tasks go on to do |
| Abandonment.SingleRunsKeepInv | evals/education_memory_counterfactual/reader.py:331-347 | If every run has one job or one call at most, the whole invariant of the ledger holds in every state, abandoned runs or not |
| Reruns.FirstAppendRaises | evals/education_memory_counterfactual/reader.py:333-347 | For every accepted run the first append can raise with the next jobs in flight up to the places, a state both of the step system and of the event loop |
| Reruns.AbandonedRunAnswersAgain | evals/education_memory_counterfactual/reader.py:320-346 | For every accepted run of more than one job and one call there is a path of reruns after which the output holds two results of one job and every load of any run is refused for a duplicate id |
| Reruns.AbandonedRunCallsAgain | evals/education_memory_counterfactual/reader.py:331-347 | For every accepted run of at least two jobs and two calls more than its concurrency there is a path in which the first append raises, a second run calls a job that was left waiting, and the abandoned run calls it again |
| Reruns.RerunsAnswerOnceIff | evals/education_memory_counterfactual/reader.py:331-347 | Running the same jobs again, abandoned or not, never gives a job two results if and only if the jobs or the calls allowed number at most one |
| Reruns.RerunsCallOnceIff | evals/education_memory_counterfactual/reader.py:331-347 | Running the same jobs again, abandoned or not, never calls a job twice if and only if the jobs or the calls allowed number at most one more than the concurrency |
| Reader.JobMap | evals/education_memory_counterfactual/reader.py:265-274 | Accepts rows exactly when every id is a string of 1 to 240 characters and none repeats; otherwise names the first offending row and the reason |
| Reader.PlayKeepsInv | evals/education_memory_counterfactual/reader.py:298-347 | Any sequence of protocol steps from the empty output leads to a state that satisfies the invariant of the ledger |
| Reader.Output.ReconcileOne | evals/education_memory_counterfactual/reader.py:320-330 | Appends one interruption row for an unanswered reservation and nothing else |
| Reader.Output.Reconcile | evals/education_memory_counterfactual/reader.py:320-330 | Appends exactly one interruption row per unanswered reservation, in ledger order |
| Reader.Output.TakeTurn | evals/education_memory_counterfactual/reader.py:335-346 | The next turn of a task writes its reservation, makes its call or writes its result, and nothing else |
| Reader.SomeTaskCanMove | evals/education_memory_counterfactual/reader.py:334-347 | While a job is not done some task can take a turn: the semaphore never blocks for good |
| Reader.TurnsDrop | evals/education_memory_counterfactual/reader.py:336-346 | Every turn brings its job one step nearer to its end |
| Reader.TurnIsShown | evals/education_memory_counterfactual/reader.py:336-346 | A turn adds exactly its own row or call to what the tasks have shown so far |
| Reader.Output.Execute | evals/education_memory_counterfactual/reader.py:333-347 | The selected jobs, each in its own task, taking turns in any order the semaphore allows, end with exactly one reservation, one call and one result for each, appended in some order, every turn a legal step of the protocol |
| Reader.Output.LoadLogs | evals/education_memory_counterfactual/reader.py:305-319 | The outcome of the load checks, which `Ledger.LoadDemands` says row by row; a refusal frees the lock and leaves both logs alone |
| Reader.Output.FinishRun | evals/education_memory_counterfactual/reader.py:347-357 | Frees the lock with result ids equal to ledger ids |
| Reader.Output.RunJobs | evals/education_memory_counterfactual/reader.py:277-357 | The whole effect of an undisturbed run, for every interleaving of its tasks: not accepted exactly outside the limits; refused for the first fault found, leaving everything as it was; otherwise every row on record has the run's configuration and schema and answers its jobs' requests, each selected job is called once and gets one reservation and one answer, each open reservation is closed as interrupted, nothing else is written, and the summary counts this |
| Reader.RanMeans | evals/education_memory_counterfactual/reader.py:305-357 | What the run wrote, said in terms of the rows of the two logs, the calls and the jobs |
| JsonLines.CleanRowsReadBack | evals/education_memory_counterfactual/reader.py:245-262 | Rows that encode to one line each are read back in order, whatever follows them |
| JsonLines.RowsReadBackIffOneLineEach | evals/education_memory_counterfactual/reader.py:245-262 | What is appended is what is read back if and only if no encoded row contains a separator at which `splitlines` cuts |
| JsonLines.LineSeparatorBreaksTheLog | evals/education_memory_counterfactual/reader.py:34-35 | An encoded row with a raw U+2028, which section 7 of RFC 8259 permits and `ensure_ascii=False` leaves, is not read back |
| JsonLines.UnfinishedRowReads | evals/education_memory_counterfactual/reader.py:245-262 | A last row without its line end is still read |
| JsonLines.NextAppendContinuesAnUnfinishedRow | evals/education_memory_counterfactual/reader.py:257-262 | The append after a row without its line end is read as part of that row |
| Normalising.ExcludedEventsMakeNoDifference | evals/education_memory_counterfactual/representation.py:57-62 | Deleting every out-of-scope, wrongly owned, undated or future event with its mutations, facts and attempts, and every node, question and owner that nothing left refers to, leaves the outcome unchanged, and any two forms that agree on the rest have the same outcome |
| Normalising.ExcludedEventsCanBeAdded | evals/education_memory_counterfactual/representation.py:57-62 | Adding events that are out of scope, wrongly owned, undated or in the future under new ids, with mutations and facts of their own and with nodes, questions, attempts and owners that no row saved before refers to, leaves the outcome unchanged |
| Normalising.RecordsAreBacked | evals/education_memory_counterfactual/representation.py:64-117 | Every record belongs to an included event and carries its scope and time, only mutations applied for it, and only facts of its own kernel and place whose value such a mutation wrote; a graded record repeats the verdict of an evaluated attempt in scope |
| Normalising.ControlsCarryTheLastStatus | evals/education_memory_counterfactual/representation.py:118-149 | Every control record carries the status written by the last directive, in time order over the applied mutations of included events, that names its event, slot and span |
| Normalising.NormalisedRecordsAreCanonical | evals/education_memory_counterfactual/representation.py:81-93 | Normalised records are chronological, no two of them have the same id, those of an event have one time, and all have native kernels and no annotation |
| Normalising.FirstOfEachIdAre | evals/education_memory_counterfactual/representation.py:83-85 | The kept records have pairwise distinct ids, and every id offered is kept |
| Normalising.FirstsSurvive | evals/education_memory_counterfactual/representation.py:83-85 | A record is kept exactly when it is the first one offered with its id |
| Normalising.LastWriteWins | evals/education_memory_counterfactual/representation.py:125-125 | The status kept for a key is that of its last write |
| Normalising.IncludedEventsAre | evals/education_memory_counterfactual/representation.py:53-63 | The events gone through are the last saved row of each id that is in scope, owned and not in the future, in time order |
| Normalising.Add | evals/education_memory_counterfactual/representation.py:81-86 | Refuses exactly the foreign kernels, and keeps the first record of each id |
| Normalising.AddEvent | evals/education_memory_counterfactual/representation.py:64-143 | Adds all records and all status writes of one event, or stops at a foreign kernel |
| Normalising.TakeEvent | evals/education_memory_counterfactual/representation.py:56-143 | An excluded event adds nothing, an included one everything it contributes; or the work stops at an included event with a foreign kernel |
| Normalising.TakeEvents | evals/education_memory_counterfactual/representation.py:53-143 | Going through the events gathers the records and status writes of exactly the included ones, and stops exactly when some record has a foreign kernel |
| Normalising.TakeStatus | evals/education_memory_counterfactual/representation.py:146-149 | Every control record takes on the status last written for its key, and nothing else changes |
| Normalising.Normalise | evals/education_memory_counterfactual/representation.py:45-151 | The nested loops compute the records of the specification, or fail exactly when some record has a foreign kernel; `Records.RowsBecomeRecords` and `Records.RecordsAreTold` say which records these are |
| Records.IncludedIffUsable | evals/education_memory_counterfactual/representation.py:53-62 | An event is gone through exactly when it is the last row of its id, in scope, owned, dated and not in the future |
| Records.CandidatesAreTold | evals/education_memory_counterfactual/representation.py:64-143 | What one event offers, row by row: a verdict for a standing attempt, a control for each directive of its own, a report for an unverified observation or a message |
| Records.RowsBecomeRecords | evals/education_memory_counterfactual/representation.py:45-151 | Whatever a usable event tells is among the records under its id, verdicts and reports unchanged |
| Records.RecordsAreTold | evals/education_memory_counterfactual/representation.py:45-151 | Every record was told by a usable event, and differs from it at most in the three status fields of a control |
| Records.RefusedIffForeign | evals/education_memory_counterfactual/representation.py:82-82 | Normalising fails exactly when a usable event tells something under a foreign kernel |
| Records.MessageBecomesReport | evals/education_memory_counterfactual/representation.py:140-143 | A usable message with text and an applied mutation of its own becomes one knowledge record with these words |
| Records.ObservationBecomesReport | evals/education_memory_counterfactual/representation.py:136-139 | The same for an unverified observation |
| Records.AttemptBecomesVerdict | evals/education_memory_counterfactual/representation.py:94-116 | A usable assessment event whose attempt stands becomes a practice record with its verdict |
| Records.EntriesAre | evals/education_memory_counterfactual/representation.py:120-123 | The directives of a mutation are those of its short-term body, then those of its long-term body |
| Records.SliceMeans | evals/education_memory_counterfactual/representation.py:130-134 | The source text of a control is cut as Python slices, from the end for negative bounds |
| Records.DirectiveBecomesControl | evals/education_memory_counterfactual/representation.py:117-135 | A directive of a usable event that names this event becomes a control record of its slot's kind |
| Records.ControlsShowTheLastDirective | evals/education_memory_counterfactual/representation.py:124-149 | A control shows every status field of the last directive of its key, over all usable events in time order |
| Records.FactsMean | evals/education_memory_counterfactual/representation.py:66-93 | The facts of a record are the fact nodes of its kernel whose saved fact an applied mutation of the event wrote, in the event's own place |
| Records.RecordsAreInTimeOrder | evals/education_memory_counterfactual/representation.py:150-150 | Of two records the first is not later, and with equal times its event id is not greater |
| Normalising.PackForm | evals/education_memory_counterfactual/representation.py:191-220 | Normalised records can be packed whatever was saved: the selection is the latest events that fit together in every rendering, in time order, and packing never reports changed evidence |
| Evidence.GroupingPermutes | evals/education_memory_counterfactual/representation.py:180-180 | Grouping by kernel neither loses nor repeats a record |
| Evidence.AnnotationMeans | evals/education_memory_counterfactual/representation.py:153-168 | What is added to a record: set aside exactly if inactive, cancelled or diagnostic, else expired exactly if its end has come; assisted or unassisted by its level of help; reports and gaps marked as not verified |
| Evidence.RenderMeans | evals/education_memory_counterfactual/representation.py:177-180 | Each rendering shows every record in order, annotated exactly in the gated ones, or the five kernels in their order, each with its own |
| Evidence.DeliveryPermutes | evals/education_memory_counterfactual/representation.py:153-183 | Annotating, grouping, flattening and stripping the annotation returns a permutation of the records in all four variants |
| Packing.GreedyCutIsUnique | evals/education_memory_counterfactual/representation.py:193-204 | There is one event boundary from which every shorter suffix fits and the next longer one does not |
| Packing.LargerBudgetSelectsMore | evals/education_memory_counterfactual/representation.py:198-204 | A larger budget never selects less |
| Packing.LatestOfEachKindIsKept | evals/education_memory_counterfactual/representation.py:194-204 | A selection that holds a record of a kind holds the latest record of that kind |
| Packing.SelectionIsTheLatest | evals/education_memory_counterfactual/representation.py:193-204 | A record is selected with every record that is later, or of equal time and a greater event id; the selection is in time order, fits, and no longer fits with the next earlier event |
| Packing.LatestInTimeIsKept | evals/education_memory_counterfactual/representation.py:194-204 | A selection that holds a record of a kind holds the one of that kind later in time than all the others |
| Packing.BundleIsStretch | evals/education_memory_counterfactual/representation.py:199-199 | The bundle of an event is the stretch of records between two event boundaries |
| Packing.TrialIsNextSuffix | evals/education_memory_counterfactual/representation.py:199-201 | Selection and bundle, sorted again, are the next longer suffix of the records |
| Packing.EventOrder | evals/education_memory_counterfactual/representation.py:197-197 | The event ids in order of first appearance |
| Packing.Greedy | evals/education_memory_counterfactual/representation.py:192-204 | The loop selects the suffix from the greedy cut: whatever is later than something selected is selected, in time order, all shorter event suffixes fit and the next longer one does not |
| Packing.DeliveryIsUnchanged | evals/education_memory_counterfactual/representation.py:214-219 | Sorted by id, the evidence read back from any variant equals the selection |
| Packing.DeliveredIdsAreDistinct | evals/education_memory_counterfactual/representation.py:177-183 | Each of the four variants delivers every id of the selection once |
| Packing.Pack | evals/education_memory_counterfactual/representation.py:191-220 | Fails exactly when the instructions alone are over budget in some rendering; otherwise selects the latest events, as many as fit, within budget and delivered whole with distinct ids in every rendering; the final comparison never fails |
| Reference.SegmentsJoin | evals/education_memory_counterfactual/verifier.py:207-226 | Cutting a message into clauses loses and moves no character |
| Reference.DecimalReadsBack | evals/education_memory_counterfactual/verifier.py:140-140 | The digits of a number are digits, have no leading zero and read back as the number, so no two attempts share a receipt id |
| Reference.ControlsQuoteTheText | evals/education_memory_counterfactual/verifier.py:191-227 | The recorded span of every request is a trimmed clause of the message that reads as this request, and the request ends after it was made |
| Reference.SupportStandsEightHours | evals/education_memory_counterfactual/verifier.py:219-223 | A request for support ends eight hours after it was made, whatever deadline the message names |
| Derivation.LatestIsGreatest | evals/education_memory_counterfactual/verifier.py:303-322 | The item chosen for a topic is one of the usable items and none of them is later |
| Derivation.LatestSurvives | evals/education_memory_counterfactual/verifier.py:303-322 | Narrowing the selection without losing the chosen item does not change the choice |
| Derivation.CitedEvidenceSuffices | evals/education_memory_counterfactual/verifier.py:263-341 | Any narrower selection that keeps the cited events derives the same eleven fields, citations included |
| Derivation.CitationsReproduceTheReference | evals/education_memory_counterfactual/verifier.py:263-341 | The cited ids alone reproduce the reference |
| Derivation.CitationsAreValid | evals/education_memory_counterfactual/verifier.py:263-341 | Only valid and selected events are cited |
| Derivation.ReferenceIsPresentable | evals/education_memory_counterfactual/verifier.py:297-333 | Every derived reference satisfies the schema its readers are held to |
| Derivation.MaxByStamp | evals/education_memory_counterfactual/verifier.py:303-316 | The first of the items with the greatest time and id |
| Derivation.BySlot | evals/education_memory_counterfactual/verifier.py:317-322 | For each slot the latest request |
| Derivation.Collect | evals/education_memory_counterfactual/verifier.py:263-296 | The loop over the events files all usable evidence and reports valid and excluded events |
| Sources.AssessmentCountsIff | evals/education_memory_counterfactual/verifier.py:97-179 | An assessment event counts exactly when its row and the row of its attempt agree in owner, scope, item, times, outcome, help and role; it is helped exactly for a hint, guidance or a repeated attempt, and unaided exactly when event and attempt say so |
| Sources.ReportCountsIff | evals/education_memory_counterfactual/verifier.py:278-281 | An observation counts exactly when it is the learner's own, in the query's session and time, and states something |
| Sources.MessageCountsIff | evals/education_memory_counterfactual/verifier.py:282-286 | The same for a message with text, which adds nothing to the reference |
| Sources.RequestCountsIff | evals/education_memory_counterfactual/verifier.py:287-300 | A teaching input counts exactly when it is the learner's own and some request is read from it, and then adds exactly the requests read |
| Sources.RequestsAreRead | evals/education_memory_counterfactual/verifier.py:191-226 | Every clause of a plain message that asks for something is read, at its place in the text, until its deadline or, for support, for eight hours |
| Sources.RequestsWereMade | evals/education_memory_counterfactual/verifier.py:191-226 | Whatever is read from a message stands there as a clause that asks for it, and the message is plain |
| Sources.ReferenceSays | evals/education_memory_counterfactual/verifier.py:301-334 | The reference under any selection, field by field, in terms of the last usable rows on each topic: an incorrect attempt asks for a diagnosis, a correct one for less help, for clarity about help or for an independent check, by the help it had |
| Sources.DeriveReference | evals/education_memory_counterfactual/verifier.py:263-341 | Malformed exactly for an incomplete formation, a repeated id or a bad selection; otherwise every event is either valid or excluded with the reason the rows give, and the eleven fields and the cited ids are read off the last assessment, report and request of each slot among the saved rows |
| FieldEvidence.FieldEvidenceSuffices | evals/education_memory_counterfactual/verifier.py:301-333 | Each field keeps its value under any narrower selection that keeps the evidence listed for that field |
| FieldEvidence.SupportIffSomeRequestStands | evals/education_memory_counterfactual/verifier.py:317-333 | Support is active exactly while some usable request for it has not run out, though only the latest is looked at |
| FieldEvidence.IndependentSuccessIsEarned | evals/education_memory_counterfactual/verifier.py:127-188 | Whatever evidence is used, an independent success is that of the assessment named: correct, owned, in time, unaided according to event and attempt, and no retry |
| FieldEvidence.AssessmentIsTheLatest | evals/education_memory_counterfactual/verifier.py:302-311 | The assessment named is the latest usable one, and result and help are its own; each of the four next steps that follow an assessment is given exactly for its result and help; without one, all fields say so |
| FieldEvidence.AssessmentFieldsRestOnIt | evals/education_memory_counterfactual/verifier.py:305-318 | Result, help and assessment list exactly the named assessment as their evidence, independent success and next step too where there is one, and stable mastery nothing |
| FieldEvidence.WordingIsTheLatest | evals/education_memory_counterfactual/verifier.py:317-326 | Priority and return point are the words of the latest usable request while it stands; there are none only if every standing request was followed by one that has run out |
| FieldEvidence.MinutesAreTheLeastLimit | evals/education_memory_counterfactual/verifier.py:324-333 | The time limit exists exactly when a budget or support stands, and is the least of the limits that stand |
| Scoring.WholeRecordIffExact | evals/education_memory_counterfactual/verifier.py:381-413 | A score is whole-record correct exactly when the output has only the declared fields, equals the expected value on each, and cites a duplicate-free set between the required and the usable ids |
| Scoring.WholeRecordIffExactAnswer | evals/education_memory_counterfactual/verifier.py:416-439 | The same for both scores of an output, against all evidence and against what was delivered, given a valid selection |
| Scoring.ScoreMeans | evals/education_memory_counterfactual/verifier.py:381-413 | Every count of a score in terms of output and reference: right fields, valid and complete citations, whole record, fulfilled obligation, unsupported claims of independence and of stability, and false abstention |
| Scoring.ScoreOutputMeans | evals/education_memory_counterfactual/verifier.py:416-439 | An output is scored exactly for a complete formation and a proper selection, against all evidence and against what was delivered, and loses its whole record and its obligation exactly when an invalid id was selected |
| Scoring.PairMeans | evals/education_memory_counterfactual/verifier.py:455-471 | A field is changed exactly when the two references differ on it and invariant exactly when they agree; it passes its check exactly when each output is right on it, and the pair succeeds exactly when both are whole and every field passes |
| Scoring.ScorePairMeans | evals/education_memory_counterfactual/verifier.py:442-471 | The same for the pair scored from the two formations, whose references are their own |
| Scoring.ReferenceScoresPerfectly | evals/education_memory_counterfactual/verifier.py:416-439 | The derived reference, given as an answer, is whole-record correct exactly when the ids it must cite were delivered |
| Scoring.NothingDeliveredIsNotWhole | evals/education_memory_counterfactual/verifier.py:416-431 | When nothing was delivered, no answer is whole-record correct that had to cite anything |
| Scoring.UndeliveredReferenceIsNotWhole | evals/education_memory_counterfactual/verifier.py:416-431 | There is a sound history with a valid selection on which the derived reference itself is not whole-record correct |
| Scoring.WholeRecordIsRightThroughout | evals/education_memory_counterfactual/verifier.py:381-439 | A whole-record correct output has no schema error, all fields right, its obligation met, no unsupported claim and no false abstention, and both scores agree |
| Scoring.ReferenceIsConsistent | evals/education_memory_counterfactual/verifier.py:297-311 | No reference claims stable mastery, independent success without independence, or a named assessment without a result |
| Scoring.JointSuccessIffBothWhole | evals/education_memory_counterfactual/verifier.py:442-471 | A pair succeeds jointly exactly when both sides are whole-record correct |
| Ranking.LayerIsUnique | evals/education_memory_upgrade/report.py:271-278 | A vector has one layer: the length of the longest chain of dominance that ends at it |
| Ranking.DominanceSeparatesLayers | evals/education_memory_upgrade/report.py:265-278 | Dominance strictly separates layers |
| Ranking.LayersHaveNoGap | evals/education_memory_upgrade/report.py:271-278 | Layers start at 1, and every later layer is supported from the layer before it |
| Ranking.SomethingOnTop | evals/education_memory_upgrade/report.py:273-274 | Below or at the frontier lies every vector, so the frontier is never empty |
| Ranking.PeelStep | evals/education_memory_upgrade/report.py:273-278 | Removing a frontier keeps what was peeled and what is left in step with the chains of dominance |
| Ranking.PeelingIsComplete | evals/education_memory_upgrade/report.py:271-278 | Once nothing is left, every assigned number is the length of the longest chain |
| Ranking.Frontier | evals/education_memory_upgrade/report.py:274-274 | The groups that no remaining group dominates |
| Ranking.AssignLayers | evals/education_memory_upgrade/report.py:271-278 | The in-place peeling ends and gives each group its layer in the pool, and touches no other field; `Ranking.RankedIsByRates` says what the layers are in the rates |
| Ranking.EqualPrimary | evals/education_memory_upgrade/report.py:302-304 | The groups partitioned by equal primary vectors |
| Ranking.RankBudget | evals/education_memory_upgrade/report.py:300-306 | Admitted groups get their layers among all admitted ones and among their peers, the others none; among admitted groups one whose primary rates are both at least as high and not the same has the smaller priority layer, likewise secondary rates among equal primaries, the highest rates have layer 1, and no layer is skipped |
| Ranking.RankedIsByRates | evals/education_memory_upgrade/report.py:265-306 | The two layers in coordinates: higher rates come strictly first, the top rates have layer 1, and under every later layer a group with rates at least as high stands in the layer before |
| Ranking.RankedGroupsHaveTheirRank | evals/education_memory_upgrade/report.py:300-306 | The two layers written into a group are its rank among the rates of all admitted groups |
| Ranking.RankingIsLexicographic | evals/education_memory_upgrade/report.py:269-308 | Dominance on primary, or a tie there and dominance on secondary, gives a strictly smaller rank; equal primaries share a layer and equal rates a rank, in any order of input |
| Matrix.ValidateMatrix | evals/education_memory_upgrade/report.py:60-74 | Accepts exactly the rows with one measured, unrepeated row for each case, variant and budget and none beside; otherwise the first refused row with its reason, or how many conditions are missing and how many are extra |
| Matrix.ExactIffMatrix | evals/education_memory_upgrade/report.py:60-74 | The comparison of sets of conditions is that statement about the rows |
| Matrix.NextRow | evals/education_memory_upgrade/report.py:63-71 | One more row keeps a matrix clean exactly when its condition is new and it is single and measured |
| Matrix.ExactRowsCount | evals/education_memory_upgrade/report.py:433-435 | An accepted matrix has cases x variants x budgets rows |
| Matrix.ExactJoins | evals/education_memory_upgrade/report.py:429-433 | Two shards without a common case are both exact if and only if their union is and each has rows of its own cases only |
| Matrix.ShardsExactIffPoolExact | evals/education_memory_upgrade/report.py:429-433 | The same for any number of shards |
| Sharding.ReachesIffRemainder | evals/education_memory_upgrade/run_suite.py:92-92 | A strided slice holds the positions with its remainder |
| Sharding.ClusterHasOneShard | evals/education_memory_upgrade/run_suite.py:92-92 | With distinct clusters each is in exactly one slice |
| Sharding.ShardsPartitionCases | evals/education_memory_upgrade/run_suite.py:92-93 | The shards together hold every case id of the clusters, none more often than the data |
| Sharding.BuildTrack | evals/education_memory_upgrade/run_suite.py:89-106 | One job per shard with its clusters, sorted case ids and condition count |
| Sharding.PlanPartitionsTheTrack | evals/education_memory_upgrade/run_suite.py:89-119 | Planned case ids are a permutation of the track's, and planned conditions add up to cases x variants x budgets |
| Sharding.PooledAuditCannotFail | evals/education_memory_upgrade/report.py:429-435 | Once every shard is accepted, the pooled audit finds no overlap, an exact matrix and the planned number of rows |
| SuiteSteps.StepKeepsSound | evals/education_memory_upgrade/run_suite.py:132-153 | Every step keeps at most `workers` jobs active, no job active or launched twice, and every launched job active, finished with its own exit code, or just launched |
| SuiteSteps.AfterIsSound | evals/education_memory_upgrade/run_suite.py:132-153 | The same in every state of every run |
| SuiteSteps.WhatAStopLoses | evals/education_memory_upgrade/run_suite.py:134-141 | A job is lost exactly when the run stops between taking and launching it or its log or launch fails, and is then the one in hand; a process is left unattended exactly when the run stops between its launch and its place on the list |
| SuiteSteps.UninterruptedLoss | evals/education_memory_upgrade/run_suite.py:132-153 | Without an interruption a job is lost exactly when some process of the plan does not start, and otherwise the loop finishes |
| SuiteSteps.FirstJobCanBeLost | evals/education_memory_upgrade/run_suite.py:134-141 | Every plan loses its first job when it is interrupted after one step, and leaves its first process unattended when it is interrupted after three, if that process starts |
| SuiteSteps.TerminationAccountsForAll | evals/education_memory_upgrade/run_suite.py:154-160 | After termination every launched job has an exit code except an unattended one, and no code already reported is lost |
| SuiteSteps.StopIsUnique | evals/education_memory_upgrade/run_suite.py:131-153 | Plan, workers and interruption determine the step after which a run stops |
| Scheduler.Suite.Drive | evals/education_memory_upgrade/run_suite.py:132-153 | The nested loops go through the steps of the run one by one until it is interrupted, a log or a launch fails, or every job is done |
| Scheduler.Suite.StartNext | evals/education_memory_upgrade/run_suite.py:134-141 | Taking, opening the log, launching and appending are four steps, each of which an interruption may prevent; unprevented, the next job in plan order becomes active |
| Scheduler.Suite.Fill | evals/education_memory_upgrade/run_suite.py:133-142 | Starts jobs until no place is free or nothing waits, and never exceeds the places |
| Scheduler.Suite.Poll | evals/education_memory_upgrade/run_suite.py:143-150 | A process found running loses one poll and nothing else changes; one found ended leaves its exit code and gives up its place |
| Scheduler.Suite.Sweep | evals/education_memory_upgrade/run_suite.py:143-150 | Every active process is polled once |
| Scheduler.Suite.Terminate | evals/education_memory_upgrade/run_suite.py:154-160 | Each active process gets the exit code it reports once terminated: its own if a poll had found it ended or it ends first after its last poll, otherwise that of a terminated process |
| Scheduler.Suite.Execute | evals/education_memory_upgrade/run_suite.py:126-177 | The fields end up as the run stood when it stopped; uninterrupted, it is completed exactly when every process starts and ends with code zero, nothing drifted and the model is unchanged |
| Scheduler.RunIsAccountedFor | evals/education_memory_upgrade/run_suite.py:126-177 | Uninterrupted, a run is abandoned exactly when some process does not start; a job is missing from queue and starts exactly when it was in hand; a started job lacks an exit code exactly when its process was not yet on the list; a code is the process's own if it ended before it was terminated; otherwise every job is started once and has its exit code; completed, failed and interrupted each have their exact condition |
| Certificates.Installation.RunCertbot | deploy/ip-api/ip_api_tls.py:81-94 | The certificate on disk is replaced exactly when a production run obtains one and does not crash before; the outcome is determined by certbot and the crash |
| Certificates.Installation.ReloadCaddy | deploy/ip-api/ip_api_tls.py:126-130 | What is enabled on disk is loaded exactly when the reload takes effect, whether or not it is reported |
| Certificates.Installation.WriteSite | deploy/ip-api/ip_api_tls.py:31-36 | Raises exactly on a left-over file or a failing write; leaves a file exactly when one was left, the write fails or the process crashes in it; otherwise the site is enabled |
| Certificates.Installation.WriteRecord | deploy/ip-api/ip_api_tls.py:31-36 | The same for the record, which changes exactly when no file is left |
| Certificates.Installation.IssueCertificate | deploy/ip-api/ip_api_tls.py:97-108 | Staging leaves the certificate alone; a production run that obtains one puts a new one on disk |
| Certificates.Installation.Enable | deploy/ip-api/ip_api_tls.py:133-148 | Done exactly when every check, write and reload succeeds without a crash, and then the certificate on disk is loaded and recorded; a file is left exactly when the last write is reached and fails or crashes; a failed first enabling is taken back |
| Certificates.Installation.LoadIfNew | deploy/ip-api/ip_api_tls.py:163-170 | Reloads exactly when the certificate on disk is not the recorded one, records only after a successful reload, and leaves a file exactly when that write fails or crashes |
| Certificates.Installation.RenewCertificate | deploy/ip-api/ip_api_tls.py:151-170 | A renewal that is done leaves the certificate on disk loaded; one whose reload fails leaves it unrecorded, so the next one reloads again; with a left-over file a certificate that is not recorded yet never is |
| Certificates.Installation.RunAll | deploy/ip-api/ip_api_tls.py:97-170 | Over any sequence of commands, failures, crashes and server starts: a recorded certificate that is on disk is the one the server has loaded, and a left-over file stays and blocks every recording |
| Certificates.CrashBlocksRenewals | deploy/ip-api/ip_api_tls.py:151-170 | A crash in the first recording leaves an enabled and served site that a later renewal, in which nothing fails, cannot record |
| Receipts.ReceiptsAreSound | scripts/audit_education_episode_freshness.py:105-178 | A receipt is of its event and time, repeats an evaluated attempt of the same checkpoint, and rests on at least one current fact that an applied mutation formed for the event |
| Receipts.SeenIsObserved | scripts/audit_education_episode_freshness.py:234-246 | Every event and fact counted as observed comes from an observation that quotes a fact of the receipt it names |
| Receipts.EpisodesDeliverObservedReceipts | scripts/audit_education_episode_freshness.py:202-256 | A delivered episode is about receipts that count, each quoted through one of its own facts, all of one attempt with one outcome, the last of them at the episode's time |
| Receipts.GuidanceDeliversItsReceipt | scripts/audit_education_episode_freshness.py:259-290 | Guidance delivers at most its own receipt, while it stands, in a scope that is the receipt's and applies to the query |
| Receipts.LookThrough | scripts/audit_education_episode_freshness.py:234-246 | The loop over the observations stops at the first flaw and otherwise adds up what was observed |
| Freshness.FindReceipts | scripts/audit_education_episode_freshness.py:336-344 | The valid assessments of the saved events, by event |
| Freshness.Latest | scripts/audit_education_episode_freshness.py:349-349 | One of the receipts, and none is later by time and then id |
| Freshness.DeliveredAssessments | scripts/audit_education_episode_freshness.py:293-307 | Exactly the receipts that some accepted episode or guidance delivers |
| Freshness.FindInput | scripts/audit_education_episode_freshness.py:326-332 | The one dated input of the query's case in its scope, if there is exactly one |
| Freshness.OneJudgement | scripts/audit_education_episode_freshness.py:326-367 | There is only one input and one set of receipts to judge a condition by |
| Freshness.CitedIsLatest | scripts/audit_education_episode_freshness.py:368-369 | The latest cited receipt is not older than the latest of all exactly when the latter is cited |
| Freshness.JudgeSources | scripts/audit_education_episode_freshness.py:349-375 | Given the receipts, passes exactly the conditions whose one action cites delivered valid receipts, the latest among them |
| Freshness.AuditCondition | scripts/audit_education_episode_freshness.py:310-375 | A condition passes exactly when it can be judged and the latest valid assessment is among the cited ids, and is stale exactly when it can be judged and that one is not cited; the first reasons for not judging are named exactly |
| Freshness.SavedChecksAreProper | scripts/audit_education_episode_freshness.py:105-178 | The checks of the program are among those the audit is stated for |
| Judgements.AuditSaved | scripts/audit_education_episode_freshness.py:310-375 | With the program's own checks, a saved condition passes exactly when its one feedback action cites only receipts that count and were delivered, the newest among them, and is stale exactly when it cites others of these only, all said of the saved rows |
| Judgements.ReceiptIff | scripts/audit_education_episode_freshness.py:105-178 | An event is a receipt exactly when its row, its attempt's, its mutations' and facts' agree as the audit demands, and the receipt says what they say |
| Judgements.EpisodeDeliversIff | scripts/audit_education_episode_freshness.py:202-256 | An episode delivers an id exactly when all its observations quote current facts of counting receipts of one attempt and outcome, and one of them is of this id |
| Judgements.GuidanceDeliversIff | scripts/audit_education_episode_freshness.py:259-290 | Guidance delivers an id exactly when it is standing guidance for the query from the receipt of this id |
| Judgements.JudgedIff | scripts/audit_education_episode_freshness.py:310-367 | A condition is judged by a receipt exactly when it can be judged on the saved rows and that receipt is the newest |
| Freshness.CitedReceiptsAreBacked | scripts/audit_education_episode_freshness.py:293-375 | Every id a judged decision cites is a valid receipt of the query's checkpoint, and the packet quotes a fact of it or holds standing guidance from it |
| Freshness.SameInput | evals/education_memory_upgrade/report.py:84-91 | The audit and the report find the same input, and with it the same scope |
| Freshness.CoverageIsOfTheLatest | evals/education_memory_upgrade/report.py:92-113 | The audit's latest receipt is the report's own, and the packet delivered it |
| Freshness.EducationalDiagnostics | evals/education_memory_upgrade/report.py:77-121 | An action is marked as covered exactly when the audit can judge it, it cites the receipt that the report itself found to be the latest, and it is the action this receipt calls for; that receipt lies in the delivered set |
| Reviews.StreakStart | evals/five_kernel_interactions/verifier.py:32-36 | The position after the last review that was not passed |
| Reviews.TailGrows | evals/five_kernel_interactions/verifier.py:33-36 | One more review empties the tail or extends it, by its three flags |
| Reviews.EligibleReviews | evals/five_kernel_interactions/verifier.py:22-39 | The loop returns, in time order and as often as saved, exactly the independent passes later than every failed review of the item, if two of them are 72 hours apart and one is a validated variant, and nothing otherwise |
| Reviews.EligibleIff | evals/five_kernel_interactions/verifier.py:22-39 | The same as an exact condition on the saved events alone |
| Reviews.RowOrderMakesNoDifference | evals/five_kernel_interactions/verifier.py:27-31 | The result does not depend on the order of the saved rows |
| Reviews.LaterFailureEmpties | evals/five_kernel_interactions/verifier.py:35-35 | A later review that is not passed empties the result |
| Reviews.LaterPassExtends | evals/five_kernel_interactions/verifier.py:36-38 | A later pass only extends a result that is not empty |
| Reviews.EligibleReviewsHold | evals/five_kernel_interactions/verifier.py:32-39 | No failed review of the item is later than a returned one |
| Relabelling.Index | scripts/package_private_teacher_review.py:58-66 | The rows by id, exactly when there is a row and no id is missing or repeated |
| Relabelling.CheckCases | scripts/package_private_teacher_review.py:106-120 | Accepts exactly the case tables that fit and repeat no case id |
| Relabelling.BlindIffNoInternalPath | scripts/package_private_teacher_review.py:76-83 | A plan passes the scan for internal metadata exactly when no path into it goes through an internal field |
| Relabelling.CheckPlans | scripts/package_private_teacher_review.py:121-136 | Accepts exactly the plan tables bound to known cases under distinct conditions |
| Relabelling.Load | scripts/package_private_teacher_review.py:86-138 | Accepts exactly the consistent exports, which `Relabelling.ConsistentIffReviewable` says row by row |
| Relabelling.ConsistentIffReviewable | scripts/package_private_teacher_review.py:86-138 | What is checked table by table holds exactly when the export is pending and unrated, its five tables have distinct ids that correspond, its forms are blank, its cases open, and each plan shows no internal field and is bound by its key to its own case under a condition of its own |
| Relabelling.Allocator.NewId | scripts/package_private_teacher_review.py:141-147 | A name nobody has, failing exactly when a hundred draws in a row are taken |
| Relabelling.Allocator.NewIds | scripts/package_private_teacher_review.py:177-178 | One new name for each id, all different and none taken; as many non-colliding draws as ids are enough |
| Relabelling.Shuffle | scripts/package_private_teacher_review.py:198-199 | A permutation |
| Relabelling.RowsComeBack | scripts/package_private_teacher_review.py:180-199 | The coordinator's keys restore the cases and the plans, up to order |
| Relabelling.CaseFormsComeBack | scripts/package_private_teacher_review.py:207-210 | The case key restores the blank case forms, up to order |
| Relabelling.PlanFormsComeBack | scripts/package_private_teacher_review.py:211-212 | The plan key restores the blank plan forms, up to order |
| Relabelling.KeysComeBack | scripts/package_private_teacher_review.py:194-197 | The plan key holds the conditions of the export |
| Relabelling.JoinsArePreserved | scripts/package_private_teacher_review.py:180-197 | A packaged plan belongs to a packaged case exactly when their originals belong together |
| Relabelling.IdsAreFresh | scripts/package_private_teacher_review.py:176-193 | No id of the package occurs in the export |
| Relabelling.PackageIdsAreDistinct | scripts/package_private_teacher_review.py:176-193 | No two rows of the package, case or plan, have the same id |
| Relabelling.PackageExport | scripts/package_private_teacher_review.py:172-228 | A package is made only of such an export, and always when as many draws as it has rows do not collide; its ids are new, pairwise distinct and name their kind, each row stands under its new name with nothing else changed, the forms follow the rows and are blank, only the keys tell the old ids, and with them it gives all five tables back up to order |
| Compaction.SecondPassIsFixpoint | frontend/server/context-compaction.ts:1-21 | Compacting twice gives a fixpoint of compaction, at every depth and in both settings |
| Compaction.IdempotentIffSettled | frontend/server/context-compaction.ts:1-21 | One pass is already a fixpoint if and only if the value is settled: no array or object in reach overflows by more than its marker puts back |
| Compaction.OverflowByTwoIsCutTwice | frontend/server/context-compaction.ts:8-12 | An array with two items too many is changed again by a second pass |
| Compaction.WithinLimitsUnchanged | frontend/server/context-compaction.ts:1-21 | A value within all limits is returned unchanged |
| Compaction.TextKeepsItsBeginning | frontend/server/context-compaction.ts:3-4 | A longer text comes out as its own first characters and an ellipsis, of the allowed length |
| Compaction.PrimitivesStay | frontend/server/context-compaction.ts:6-6 | Numbers, booleans and nulls stay as they are |
| Compaction.ArrayKeepsItsBeginning | frontend/server/context-compaction.ts:6-12 | An array keeps its first items in order, each compacted one level deeper, and one more item says how many were left out; at the allowed depth a marker stands in its place |
| Compaction.ObjectKeepsItsBeginning | frontend/server/context-compaction.ts:13-20 | An object keeps its first fields under their own keys, and the field `__omittedFields` says how many were left out |
| Compaction.CompactIsBounded | frontend/server/context-compaction.ts:1-21 | Nesting, string length and node count of the result obey the recurrences in the remaining depth |
| Percentiles.PercentileIsWithinRange | evals/education_memory_v2/analyze.py:59-63 | A percentile lies between the smallest and the greatest value |
| Percentiles.PercentileIsMonotone | evals/education_memory_v2/analyze.py:59-63 | A higher level never gives a lower value |

## Left out

- Provider calls, response parsing, redaction, latency and message validation of the reader: a call is one step whose answer is a status.
- SHA-256: a digest is modelled by the value it digests, that is, as free of collisions.
- JSON encoding and decoding: an encoded row is any non-blank text; what makes one row come back is stated about its characters.
- The audit rows and digests of `normalize`, and exceptions on malformed times, unhashable ids or missing keys: times come parsed, ids are numbers or missing, except where the code itself answers with a reason.
- The values of a directive are opaque except for their truth and equality; a span that is not a pair of whole numbers is not cut.
- The event loop of the reader beyond its order: what is ready runs first come first served, and a semaphore hands its places on in the order of waiting, as in CPython. Cancelled tasks are those of a loop that ends.
- The tokenizer: an arbitrary function from renderings to counts; nothing is assumed of it.
- The regular expressions of `_controls`: a grammar parameter that says which clause matches and where its text starts.
- Native control gaps, evidence-dependent field counts and the other tallies of the scorer: numbers nothing else depends on.
- The group rows, means and admission gates that feed the ranking: a group comes with its two vectors and its admission.
- The fixed texts of a guidance entry (version, status, lifetime, evidence kind, instruction) are one flag, as is the set of its scope's keys; an episode with several flaws may name another one first than the code, whose sets have no order.
- Child manifests, source hashes and model identity audits of the report: comparisons of files.
- The log files, commands and times of the scheduler, and a second interruption while the first one is cleaned up.
- Certificate validation, mounts and the ACME client: each check is a parameter that may fail; the lock makes commands follow each other.
- Relabelling.Load: the field names and constants of a row are one flag; Unicode digits in a budget are left to the parameter that reads numbers.
- Relabelling.CheckCases: likewise for the field names and the stage of a case.
- Relabelling.CheckPlans: likewise for the field names and the stage of a plan.
- Percentiles.PercentileIsWithinRange: numbers are exact; floating-point rounding is not modelled, here or in the rates of the ranking.
- Percentiles.PercentileIsMonotone: likewise.
- Bootstrap sampling and paired deltas: the distribution of a percentile is any non-empty sequence of numbers.
- Formation drivers, catalogues, renderings to HTML, TSX files, proxies and site code: request plumbing, fixed data and user interface.
- `evals/joint_memory` and the other run and report scripts: near repetitions of the programs modelled here.
