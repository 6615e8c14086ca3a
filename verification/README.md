# TransactGuard: a verified model of its core

TransactGuard scores payment transactions for fraud. This project models the
parts of it whose behaviour spans several functions, processes or moments in
time, and proves what they promise. It is written in Dafny and needs nothing but
the verifier: `dafny verify dfyconfig.toml`.

What is modelled, one module per concern:

- **Batch scoring** (`JobModel`, `JobAccounts`, `JobAttribution`, `JobTheorems`,
  `JobHistory`, `JobOverlooked`, `JobMissed`, `JobProgress`, `JobFindings`, `JobCode`,
  `Chunking`). A job row with four
  counters and a status, the chunks of its current run, the prediction table and
  the soft-deletion flags, moved by any interleaving of chunk workers, the
  terminal-failure handler, other writers and any number of admin retries. Every
  action is one SQL statement or one queue event. `JobCode` holds the code of the
  service and of the worker as methods over the shared database and proves that,
  whatever happens at each `await`, what they do is a behaviour of that state
  machine; the theorems are about all such behaviours.
- **CSV out and in** (`Csv`, `PaysimMapper`, `Import`, `Export`). The export's cell
  printer against the upload page's hand-written splitter; the batched streaming
  import against inserting rows one by one; the cursor-paged export over a table
  that changes between pages against the sorted filter.
- **Time-indexed state in Redis** (`RateLimit`, `Denylist`). The fixed-window
  limiter and the token denylist over whole timelines of commands.
- **The scoring engine** (`FraudEngine`, `FraudExplanation`, `FraudFirst`). Five weighted
  factors over integer cents, half-even rounding, thresholds, the ranked explanation,
  and when its first entry is what it is said to be.
- **Two client-side machines** (`Simulator`, `ApiClient`). The simulator's timer
  run, and the browser's single-flight token refresh with its cold-start flag.

Where the source updates state in place the model is a class whose methods do the
same, proved against functions over values; the properties are lemmas about those
functions and about whole traces. An `Await` method with an empty body stands for
an `await`: its contract says what everybody else may have done in the meantime.

## Hypotheses

- A bookkeeping database step that starts also finishes; a chunk attempt is held by
  one worker (no stalled-job redelivery); BullMQ delivers a chunk at most three times.
- `createJob`, `retryJob` and `startSimulator` are one step each. In the code the
  status check of `retryJob` (backend/src/modules/jobs/jobs.service.js:217) and its
  write (:252) are separate; `JobFindings.RacingRetriesBreakTheBound` shows what two
  interleaved retries do.
- Results that say `Undisturbed` assume that nobody re-attributes a prediction the
  job already owns (predictions.service.js:101-110 can); `JobFindings.RescoreBreaksTheBound`
  shows the hypothesis is needed, and `JobTheorems.BoundExactly` says without it
  exactly when the bound holds.
- A Redis key with an expiry is gone from the instant of its expiry. Redis executes
  commands in the order of its own clock. The rate bounds count the requests Redis
  answers; a request whose exchange with Redis fails is let through (`FailedOpen`).
- Token ids are unique; a token's signature is either good or not.
- Scores are computed with exact rationals; amounts are whole cents.
- Publishing to the simulator's feed does not throw (it catches its own errors).
- `Number` of a text that holds a bar is not finite (`PaysimMapper.SharedKeyExactly`).

## Findings

Where the code and what it says of itself differ, the model follows the code:

- A job can end PARTIALLY_COMPLETED although every transaction has its prediction,
  and then no retry can ever complete it (`JobFindings.PartialWithNothingLeft`,
  `JobFindings.DeadEnd`). An attempt that restarts counts as failed what an earlier
  attempt had scored, when it has been soft-deleted or is rejected in between; the
  counter falls short of the predictions by exactly these (`JobOverlooked.FinishedExactly`,
  `JobOverlooked.OverlookedExactly`). A finished job lacks nothing exactly when no chunk
  of the run was given up, whatever its recorded passes skipped had been scored by an
  earlier attempt, and its retry excused nothing (`JobMissed.NothingMissingExactly`); it is
  a dead end exactly when it counted a failure and all that no attempt scored is
  soft-deleted (`JobMissed.DeadEndExactly`).
- queue.js:29-30 says retries never re-score rows that already succeeded; a chunk's
  next attempt does (batchScoring.worker.js:105-107; `JobFindings.SecondAttemptRescores`).
  It re-scores exactly what an earlier attempt at the chunk in the same run scored
  (`JobHistory.RescoresExactly`); an admin retry re-scores nothing (`JobTheorems.RetriesShrink`).
- NOTHING_TO_RETRY (jobs.service.js:241-243) says every transaction has a prediction;
  it is also raised when the rest is soft-deleted (`JobFindings.RefusedWithTheWrongWords`),
  and `JobMissed.RefusalWordsExactly` says when the words are right.
- A job shows 100 percent from 99.5 percent on (`JobTheorems.ProgressExactly`), even with
  a chunk still waiting (`JobFindings.HundredPercentInFlight`).
- The upload preview splits lines before it looks at quotes, so a cell with a line
  feed breaks it (`Csv.FileRoundTripExactly`).
- A natural key joined with bars determines its five parts exactly when none of them
  holds a bar (`PaysimMapper.KeyIdentifiesExactly`, `PaysimMapper.BarsCollide`); a row that
  can be imported shares its key with another exactly when its names can be cut at
  another bar (`PaysimMapper.SharedKeyExactly`).
- An export whose cursor row leaves the filter between two pages loses the next row
  (`Export.LeavingCursorLosesARow`); a row that matches throughout is lost in no other way
  (`Export.LostExactly`).
- A logout during a Redis outage that begins after the first SET succeeds and leaves
  the refresh token usable, because the catch around a malformed token also swallows
  the outage (auth.service.js:213-222; `Denylist.OutageLeavesRefreshTokenUsable`). The
  token stays usable exactly when the second SET never ran
  (`Denylist.RefreshStaysUsableExactly`); it is reported as not revoked also when the SET
  ran and only its answer was lost (`Denylist.LogoutOfRefreshToken`).
- A request verified just before a revoked token's expiry and looked up just after it
  passes (`Denylist.RevokedAdmittedExactly`, `Denylist.StraddlingRequestIsAdmitted`).
- "The first entry is the factor that actually moved the score most" (fraud_engine.py:323-324)
  fails for small deposits, where the bigger factor is not listed
  (`FraudFirst.AMisleadingDeposit`), and where two factors round to the same hundredth
  of a point (`FraudFirst.AMisleadingTie`); exactly when, as thresholds on the cents:
  `FraudFirst.FirstIsBiggestExactly`.
- Three whole points of a score can go unexplained (`FraudExplanation.ThreePointsUnexplained`).
- The early exit of the simulator's `tick` is never taken (`Simulator.BeganIsSound`).
- The cold-start flag is described per request (frontend/src/lib/api.js:43-46) but
  follows the uninterrupted busy stretch (`ApiClient.ColdExactly`,
  `ApiClient.ColdWithoutASlowRequest`).

## Model

| member | source | states |
|---|---|---|
| `Chunking.ChunkLoop` | backend/src/config/queue.js:93-97 | the slicing loop yields the recursive split of the list into full pieces and a rest |
| `Chunking.ChunksPartition` | backend/src/config/queue.js:93-97 | the pieces concatenate back to the list, none is empty or over-full, all but the last are full, and there are ceil(n / size) of them |
| `Chunking.FlattenSplits` | backend/src/config/queue.js:93-97 | the pieces of a duplicate-free id list are duplicate-free and pairwise disjoint |
| `JobAccounts.StepAccounts` | backend/src/modules/jobs/jobs.service.js:292-374 | every action keeps the accounts: chunks partition the run, counters add up over recorded chunks, status mirrors the chunks, one audit entry per finished run |
| `JobAccounts.BehaviourAccounts` | backend/src/modules/jobs/jobs.service.js:213-374 | the accounts hold in every state of every interleaving, whoever else writes predictions |
| `JobAccounts.SettleStep` | backend/src/modules/jobs/jobs.service.js:308-327 | an increment keeps the accounts and sends its caller to finalise exactly when every other chunk is already recorded |
| `JobAccounts.LastToSettle` | backend/src/modules/jobs/jobs.service.js:318-324 | the returned row reaches totalChunks exactly when all other chunks are recorded |
| `JobAttribution.StepAttributed` | backend/src/workers/batchScoring.worker.js:82-122 | every harmless action keeps the tie between counters, chunk positions and predictions of this job |
| `JobAttribution.BehaviourAttributed` | backend/src/workers/batchScoring.worker.js:82-122 | that tie holds in every state of every undisturbed behaviour |
| `JobTheorems.RunConservation` | backend/src/modules/jobs/jobs.service.js:308-316 | processedCount + failedCount since the run began is the total size of the recorded chunks, and of all chunks once the run has ended |
| `JobTheorems.RecordedOnce` | backend/src/workers/batchScoring.worker.js:122-240 | each chunk of a run is recorded exactly once, by its pass or by the failure handler; completedChunks counts the results written |
| `JobTheorems.FinaliserIsLast` | backend/src/modules/jobs/jobs.service.js:318-346 | the finalising caller is unique, holds the row's final counters, and its guarded update changes the row |
| `JobTheorems.OneFinaliserPerRun` | backend/src/modules/jobs/jobs.service.js:329-374 | one finalisation and one BATCH_JOB_COMPLETED entry per ended run, none for a run in flight; COMPLETED exactly without failures, FAILED exactly with failures and nothing processed, PARTIALLY_COMPLETED exactly with both |
| `JobTheorems.TerminalExactly` | backend/src/modules/jobs/jobs.service.js:217-346 | status is terminal exactly when every chunk is recorded and finalised; a terminal row changes only through a retry, and a retry finds no live chunk |
| `JobTheorems.QueuedExactly` | backend/src/modules/jobs/jobs.service.js:292-297 | in every reachable state the job is QUEUED exactly while no worker has taken a chunk of its run |
| `JobTheorems.NeverDoubleCounts` | backend/src/modules/jobs/jobs.service.js:224-316 | over all retries processedCount + failedCount never exceeds totalTxns, and processedCount is the size of a set of roster transactions holding a prediction of this job |
| `JobTheorems.CompletedMeansDone` | backend/src/modules/jobs/jobs.service.js:231-344 | COMPLETED: every roster transaction is attributed to this job or was soft-deleted when a retry selected its ids; in the first run, every one |
| `JobTheorems.ExcusedAtSelection` | backend/src/modules/jobs/jobs.service.js:224-263 | what a run excuses, keeps and covers is fixed by the retry that began it |
| `JobTheorems.SalvageIsExact` | backend/src/workers/batchScoring.worker.js:83-240 | a chunk recorded by the failure handler reports exactly its transactions with a prediction and at least one failure, so its run never ends COMPLETED |
| `JobTheorems.OutstandingShrinks` | backend/src/modules/jobs/jobs.service.js:224-238 | nothing becomes outstanding again and nothing done is undone |
| `JobTheorems.RetriesShrink` | backend/src/modules/jobs/jobs.service.js:224-247 | a later retry enqueues a subset of an earlier one, and nothing already attributed |
| `JobTheorems.BoundExactly` | backend/src/modules/jobs/jobs.service.js:247-316 | without the attribution hypothesis the bound holds at the end of a run exactly when the retry's selection and the kept count fit the roster |
| `JobTheorems.ProgressExactly` | backend/src/modules/jobs/jobs.service.js:54-59 | the percentage shown is the nearest whole one, a half going up; the cap never bites; 100 is shown exactly from 99.5 percent on |
| `JobHistory.ScoredByItsChunk` | backend/src/workers/batchScoring.worker.js:99-120 | a prediction of a transaction on a chunk was written by that chunk in the current run, and the chunk is past it |
| `JobHistory.RescoresExactly` | backend/src/config/queue.js:24-34 | a worker writes a prediction the job already holds exactly when an earlier attempt at the same chunk in the same run scored it, so only on attempt 2 or 3 |
| `JobOverlooked.BehaviourExact` | backend/src/workers/batchScoring.worker.js:99-120 | in every state of every undisturbed behaviour each transaction a pass went by was counted as failed or is owned, and earlier runs left processedCount short by what they overlooked |
| `JobOverlooked.FinishedExactly` | backend/src/modules/jobs/jobs.service.js:308-346 | in a finished job processedCount is the number of predictions less those overlooked, failedCount is the number of transactions the passes skipped or the handler wrote off, and a retry selects those of them that are unscored and alive |
| `JobOverlooked.StatusExactly` | backend/src/modules/jobs/jobs.service.js:335-339 | a finished job is COMPLETED exactly when its run failed nothing, FAILED exactly when it failed something and all predictions held were overlooked, PARTIALLY_COMPLETED exactly when it failed something and some prediction was counted |
| `JobOverlooked.SkippedExactly` | backend/src/workers/batchScoring.worker.js:99-120 | a transaction counts as skipped exactly when a pass skipped it and since then neither that pass was thrown away nor the transaction taken up again |
| `JobOverlooked.OverlookedExactly` | backend/src/workers/batchScoring.worker.js:99-120 | a transaction is overlooked exactly when such a skip hit it although an earlier attempt at the same chunk, in the same run, had scored it |
| `JobMissed.MissedExactly` | backend/src/workers/batchScoring.worker.js:99-240 | in a finished run a transaction lacks its prediction exactly when its chunk was given up before any attempt had scored it, or the recorded pass skipped it and no earlier attempt had scored it |
| `JobMissed.FailedExactly` | backend/src/workers/batchScoring.worker.js:83-240 | in a finished run a transaction was counted as failed exactly when its chunk was given up before any attempt had scored it, or the recorded pass skipped it |
| `JobMissed.BehaviourExcused` | backend/src/modules/jobs/jobs.service.js:224-247 | what a retry excuses stays without a prediction until the next retry, and is on no chunk of its run |
| `JobMissed.DeadEndExactly` | backend/src/modules/jobs/jobs.service.js:224-245 | a run ends incomplete with nothing to retry exactly when it counted something as failed and every transaction no attempt scored is soft-deleted |
| `JobMissed.RetryPossibleExactly` | backend/src/modules/jobs/jobs.service.js:217-245 | a finished job can be retried exactly while its run missed a transaction that is alive |
| `JobMissed.NothingMissingExactly` | backend/src/modules/jobs/jobs.service.js:224-245 | a finished job has all its predictions exactly when no chunk of the run was given up, everything its recorded passes skipped had been scored by an earlier attempt, and its retry excused nothing |
| `JobMissed.RefusalWordsExactly` | backend/src/modules/jobs/jobs.service.js:240-245 | when nothing is left to retry, every transaction has a prediction exactly when no soft-deleted one lacks it, which is when the run missed nothing and excused nothing |
| `JobProgress.MeasureFalls` | backend/src/workers/batchScoring.worker.js:89-266 | every worker action lowers the run's budget |
| `JobProgress.NeverStuck` | backend/src/workers/batchScoring.worker.js:89-266 | some worker action is possible exactly while the job is in flight |
| `JobProgress.RunIsBounded` | backend/src/workers/batchScoring.worker.js:89-266 | between retries the workers take at most as many actions as the budget, whatever interleaves |
| `JobProgress.FreshBudget` | backend/src/config/queue.js:32-39 | a fresh run's budget is 6 actions per transaction and 7 per chunk |
| `JobProgress.CanFinish` | backend/src/workers/batchScoring.worker.js:89-266 | from every reachable state the workers alone can bring the job to a terminal status |
| `JobFindings.RescoreBreaksTheBound` | backend/src/modules/predictions/predictions.service.js:94-111 | a behaviour in which one synchronous rescore makes a job report 3 of 2 |
| `JobFindings.RacingRetriesBreakTheBound` | backend/src/modules/jobs/jobs.service.js:217-271 | from a reachable state, two retries that both pass the check before either writes make a job report 3 of 2 |
| `JobFindings.PartialWithNothingLeft` | backend/src/workers/batchScoring.worker.js:99-120 | a behaviour without other writers or retries that ends PARTIALLY_COMPLETED with every transaction predicted |
| `JobFindings.SecondAttemptRescores` | backend/src/config/queue.js:24-34 | an undisturbed behaviour in which the second attempt writes a prediction the job already holds |
| `JobFindings.RefusedWithTheWrongWords` | backend/src/modules/jobs/jobs.service.js:240-245 | an undisturbed behaviour that ends where a retry is refused as if every transaction had a prediction, and one has none |
| `JobFindings.HundredPercentInFlight` | backend/src/modules/jobs/jobs.service.js:54-59 | an undisturbed behaviour of a job of 201 that shows 100 percent while a chunk is waiting |
| `JobFindings.DeadEnd` | backend/src/modules/jobs/jobs.service.js:240-245 | once a retryable job has nothing outstanding its row never changes again |
| `JobCode.FindMany` | backend/src/modules/jobs/jobs.service.js:224-237 | lists a set of ids, each once, in any order |
| `JobCode.Store.constructor` | backend/src/modules/jobs/jobs.service.js:110-132 | the row and chunks createJob leaves are an initial state of the protocol |
| `JobCode.Store.MarkJobProcessing` | backend/src/modules/jobs/jobs.service.js:292-297 | is the protocol's start step: QUEUED becomes PROCESSING, and any other row stays as it is |
| `JobCode.Store.IncrementCounters` | backend/src/modules/jobs/jobs.service.js:308-316 | is the protocol's atomic record step and returns the updated row: both counts added, one chunk more completed |
| `JobCode.Store.FinalizeJob` | backend/src/modules/jobs/jobs.service.js:335-374 | the guard always passes for the caller that gets here; the status is COMPLETED, FAILED or PARTIALLY_COMPLETED by the two counts of the row it saw, with one audit entry |
| `JobCode.Store.RecordChunkResult` | backend/src/modules/jobs/jobs.service.js:308-327 | under interference between increment and finalise, a final status is returned exactly to the caller whose row reached the total, and is the one its two counts call for |
| `JobCode.Store.FindTransaction` | backend/src/modules/predictions/predictions.service.js:76-80 | finds exactly the rows not soft-deleted at that moment |
| `JobCode.Store.UpsertPrediction` | backend/src/modules/predictions/predictions.service.js:94-111 | attributes the prediction to the job |
| `JobCode.Store.ScoreAndPersist` | backend/src/modules/predictions/predictions.service.js:71-125 | one transaction under interference: scored and stored exactly when alive at its lookup and scored, counted as failed exactly when gone or not scorable, the attempt thrown away exactly when alive and the scorer is down |
| `JobCode.Store.ProcessChunk` | backend/src/workers/batchScoring.worker.js:89-146 | one attempt under arbitrary interference counts exactly the transactions alive at their lookup and scored, each stored, and the rest as failed; it throws exactly when the scorer is down for one that is alive, at the first such, and hands the chunk back |
| `JobCode.Store.CountScored` | backend/src/workers/batchScoring.worker.js:83-87 | counts the chunk's transactions attributed to this job |
| `JobCode.Store.OnFailed` | backend/src/workers/batchScoring.worker.js:215-266 | does nothing while attempts remain, else records what had landed when its count ran, whatever happens before and after that, and writes off the rest |
| `JobCode.Store.RetryJob` | backend/src/modules/jobs/jobs.service.js:213-271 | refused by status or because nothing is outstanding, exactly; else enqueues exactly the outstanding set in chunks and resets the row to QUEUED, keeping processedCount and totalTxns |
| `JobCode.ResolveTransactionIds` | backend/src/modules/jobs/jobs.service.js:68-90 | explicit ids are deduplicated and intersected with the live rows, the difference is skipped; the unscored filter takes the first `limit` live rows without a prediction in creation order |
| `JobCode.UnpredictedAre` | backend/src/modules/jobs/jobs.service.js:69-76 | the unscored filter lists exactly the live rows without a prediction, each once |
| `JobCode.UnpredictedInOrder` | backend/src/modules/jobs/jobs.service.js:69-76 | and lists them in the order of their creation |
| `JobCode.CreateJob` | backend/src/modules/jobs/jobs.service.js:98-132 | refused exactly when the selection is empty; otherwise starts a fresh behaviour over exactly the selected ids |
| `Csv.SplitCsvLine` | frontend/src/pages/Upload.jsx:39-55 | the index loop computes the recursive scan, trimmed |
| `Csv.ScanCell` | backend/src/modules/predictions/predictions.controller.js:47-50 | a printed cell at the start of a field is read back as its text |
| `Csv.RoundTrip` | backend/src/modules/predictions/predictions.controller.js:47-54 | splitting a printed row returns its cells trimmed, whatever quotes, commas or line breaks they hold |
| `Csv.LosslessExactly` | frontend/src/pages/Upload.jsx:39-55 | nothing is lost exactly when no cell has blanks to trim |
| `Csv.TrimIsIdempotent` | frontend/src/pages/Upload.jsx:54-54 | a second round trip changes nothing more |
| `Csv.FileRoundTripExactly` | frontend/src/pages/Upload.jsx:57-72 | an exported file is read back line for line exactly when no cell holds a line feed |
| `Csv.SplitsAtEvenCommas` | frontend/src/pages/Upload.jsx:39-55 | any line, printed or not, is cut exactly at the commas with an even number of quotes before them, and but for quotes and blanks a cell is what stands between two cuts |
| `Csv.PrintedBareExactly` | backend/src/modules/predictions/predictions.controller.js:47-50 | a value is printed unquoted exactly when it holds no quote, comma or line break |
| `Csv.TrimExactly` | frontend/src/pages/Upload.jsx:54-54 | trimming takes the blanks off both ends, all of them and nothing else |
| `PaysimMapper.MapRowAccepts` | backend/src/modules/transactions/paysim.mapper.js:92-129 | exactly which rows are accepted |
| `PaysimMapper.MapRowFields` | backend/src/modules/transactions/paysim.mapper.js:92-129 | the whole stored transaction of an accepted row: id, type, timestamp, amount, names and balances, each from its own column |
| `PaysimMapper.RefusalIsTrue` | backend/src/modules/transactions/paysim.mapper.js:70-108 | the reason given for refusing a row is true of the row, and names the column it is about |
| `PaysimMapper.ImportedIsSound` | backend/src/modules/transactions/paysim.mapper.js:42-129 | an accepted transaction has an id, a non-negative amount and a timestamp a whole number of hours after the epoch |
| `PaysimMapper.StepsAreHours` | backend/src/modules/transactions/paysim.mapper.js:42-49 | step 1 is the epoch, each further step an hour later, and timestamps keep the order of steps |
| `PaysimMapper.IdIsStable` | backend/src/modules/transactions/paysim.mapper.js:64-113 | without an id column the id depends on the five natural parts alone |
| `PaysimMapper.IdExactly` | backend/src/modules/transactions/paysim.mapper.js:64-113 | a given id is taken as it is; otherwise two rows have the same id under every digest exactly when their natural keys are the same |
| `PaysimMapper.KeyIdentifiesExactly` | backend/src/modules/transactions/paysim.mapper.js:64-68 | no other five parts have the natural key exactly when none of the five holds a bar |
| `PaysimMapper.SharedKeyExactly` | backend/src/modules/transactions/paysim.mapper.js:64-113 | a row that can be imported shares its key with a different one that can exactly when its two names, joined, can be cut into two names at another bar |
| `PaysimMapper.BarsCollide` | backend/src/modules/transactions/paysim.mapper.js:64-68 | two different rows that can be imported, one with a bar in the sender and one with a bar in the receiver, share a key |
| `Import.Importer.CreateMany` | backend/src/modules/transactions/transactions.service.js:198-206 | insert-skip-duplicates is row-by-row insertion and counts the new ids |
| `Import.Importer.Flush` | backend/src/modules/transactions/transactions.service.js:198-206 | the batch lands, its shortfall is skipped, and the table is that of row-by-row insertion |
| `Import.Importer.StreamRows` | backend/src/modules/transactions/transactions.service.js:213-240 | the loop inserts whole batches and keeps the rest |
| `Import.ValidateCsvHeaders` | backend/src/modules/transactions/paysim.mapper.js:153-157 | names exactly the required columns the file lacks, blanks around a heading aside, in the required order; nothing exactly when all nine are there |
| `Import.Importer.ImportRows` | backend/src/modules/transactions/transactions.service.js:186-277 | for every batch size a clean file leaves the table and summary of row-by-row insertion; a file that lacks a required column is refused, naming exactly those it lacks, and inserts nothing; a malformed file leaves exactly its whole batches |
| `Import.Importer.ImportTransactionsFromCsv` | backend/src/modules/transactions/transactions.service.js:186-277 | the same for PaySim rows in batches of a thousand: the table and the answer of a clean file, of missing columns, of an empty file and of a malformed one |
| `Import.BadRowsAreBad` | backend/src/modules/transactions/transactions.service.js:230-236 | every reported error names an unusable row, on the line a spreadsheet shows, in order |
| `Import.BadRowIsReported` | backend/src/modules/transactions/transactions.service.js:230-236 | every unusable row is among the bad rows with its reason |
| `Import.SummaryAddsUp` | backend/src/modules/transactions/transactions.service.js:187-259 | totalRows = inserted + skipped + failed; the errors are the first min(failed, 50) bad rows |
| `Import.ReimportInsertsNothing` | backend/src/modules/transactions/transactions.service.js:198-206 | importing the same file again inserts nothing and skips every usable row |
| `Import.RetryAfterBreak` | backend/src/modules/transactions/transactions.service.js:198-250 | importing a file whole after it broke off gives the table of importing it once |
| `Export.StreamForExport` | backend/src/modules/predictions/predictions.service.js:256-284 | the paging loop ends however many rows are inserted meanwhile, and yields the specified pages |
| `Export.PageExactly` | backend/src/modules/predictions/predictions.service.js:261-275 | the page after a cursor is the next rows exactly when the cursor's row still matches or nothing follows it |
| `Export.ExportIsOrdered` | backend/src/modules/predictions/predictions.service.js:256-284 | the batches concatenate to strictly increasing ids, so no row is written twice |
| `Export.ExportIsSound` | backend/src/modules/predictions/predictions.service.js:256-284 | every row written matched the filter when its page was read |
| `Export.ExportIsComplete` | backend/src/modules/predictions/predictions.service.js:256-284 | with rows inserted and none leaving the filter, every row present at the start is written |
| `Export.ExportOfStaticTable` | backend/src/modules/predictions/predictions.service.js:256-284 | on an unchanging table the export is the sorted filter |
| `Export.LeavingCursorLosesARow` | backend/src/modules/predictions/predictions.service.js:261-283 | a row matching throughout that is never written, because the cursor's row left |
| `Export.LostExactly` | backend/src/modules/predictions/predictions.service.js:256-284 | a row that matches throughout is missing from the export exactly when, at some page read, the cursor's row has left the filter and it is the first row after it |
| `RateLimit.RunConsistent` | backend/src/middleware/rateLimit.js:33-52 | over any timeline, EXPIRE late, repeated or lost, lives of the key two apart are more than a window apart |
| `RateLimit.AtMostMaxPerLife` | backend/src/middleware/rateLimit.js:47-66 | at most max admissions per life of the key, and exactly min(count, max) in the current one |
| `RateLimit.FewerThanTwicePerWindow` | backend/src/middleware/rateLimit.js:33-68 | at most 2 * max - 1 admissions in any half-open interval of one window |
| `RateLimit.AtMostTwicePerClosedWindow` | backend/src/middleware/rateLimit.js:33-68 | at most 2 * max admissions in any closed interval of one window |
| `RateLimit.BothBoundsAreReached` | backend/src/middleware/rateLimit.js:33-68 | both bounds are attained for every limit and every window |
| `RateLimit.SeenIsRecorded` | backend/src/middleware/rateLimit.js:47-59 | the count a request is decided on is an entry of the history the bounds are about |
| `RateLimit.Limiter.IncrTtl` | backend/src/middleware/rateLimit.js:47-49 | the atomic INCR and TTL are one hit of the timeline; the TTL is negative exactly for a key without an expiry |
| `RateLimit.Limiter.RateLimiter` | backend/src/middleware/rateLimit.js:24-69 | the decision is the count at the request's own hit against max; it fails open exactly when Redis does not answer; no answered request leaves the key without an expiry |
| `RateLimit.Limiter.DemoAccountLimit` | backend/src/middleware/demoAccountLimit.js:31-67 | thirty per hour on one global key; it fails open exactly when Redis leaves an exchange it needs unanswered; other accounts never touch it |
| `Denylist.TokenLifetime` | backend/src/utils/tokens.js:17-86 | a minted token is accepted for its 15 minutes or 7 days, to the second, and never as the other kind |
| `Denylist.EntryBrackets` | backend/src/utils/tokens.js:91-94 | an entry expires no earlier than its token and at most the delay before SET and 999 ms later |
| `Denylist.EntryOutlivesToken` | backend/src/config/redis.js:62-80 | that holds after any number of repeated logouts, and an entry exists exactly for a revoked token |
| `Denylist.RevokedIsRejected` | backend/src/modules/auth/auth.service.js:170-175 | a revoked token is turned away by every request looked up before its expiry or verified after it (section 4.1.4 of RFC 7519) |
| `Denylist.RevokedAdmittedExactly` | backend/src/middleware/auth.js:25-29 | a revoked token passes exactly when verified before its expiry and looked up once its entry is gone; the entry is gone within a second after exp plus the delay |
| `Denylist.UnrevokedIsAdmitted` | backend/src/config/redis.js:82-95 | revoking other tokens never affects this one |
| `Denylist.StraddlingRequestIsAdmitted` | backend/src/middleware/auth.js:25-29 | a revoked token let through by a lookup one millisecond after its verification |
| `Denylist.LogoutOfAccessToken` | backend/src/modules/auth/auth.service.js:207-211 | the report is an error exactly when Redis does not answer for a live access token, and otherwise reports it revoked exactly when it was live |
| `Denylist.LogoutOfRefreshToken` | backend/src/modules/auth/auth.service.js:213-222 | a successful logout reports the caller's live refresh token revoked exactly when Redis answers the second SET |
| `Denylist.RefreshStaysUsableExactly` | backend/src/modules/auth/auth.service.js:213-222 | in a timeline where nothing else revokes it, the caller's live refresh token is admitted until its expiry exactly when the logout's second SET never ran |
| `Denylist.OutageLeavesRefreshTokenUsable` | backend/src/modules/auth/auth.service.js:213-222 | a logout that reports success, and a second later the refresh token verifies and is not on the denylist |
| `Denylist.OnlyOwnRefreshTokens` | backend/src/modules/auth/auth.service.js:213-219 | only a genuine, unexpired refresh token of the caller is ever reported revoked |
| `Denylist.Auth.RevokeToken` | backend/src/config/redis.js:62-80 | reports true only once the id is on the denylist; adds nothing for an expired token or a missing id; a SET that lands unanswered revokes and is reported as an error |
| `Denylist.Auth.IsTokenRevoked` | backend/src/config/redis.js:82-95 | answers presence at the time of the lookup, and an error when Redis does not answer |
| `Denylist.Auth.Authenticate` | backend/src/middleware/auth.js:18-41 | admits exactly who verifies at the start and is absent from the denylist at the end, with the matching refusal otherwise, an outage included |
| `Denylist.Auth.RefreshAccessToken` | backend/src/modules/auth/auth.service.js:170-200 | a new access token exactly for a verified, unrevoked refresh token of an active account, and otherwise the refusal of the first check that fails, an outage included |
| `Denylist.Auth.LogoutUser` | backend/src/modules/auth/auth.service.js:207-236 | the report is the specified one, is audited, and what it calls revoked is on the denylist; so is each live token of the caller whose SET ran |
| `Denylist.Auth.RevokeRefresh` | backend/src/modules/auth/auth.service.js:213-222 | the second half of a logout: the caller's live refresh token is on the denylist unless the SET never ran, no SET is issued for anybody else's, and whatever goes wrong, an outage included, is reported as not revoked |
| `Denylist.LoggedOutStaysOut` | backend/src/middleware/auth.js:18-41 | once a logout has reported the access token revoked, however the timeline goes on, every later request with it is turned away except one that straddles its expiry |
| `Denylist.LogoutThenRequest` | backend/src/modules/auth/auth.service.js:207-236 | a logout, any traffic and a request with the same token: it passes only if verified before the token's expiry and looked up after it |
| `FraudEngine.RoundHalfEven` | ml_service/app/models/fraud_engine.py:327-327 | the nearest integer, a tie going to the even one |
| `FraudEngine.MagnitudeRange` | ml_service/app/models/fraud_engine.py:100-244 | every factor's magnitude lies in 0..1, so the clamp never bites |
| `FraudEngine.BooksBalanceExactly` | ml_service/app/models/fraud_engine.py:117-166 | the drain is nothing exactly when the sender was not emptied and its books are off by no more than a dollar |
| `FraudEngine.ScoreRoundAmountBias` | ml_service/app/models/fraud_engine.py:229-244 | the search loop finds the largest unit dividing the amount |
| `FraudEngine.RiskLevelFor` | ml_service/app/models/fraud_engine.py:256-260 | the threshold search gives CLEAR to 40, SUSPICIOUS to 75, CRITICAL above |
| `FraudEngine.ScoreTransaction` | ml_service/app/models/fraud_engine.py:290-338 | the accumulating loop computes the specified score, explanation and summary; the level is CLEAR to 40, CRITICAL from 76, SUSPICIOUS between, and the summary closes by it |
| `FraudEngine.ScoreRange` | ml_service/app/models/fraud_engine.py:302-327 | the score lies in 1..100 and is the rounded sum of the five factors' points |
| `FraudEngine.CriticalNeeds` | ml_service/app/models/fraud_engine.py:100-327 | CRITICAL implies an amount of at least 60,000 and a balance-drain magnitude of at least 0.02 |
| `FraudEngine.CriticalBoundsAreReached` | ml_service/app/models/fraud_engine.py:100-327 | both bounds are attained by a CRITICAL transaction |
| `FraudEngine.PassThroughIsNeverClear` | ml_service/app/models/fraud_engine.py:139-190 | a positive amount that empties its sender into an account empty before and after scores at least 46 and is never CLEAR |
| `FraudExplanation.SortIsStable` | ml_service/app/models/fraud_engine.py:323-325 | the sort is the arrangement of the same entries with more points first and ties in scoring order |
| `FraudExplanation.ExplanationIsExact` | ml_service/app/models/fraud_engine.py:312-325 | the contributions are exactly the factors of magnitude 0.05 or more, ranked, and never empty |
| `FraudExplanation.EachFactorOnce` | ml_service/app/models/fraud_engine.py:312-325 | no factor is listed twice |
| `FraudExplanation.EntriesAreClose` | ml_service/app/models/fraud_engine.py:312-321 | an entry gives its factor's weight, its magnitude to four decimals and its points to the hundredth |
| `FraudExplanation.ExplanationAccountsForScore` | ml_service/app/models/fraud_engine.py:302-327 | the score minus the points listed lies between -0.515 and 3, although weak factors are dropped and every value is rounded |
| `FraudExplanation.ThreePointsUnexplained` | ml_service/app/models/fraud_engine.py:302-327 | the upper bound is attained |
| `FraudExplanation.NothingOfNoteExactly` | ml_service/app/models/fraud_engine.py:263-276 | "no risk factors of note" exactly when only a low-risk type is reported, and then the score is at most 6 |
| `FraudExplanation.SummaryExactly` | ml_service/app/models/fraud_engine.py:263-287 | the sentence quotes, in order, exactly those of the first three factors that are not a low-risk type, and closes by the score |
| `FraudFirst.WhoIsFirst` | ml_service/app/models/fraud_engine.py:323-325 | which factor the stable sort puts first, decided by what amount, drain and the best of the other three show |
| `FraudFirst.FirstIsBiggestExactly` | ml_service/app/models/fraud_engine.py:323-325 | no factor moved the score by more than the first entry exactly outside two families given by thresholds on cents, discrepancy and type: small deposits and ties after rounding |
| `FraudFirst.AMisleadingDeposit` | ml_service/app/models/fraud_engine.py:323-325 | a small deposit for which the claim fails |
| `FraudFirst.AMisleadingTie` | ml_service/app/models/fraud_engine.py:323-325 | a transaction that is no such deposit for which the claim fails by a tie |
| `Simulator.BeganIsSound` | backend/src/modules/simulator/simulator.service.js:79-92 | a tick of a live timer sends the next transaction, and never takes the early exit |
| `Simulator.StepKeepsOrder` | backend/src/modules/simulator/simulator.service.js:55-204 | every tick, answer, publication, stop and start keeps every run's counters and at most one run running, the newest |
| `Simulator.RunAccounts` | backend/src/modules/simulator/simulator.service.js:55-108 | each transaction is sent at most once and in order, scored + failed <= sent <= scored + failed + 1, the run ends once, COMPLETED means all sent and settled |
| `Simulator.CountersExactly` | backend/src/modules/simulator/simulator.service.js:92-101 | in every reachable world a run's scored and failed are the numbers of its transactions the scorer scored and did not |
| `Simulator.AtMostOneRunning` | backend/src/modules/simulator/simulator.service.js:114-161 | two running runs are the same run, the active one |
| `Simulator.NothingAfterTheEnd` | backend/src/modules/simulator/simulator.service.js:55-108 | after STOPPED or COMPLETED nothing more is sent and the status stays |
| `Simulator.WhileInFlight` | backend/src/modules/simulator/simulator.service.js:94-108 | during either await of a tick everybody else together can at most stop its run |
| `Simulator.RunCanComplete` | backend/src/modules/simulator/simulator.service.js:79-108 | from every reachable state a running run completes in at most three steps per transaction left |
| `Simulator.Service.Finish` | backend/src/modules/simulator/simulator.service.js:55-70 | ends the run and keeps it visible |
| `Simulator.Service.RunTick` | backend/src/modules/simulator/simulator.service.js:79-108 | the steps of the step relation, with at most a stop during either await, keeping the run sound; a tick that sends counts one scored or one failed, as the scorer answered |
| `Simulator.Service.StartSimulator` | backend/src/modules/simulator/simulator.service.js:114-174 | refused exactly while a run is running; nothing is started without rows |
| `Simulator.Service.StopSimulator` | backend/src/modules/simulator/simulator.service.js:176-190 | stops exactly the running run of that id, and changes nothing otherwise |
| `ApiClient.EveryStateIsSound` | frontend/src/lib/api.js:54-204 | the session's invariants hold in every interleaving of requests, refreshes and timers |
| `ApiClient.SingleFlight` | frontend/src/lib/api.js:134-163 | no two interceptor refreshes are ever outstanding together |
| `ApiClient.SentAtMostTwice` | frontend/src/lib/api.js:177-204 | a request goes out once, or twice after the one refresh it asked for succeeded |
| `ApiClient.RefreshesAreBounded` | frontend/src/lib/api.js:134-204 | there are never more refreshes than requests |
| `ApiClient.NobodyIsStranded` | frontend/src/lib/api.js:136-163 | a waiting request can resume, or its refresh is the one outstanding |
| `ApiClient.OthersLeaveItAlone` | frontend/src/lib/api.js:186-204 | only its own response and its own refresh move a request |
| `ApiClient.ColdExactly` | frontend/src/lib/api.js:54-79 | the flag is up or due exactly when the client has been busy for 2.5 seconds without a pause; cold only while a request is open |
| `ApiClient.ColdWithoutASlowRequest` | frontend/src/lib/api.js:40-79 | overlapping short requests raise the flag though none has been open for long |
| `ApiClient.Client.RequestStarted` | frontend/src/lib/api.js:65-70 | counts the request and arms the timer for the first |
| `ApiClient.Client.RequestFinished` | frontend/src/lib/api.js:72-79 | the last request to finish clears timer and flag |
| `ApiClient.Client.JoinRefresh` | frontend/src/lib/api.js:136-141 | joins the refresh in flight if there is one and starts none |
| `ApiClient.Client.AfterRefresh` | frontend/src/lib/api.js:198-204 | a token replays the request, none ends it and the session |
| `ApiClient.Client.Raw` | frontend/src/lib/api.js:177-204 | one call under arbitrary interference finishes the request it opened; after a 401 with a refresh token it goes out again exactly when the refresh it joined succeeded, and otherwise the session is over; else it goes out once |

## Left out

- RateLimit.Limiter.RateLimiter: the `RateLimit-Reset` and `Retry-After` seconds it returns are not stated; they are Redis's own rounding of the key's remaining life.
- RateLimit.Limiter.DemoAccountLimit: the minutes in its message are not modelled.
- JobCode.Store.ProcessChunk: the progress and completion events it publishes are not part of the state; RecordChunkResult states which caller gets the final status that triggers the completion event.
- JobCode.Store.RetryJob: taken as one step; the trace with its check and write apart is JobFindings.RacingRetriesBreakTheBound.
- React pages and components other than the preview's splitter, and all drawing and styling.
- Express, Socket.IO, Prisma, BullMQ, ioredis and fetch internals: abstract steps (an atomic row update, a guarded update with a count, insert-skip-duplicates, a key with an expiry, delivery with three attempts) stand for them.
- Redis pub/sub delivery and room relays; whether a completion event is issued follows the audit entry.
- JWT signing, bcrypt and SHA-256: a token is genuine or not, and the digest behind a derived transaction id is an uninterpreted function of the natural key.
- Lost database connections, stalled-job redelivery and a crash between two bookkeeping statements.
- Binary floating-point error in the scorer, and the wording of descriptions and messages; latency and model version.
- The `errorsTruncated` and `errorsOmitted` fields of an import summary, its audit entry, and the ground-truth label columns of a CSV file.
- The first 256 KB cut and the five-row limit of the upload preview, and the HTTP response of the export.
- Requests a limiter lets through because Redis did not answer are outside the rate bounds.
- Audit entries of jobs other than the completion entry, job listing, and the pagination of predictions.
- User accounts beyond "active or not", role gates, cases, analytics SQL, environment parsing and seeding scripts.
- Simulator pacing (the interval between ticks) and the random selection of rows; rows are given, each once.
