# Find Me Gamer backend: verified model

This project models the stateful core of the backend as atomic transactions on explicit rows, plus its
pure algorithms, and proves properties of the model over every input, run or reachable state.

| component | files | what is proved |
|---|---|---|
| Match workflow | `Match*.dfy` | screening, fan-out, fan-in barrier, ranking and publication under any interleaving and redelivery |
| Outreach | `Outreach*.dfy` | delivery claims with crashing workers, derived batch states, resend chains, first response wins, metrics |
| Creator checkpoints | `Checkpoint*.dfy` | agreement of concurrent and resumed analysis runs over write-once nodes |
| Analysis Jobs | `Job*.dfy` | the state contract kept by every writer, and how its SQL and Python forms relate |
| SMTP rate limit | `TokenBucket.dfy` | window bound, exact delay, unobservable expiry |
| URLs | `Url*.dfy` | escape normalisation, dot segments against RFC 3986, decode-to-fixpoint loops |
| Public profile JSON | `KeySegmentation.dfy`, `PublicJson.dfy` | word segmentation, budgets, projection |
| Swift OpenAPI rewrite | `NullableSchemas.dfy` | normal form and preserved meaning |
| Thumbnails | `Thumbnails.dfy` | deduplication and balanced selection |
| Templates | `TemplateStore.dfy` | default, unique names, versions, copy names |

How it is built. A transaction runs under row or advisory locks and is one step function from rows to rows;
a run is any sequence of steps. The methods of the `*Database` classes assign columns and loop over rows as
the source does, and each `ensures` that it equals its step function, so the run theorems speak about them.
The `*Effects` files state for each step, column by column and with the source's constants, what it accepts and
leaves behind, and lead whole paths from a fresh state to the end.
Clocks, generated ids, SMTP results and model outputs are parameters of the steps: a step is quantified over
every value they may take. UUIDs and video ids are natural numbers, ordered as the originals are.

Where the code does not do what one might expect, the code is modelled and the exact condition is proved:

* `_remove_dot_segments` keeps an empty segment under `..` where section 5.2.4 of RFC 3986 removes it, and adds
  no slash for a final dot segment after an empty segment; the two can make up for each other. For every rooted
  path `UrlDotSegments.AgreesWithRfcExactly` says when code and RFC agree; `DisagreesOnEmptySegments` has inputs.
* The job table's status CHECK admits a succeeded row whose stage or payload is NULL, because UNKNOWN passes
  (`JobSqlCheck.ChecksAdmit`, `GapIsReal`). No writer commits such a row.
* The nullable rewrite lets null through siblings that reject it (`NullableSchemas.SiblingRejectsNull`) and overwrites
  an `allOf` beside a wrapped `$ref` (`OverwrittenAllOf`). It keeps the accepted values of a node exactly when neither
  shows (`UnwrappingIsExact`); siblings that are annotations only are always safe.
* A worker that dies between claim and mark leaves its delivery SENDING for good, since only QUEUED can be claimed
  and only a finished delivery resent (`OutreachHistory.StuckByCrashExactly`, `StuckBatchNeverEnds`).

To verify: `dafny verify dfyconfig.toml`.

## Model

| member | source | states |
|---|---|---|
| `MatchRuns.RunKeepsInv` | backend/app/workers/match_tasks.py:175-423 | every interleaving of screening, prepare, claim, success, failure, barrier, compensation, ranking and publication keeps the whole Match invariant |
| `MatchRuns.ReachableRows` | backend/app/matching/pairwise.py:224-293 | in every reachable state: candidates are the selection, pair records lie inside it, total units are its size plus two, completed units count the succeeded pairs until publication and everything after; `ranking_enqueued_at` is set exactly in RANKING, where every pair has succeeded; a RUNNING fan-out has no FAILED record and a FAILED task with FAILED records carries exactly their aggregate |
| `MatchRuns.CommittedTaskPassesChecks` | backend/app/db/models/match.py:81-115 | the progress, error and status columns of every committed task row satisfy the table's CHECK shapes |
| `MatchClock.TimestampsAreOrdered` | backend/app/db/models/match.py:116-124 | under a clock that does not go back, a task starts no earlier than it was created, and completes and enters ranking no earlier than it started |
| `MatchRuns.SucceededIsFrozen` | backend/app/workers/match_tasks.py:258-423 | no transaction changes any row of a succeeded task |
| `MatchRuns.SucceededForever` | backend/app/matching/ranking.py:143-201 | SUCCEEDED is absorbing over any run, all rows included |
| `MatchRuns.PairSuccessIsFinal` | backend/app/matching/pairwise.py:224-256 | one transaction of any kind leaves a succeeded pair record as it is |
| `MatchRuns.BriefsAreWriteOnce` | backend/app/matching/pairwise.py:224-256 | over any run a succeeded pair keeps its record and its brief |
| `MatchRuns.SupersededIsFinal` | backend/app/workers/match_tasks.py:258-322 | no worker transaction leaves SUPERSEDED or publishes under it |
| `MatchInvariant.ApplyScreeningKeeps` | backend/app/repositories/match.py:243-348 | applying a screening output, empty or not, keeps the invariant |
| `MatchInvariant.PrepareKeeps` | backend/app/workers/match_tasks.py:175-256 | the fan-out keeps the invariant |
| `MatchInvariant.ClaimKeeps` | backend/app/matching/pairwise.py:136-222 | claiming a pair keeps the invariant |
| `MatchInvariant.ApplySuccessKeeps` | backend/app/matching/pairwise.py:224-293 | a success, late or not, keeps the invariant |
| `MatchInvariant.FailPairKeeps` | backend/app/workers/match_tasks.py:258-299 | a pair failure keeps the invariant |
| `MatchInvariant.PublishKeeps` | backend/app/matching/ranking.py:143-201 | publication keeps the invariant |
| `MatchInvariant.RevivalGuard` | backend/app/matching/pairwise.py:256-281 | the field-by-field revival guard holds exactly when the succeeding record was the task's only FAILED one |
| `MatchFailures.AggregateMeaning` | backend/app/matching/pairwise.py:98-121 | the aggregate in words: first failure by (permanent before retryable, creator id) lends code and message, retryable exactly when all are, completed with the last |
| `MatchFailures.FailPairAggregates` | backend/app/workers/match_tasks.py:258-299 | after a pair failure the task is FAILED and carries the aggregate of all failures so far |
| `MatchFailures.FailPairsCommute` | backend/app/workers/match_tasks.py:258-299 | two pair failures leave the same rows in either order |
| `MatchFailures.LateSuccess` | backend/app/matching/pairwise.py:256-281 | a late success on a FAILED record revives the task if and only if it was the only FAILED record, and otherwise leaves the aggregate of the rest |
| `MatchFailures.RunningSuccessLeavesFailure` | backend/app/matching/pairwise.py:224-293 | a success of a pair that had not failed leaves the task's failure as it is |
| `MatchFailures.ClaimedPairsHadNotFailed` | backend/app/matching/pairwise.py:136-222 | a pair that can be claimed had not failed |
| `MatchFailures.ClampsNeverAct` | backend/app/matching/pairwise.py:282-293 | the `min` that caps completed units after a success never changes the count |
| `MatchFailures.CompensationClampNeverActs` | backend/app/workers/match_tasks.py:393-423 | nor does the one in the compensation |
| `MatchFailures.CompensationUndoesMark` | backend/app/workers/match_tasks.py:324-423 | compensating the enqueue restores exactly the rows before the mark |
| `MatchPublication.SelectionIsFixed` | backend/app/repositories/match.py:272-279 | once screening has been applied no run changes the selection |
| `MatchPublication.ScreeningReplays` | backend/app/repositories/match.py:174-348 | whatever runs in between, re-applying or re-loading the screening returns the first selection in screening order and changes nothing |
| `MatchPublication.PrepareReplays` | backend/app/workers/match_tasks.py:175-256 | a redelivered prepare with the original selection answers with nothing in RANKING and after success, with the unfinished creators in a running fan-out, and is refused otherwise |
| `MatchPublication.UnfinishedIsExact` | backend/app/workers/match_tasks.py:252-256 | the returned creators are exactly the selected ones without a succeeded pair, in screening order |
| `MatchPublication.InputsValidExactly` | backend/app/matching/ranking.py:203-243 | `_validated_inputs` passes exactly when screening is over and every selected pair has succeeded, hence always in RANKING |
| `MatchPublication.BarrierExactly` | backend/app/workers/match_tasks.py:324-391 | `mark_ranking_enqueued` returns true exactly when a running fan-out has every selected pair succeeded |
| `MatchPublication.ResultsExactly` | backend/app/matching/ranking.py:245-269 | results exist exactly for a published non-empty selection: one per selected creator, distinct orders, one campaign |
| `MatchPublication.PublishInRanking` | backend/app/matching/ranking.py:143-201 | in RANKING a publication is accepted exactly when its items are one per selected creator with distinct orders, and otherwise changes nothing |
| `MatchPublication.RedeliveredPublication` | backend/app/matching/ranking.py:120-201 | after publication every load or publish returns the same count and changes nothing |
| `MatchPublication.PublishedOnce` | backend/app/matching/ranking.py:143-201 | over any run there is at most one publication, and exactly one when results exist at its end |
| `MatchBarrier.OpensAtMostOnce` | backend/app/workers/match_tasks.py:324-391 | without compensation the barrier opens at most once over any run, failures included |
| `MatchBarrier.OpensWhenComplete` | backend/app/workers/match_tasks.py:444-470 | in a run without failure or compensation a mark that meets complete pairs means exactly one opening, then and for good |
| `MatchBarrier.FanInBarrier` | backend/app/workers/match_tasks.py:444-470 | if the advance after the last success is delivered, exactly one mark has returned true by then and none does later |
| `MatchRanking.QuantizedIsNearest` | backend/app/matching/ranking.py:367-375 | quantizing a score rounds to the nearest 0.0001, an exact half up, and never refuses a score in range |
| `MatchRanking.ValidatedOutput` | backend/app/matching/ranking.py:312-331 | an output is accepted exactly when it is one-to-one with the expected creators and every group agrees with its quantized score; the items are passed on unchanged |
| `MatchRanking.ValidatedOutputPublishes` | backend/app/matching/ranking.py:143-201 | an accepted output for the loaded selection is never refused by publish in RANKING |
| `MatchDatabase.MatchTaskRow.constructor` | backend/app/repositories/match.py:76-172 | one unselected screening row and one snapshot per eligible creator, in shuffled order |
| `MatchDatabase.MatchTaskRow.LoadScreening` | backend/app/repositories/match.py:174-241 | the in-place method equals its step |
| `MatchDatabase.MatchTaskRow.ApplyScreening` | backend/app/repositories/match.py:243-348 | marks, prunes and advances exactly as its step |
| `MatchDatabase.MatchTaskRow.Prepare` | backend/app/workers/match_tasks.py:175-256 | adds the missing records in a loop, exactly as its step |
| `MatchDatabase.MatchTaskRow.Claim` | backend/app/matching/pairwise.py:136-222 | exactly its step |
| `MatchDatabase.MatchTaskRow.FailedRecords` | backend/app/matching/pairwise.py:98-121 | one pass over the failed records finds the first by query order, whether all are retryable, and the latest completion |
| `MatchDatabase.MatchTaskRow.ApplySuccess` | backend/app/matching/pairwise.py:224-293 | assigns record and task fields exactly as its step |
| `MatchDatabase.MatchTaskRow.FailPair` | backend/app/workers/match_tasks.py:258-299 | exactly its step |
| `MatchDatabase.MatchTaskRow.MarkRankingEnqueued` | backend/app/workers/match_tasks.py:324-391 | the checks in the source's order give exactly the barrier step |
| `MatchDatabase.MatchTaskRow.CompensateRankingEnqueue` | backend/app/workers/match_tasks.py:393-423 | exactly its step |
| `MatchDatabase.MatchTaskRow.ValidatedInputs` | backend/app/matching/ranking.py:203-243 | the loop accepts exactly valid inputs and returns selection and briefs in order |
| `MatchDatabase.MatchTaskRow.LoadRanking` | backend/app/matching/ranking.py:120-141 | exactly its step |
| `MatchDatabase.MatchTaskRow.Publish` | backend/app/matching/ranking.py:143-201 | inserts the rows in a loop, exactly as its step |
| `MatchEffects.ScreeningAccepts` | backend/app/repositories/match.py:243-296 | an open task takes exactly the outputs of at most thirty distinct screened creators |
| `MatchEffects.ScreeningApplies` | backend/app/repositories/match.py:296-348 | what an accepted output leaves, written out: selected rows, kept snapshots, units, times, and for an empty one the finished task |
| `MatchEffects.SelectionFollowsScreening` | backend/app/repositories/match.py:346-348 | the selection is the selected rows' creators in screening order |
| `MatchEffects.PrepareFansOut` | backend/app/workers/match_tasks.py:221-256 | after prepare in a running fan-out every selected creator has a record, old ones unchanged, new ones queued and untried; the answer is those without a success |
| `MatchEffects.ClaimTakesPair` | backend/app/matching/pairwise.py:136-222 | an unfinished pair of a running task can be claimed, one attempt counted and the first start kept |
| `MatchEffects.SuccessIsTaken` | backend/app/matching/pairwise.py:224-293 | a running pair takes a valid brief of its creator and adds one unit |
| `MatchEffects.FailureIsRecorded` | backend/app/workers/match_tasks.py:258-299 | a failed pair carries code, message, retryable flag, completion time and at least one attempt |
| `MatchEffects.TaskFailureIsRecorded` | backend/app/workers/match_tasks.py:301-322 | a task failure lands exactly on a queued or running task, column by column |
| `MatchEffects.MarkOpens` | backend/app/workers/match_tasks.py:324-391 | with every selected pair succeeded a running fan-out opens: stage, time and all units but one |
| `MatchEffects.RankingIsLoaded` | backend/app/matching/ranking.py:120-141 | in RANKING the load answers with the stored briefs in screening order and changes nothing |
| `MatchEffects.PublicationIsWritten` | backend/app/matching/ranking.py:143-201 | an accepted publication writes one result an item, with its order, score and stored brief, and closes the task |
| `MatchEffects.HappyPath` | backend/app/workers/match_tasks.py:444-470 | from a fresh task, screening, prepare, claim and success of every selected creator, mark, load and publish end SUCCEEDED with one result a selected creator, holding its brief |
| `OutreachInvariant.AggregateMeaning` | backend/app/workers/outreach_tasks.py:113-140 | what each batch state says about the send states of the batch's deliveries, both ways |
| `OutreachInvariant.StoreKeeps` | backend/app/workers/outreach_tasks.py:170-315 | any open-delivery write followed by the batch recomputation keeps row shapes, derived batch states, recorded responses and resend chains |
| `OutreachInvariant.CreateKeeps` | backend/app/outreach/batches.py:457-526 | a new batch keeps the invariant, or is refused whole |
| `OutreachInvariant.ResendKeeps` | backend/app/outreach/batches.py:529-613 | a resend keeps the invariant |
| `OutreachInvariant.ResendExtends` | backend/app/outreach/batches.py:590-613 | a resend appends its replacement to the end of the creator's chain |
| `OutreachInvariant.ConfirmKeeps` | backend/app/outreach/responses.py:110-170 | a confirmation keeps the invariant |
| `OutreachRuns.RunKeepsSystem` | backend/app/workers/outreach_tasks.py:170-429 | every interleaving of workers, crashes, sends, resends and confirmations keeps all row invariants and mutual exclusion |
| `OutreachRuns.OneHolder` | backend/app/workers/outreach_tasks.py:170-195 | at most one worker is between claim and mark or release of a delivery |
| `OutreachRuns.HolderSucceeds` | backend/app/workers/outreach_tasks.py:197-315 | a holder finds its delivery SENDING and current, its mark or release takes effect; the second mark after a preparation failure changes nothing |
| `OutreachRuns.StepKeepsRow` | backend/app/workers/outreach_tasks.py:170-315 | one transaction of any kind keeps what RunKeepsRow states of a delivery row |
| `OutreachRuns.RunKeepsRow` | backend/app/outreach/batches.py:529-613 | over any run SENT and FAILED are absorbing, superseded or answered deliveries are frozen, links and batches never change |
| `OutreachHistory.ChainOnlyGrows` | backend/app/outreach/batches.py:457-613 | the deliveries of a creator in a campaign form one resend chain with exactly one current end, and a longer run only appends to it |
| `OutreachHistory.OneOpenDelivery` | backend/app/db/models/outreach.py:204-212 | a creator has one current delivery per campaign at most |
| `OutreachHistory.TerminalBatchIsFinal` | backend/app/workers/outreach_tasks.py:113-140 | a sent, failed or partially failed batch stays exactly that over any run |
| `OutreachHistory.StuckByCrashExactly` | backend/app/workers/outreach_tasks.py:170-216 | over any run a delivery ends up SENDING with no worker to mark or release it exactly if it was so at the start or the worker that had claimed it crashed; nothing frees it again |
| `OutreachHistory.StuckBatchNeverEnds` | backend/app/workers/outreach_tasks.py:113-140 | and the batch of such a delivery never reaches a final state |
| `OutreachHistory.RunKeepsResponse` | backend/app/outreach/responses.py:110-170 | a recorded response is never changed |
| `OutreachHistory.FirstResponseWins` | backend/app/outreach/responses.py:110-170 | after the first response nothing on any link of the chain changes it: every link shows and returns it, only the named delivery carries it, none can be resent |
| `OutreachHistory.ShownIsConfirmed` | backend/app/outreach/responses.py:90-170 | what the page shows is what confirming returns, and a first confirmation is what every link shows next |
| `OutreachHistory.ResponseNeedsSentDelivery` | backend/app/outreach/responses.py:82-170 | a response is only ever recorded by confirming an eligible delivery, with that delivery and choice |
| `OutreachDatabase.ReleaseUndoesClaim` | backend/app/workers/outreach_tasks.py:170-216 | release after claim restores every row, the batch state included |
| `OutreachDatabase.MarkRepeats` | backend/app/workers/outreach_tasks.py:283-315 | a second failure mark changes nothing, so the first code stays |
| `OutreachDatabase.AttemptMeaning` | backend/app/workers/outreach_tasks.py:342-446 | what one undisturbed run of the delivery task leaves behind, per outcome |
| `OutreachDatabase.OutreachTables.SendStates` | backend/app/workers/outreach_tasks.py:113-127 | the scan yields exactly the send states of the batch |
| `OutreachDatabase.OutreachTables.RecomputeBatch` | backend/app/workers/outreach_tasks.py:113-140 | stores the five-way aggregate |
| `OutreachDatabase.OutreachTables.Claim` | backend/app/workers/outreach_tasks.py:170-195 | equals its step |
| `OutreachDatabase.OutreachTables.ReleaseForRetry` | backend/app/workers/outreach_tasks.py:197-216 | equals its step |
| `OutreachDatabase.OutreachTables.MarkSent` | backend/app/workers/outreach_tasks.py:263-281 | equals its step |
| `OutreachDatabase.OutreachTables.MarkFailed` | backend/app/workers/outreach_tasks.py:283-315 | equals its step, other failures refused |
| `OutreachDatabase.OutreachTables.SendDelivery` | backend/app/workers/outreach_tasks.py:342-500 | orders the transactions as executor and retry wrapper do |
| `OutreachDatabase.OutreachTables.CreateSendBatch` | backend/app/outreach/batches.py:457-526 | equals its step |
| `OutreachDatabase.OutreachTables.ResendDelivery` | backend/app/outreach/batches.py:529-613 | equals its step |
| `OutreachDatabase.OutreachTables.ConfirmResponse` | backend/app/outreach/responses.py:110-170 | equals its step |
| `OutreachMetrics.Tallies` | backend/app/outreach/metrics.py:46-56 | the accumulating pass keeps, per creator met, exactly whether it was sent, currently failing, accepting or declining |
| `OutreachMetrics.CalculateCampaignMetrics` | backend/app/outreach/metrics.py:43-88 | the accumulators give the set-based metrics, raising exactly on a conflicting creator |
| `OutreachMetrics.MetricsAreExact` | backend/app/outreach/metrics.py:43-88 | on reachable rows the metrics never raise, sent equals accepted plus declined plus no-response, accepted and declined equal the recorded responses, failed are the creators never sent to whose current delivery failed, and the rate times the creators sent to is the responses |
| `OutreachMetrics.CountsNeverDecrease` | backend/app/outreach/metrics.py:43-88 | sent, accepted and declined never decrease over a run |
| `OutreachMetrics.StartedCampaignsHaveAState` | backend/app/outreach/metrics.py:91-104 | on reachable rows NOT_STARTED is returned for an empty history only: the last return is unreachable |
| `OutreachMetrics.CampaignStateMeaning` | backend/app/outreach/metrics.py:91-104 | each campaign state in terms of the deliveries, both ways |
| `OutreachEffects.CreateExactly` | backend/app/outreach/batches.py:457-526 | a batch is accepted exactly for one to thirty distinct creators not written to or answered before; each gets one queued delivery with its letter |
| `OutreachEffects.ResendExactly` | backend/app/outreach/batches.py:529-613 | a resend is accepted exactly for a current, sent or failed, unanswered delivery; the replacement is queued in its own batch with the same letter for the same creator |
| `OutreachEffects.ClaimAndReleaseExactly` | backend/app/workers/outreach_tasks.py:170-216 | claim and release take effect exactly on queued and on claimed deliveries, column by column |
| `OutreachEffects.MarkExactly` | backend/app/workers/outreach_tasks.py:263-315 | the marks take effect exactly on claimed deliveries, with one of three failures, column by column |
| `OutreachEffects.ChainCarriesOneLetter` | backend/app/outreach/batches.py:590-603 | in every reachable state all links of a resend chain carry one letter to one creator |
| `OutreachEffects.DeliveryPath` | backend/app/workers/outreach_tasks.py:342-388 | a queued delivery of an unanswered creator can be claimed, sent and answered, and then shows exactly those times and that response |
| `CheckpointGraph.BatchesPartition` | backend/app/analysis/prompts/creator_map_reduce.py:55-83 | the video batches cover the first fifty videos, ten to a batch, without gap, overlap or needless batch |
| `CheckpointGraph.AcceptedFrame` | backend/app/analysis/creator_map_reduce_pipeline.py:327-478 | whether an output is accepted depends on write-once upstream nodes only |
| `CheckpointGraph.WaveEndsComplete` | backend/app/analysis/creator_map_reduce_pipeline.py:250-288 | a run has nothing left to do exactly when every node is there |
| `CheckpointRuns.SaveKeeps` | backend/app/analysis/creator_checkpoints.py:41-62 | first writer wins keeps the store and every run consistent |
| `CheckpointRuns.RunKeepsInv` | backend/app/analysis/creator_checkpoints.py:31-62 | any interleaving of concurrent, crashed and resumed runs keeps the invariant, and every node is write-once |
| `CheckpointRuns.RunsAgree` | backend/app/analysis/creator_map_reduce_pipeline.py:290-478 | any two runs, at any times, see the same value at every node both reach, and completed runs publish the same |
| `CheckpointRuns.RecheckNeverFails` | backend/app/analysis/creator_map_reduce_pipeline.py:553-559 | no run ever fails the identity, evidence or binding re-check of a stored node |
| `CheckpointRuns.StoredCellsAreChecked` | backend/app/analysis/creator_map_reduce_pipeline.py:290-478 | over every run each stored cell passed its check against exactly the cells upstream: batches against the source, reductions against all batches in index order and the visual analysis, the brief against the four reductions and the contacts |
| `CheckpointRuns.PublicationIsComputed` | backend/app/analysis/creator_map_reduce_pipeline.py:434-478 | what a run publishes is computed from exactly the stored cells |
| `CheckpointRuns.SaveFillsCell` | backend/app/analysis/creator_checkpoints.py:41-62 | an output that passes its stage's check is stored if the cell is empty; if not the run takes what it finds |
| `CheckpointRuns.RunsProceed` | backend/app/analysis/creator_map_reduce_pipeline.py:327-432 | a run can start, call what is not stored, record a failed call and raise its first failure |
| `CheckpointRuns.CompleteRunPublishes` | backend/app/analysis/creator_map_reduce_pipeline.py:434-478 | a run that needs nothing more publishes what the stored cells determine |
| `CheckpointRuns.RanksFollowKeys` | backend/app/analysis/creator_map_reduce_pipeline.py:625-631 | ranks order the nodes as their stored keys are ordered as texts |
| `CheckpointRuns.StoredNodesAreNotRecomputed` | backend/app/analysis/creator_map_reduce_pipeline.py:327-385 | a node found stored is taken over without a model call |
| `CheckpointWaves.FirstFailedIsUnique` | backend/app/analysis/creator_map_reduce_pipeline.py:625-631 | which error is raised does not depend on completion order |
| `CheckpointWaves.BoundedStage` | backend/app/analysis/creator_map_reduce_pipeline.py:480-551 | two attempts: a valid output is returned and a provider error raised at once; only a refused output is tried again, and a second refusal's code is raised |
| `CheckpointWaves.VisualStage` | backend/app/analysis/creator_map_reduce_pipeline.py:561-594 | two attempts, errors and uncited outputs alike skipped, then the unavailable analysis |
| `CheckpointWaves.CheckpointStore.Load` | backend/app/analysis/creator_checkpoints.py:31-39 | a gated read |
| `CheckpointWaves.CheckpointStore.SaveSuccess` | backend/app/analysis/creator_checkpoints.py:41-62 | a gated write-once insert that returns what is stored |
| `CheckpointWaves.CheckpointStore.RunParallel` | backend/app/analysis/creator_map_reduce_pipeline.py:604-632 | for every completion order the same store and the same outcome |
| `CheckpointWaves.CheckpointStore.RunWave` | backend/app/analysis/creator_map_reduce_pipeline.py:327-432 | a wave returns what the store holds, and succeeds if its calls do |
| `CheckpointWaves.CheckpointStore.RunPipeline` | backend/app/analysis/creator_map_reduce_pipeline.py:250-288 | an undisturbed pipeline publishes what its store determines, every cell of it checked; on a complete store it publishes without consulting a model or writing |
| `JobRuns.StepKeepsInv` | backend/app/analysis/service.py:107-283 | every writer keeps the state contract and no state check around a write fires |
| `JobRuns.StateChecksNeverFire` | backend/app/workers/analysis_tasks.py:197-314 | in every reachable state no transaction is refused by a pre-check, a post-check or the result check |
| `JobRuns.CommittedJobs` | backend/app/core/analysis_job_contract.py:225-318 | every committed job is valid, stage and units are in lockstep, a target has one active job at most |
| `JobRuns.JobsOnlyProgress` | backend/app/analysis/service.py:376-447 | over any run stage and completed units never decrease and a finished job is frozen |
| `JobRuns.FailureLandsOnActive` | backend/app/workers/analysis_tasks.py:197-251 | a terminal failure lands exactly on an active job (a publication failure: on a queued one), keeps stage and units, and changes nothing otherwise |
| `JobRuns.HappyPath` | backend/app/analysis/service.py:107-283 | claim, two advances and finalize lead any active job to SUCCEEDED with its target's profile |
| `JobRuns.AdvancedKeeps` | backend/app/analysis/service.py:144-177 | advancing keeps the contract and the `min` never caps |
| `JobSqlCheck.ChecksAreTheContract` | backend/app/core/analysis_job_contract.py:100-208 | every CHECK is TRUE exactly on rows Python calls valid with a matching payload |
| `JobSqlCheck.ChecksAdmit` | backend/app/core/analysis_job_contract.py:152-208 | three-valued logic: the rows the CHECKs admit are those and succeeded rows in order but for a NULL stage or NULL payload |
| `JobSqlCheck.GapIsReal` | backend/app/core/analysis_job_contract.py:176-187 | such a row exists: the converse is false |
| `JobSqlCheck.CommittedRowsPassEveryCheck` | backend/app/core/analysis_job_contract.py:152-208 | every row any run commits makes every CHECK TRUE |
| `JobDatabase.AnalysisJobs.ActiveJob` | backend/app/repositories/jobs.py:146-153 | finds an active job of the target, or there is none |
| `JobDatabase.AnalysisJobs.CreateOrReuse` | backend/app/repositories/jobs.py:247-282 | existing profile, reused job or one new queued row |
| `JobDatabase.AnalysisJobs.CreateCreatorSeed` | backend/app/repositories/jobs.py:284-306 | the same without the profile short-cut, creators only |
| `JobDatabase.AnalysisJobs.RetryOrReuse` | backend/app/repositories/jobs.py:308-332 | a new job in the source job's mode, or the active one |
| `JobDatabase.AnalysisJobs.Claim` | backend/app/workers/analysis_tasks.py:274-314 | equals its step |
| `JobDatabase.AnalysisJobs.Start` | backend/app/analysis/service.py:107-142 | equals its step |
| `JobDatabase.AnalysisJobs.Advance` | backend/app/analysis/service.py:144-177 | equals its step |
| `JobDatabase.AnalysisJobs.Finalize` | backend/app/analysis/service.py:179-283 | equals its step |
| `JobDatabase.AnalysisJobs.WriteTerminalFailure` | backend/app/workers/analysis_tasks.py:197-251 | equals its step |
| `JobEffects.InsertExactly` | backend/app/repositories/jobs.py:247-332 | a job is inserted exactly under a new id for a target without active job, queued in the mode asked for |
| `JobEffects.RetryKeepsMode` | backend/app/repositories/jobs.py:308-332 | a retry reuses the target's active job or adds a queued one with the source job's target and mode |
| `JobEffects.ClaimExactly` | backend/app/workers/analysis_tasks.py:274-314 | the first claim starts a queued job; a running one is work again, a finished or missing one is not |
| `JobEffects.StartExactly` | backend/app/analysis/service.py:107-142 | start is claim for a known job of the right kind, and refuses a failed one |
| `JobEffects.AdvanceExactly` | backend/app/analysis/service.py:144-177 | a running job advances to two or four of five units and their stage, never back |
| `JobEffects.FinalizeExactly` | backend/app/analysis/service.py:179-283 | exactly a running job in its last stage with good settings is finalized, with all units, its target's profile and payload |
| `JobEffects.FailureIsWritten` | backend/app/workers/analysis_tasks.py:197-251 | a listed failure lands exactly on an active job (queued only when running ones are preserved) with its public message, and keeps stage, units and start |
| `TokenBucket.AcquireIsSound` | backend/app/outreach/rate_limit.py:18-36 | tokens stay between nothing and the rate, and the delay is zero exactly when granted |
| `TokenBucket.AcquireAnswers` | backend/app/outreach/rate_limit.py:18-36 | one call in whole numbers: what accrued at one 60000th of the rate a millisecond up to the rate, one token taken if there is one, else the least delay in which the missing part accrues |
| `TokenBucket.GrantsAreBacked` | backend/app/outreach/rate_limit.py:18-36 | grants never exceed the tokens held plus what accrues |
| `TokenBucket.WindowBound` | backend/app/outreach/rate_limit.py:18-36 | at a fixed rate, for the calls in a window of T ms, 60000 times the grants are at most 60000 times the rate plus T times the rate, whatever came before |
| `TokenBucket.DelayIsExact` | backend/app/outreach/rate_limit.py:28-35 | with no grant in between, a retry is granted exactly when at least the returned delay has passed, which is when the waited milliseconds times the rate reach 60000 times the missing part of a token |
| `TokenBucket.ExpiryIsUnobservable` | backend/app/outreach/rate_limit.py:33-35 | the expiring bucket answers every run of calls as one that never expires, rate changes included |
| `TokenBucket.RedisKey.Eval` | backend/app/outreach/rate_limit.py:41-52 | the script on the key equals the acquire step; rates outside 1 to 60 are refused |
| `UrlEscapes.ValidatePercentEscapes` | backend/app/schemas/ai_creator.py:203-213 | accepts exactly well-formed escapes |
| `UrlEscapes.CanonicalComponent` | backend/app/schemas/ai_creator.py:345-367 | the loop computes the canonical form, raising exactly on malformed escapes |
| `UrlEscapes.CanonIsNormal` | backend/app/schemas/ai_creator.py:345-367 | the canonical form is well formed, keeps every octet and is idempotent (sections 6.2.2.1 and 6.2.2.2 of RFC 3986) |
| `UrlEscapes.CanonDecidesEquivalence` | backend/app/schemas/ai_creator.py:345-367 | two components have the same canonical form exactly when they denote the same octets with the same literal delimiters |
| `UrlEscapes.CanonIsCanonical` | backend/app/schemas/ai_creator.py:345-367 | upper-case escapes around non-unreserved octets only, allowed literals only |
| `UrlEscapes.EscapeSpells` | backend/app/schemas/ai_creator.py:356-365 | an escape is the percent sign and the two hexadecimal digits, high one first; digits of either case are read alike |
| `UrlEscapes.KeptCharacters` | backend/app/schemas/ai_creator.py:189-193 | which literal characters the canonical form keeps, for paths and for queries, and which escapes it decodes, listed |
| `UrlDotSegments.RemoveDots` | backend/app/schemas/ai_creator.py:370-387 | the loop over segments computes the removal |
| `UrlDotSegments.ResultHasNoDots` | backend/app/schemas/ai_creator.py:370-387 | no dot segment is left and the result is never empty |
| `UrlDotSegments.RemovalIsIdempotent` | backend/app/schemas/ai_creator.py:370-387 | removing dot segments twice is removing them once |
| `UrlDotSegments.AgreesWithoutEmptySegments` | backend/app/schemas/ai_creator.py:370-387 | on rooted paths without empty interior segments the result is that of section 5.2.4 of RFC 3986 |
| `UrlDotSegments.AgreesWithRfcExactly` | backend/app/schemas/ai_creator.py:370-387 | on every rooted path it is that result if and only if: before a plain last segment no `..` meets an empty segment; before a final dot segment none does and the path so far does not end in an empty segment, or one does, no further one, and only empty segments are left from it on |
| `UrlDotSegments.DisagreesOnEmptySegments` | backend/app/schemas/ai_creator.py:376-381 | two concrete paths on which code and RFC differ, and one on which a kept empty segment and a slash not added make up for each other |
| `UrlDecoding.RoundShrinks` | backend/app/schemas/ai_creator.py:216-226 | a decoding round shortens by two per escape and removes at least two ASCII octets and two characters for each |
| `UrlDecoding.RoundDecodes` | backend/app/schemas/ai_creator.py:216-226 | one round turns a well-formed text into exactly the octets it denotes |
| `UrlDecoding.RoundInvertsEscaping` | backend/app/schemas/ai_creator.py:216-226 | escaping any octets and decoding one round gives them back |
| `UrlDecoding.StablySafeIsWholeChain` | backend/app/schemas/ai_creator.py:216-226 | an accepted component is safe after every number of decoding rounds, and only such a one is accepted |
| `UrlDecoding.DecodeUntilStable` | backend/app/schemas/ai_creator.py:216-226 | len + 1 rounds always reach the fixpoint: the loop decides safety of the unbounded chain and its last raise is unreachable |
| `UrlDecoding.DecodeOfEncode` | backend/app/analysis/prompts/common.py:75-78 | strict UTF-8 decoding inverts encoding |
| `UrlDecoding.EncodeOfDecode` | backend/app/analysis/prompts/common.py:75-78 | and encoding inverts decoding |
| `UrlDecoding.RoundRemovesCharacters` | backend/app/analysis/prompts/common.py:60-88 | a changing round on characters removes at least two |
| `UrlDecoding.DecodeStaticComponent` | backend/app/analysis/prompts/common.py:60-88 | the bounded loop computes the unbounded decoding; its last raise is unreachable |
| `UrlDecoding.RoundReadsOctets` | backend/app/analysis/prompts/common.py:73-78 | a round on characters yields the one text whose UTF-8 octets are those denoted, and fails if there is none |
| `UrlDecoding.FullyDecodedIsWholeChain` | backend/app/analysis/prompts/common.py:60-88 | a text is accepted exactly if every number of rounds decodes to a safe text, and the result is what enough rounds give |
| `UrlDecoding.FullyDecodedIsPlain` | backend/app/analysis/prompts/common.py:60-88 | an accepted text is safe, a fixpoint and free of percent signs |
| `KeySegmentation.SegmentToken` | backend/app/schemas/profiles.py:261-291 | an exact form gives its word, a token that splits into forms the words of the split whose last forms are longest, any other token itself |
| `KeySegmentation.WalkBack` | backend/app/schemas/profiles.py:280-291 | following the predecessors yields the words of exactly that split; a missing predecessor is never met |
| `KeySegmentation.SplitIsReached` | backend/app/schemas/profiles.py:270-279 | whatever splits into forms is reached by the table |
| `KeySegmentation.RecordedIsLongest` | backend/app/schemas/profiles.py:270-279 | the predecessor recorded for a position starts the longest form a split of that prefix can end with |
| `KeySegmentation.KeyTokens` | backend/app/schemas/profiles.py:229-258 | the one-pass tokenizer yields exactly the maximal runs between separators and case boundaries |
| `KeySegmentation.KeyTokensAreSpans` | backend/app/schemas/profiles.py:229-258 | the tokens are the folded maximal alphanumeric stretches between separators and case boundaries, in order |
| `KeySegmentation.TokensKeepEveryLetter` | backend/app/schemas/profiles.py:229-258 | the tokens together are the folded alphanumeric characters, in order |
| `PublicJson.ProjectionAtPath` | backend/app/schemas/profiles.py:191-218 | a path survives the projection exactly when it existed and no key on it is removable in its context, and leads to the projected value |
| `PublicJson.NothingRestrictedIsLeft` | backend/app/schemas/profiles.py:191-218 | no key removable in its context is left at any depth |
| `PublicJson.PublicPathsExactly` | backend/app/schemas/profiles.py:34-66 | a path is left exactly if it was there and no key on it carries a listed secret word or, at or below a key with a listed internal word, a listed metric word; other values stay as they were |
| `PublicJson.ProjectTwice` | backend/app/schemas/profiles.py:191-218 | the projection is idempotent in any context |
| `PublicJson.Validation.Visit` | backend/app/schemas/profiles.py:142-188 | the counting traversal accepts exactly values within all budgets |
| `PublicJson.BudgetsCountPositions` | backend/app/schemas/profiles.py:142-188 | the node count is the number of positions in the document, the key count that of positions under a key |
| `PublicJson.HeightBoundsPositions` | backend/app/schemas/profiles.py:142-188 | the depth is the length of the longest position |
| `PublicJson.CleanExactly` | backend/app/schemas/profiles.py:142-188 | clean means that at every position the value is supported and finite and keys are texts of at most 512 characters |
| `PublicJson.PublicJsonObject` | backend/app/schemas/profiles.py:119-139 | accepted exactly for objects within budgets, and then projected |
| `PublicJson.ProjectionIsSmaller` | backend/app/schemas/profiles.py:191-218 | nodes, keys and depth never grow and cleanliness is kept |
| `PublicJson.PublicObjectsAreFixed` | backend/app/schemas/profiles.py:119-139 | an accepted result is accepted again and projected to itself |
| `NullableSchemas.NullableNode` | script/normalize_openapi_for_swift.py:29-50 | the rewrite of a node with alternatives [schema, null] or [null, schema], written out for references, merged schemas and conflicts |
| `NullableSchemas.OtherNode` | script/normalize_openapi_for_swift.py:29-41 | a node with any other alternatives, or none, stays as it is |
| `NullableSchemas.OutputHasNoWrapper` | script/normalize_openapi_for_swift.py:21-50 | no rewritable node is left anywhere in the output |
| `NullableSchemas.RewriteIsIdempotent` | script/normalize_openapi_for_swift.py:21-50 | normalizing again changes nothing and cannot raise |
| `NullableSchemas.UnwrappingIsExact` | script/normalize_openapi_for_swift.py:33-50 | unwrapping one node keeps the accepted values if and only if null passes the wrapper's siblings and every value the rest of the node accepts meets an `allOf` overwritten beside a wrapped reference |
| `NullableSchemas.SiblingRejectsNull` | script/normalize_openapi_for_swift.py:43-45 | a node that rejects null and whose rewrite accepts it |
| `NullableSchemas.OverwrittenAllOf` | script/normalize_openapi_for_swift.py:44-45 | a node whose siblings accept null and whose rewrite accepts a value the overwritten `allOf` rejects |
| `NullableSchemas.AnnotationsAcceptNull` | script/normalize_openapi_for_swift.py:43-50 | siblings that are annotations only meet both conditions |
| `NullableSchemas.RewriteKeepsMeaning` | script/normalize_openapi_for_swift.py:21-50 | over whole schemas whose wrappers meet both conditions every value is accepted after the rewrite as before (`nullable` as in section 4.7.24 of the OpenAPI Specification 3.0.3) |
| `NullableSchemas.AnnotatedRewriteKeepsMeaning` | script/normalize_openapi_for_swift.py:21-50 | so it is for every schema whose wrappers have annotations only as siblings |
| `NullableSchemas.WrapperIsStable` | script/normalize_openapi_for_swift.py:29-41 | a node is a wrapper before its members are normalized exactly when it is afterwards |
| `Thumbnails.DedupChooses` | backend/app/analysis/creator_metrics.py:135-152 | deduplication keeps, per id, the least record, its raw envelope only if nothing ties with it |
| `Thumbnails.KeptIsBest` | backend/app/analysis/creator_metrics.py:155-172 | the record kept for an id, written out: newest, then most viewed, then least details, then least thumbnails |
| `Thumbnails.EligibleExactly` | backend/app/analysis/creator_metrics.py:96-104 | eligible are those of the first fifty unique videos that have thumbnails |
| `Thumbnails.DedupIgnoresOrder` | backend/app/analysis/creator_metrics.py:135-152 | deduplication depends on the multiset of records only, ties included |
| `Thumbnails.UniqueVideos` | backend/app/analysis/creator_metrics.py:135-152 | the loop yields the deduplicated records in id order |
| `Thumbnails.SelectInTurn` | backend/app/analysis/creator_metrics.py:103-132 | the two-index loop terminates and computes the selection |
| `Thumbnails.SelectionIsBalanced` | backend/app/analysis/creator_metrics.py:96-132 | no duplicates, as many as asked for or available, exactly the i newest and j most viewed with j <= i <= j + 1: none left out of a head was published later, or viewed more |
| `Thumbnails.SelectRepresentativeThumbnails` | backend/app/analysis/creator_metrics.py:96-132 | refuses exactly counts outside 1 to 12, else returns the selection |
| `Thumbnails.SelectionIgnoresOrder` | backend/app/analysis/creator_metrics.py:96-152 | the selection is the same for every order of the input |
| `TemplateStore.CopyNamesDiffer` | backend/app/repositories/outreach.py:225-231 | copy names with different numbers differ even after case folding and cutting |
| `TemplateStore.MutationKeepsInv` | backend/app/repositories/outreach.py:179-266 | every mutation keeps one default, unique folded names and positive versions, and never empties the store |
| `TemplateStore.VersionRisesWithContent` | backend/app/repositories/outreach.py:205-218 | a mutation raises a row's version exactly when it changes its content |
| `TemplateStore.RunKeepsStore` | backend/app/repositories/outreach.py:179-266 | over any run the store is empty or has exactly one default, names are unique under case folding, and it never becomes empty again |
| `TemplateStore.DefaultIsChosen` | backend/app/repositories/outreach.py:245-256 | the chosen template is the default afterwards, it alone, and nothing else changes |
| `TemplateStore.CreatedRow` | backend/app/repositories/outreach.py:186-203 | a template is created exactly under a free name, as version one, the first as default |
| `TemplateStore.UpdatedRow` | backend/app/repositories/outreach.py:205-218 | an update sets the fields given, keeps the others and the default flag, and is refused exactly for another template's name |
| `TemplateStore.CopiedRow` | backend/app/repositories/outreach.py:220-243 | a copy keeps every field but the name and is a first, non-default version |
| `TemplateStore.CopyNameFits` | backend/app/repositories/outreach.py:225-231 | a copy's name is as much of the original as fits into 255 characters in front of the suffix |
| `TemplateStore.DeletedRow` | backend/app/repositories/outreach.py:258-266 | a template is deleted exactly if it is neither the last nor the default |
| `TemplateStore.Templates.NameIsAvailable` | backend/app/repositories/outreach.py:179-184 | the scan decides availability under case folding |
| `TemplateStore.Templates.CreateTemplate` | backend/app/repositories/outreach.py:186-203 | equals its step |
| `TemplateStore.Templates.UpdateTemplate` | backend/app/repositories/outreach.py:205-218 | equals its step, version counted |
| `TemplateStore.Templates.FreeCopy` | backend/app/repositories/outreach.py:222-231 | finds the first free copy name within as many tries as there are rows plus one |
| `TemplateStore.Templates.DuplicateTemplate` | backend/app/repositories/outreach.py:220-243 | adds that copy |
| `TemplateStore.Templates.SetDefaultTemplate` | backend/app/repositories/outreach.py:245-256 | the loop leaves exactly the chosen row as default |
| `TemplateStore.Templates.DeleteTemplate` | backend/app/repositories/outreach.py:258-266 | refuses the last and the default row |

## Left out

- The Match retry route (`backend/app/api/routes/match.py`): a retried task may run with FAILED records, which the steps modelled here never produce; SUPERSEDED is entered by one step and left by none.
- Match input retention: it only nulls snapshots of expired terminal tasks.
- `updated_at`, `created_at` and `input_expires_at` of Match rows (the creation time is a parameter of `MatchClock`), `updated_at` of Outreach rows, correlation ids, idempotency records and cursors: no modelled property reads them.
- Why a creator is eligible, the shuffle, and the content of briefs, prompts and rendered letters: any eligible set, any order, opaque text with an opaque validity.
- MatchDatabase.MatchTaskRow.constructor: which creators are eligible, and that the locked game and profiles are valid, are inputs.
- MatchDatabase.MatchTaskRow.LoadScreening: the validation of game and creator briefs, which may raise, is not modelled.
- Public-text screening of ranking outputs: the ranking model starts from outputs that passed it.
- MatchRanking.ValidatedOutput: scores are exact reals; the decimal text they are parsed from is not modelled.
- Composition of a send batch (contacts, templates, SMTP identity): a batch starts from composed items; a request of another shape and a reused id are single refusals.
- A clock that returns a naive time: every clock read succeeds, so a claim never raises before it commits.
- OutreachDatabase.OutreachTables.SendDelivery: settings, rate limit, rendering and SMTP are one outcome parameter.
- OutreachDatabase.OutreachTables.ResendDelivery: a missing campaign, source batch or Match task is not modelled.
- OutreachDatabase.OutreachTables.CreateSendBatch: the three reads in front of the insert are evaluated as quantifiers over the rows, not as scans.
- Rendering, sending and decrypting inside a delivery attempt: an attempt is one of its outcomes; the rate-limit wait loop is modelled in `TokenBucket` only.
- Token digests: a response token is represented by the delivery it belongs to.
- Checkpoint payload encoding and the field copies of source checkpoints: a stored value reads back as written; a node is named by its place in the graph, its key text appears only where keys are ordered.
- CheckpointWaves.VisualStage: the early returns for invalid assets and missing images are not modelled.
- CheckpointWaves.CheckpointStore.RunParallel: no other writer and no status change falls inside the wave; `CheckpointRuns` covers interference.
- CheckpointWaves.CheckpointStore.RunWave: the same.
- CheckpointWaves.CheckpointStore.RunPipeline: progress updates and finalization of the Job between waves are steps of the Job model, and interference between its waves is covered by `CheckpointRuns` only.
- The list of integration error codes: a code is known by its class (permanent, retryable, internal, queue, unlisted) and any name.
- Canonical URL and identity checks on a Job's profile, and the profile's own content: a target has one profile, created at most once.
- JobDatabase.AnalysisJobs.CreateCreatorSeed: the refusal of targets that still need resolution is not modelled.
- JobDatabase.AnalysisJobs.Finalize: the mismatch errors between lease, publication and job are not modelled; a settings error stands for all refusals after the stage check.
- Retry countdowns and Celery redelivery policy: redelivery is any repetition of a step.
- TokenBucket.RedisKey.Eval: floating point and number formatting of the stored tokens; the model is over reals. The clock does not go back in the run theorems.
- Host names, IDNA, ports and `urlsplit`; which octets or characters are unsafe is a parameter of the decode loops. Lone surrogates are not characters of the model.
- The alphabet predicates and the vocabulary are parameters of `KeySegmentation`.
- PublicJson.PublicJsonObject: the words of a key are a parameter, the error texts are one, and cyclic values do not exist in the model.
- JSON numbers compare as integers and booleans as booleans; that 1 and True are equal in the host language is not modelled.
- NullableSchemas.RewriteKeepsMeaning: the fragment has `type`, `anyOf`, `allOf`, `items`, `properties`, opaque `$ref` and opaque keywords without nested schemas; other applicators are outside it.
- Which inputs make the nullable rewrite raise, beyond the conflict test itself.
- Creator metrics other than the thumbnail selection: averages, medians and publishing frequency.
- Thumbnails.DedupChooses: the stable fields compared between views and thumbnail URLs are one ordered value, and so is the tuple of URLs.
- Template rendering and field limits; case folding is any character-wise folding that maps the copy suffixes as expected.
- HTTP routes, Redis, SMTP, S3, Celery and SQLAlchemy plumbing, configuration, migrations, the Swift client, cryptography.
