# A verified model of the PostgreSQL-backed job queue

This project models the `job_worker` addon, a job queue whose jobs are rows of
one table, and proves properties of it in Dafny 4.11.  `dafny verify
dfyconfig.toml` checks everything.

## What is modelled

**The job graph.**  A job has a state, an optional parent, an optional list of
dependency ids with a countdown, and a flag that says whether it runs after
success or after failure of what it waits for.  `JobStore.Store` holds the
table and the methods that change it, loop by loop as the program does:
worklists along `parent_id`, one-hop updates along `dependency_job_ids`, and the
mutual recursion of cancellation over both.  Each method is proved equal to a
function on tables (`Cancel`, `Outcomes`, `Intake`), and those functions are
characterised by paths: `Reach` is a small theory of reachability through rows
that are still eligible.

**The worker protocol.**  `QueueWorker.Worker` acquires, heartbeats, holds after
a timeout, releases, finishes and retries; `WorkerRows` has the row updates.
`Protocol` puts table, clock and running attempts together as a state machine
in which each committed transaction is one step, operator buttons, autovacuum
and vanishing processes included; `Machine` says when each can be taken.  `Stranding`, `StrandingRuns`, `Barriers`,
`BarrierRuns`, `Lease`, `Channels`, `Retry`, `Identity` and `Draining` prove safety
over all its runs, `Retention` what the autovacuum never reaches, `Backstop` when a
timed-out job goes stale; `AttemptLaws` says column by column what an attempt
writes, `CascadeLaws` row by row what the end of a job decides, and `BadWiring` how each graph outside the invariant is stranded.

**The supervisor.**  `Runner.QueueJobRunner` keeps the dictionaries and sets of
the process that restarts dead worker threads; each method is proved to act on
every database as the functions of `Supervision` do, whose runs are studied
there: one stamp per death, pruning without loss, finite quarantine, a bound on
the restart rate.

**Graph construction.**  `Delay.Builder` compiles Delayables, groups and chains
(nodes by index, so that links may be cyclic) into rows of a `Store`;
`DelayGraph` and `DelayJobs` state what it leaves behind, `GraphLaws` what a link
means for the row behind it, and `Dispatch` proves that a well-shaped graph can be
dispatched onto a running queue without stranding a job, which joins this machine
to the first.

**The upgrade gate and the payload codec.**  `UpgradeGate.Gate` is the cached
probe with its pause clock; `Payload` encodes and decodes tagged JSON trees.

Conditions that the code needs are explicit preconditions.  Where a promise
fails without one, a lemma whose name ends in `Exactly` says when it holds, and
the failing side is reached on something small and concrete.  `Witnesses` has a
run for `SetDoneStrandsExactly` and for `ReclaimStrandsExactly`, and tables or
rows for `SqlAgreesExactly` (`OneHopEnoughExactly` with it),
`BarrierChildServedExactly`, `MemberWithParentServedExactly`,
`BarrierOfBarrierServedExactly`, `DuplicatesStrandExactly`,
`FailedExpiresExactly`, `TimeoutPacesAlikeExactly` and `DecisionsAgreeExactly`.
`WorkerWitnesses` has runs for `AcquireOverlapsExactly`,
`LateHeartbeatExceedsExactly`, `StragglerDuplicatesExactly` and
`HeldGoesStaleExactly`.  `AuxWitnesses` has inputs for `QuarantineEndsExactly`,
`EndingLowersExactly`, `BarrierDistinctExactly`, `SplitKeepsAllExactly` and
`RoundTripsExactly`.  The other members named so describe a result completely,
column by column and without the functions it is specified with, and have no
failing side: `CancelButtonExactly`, `FailureExactly` and `CompletionExactly` for
the cascades, `AttemptLaws` for one attempt, `RequeueExactly` and `DeletedExactly`
for what comes back and what goes, `TickExactly` and `DiscoverExactly` for the
supervisor, `ProbesExactly` and `LogsExactly` for the gate, and a few more.

## Where the code and its own words differ

* `button_set_to_done` releases barriers but not `parent_id` children
  (`job_worker/models/queue_job.py:720-729`); `SetDoneStrandsExactly` says when
  that leaves a job waiting for ever, `Witnesses.SetDoneStrands` is a run.
* The comments on the SQL cascade of a reclaim say that it mirrors the ORM one
  (`job_worker/cli/worker.py:712-715`); it walks one hop only.
  `SqlAgreesExactly` and `ReclaimStrandsExactly` say when that is enough,
  `Witnesses.ReclaimStrands` and `Witnesses.SqlDiffers` show that it need not be.
* The comment that explains why a cancellation recurses over both axes
  (`job_worker/models/queue_job.py:643-650`) names a graph that would strand
  otherwise, `group(a, b).on_done(chain(x, y))`.  The cascades of success and
  failure never cross from one axis to the other, and strand it and two more:
  with a job behind a barrier
  (`group(a).on_error(chain(x, y))` when `a` completes, the graph named when `a`
  fails), a member behind a job (`d.on_done(group(a).on_done(c))` when `d`
  fails), or a barrier over a barrier, one of the two outcomes always leaves a
  job waiting: the three `...ServedExactly` and the three `...Strands` lemmas of
  `BadWiring`, and the `...WaitsOn` tables of `Witnesses`.
* `_handle_timeout` calls the stale reclaim the backstop for a thread that never
  returns, since the heartbeat stops when the timeout fires
  (`job_worker/cli/worker.py:837-850`); `update_heartbeats` goes on refreshing the
  row for as long as the thread keeps the job among the active ones
  (`job_worker/cli/worker.py:426-448`): `Backstop.HeldGoesStaleExactly`,
  `WorkerWitnesses.BatchKeepsHeld`.
* `_handle_timeout` says its predicate mirrors the reclaim's exhaustion rule
  (`job_worker/cli/worker.py:879-881`); for NULL columns it does not, see
  `DecisionsAgreeExactly` and `Witnesses.NullIsNotPaced`.
* It also says its delays match those of `handle_exception`
  (`job_worker/cli/worker.py:869-873`); they are one step behind once attempts
  are counted: `TimeoutPacesAlikeExactly`, `Witnesses.TimeoutLags`.
* A job failed by a cascade keeps an empty `completed_at`
  (`job_worker/models/queue_job.py:787-803`), so the retention that promises to
  delete failed jobs never reaches it: `Retention.FailedExpiresExactly` for one
  table, `Retention.CascadeFailedIsNeverDeleted` for whole runs, and
  `Witnesses.SecondIsKept` for two rows.
* The model takes the countdown as the program does, from the length of the id
  list, so a list that repeats an id never reaches zero:
  `DuplicatesStrandExactly`, `Witnesses.DuplicateWaitsOn`.

## Model

| member | source | states |
|---|---|---|
| JobStore.Store.CancelDependents | job_worker/models/queue_job.py:616-661 | The dependency half of the cancelling recursion terminates on any finite table, cyclic or not, without a visited set, and leaves exactly the rows reachable over both axes from the given ids' dependents cancelled |
| JobStore.Store.CancelNewly | job_worker/models/queue_job.py:643-661 | The recursive call over both axes from the rows just cancelled amounts to one reachability walk from them, although each branch may cancel what another was about to visit |
| JobStore.Store.CascadeChildrenOnParentCancelled | job_worker/models/queue_job.py:663-688 | The parent half: a worklist whose entries may have been cancelled through the other axis before they are popped still ends, with the same reachable set cancelled |
| JobStore.Store.ButtonCancelled | job_worker/models/queue_job.py:805-843 | The button's loops produce the table that CancelButtonIsReachability describes |
| JobStore.Store.CascadeChildrenOnParentSuccess | job_worker/models/queue_job.py:743-772 | The success worklist produces the table that SuccessExactly describes |
| JobStore.Store.CascadeChildrenOnParentFailure | job_worker/models/queue_job.py:774-803 | The failure worklist terminates on cyclic parents and produces the closure described by FailureExactly |
| JobStore.Store.ReleaseDependents | job_worker/models/queue_job.py:551-585 | One countdown step per completed id, in order, each on the rows that still wait |
| JobStore.Store.FailDependentsOf | job_worker/models/queue_job.py:587-614 | Waiting rows that list a failed id fail, or run if they are failure handlers |
| JobStore.Store.Complete | job_worker/cli/worker.py:1103-1126 | A finished job ends as done, promotes and cancels among its children, then counts down its barriers |
| JobStore.Store.ButtonSetToFailed | job_worker/models/queue_job.py:731-741 | All ids fail one by one with their walks, and only then the dependency axis is updated for all of them |
| JobStore.Store.ButtonSetToDone | job_worker/models/queue_job.py:720-729 | All ids become done before any barrier is counted down, and no child is touched |
| JobStore.Store.ButtonRequeue | job_worker/models/queue_job.py:690-718 | Each row is revived unless another active row holds its key at that moment, so later rows see earlier ones; in the table before the press that is the condition of RequeueExactly, and a revived row is pending with nothing counted, timed, owned or noted |
| JobStore.Store.Enqueue | job_worker/models/queue_job.py:986-1054 | The caller gets an active row under the key: if a live row carries it, that one with the table untouched, and otherwise a new one under a fresh id with every column as requested, or 10, "root", 5 and no time where the request says nothing |
| JobStore.Store.SearchExpired | job_worker/models/queue_job.py:1069-1080 | Only rows done or failed by completion time, or cancelled by cancellation time, until the cutoff; at most as many as the limit, and all of them if fewer than the limit come back |
| JobStore.Store.GcOldJobs | job_worker/models/queue_job.py:1057-1090 | Deleting in chunks deletes exactly those rows as they were at the start, unlinks the children of the deleted, and changes nothing else |
| Retention.DeletedExactly | job_worker/models/queue_job.py:1069-1085 | Done and failed rows go by completion time, cancelled ones by cancellation time, active ones never, and a survivor loses at most a parent that went |
| Retention.EndedExpires | job_worker/cli/worker.py:1103-1126 | A job that completes or fails for good can be deleted for exactly the cutoffs from that moment on |
| Retention.DiedExpires | job_worker/cli/worker.py:691-711 | So can one whose reclaim gives up |
| Retention.PressedExpire | job_worker/models/queue_job.py:720-843 | So can every job a press ends by name, of which it changes nothing but state and stamp, or what a cascade noted |
| Cancel.CancelButtonIsReachability | job_worker/models/queue_job.py:805-843 | For any edges, cyclic ones included: the cancelled rows are the given ones and those reached from the not yet ended among them by paths of waiting rows |
| Cancel.CancelButtonExactly | job_worker/models/queue_job.py:805-843 | Row by row: cancelled if given or on such a path, and otherwise not changed in any column |
| Cancel.CancelTwice | job_worker/models/queue_job.py:647-661 | Cancelling from one set of rows and then from another is cancelling from both at once, which is why the recursion may go in any order |
| Cancel.CancelPop | job_worker/models/queue_job.py:679-688 | Cancelling one popped row and walking on from its heirs is the same walk |
| Outcomes.ChainPop | job_worker/models/queue_job.py:764-772 | One turn of the success worklist leaves the final table unchanged |
| Outcomes.FailPop | job_worker/models/queue_job.py:794-803 | One turn of the failure worklist leaves the final table unchanged |
| CascadeLaws.FailureExactly | job_worker/models/queue_job.py:587-614 | After a permanent failure a waiting row fails or runs exactly when its parent is the failed job or fails with it, or it lists the job; nothing else changes, and `exc_info` names the parent |
| CascadeLaws.FailsWithParent | job_worker/models/queue_job.py:794-803 | The failed descendants are exactly the ends of chains of waiting on_done rows |
| CascadeLaws.PromotedSubtreeUntouched | job_worker/models/queue_job.py:787-803 | An on_error handler that the failure reaches runs, and every row on a path of parent links down from it is left as it was, unless it lists the failed job itself |
| Retention.FailedExpiresExactly | job_worker/models/queue_job.py:787-803 | Of the rows that are failed after a failure, some retention cutoff expires exactly those that had ended by themselves with a completion time |
| Retention.AlwaysUnstarted | job_worker/models/queue_job.py:1016-1034 | In every run, jobs that wait have no completion time and are not running |
| Retention.CascadeFailedIsNeverDeleted | job_worker/models/queue_job.py:1069-1080 | In every run in which no operator's press names it, a waiting job failed by a cascade stays in the table for good, expired by no cutoff |
| CascadeLaws.SuccessExactly | job_worker/models/queue_job.py:743-772 | On_done children run, chains that begin with an on_error child are cancelled, no other row changes |
| CascadeLaws.CompletionExactly | job_worker/cli/worker.py:1103-1126 | All that a completion does to any other row: children and chains first, then one less to wait for on each row that still waits and lists the job, which runs, or is cancelled if it is an error handler, when none is left |
| CascadeLaws.SqlAgreesExactly | job_worker/cli/worker.py:712-738 | The two SQL updates of a reclaim give every row the state the ORM cascade would, if and only if no waiting row they pass over hangs under a row the ORM walk fails |
| CascadeLaws.OneHopEnoughExactly | job_worker/cli/worker.py:712-738 | In a wired table a look at two links decides that: no on_done child of the dead job has a waiting child that the SQL passes over |
| Stranding.WaitingHasRunnable | job_worker/models/queue_job.py:647-656 | Under the invariant each waiting job is the end of a path of active rows, along parents and dependencies, that begins with a pending or started one |
| Stranding.CancelStaysSound | job_worker/models/queue_job.py:805-843 | Cancelling leaves no job waiting on what was cancelled |
| Stranding.SucceedStaysSound | job_worker/cli/worker.py:1103-1126 | Nor does completing a job, once or by a straggler a second time |
| Stranding.FailBelowStaysSound | job_worker/cli/worker.py:1299-1313 | Nor does failing one |
| Stranding.SetFailedStaysSound | job_worker/models/queue_job.py:731-741 | Nor does failing several by hand |
| StrandingRuns.EnqueueStaysSound | job_worker/models/queue_job.py:1016-1034 | Nor does a new row below active jobs that are no barriers, with distinct parentless members |
| StrandingRuns.UnlinkStaysSound | job_worker/models/queue_job.py:1069-1085 | Nor does deleting ended rows, although their children lose their parent link |
| StrandingRuns.RequeueStaysSound | job_worker/models/queue_job.py:690-718 | Nor does requeueing |
| StrandingRuns.ReclaimStrandsExactly | job_worker/cli/worker.py:689-738 | Failing a dead worker's job by SQL keeps the invariant if and only if no row it fails has a waiting child of its own |
| StrandingRuns.SetDoneStrandsExactly | job_worker/models/queue_job.py:720-729 | Setting jobs to done keeps it if and only if each waiting child of theirs is a barrier that the same press releases |
| StrandingRuns.NoJobIsStranded | job_worker/models/queue_job.py:551-843 | In every state of every run in which rows are well placed, set-to-done meets its condition, and the row an acquire selects meets the reclaim's if it is given up, each waiting job has an active parent, and each waiting barrier a positive countdown covered by active members |
| StrandingRuns.DrainedQueueIsSettled | job_worker/models/queue_job.py:551-843 | If nothing is pending or started any more, nothing waits either |
| BadWiring.DuplicatesStrandExactly | job_worker/models/queue_job.py:1029-1031 | A new barrier over active members can be satisfied if and only if it lists none twice |
| BadWiring.BarrierChildServedExactly | job_worker/models/queue_job.py:560-614 | A waiting child of a barrier goes on waiting when a member ends, and is served afterwards, after a failure if and only if the barrier is an on_error one, after a success if and only if members are left to count or it is an on_done one |
| BadWiring.BarrierChildStrands | job_worker/models/queue_job.py:551-614 | So for a barrier of either kind over enough active members, some of them can end, each once, so that the child waits under a job that is over |
| BadWiring.MemberWithParentServedExactly | job_worker/models/queue_job.py:743-803 | When the parent of a waiting member ends, the barrier goes on waiting, and is served afterwards, after a success if and only if the member is an on_done job, after a failure if and only if it is an on_error one |
| BadWiring.MemberWithParentStrands | job_worker/models/queue_job.py:743-803 | So one end of the parent always leaves the barrier one member short |
| BadWiring.BarrierOfBarrierServedExactly | job_worker/models/queue_job.py:560-614 | When a member of a barrier within a barrier ends, the outer one goes on waiting, and is served afterwards, after a failure if and only if the inner one is an on_error barrier, after a success if and only if the inner one has members left or is an on_done one |
| BadWiring.BarrierOfBarrierStrands | job_worker/models/queue_job.py:551-614 | So the members of the inner one can end, each once, so that the outer one waits for ever |
| Barriers.CountdownIsUnfinished | job_worker/models/queue_job.py:551-585 | In every run in which members complete once and stay completed, the countdown of a waiting barrier is the number of its members not done |
| Barriers.NewBarrierCounts | job_worker/models/queue_job.py:1028-1031 | It starts as the number of its distinct members |
| Barriers.NoMemberIsLost | job_worker/models/queue_job.py:551-661 | In such runs that are also guarded, the members a waiting barrier still counts are all active: none was cancelled, failed or deleted unnoticed |
| Barriers.LastMemberReleases | job_worker/models/queue_job.py:560-584 | It leaves waiting on a success if and only if no member is left, to run, or to be cancelled if it is an error handler |
| Barriers.PlayFollowsFate | job_worker/models/queue_job.py:551-614 | After any prefix of ends, with other jobs ending in between, the barrier is where the ends alone say |
| Barriers.TwinsAreConfluent | job_worker/models/queue_job.py:551-614 | Whatever the order of the members' ends, the on_done barrier is pending exactly if none failed and its on_error twin exactly if one did |
| BarrierRuns.RunFollowsFate | job_worker/models/queue_job.py:551-614 | The same over runs of the whole machine, with acquires, retries, reclaims that give up and presses in between: the barrier waits exactly while the ends so far leave it waiting, with that countdown, and leaves to the state they say |
| BarrierRuns.TwinsInRuns | job_worker/models/queue_job.py:551-614 | In every such run in which each member ends once, the on_done twin leaves waiting to run if and only if none failed, and the on_error twin if and only if one did |
| QueueWorker.Worker.SelectNext | job_worker/cli/worker.py:606-653 | The query returns a row if some row is eligible: of all eligible ones the least priority value, then the earliest time with none last, then the least id |
| QueueWorker.Worker.AcquireJobLock | job_worker/cli/worker.py:654-762 | The selected row is started for this worker, with one more attempt if it had been started, or failed with its cascade; nothing else changes when a job is taken, and none that is eligible has a smaller priority value |
| QueueWorker.Worker.HeartbeatJob | job_worker/cli/worker.py:765-782 | Row by row: the heartbeat of a row this worker has started is set to now; no other column and no other row changes |
| QueueWorker.Worker.UpdateHeartbeats | job_worker/cli/worker.py:426-448 | Row by row: the heartbeats of the active jobs this worker owns, started or not, are set to now; nothing else changes |
| QueueWorker.Worker.HandleTimeout | job_worker/cli/worker.py:812-902 | Row by row: a row this worker has started keeps state, owner, heartbeat and attempts, gets the reason, and is scheduled min(10·2^max(attempts−1, 0), cap) seconds ahead exactly if the budget is 0 or above the attempts |
| QueueWorker.Worker.ClearWorkerOwnership | job_worker/cli/worker.py:914-933 | Row by row: owner and heartbeat of a row this worker owns are cleared, its state and all other rows are kept |
| QueueWorker.Worker.RecordException | job_worker/cli/worker.py:1176-1297 | The row and the decision of every exception class in the table's columns: a missing model is tried again uncounted while the job is younger than the limit, a retryable error always, any other within the budget |
| QueueWorker.Worker.HandleException | job_worker/cli/worker.py:1176-1313 | The table afterwards is the one the laws of AttemptLaws describe: one row rewritten, or a job that is given up and takes its dependents along |
| QueueWorker.Worker.FinishAttempt | job_worker/cli/worker.py:578-595 | An attempt ends in success or in an exception, and leaves the set of active jobs |
| WorkerRows.NextExists | job_worker/cli/worker.py:635-653 | An ordered query with NULL times last selects a row exactly if one is eligible, and never two |
| WorkerRows.EligibleExactly | job_worker/cli/worker.py:609-646 | Which rows may be taken, with the stale window, the time, the channel's beating rows against its limit, 1 by default, and the throttle spelled out |
| WorkerRows.NextIsFirst | job_worker/cli/worker.py:647-648 | The row that is next precedes every eligible one by priority, then time, then id, in that direction |
| WorkerRows.NewRowDueExactly | job_worker/models/queue_job.py:1014-1034 | A job just enqueued may be taken exactly from its requested time on, if it follows nothing and its channel has room |
| AttemptLaws.AcquireExactly | job_worker/cli/worker.py:654-762 | Start, reclaim and giving up, column by column, with the rows one link behind |
| AttemptLaws.MissingRegistryExactly | job_worker/cli/worker.py:1186-1240 | A missing model: uncounted retry after the seconds asked for or the checking interval while the job is younger than the limit, failure with dependents from then on |
| AttemptLaws.RetryableExactly | job_worker/cli/worker.py:1242-1270 | A retryable error is retried whatever the budget, counted unless it says not to, after its own seconds or the usual pause |
| AttemptLaws.GenericExactly | job_worker/cli/worker.py:1272-1297 | Any other error counts and is retried while the budget, if there is one and it is not zero, is not exceeded |
| AttemptLaws.SuccessWrites | job_worker/cli/worker.py:1103-1118 | A success leaves its row done, stamped and released |
| Steps.AcquireTakes | job_worker/cli/worker.py:606-762 | An acquire rewrites at most one row; all others at most settle from waiting |
| Steps.FinishWrites | job_worker/cli/worker.py:1103-1313 | The end of an attempt rewrites its own row; all others at most settle from waiting |
| Machine.MovesExactly | job_worker/cli/worker.py:426-933 | Each step of the machine is possible exactly in the states in which the program can take it, so that no law about runs holds for want of runs |
| Machine.MovesToExactly | job_worker/cli/worker.py:426-933 | But for an acquire there is then one next state, with the table that the method for the step produces, and clock and attempts as stated |
| Lease.NoJobRunsTwice | job_worker/cli/worker.py:606-668 | With heartbeats kept up and no operator's press on a running job, no job ever has two running attempts and each owns its row |
| Lease.AcquireOverlapsExactly | job_worker/cli/worker.py:630-634 | An acquire starts a second attempt if and only if the row next in line has a running one and budget for more; that attempt's heartbeat is then overdue |
| Lease.ClaimlessWasLetGo | job_worker/cli/worker.py:914-933 | A started row without heartbeat was released by its own attempt after the method returned, and untouched since |
| Lease.TakeoverNeedsSilenceOrRelease | job_worker/cli/worker.py:812-933 | A started job that no press names changes hands only after its owner's silence, or after that release |
| Backstop.HeldGoesStaleExactly | job_worker/cli/worker.py:426-448 | While nothing else touches it, the row of a running attempt, timed out or not, is stale if and only if its owner has written no heartbeat for it, singly or in its batch, for the stale window |
| Channels.LimitsHold | job_worker/cli/worker.py:610-646 | With acquires one at a time and owners' heartbeats in time, no channel ever has more fresh started rows than its limit, 1 by default |
| Channels.LateHeartbeatExceedsExactly | job_worker/cli/worker.py:765-782 | A heartbeat breaks the limit if and only if it revives a quiet row in a full channel |
| Retry.DecisionsAgreeExactly | job_worker/cli/worker.py:689-691 | Reclaim and exception handling agree on whether another attempt follows for every budget, negative and NULL included; the timeout's guard agrees exactly if the budget is not NULL and attempts are not NULL against a budget of 1 |
| Retry.TimeoutPacesAlikeExactly | job_worker/cli/worker.py:883-902 | A timeout delays the next attempt like a generic failure of the same row if and only if no attempt is counted yet or the curve has reached its cap |
| Retry.RetryBudget | job_worker/cli/worker.py:1259-1297 | For a budget m, generic failures and reclaims number at most m+1 when the job fails, exactly m+1 if nothing else counted |
| Retry.BackoffCurve | job_worker/cli/worker.py:1263-1270 | Delays are monotone and lie between 10 seconds and the cap |
| Retry.BackoffSumUncapped | job_worker/cli/worker.py:1266-1270 | While uncapped, m delays add up to 10·(2^m − 1) seconds |
| Retry.StepRunsOnce | job_worker/cli/worker.py:606-668 | A job that is neither requeued nor reclaimed runs once at a time, and is not up for another attempt meanwhile, even if it is cancelled or ended by hand while it runs |
| Retry.FailuresAreSpaced | job_worker/cli/worker.py:641-641 | In a run in which a job's attempts only succeed or fail generically, its n-th further failure comes at least the first n delays after its first one, whatever is done by hand to it, short of a requeue, or to other jobs |
| Retry.PermanentFailureIsSpaced | job_worker/cli/worker.py:1263-1297 | In such a run the failure that first makes a job with budget m failed comes at least all m delays after its first failure |
| Identity.UniqueInEveryRun | job_worker/models/queue_job.py:996-1005 | No run in which attempts end on active rows ever has two active jobs under one non-empty key |
| Identity.UniqueInLeasedRuns | job_worker/models/queue_job.py:996-1005 | Nor does any run with timely heartbeats and no press on a running job |
| Identity.StragglerDuplicatesExactly | job_worker/cli/worker.py:1259-1280 | Without the database index a late retry breaks that if and only if its job had ended and another has taken the key |
| Intake.RequeueKeepsUnique | job_worker/models/queue_job.py:690-701 | A batch requeue revives at most one holder of a key, even if the batch repeats one |
| Intake.RequeueExactly | job_worker/models/queue_job.py:690-718 | A batch brings back a listed row exactly if its key is empty, or no other live row carries it and the row is live itself or the first of the batch with that key; what it looks like then, and that no other row changes |
| Intake.UniqueExactly | job_worker/models/queue_job.py:996-1005 | What the uniqueness of this model says: never two rows waiting, pending or started under one non-empty key |
| Intake.EnqueueKeepsUnique | job_worker/models/queue_job.py:996-1005 | A row created after the look-up found no holder does not share its key |
| Draining.EndingLowersExactly | job_worker/cli/worker.py:1259-1297 | Success or generic failure lowers the rank of its row if and only if the row was still active |
| Draining.WorkIsBoundedWhenLeased | job_worker/cli/worker.py:657-762 | The same bound in any run with timely heartbeats and no press on a running job |
| Draining.WorkIsBounded | job_worker/cli/worker.py:657-762 | With positive budgets, no requeue, retryable error or new job, and attempts that end on active rows, the number of acquires and endings in any run is at most the sum of the initial ranks |
| Runner.QueueJobRunner.RecentFailureCount | job_worker/cli/runner.py:593-610 | Stamps older than the window go, the rest keep their order, and an empty history leaves no entry |
| Runner.QueueJobRunner.RecordFailure | job_worker/cli/runner.py:640-650 | The stamp is added, the window applied, and a full window quarantines |
| Runner.QueueJobRunner.ExpireQuarantines | job_worker/cli/runner.py:612-638 | Each quarantined database is released or kept by its own pruned history; others are untouched |
| Runner.QueueJobRunner.ForgetThread | job_worker/cli/runner.py:375-385 | The mark of a counted death goes with its thread |
| Runner.QueueJobRunner.StopWorkerThread | job_worker/cli/runner.py:387-417 | A removed database leaves neither history nor quarantine behind |
| Runner.QueueJobRunner.CheckThreadHealth | job_worker/cli/runner.py:419-454 | For every database at once, one tick does what Supervision.Tick does |
| Runner.QueueJobRunner.ThreadCrashed | job_worker/cli/runner.py:766-772 | A crashing thread claims its own death and stamps its database, also after a hot removal has dropped or replaced it |
| Runner.QueueJobRunner.DiscoverDatabases | job_worker/cli/runner.py:326-357 | For every database at once, a pass expires, then starts or removes: one that is no longer served keeps neither thread nor history nor quarantine, one that is keeps its very thread |
| Supervision.RestartsAreLogged | job_worker/cli/runner.py:433-454 | The log used below records a restart exactly if a dead thread was replaced |
| Supervision.OneStampPerDeath | job_worker/cli/runner.py:443-447 | Stamps number restarts plus the corpse that is counted but not replaced, however many ticks see it |
| Supervision.PruningIsExact | job_worker/cli/runner.py:604-610 | In this and every later window the pruned history is the full one |
| Supervision.RecentIsExact | job_worker/cli/runner.py:604-610 | Pruning keeps each stamp from the cutoff on as often as it was there, and no older one |
| Supervision.TickExactly | job_worker/cli/runner.py:433-454 | What one health tick leaves of thread, stamps and quarantine, case by case |
| Supervision.DiscoverExactly | job_worker/cli/runner.py:326-357 | What one pass leaves: nothing of a database that has gone, the thread of one that is served, a new one only if it can be locked, and a quarantine only while enough stamps are recent |
| Supervision.ReleasedExactly | job_worker/cli/runner.py:631-638 | A discovery pass keeps a quarantine if and only if as many deaths as the threshold lie in its window |
| Supervision.QuarantineIsFinite | job_worker/cli/runner.py:625-638 | The first pass later than last death plus window releases, and the next tick restarts without a stamp or a new quarantine |
| Supervision.QuarantineEndsExactly | job_worker/cli/runner.py:631-638 | A quarantine that a run has reached can end in some continuation if and only if the threshold is at least one |
| Supervision.QuarantineLasts | job_worker/cli/runner.py:631-633 | With a threshold below one every later state of every continuation is quarantined |
| Supervision.RestartNeedsRoom | job_worker/cli/runner.py:439-454 | At every restart fewer restarts than the threshold lie in the window behind it |
| Supervision.RestartRate | job_worker/cli/runner.py:419-454 | In any closed interval as long as the window a database is restarted at most the threshold many times |
| Delay.Builder.Delay | job_worker/delay.py:120-165 | Terminates for cyclic links among Delayables; gives exactly the reachable ungenerated Delayables one new row each, one shared graph uuid and smaller ids only; all but the heads of an unattached root, and what is linked from an empty group or chain, wait, as failure handlers if only `on_error` leads to them |
| Delay.Builder.DelayGroup | job_worker/delay.py:240-269 | The same for a group, whose links wait on the jobs of all its members in order |
| Delay.Builder.DelayChain | job_worker/delay.py:296-331 | The same for a chain, whose members and links wait on the job before them |
| Delay.Builder.GroupMembers | job_worker/delay.py:245-261 | The collected ids are the jobs of the members, in order |
| Delay.Builder.Generate | job_worker/delay.py:132-153 | One row is added, with the Delayable's own settings and the wiring it carries, all of it from links of the graph |
| DelayJobs.NewRowCarries | job_worker/delay.py:132-153 | The generated row carries the Delayable's priority, channel, budget and time, or the documented defaults, and its parent, members, failure flag and graph |
| Delay.Builder.Inherit | job_worker/delay.py:247-259 | A member gets from its group or chain the uuid, the failure flag, and, as a head, the parent and members it has not got itself |
| DelayJobs.OneMoreJustified | job_worker/delay.py:132-153 | Every parent and dependency list in a generated row comes from a link: the job right before it, or all members of the group right before it |
| DelayJobs.InheritedFits | job_worker/delay.py:247-259 | Inheriting keeps that true for the heads of nested groups and chains |
| DelayJobs.FreshIsReachability | job_worker/delay.py:154-162 | From a fresh start the generated Delayables are those that a path of links and memberships reaches |
| DelayJobs.BarrierDistinctExactly | job_worker/delay.py:260-264 | A group's barrier repeats a job if and only if the group repeats a Delayable |
| DelayJobs.ChunksCover | job_worker/delay.py:177-177 | Chunks are non-empty, full but for the last, and together the ids in order |
| DelayJobs.SplitKeepsAllExactly | job_worker/delay.py:175-177 | No record is lost if and only if the size is positive or there is nothing to split |
| Dispatch.DispatchGraph | job_worker/delay.py:120-331 | `delay()` on fresh objects adds exactly one row, under the next ids, for each Delayable a path leads to, changes no other row, and, if awaited groups list distinct Delayables that follow nothing and nothing follows what waits for them, keeps every waiting job served; what it leaves is what the laws of GraphLaws are about |
| Dispatch.DispatchStrandsNothing | job_worker/delay.py:120-331 | That shape is enough: the wiring of the new rows, traced back to links, makes each of them served in the sense of Stranding |
| Dispatch.GenerateIsInsert | job_worker/delay.py:132-153 | Each generated row is one Insert step of the queue's state machine |
| Dispatch.NewRowSettled | job_worker/delay.py:132-162 | A new row hangs below active rows that are no barriers, and lists distinct, active, parentless rows that are none either |
| GraphLaws.AfterJobExactly | job_worker/delay.py:154-162 | A Delayable that only one Delayable links to waits for that job alone, for its success or for its failure as linked |
| GraphLaws.AfterGroupExactly | job_worker/delay.py:262-269 | One that only a group links to waits for the jobs of all its members in order, and has no parent |
| GraphLaws.InChainExactly | job_worker/delay.py:296-322 | A later member of a chain that nothing else leads to waits for the job of the member before it alone |
| DelayGraph.FreshSplits | job_worker/delay.py:154-162 | Delaying links one after another reaches what delaying them together would |
| DelayGraph.FreshOfGroup | job_worker/delay.py:240-269 | A group adds no job of its own, even if its members lead back to it |
| UpgradeGate.OpensExactly | job_worker/cli/upgrade_gate.py:119-143 | Open if and only if the probe was read and found nothing; each reason exactly when: a transition outranks the flag and the flag a skew, a timeout fails closed, other errors propagate |
| UpgradeGate.PauseClock | job_worker/cli/upgrade_gate.py:286-310 | In every run the pause clock is unset exactly while open, and otherwise the time of the first closed probe since, through changed reasons and raising probes |
| UpgradeGate.OneErrorPerPause | job_worker/cli/upgrade_gate.py:311-325 | No pause, past or present, logs the overdue error twice |
| UpgradeGate.ProbesAreSpaced | job_worker/cli/upgrade_gate.py:211-225 | Recorded probes that were not forced are an interval apart |
| UpgradeGate.ProbesExactly | job_worker/cli/upgrade_gate.py:211-225 | A call records a probe exactly if the gate is on, the call is forced, the first, or an interval after the last probe, and the probe does not raise; otherwise nothing changes |
| UpgradeGate.LogsExactly | job_worker/cli/upgrade_gate.py:286-337 | Each log line exactly when: resumed, paused or a new reason, overdue once per pause, a reminder when the last one lies a reminder's time back |
| UpgradeGate.RemembersExactly | job_worker/cli/upgrade_gate.py:286-337 | State, pause clock, reminder clock and overdue mark after a recorded probe |
| UpgradeGate.Gate.constructor | job_worker/cli/upgrade_gate.py:179-206 | The gate starts open, unchecked, with its interval and limit raised to their minima |
| UpgradeGate.Gate.Check | job_worker/cli/upgrade_gate.py:211-225 | One call is one step of those runs; it probes if forced, at first, or an interval after the last probe, and otherwise answers from its cache |
| UpgradeGate.Gate.RecordState | job_worker/cli/upgrade_gate.py:286-337 | State, clocks and log line of a recorded probe |
| UpgradeGate.Gate.Seconds | job_worker/cli/upgrade_gate.py:227-231 | Never negative, and zero while open |
| UpgradeGate.Gate.Overdue | job_worker/cli/upgrade_gate.py:233-237 | A pause is overdue from its limit on, and never if there is no limit |
| Payload.RoundTripsExactly | job_worker/models/job_serialization.py:21-85 | Decoding bottom-up gives back every nested value of existing recordsets and well-formed dates if and only if no user dict binds `__type__` to one of the three tags |
| Payload.PlainIsUnchanged | job_worker/models/job_serialization.py:21-40 | Without recordsets, what comes back is the value itself |
| Payload.GoneRecordsAreNamed | job_worker/models/job_serialization.py:52-79 | A recordset that cannot be restored is an error naming its model or the missing ids |
| Payload.MissingIsExact | job_worker/models/job_serialization.py:71-78 | The ids named are exactly those that are gone |
| Payload.HookSpares | job_worker/models/job_serialization.py:52-85 | The hook leaves exactly the untagged dicts as dicts |
| Payload.RecordsTravel | job_worker/models/job_serialization.py:21-34 | A recordset travels as an object of six named members, with exactly the six travelling keys of its context |
| Payload.DatesTravel | job_worker/models/job_serialization.py:35-40 | Dates and times travel as ISO text under their tags |
| Payload.RecordsArrive | job_worker/models/job_serialization.py:52-79 | What a tagged object becomes whoever wrote it: user, superuser flag, context and ids, with the defaults for what it leaves out |
| Payload.DatesArrive | job_worker/models/job_serialization.py:80-83 | A tagged text is read by its own parser, or is an error that names it |
| Witnesses.SetDoneStrands | job_worker/models/queue_job.py:720-729 | A run of two inserts, an acquire and one press that leaves a job waiting under a done one |
| Witnesses.ReclaimStrands | job_worker/cli/worker.py:689-738 | A run of inserts, acquires and passing time in which the reclaim that gives up leaves the third job of a chain waiting under a failed one |
| Witnesses.SqlDiffers | job_worker/cli/worker.py:712-738 | In that table the ORM cascade would have failed the third job as well |
| Witnesses.TimeoutLags | job_worker/cli/worker.py:883-902 | After one counted attempt a timeout waits 10 seconds where a failure waits 20 |
| Witnesses.NullIsNotPaced | job_worker/cli/worker.py:883-902 | With NULL columns another attempt follows but is not paced |
| Witnesses.DuplicateWaitsOn | job_worker/models/queue_job.py:560-584 | A barrier that lists its only member twice waits on after it completed |
| Witnesses.SecondIsKept | job_worker/models/queue_job.py:1069-1080 | Of two failed rows only the one that failed by itself expires |
| Witnesses.FreshLastAttemptIsNoBar | job_worker/cli/worker.py:630-653 | An acquire of another job is within the guard of NoJobIsStranded while a fresh job with an unsafe chain runs its last attempt |
| Witnesses.ChainBehindGroupWaitsOn | job_worker/models/queue_job.py:560-614 | With a job behind a barrier of either kind, the last job waits on after a completion or after a failure of the member |
| Witnesses.GroupBehindJobWaitsOn | job_worker/models/queue_job.py:743-803 | With a member of either kind behind a job, the barrier waits on after a completion or after a failure of that job |
| Witnesses.GroupBehindGroupWaitsOn | job_worker/models/queue_job.py:560-614 | With a barrier of either kind in a barrier, the outer one waits on |
| WorkerWitnesses.Overlaps | job_worker/cli/worker.py:630-668 | A run in which a worker is silent for 61 seconds and its job is started a second time |
| WorkerWitnesses.BatchKeepsHeld | job_worker/cli/worker.py:426-448 | A run in which a job is not stale two minutes after its timeout, because the batch has refreshed it |
| WorkerWitnesses.LateBeatExceeds | job_worker/cli/worker.py:765-782 | A run in which a heartbeat after exactly 60 seconds makes two fresh jobs in a channel for one |
| WorkerWitnesses.StragglerDuplicates | job_worker/cli/worker.py:1259-1280 | A run in which a job set to done while it runs fails after another has taken its key, so that two are active |
| AuxWitnesses.NeverReleased | job_worker/cli/runner.py:631-638 | With a threshold of zero the first crash quarantines a database for good |
| AuxWitnesses.LateFailureRaises | job_worker/cli/worker.py:1259-1297 | A late failure of a job that is done already leaves ten ranks of work where none was left |
| AuxWitnesses.SameMemberTwice | job_worker/delay.py:260-264 | A group that repeats a Delayable gives its barrier one job twice |
| AuxWitnesses.NegativeSplitLoses | job_worker/delay.py:175-177 | A negative size splits two records into none |
| AuxWitnesses.TaggedDictIsNoDict | job_worker/models/job_serialization.py:52-85 | A dict of the user with the tag and the shape of a date comes back as a date |

## Left out

- PostgreSQL itself: isolation levels, row locks and `SKIP LOCKED`, savepoints, statement timeouts, notifications. Each committed transaction is one step and there is one integer clock; within one call of the supervisor the clock reads one value.
- The ORM constraint and the partial unique index on `identity_key`: the model shows what the code paths keep without them.
- Rate limits: eligibility takes the set of channels that are throttled as an input; the counting behind it is best effort in the program.
- The waiting loop of `process_jobs`, thread pools, registry reloads, database-error recovery and the stall watchdog.
- `run_now`, no-delay mode and calling the job method: an attempt's end is an outcome (success, generic, retryable or missing-registry error, timed out).
- Result serialisation, durations, log texts and traceback texts; `exc_info` keeps which event wrote it.
- Argument checks of `enqueue` (model and method names, conflicting times) and the payload it stores; `Enqueue` covers rows, wiring and keys.
- The computation of the retention cutoff from its system parameter; `GcOldJobs` takes the cutoff.
- Members of groups and chains that are not Delayables: the program fails on a nested group because its `delay()` returns nothing. Targets of `on_done` and `on_error` may be groups and chains.
- Delayables without a method (an error in the program), callable and textual identity keys of Delayables: `Generate` enqueues without a key, so nothing is reused.
- Objects of a job graph are indices into a sequence, so aliasing is equality of indices; `DelayLinks`, `GroupMember` and `DelayMember` split loops that the program writes out in place.
- Date and time parsing: a date is its ISO text, and the parser is a parameter.
- JSON text: payloads are trees whose objects have distinct keys; numbers are integers, tuples are lists, and shapes of a tagged object that Odoo would reject in its own ways are one error.
- The superuser rule of Odoo environments: a decoded recordset has the user and the `su` flag it was encoded with.
- The module-version query of the upgrade gate, its connection handling and the warnings about missing modules; a probe's four columns are an input.
- The stop event, `_fleet_is_degraded`, the heartbeat file, advisory-lock connections, registry loading and signal handling of the supervisor.
- The monitor, demo and stress addons.
- Lease.NoJobRunsTwice: assumes no operator's press names a running job, because a requeue releases the row while its method still runs.
- Channels.LimitsHold: acquires are serialised; the program accepts overshoot by concurrent ones.
