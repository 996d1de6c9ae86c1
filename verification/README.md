# Leases and fencing: a Dafny model of the coordinators, the worker and the harness check

Several leaderless coordinators share one Postgres database. They accept jobs, lease them to workers
under fencing tokens, reap expired leases, and commit results. Workers die, acks are dropped, clocks are
skewed per coordinator, stale workers report late, clients cancel at bad moments. This project models
that protocol over its shared tables and proves what holds over all runs and all interleavings, what
holds only under a condition (and then exactly which one), and gives concrete runs where the code does
less than its documentation says.

## How the model is built

- **Tables and transactions** (`tables.dfy`, `transactions.dfy`). The database is one value; every
  transaction callback is a function from the old database to the new one.
- **Protocol** (`protocol.dfy`). A state machine whose steps are those transactions plus every read made
  outside one (the lease lookup and re-read of a result, the pre-check and recovery read of a submit,
  the status check of a cancel). A request handler waits in `handlers` between its steps, so everything
  interleaves. An event carries each choice of the environment: ids, clock readings, lost reads, dropped
  acks, crashes (`Abandon`). Reaping needs no clock here: any lease of a dispatched job may go at any time.
- **Invariant, growth, safety** (`invariant.dfy`, `growth.dfy`, `safety.dfy`, `submission.dfy`,
  `cancellation.dfy`, `interference.dfy`, `conservation.dfy`, `transition_log.dfy`, `requests.dfy`). The inductive invariant
  of the tables and what follows from it: commits, terminal states, what a late cancel leaves behind, who can
  end a lease.
- **Clocks** (`timed.dfy`, `lease_bounds.dfy`, `liveness.dfy`). Wall time, changing skews, expiries; a
  coordinator reads its clock some time before the statement that uses the reading takes effect. Every
  timed run is an untimed run once expiries are blanked, so the safety theorems carry over; the bounds on
  reaping and the run that rescues any unfinished job live here.
- **Services** (`database.dfy`, `chaos.dfy`, `jobs_route.dfy`, `lease_reaper.dfy`, `worker_hub.dfy`,
  `dispatch.dfy`, `lost_worker.dfy`). Classes whose methods run the SQL statements one by one and update their fields in
  place; each method is proved to have exactly the effect of its transaction in the state machine.
- **Worker** (`worker_model.dfy`, `worker_runs.dfy`, `worker_outbox.dfy`, `worker_service.dfy`). The worker process as a class,
  proved equal to a function on values about which the theorems are stated.
- **Whole system** (`messages.dfy`, `network.dfy`, `wire.dfy`, `delivery.dfy`, `ack_convergence.dfy`, `rescue.dfy`,
  `supersession.dfy`, `superseded_run.dfy`). Coordinators, worker processes and the messages between them as one state machine:
  any message may be lost, reports may overtake one another, a dispatch goes out some time after its
  transaction or never, workers crash and restart. Every run of it projects to a run of the protocol.
- **Audit and harness** (`sequences.dfy`, `audit.dfy`, `harness.dfy`, `verdict.dfy`). The audit projection,
  the imperative check `_verify`, and what it can and cannot say about any run of the system.
- **Counterexamples** (`counterexamples.dfy`). Runs, written out event by event.

## Where the code and its documentation disagree

The model follows the code.

- A dispatch writes a 60 s lease (`dispatch.service.ts:13`), not the 15 s of `README.md:62`; only heartbeats
  write 15 s. So the "≤ 20 s" recovery of `README.md:103` fails before the first heartbeat
  (`NotRecoveredIn20Seconds`), and an early heartbeat shortens the lease
  (`EarlyHeartbeatShortensLease` says exactly when).
- A cancel checks the status, then updates by id alone (`jobs.ts:188-203`). It can overwrite a later status
  (`SplitCancelOverwritesSuccess`) and strand a lease that no reaper ever selects
  (`SplitCancelStrandsLease`, `CancelledLeaseIsNeverReaped`). `StrandedExactly` and `OrphanedExactly` say
  exactly when a lease sits on a CANCELLED job and when a history row stays open without a lease;
  `LeasesMatchDispatched` proves that there is no third way for a job's lease, status and rows to disagree.
- Stale workers are said to be silently rejected (`DECISIONS.md:18`). For results and heartbeats they are
  (`StaleReportsCannotInterfere`). `job.failed` checks neither token nor worker, so a stale worker can fail a
  job under its new holder (`StaleFailureEndsNewLease`). `LeasesEndFromOutsideExactly` lists, for every step
  of every run, the only ways a lease ends without its holder: such a report, a reap, or a late cancel.
- The same handler's temporary branch writes no transition record, and its
  permanent branch writes one even if nothing changed. The transition log therefore replays exactly when
  none of these branches, nor a late cancel, has been taken on the job (`LogReplaysIffNeverSpoiled`).
- For the same reason a job that never finished can look finished: a permanent failure reported while it is
  PENDING changes nothing but the log, and the harness no longer counts the job as lost
  (`SpuriousFailureHidesLostJob`). `LostExactly` says exactly when it does.
- A submit that loses the insert race answers `null` when its recovery read fails. The harness then tracks
  the key twice, and formatting its dedup report raises a TypeError, because Python's `sorted` cannot
  compare null with a string. `VerifyRun` proves that the check raises exactly in that case and never
  reports a duplicate otherwise.
- Fences issued in the same microsecond can be listed against fence order by the harness's stable sort on
  time. `GlobalOrderReportedIffTies` proves that this is the only cause of a global fencing report;
  `TiedIssuesLookNonmonotonic` is such a run.
- A worker whose connection is lost while a tick waits for a transaction stays in the tick's snapshot with
  the load it had. If it had room, the tick leases out the entire queue and keeps leasing jobs to that worker
  on each of its turns (`Tick`, `LostWorkerDrainsQueue`; `LostWorkerIsLeasedTheQueue` is such a tick).
- The worker's "token superseded" branch deletes whatever entry the job then has (`worker.ts:180-184`), and
  this can be a newer one (`SupersededDeletesNewerEntry`). `SupersededOnlyAfterCommit` proves that the job has
  then been committed already, so nothing is lost by it.
- `IssuedAtMs` holds microseconds, all other times milliseconds; the model never compares them.

## Assumptions about the environment

- A transaction is atomic: it commits or aborts whole. For `job.failed` on a job without a lease row this is
  an assumption, as its delete then locks nothing; the model treats the callback as one step.
- The unique index on the key, the primary key on leases, the sequence and the advisory lock do what they
  promise. The database clock does not run backwards between two issues; strict advance is assumed only
  where `StrictClock` is written.
- `FOR UPDATE SKIP LOCKED` picks some unlocked row: in the state machine a dispatch may take any PENDING
  job; a tick that runs alone takes the oldest.
- Job ids are fresh. Ids, keys, worker names and payloads are opaque, hence natural numbers.
- `LeaseReaperService.Tick` and the dispatch methods are stated for a call during which nobody else writes to
  the database, though connections may be lost at any wait of a dispatch tick. The dispatch methods require `StatusMatchesLease`, which holds in every reachable state (`Reachable`).

## Model

| member | source | states |
|---|---|---|
| `Invariant.Reachable` | src/coordinator/services/dispatch.service.ts:92-168 | in every reachable state, split cancels included: fence, issue and time order coincide; a dispatched job has a lease; a lease is its job's newest, open history row; an open row is newest and leased (or cancelled); commits are unique, final, under the newest fence; terminal statuses have audit evidence |
| `Invariant.StepKeepsInv` | src/coordinator/services/worker-hub.service.ts:180-305 | every step of every handler, from any state satisfying it, keeps that invariant |
| `Safety.AcceptedCommitIsFinal` | src/coordinator/services/worker-hub.service.ts:142-221 | an accepted commit is, then and in every later state, its job's only commit and carries the greatest fence ever issued for the job with that fence's worker |
| `Interference.StaleReportsCannotInterfere` | src/coordinator/services/worker-hub.service.ts:182-187 | a result or heartbeat under an issued fence that is not, or no longer, the sender's lease changes no table, however much later it arrives; leases ended with their row still open included |
| `Interference.NotHeldIsNeverHeld` | src/coordinator/services/dispatch.service.ts:117-139 | a fence already issued that a worker does not hold never becomes its lease again |
| `Interference.EndedFenceIsNeverHeld` | src/coordinator/services/lease-reaper.service.ts:86-90 | once a history row has been closed, its fence is held by no worker at any later moment of the run |
| `Interference.LeasesEndFromOutsideExactly` | src/coordinator/services/worker-hub.service.ts:252-305 | at any step of any run a live lease is ended, or the status under it changed, without its holder's report if and only if the step is a failure report by somebody else or under another token, a reap of the job, or a late cancel of it |
| `Interference.FailureInterferesExactly` | src/coordinator/services/worker-hub.service.ts:258-301 | in every reachable state a failure report changes more than the log if and only if the job has an open history row, whoever sends it |
| `Safety.TokenNamesOneLease` | src/coordinator/services/dispatch.service.ts:117-125 | two history rows with one fence are the same row, across all coordinators and aborted issues |
| `Safety.DispatchNeverHitsPrimaryKey` | src/coordinator/services/dispatch.service.ts:134-165 | in no run does a dispatch meet an existing lease; it writes its one lease, history row and record, under a fence greater than all issued before and stamped with its own clock reading |
| `Safety.FencesAreCounted` | src/coordinator/services/dispatch.service.ts:117-157 | over every run the sequence stands at history rows + aborted issues: an abort leaves a gap and nothing else does |
| `Safety.AcksFollowCommits` | src/coordinator/services/worker-hub.service.ts:225-245 | every ack ever sent, and every ack suppressed, is for a job with an accepted commit; at most one ack per job is ever suppressed |
| `Safety.TerminalIsForever` | src/coordinator/routes/jobs.ts:198-211 | a terminal job stays terminal under every step and its result is never rewritten; only CANCELLED can replace another terminal status |
| `Safety.RelabelledExactlyByLateCancel` | src/coordinator/routes/jobs.ts:188-203 | a step changes a terminal status if and only if it is the write of a cancel of that job and the status was not CANCELLED already |
| `Safety.TerminalStatusChangesExactly` | src/coordinator/routes/jobs.ts:188-211 | between any two moments a terminal status differs if and only if it was not CANCELLED and a cancel of this very job was written in between |
| `Cancellation.StrandedExactly` | src/coordinator/routes/jobs.ts:188-203 | in every reachable state a job is CANCELLED with a lease if and only if a cancel of it was written while it was DISPATCHED and since then nobody failed it and its holder's result was not written |
| `Cancellation.OrphanedExactly` | src/coordinator/services/worker-hub.service.ts:189-198 | a job's history row is open without a lease if and only if the second early return deleted a stranded lease and nobody failed the job since |
| `Cancellation.LeasesMatchDispatched` | src/coordinator/services/worker-hub.service.ts:258-301 | a job is leased exactly when DISPATCHED, and of its rows exactly the newest of a leased job is open, if and only if its lease is not stranded and its row not orphaned |
| `Cancellation.AtomicCancelsLeaveNothing` | src/coordinator/routes/jobs.ts:188-211 | neither happens to a job whose every cancel finds it PENDING at the write |
| `Cancellation.CommittedSucceedsExactly` | src/coordinator/services/worker-hub.service.ts:189-198 | a committed job is SUCCEEDED if and only if no cancel of it was written after its commit |
| `Safety.CancelledLeaseIsNeverReaped` | src/coordinator/services/lease-reaper.service.ts:63-71 | once a job is CANCELLED no later reap of the run ever takes it, so a lease stranded by a split cancel is out of the reaper's reach |
| `Submission.SubmitIsIdempotent` | src/coordinator/routes/jobs.ts:67-129 | for any number of racing submitters a key has at most one job, and all non-null ids answered for it at any two moments are that job's |
| `Submission.NullReplyIffReadFailed` | src/coordinator/routes/jobs.ts:112-128 | a submit is answered null if and only if it lost the insert race and its recovery read missed a job that is there |
| `Requests.EveryRequestIsAnsweredOnce` | src/coordinator/routes/jobs.ts:67-211 | over every run the submits, cancels and reports that came in are those waiting, those answered and those given up, one for one |
| `Requests.AcksNeverExceedReports` | src/coordinator/services/worker-hub.service.ts:129-250 | acks sent and suppressed are the commits plus the re-reads that found SUCCEEDED, hence never more than the results that came in |
| `Conservation.LeasesAreConserved` | src/coordinator/services/dispatch.service.ts:151-157 | per job and over any run: history rows = reaps + requeues + failures + accepted commits + leases discarded on a cancelled job + live leases |
| `Conservation.AcceptedEndingIsTheCommit` | src/coordinator/services/worker-hub.service.ts:200-220 | leases ended by acceptance over a run number one or zero, as the job has a commit row or not |
| `Conservation.DiscardedExactly` | src/coordinator/services/worker-hub.service.ts:187-198 | per job at most one lease ends without commit or requeue, and exactly if at some moment the holder of a stranded lease reported its result |
| `Conservation.EndingsAreLogged` | src/coordinator/services/lease-reaper.service.ts:91-100 | at any moment of any run the log has one record per lease issued, per reap and per commit of the job, at least one per lease ended by a permanent failure, and a FAILED job has had such an ending |
| `Growth.RunGrows` | src/coordinator/services/lease-reaper.service.ts:86-90 | between any two moments rows are only appended, a termination time once set never changes, results and keys never change, replies and acks are not taken back |
| `TransitionLog.LogReplaysIffNeverSpoiled` | src/coordinator/services/worker-hub.service.ts:258-301 | a job's records chain from "" to its current status if and only if no late cancel, no temporary failure of the dispatched job and no permanent failure of an undispatched one has happened; the damage never heals |
| `Timed.ClocksAreIrrelevant` | src/coordinator/services/chaos.service.ts:63-74 | every timed run, whatever the skews do, maps to an untimed run with the same tables up to expiries |
| `Timed.TimedCommitIsFinal` | src/coordinator/services/worker-hub.service.ts:316-332 | under any clocks a job has one commit, under the greatest fence issued for it |
| `Timed.WrittenExpiry` | src/coordinator/services/dispatch.service.ts:130-139 | a dispatch makes its lease expire 60 s, and a heartbeat of the holder 15 s, after the clock reading as its coordinator saw it |
| `LeaseBounds.ReapableExactly` | src/coordinator/services/lease-reaper.service.ts:62-71 | a lease of a dispatched job is up for reaping if and only if the reaper read its clock more than TTL + writer's skew - reaper's skew after the reading the lease was last written with |
| `LeaseBounds.TimelyHeartbeatsAreNeverReaped` | src/coordinator/services/worker-hub.service.ts:322-331 | skews within S: if the first heartbeat takes effect within 60 s - 2S of the dispatch's clock reading and every later one within 15 s - 2S of the reading before it, no reap of the run takes the job |
| `LeaseBounds.OverdueLeaseIsReaped` | src/coordinator/services/lease-reaper.service.ts:62-81 | skews within S: a reap whose clock reading is more than TTL + 2S after the lease's own takes it unless another replica holds its row |
| `LeaseBounds.RecoveryBound` | src/coordinator/services/lease-reaper.service.ts:54-81 | skews within S: if the last full reap of any coordinator read its clock at most P ago, a lease still standing rests on a reading at most TTL + 2S + P old or was written within P |
| `LeaseBounds.EarlyHeartbeatShortensLease` | src/coordinator/services/worker-hub.service.ts:322-331 | a heartbeat brings the expiry forward exactly if its clock reading came less than TTL - 15 s, corrected by the two skews, after the one before |
| `Liveness.NoJobIsStranded` | src/coordinator/services/dispatch.service.ts:96-145 | from every reachable state every non-terminal job has a run of waiting, full reaps, oldest-first dispatches and a commit that ends with it SUCCEEDED, even if its worker is gone |
| `Rescue.NoJobIsStrandedInTheNet` | src/worker/worker.ts:137-190 | from every reachable state of the whole system every non-terminal job has a run on which a worker that joins now is sent the job, executes it, has its result committed and clears its entry on the ack |
| `QueueOrder.DispatchedInTurn` | src/coordinator/services/dispatch.service.ts:93-101 | while dispatch goes oldest first and nobody cuts in, a job waits through fewer dispatches than there were pending jobs created no later than it |
| `DatabaseClient.Database.FindOldestPending` | src/coordinator/services/dispatch.service.ts:96-102 | finds nothing exactly when no job is pending, otherwise a pending job none is older than |
| `JobsRoute.JobsRouter.Submit` | src/coordinator/routes/jobs.ts:67-129 | undisturbed, it inserts exactly when the key is new, names the key's job, and is answered null only after two failed reads of a taken key |
| `JobsRoute.JobsRouter.Insert` | src/coordinator/routes/jobs.ts:84-99 | on a taken key nothing is left behind, otherwise exactly the job and its first record |
| `JobsRoute.JobsRouter.CancelCheck` | src/coordinator/routes/jobs.ts:177-196 | lets a cancel through if and only if the read worked and saw PENDING; a failed read answers not found |
| `LeaseReaper.LeaseReaperService.Tick` | src/coordinator/services/lease-reaper.service.ts:54-107 | takes exactly the unlocked leases of dispatched jobs expired by the skewed clock, each once, and does what the reap step does; partitioned, nothing |
| `WorkerHub.WorkerHubService.OnHello` | src/coordinator/services/worker-hub.service.ts:95-127 | registers a fresh entry for the socket, leaves all other workers alone and closes the replaced socket |
| `WorkerHub.WorkerHubService.Reconnect` | src/coordinator/services/worker-hub.service.ts:346-354 | the late close of a replaced socket never removes the new registration |
| `WorkerHub.WorkerHubService.OnResultLookup` | src/coordinator/services/worker-hub.service.ts:129-178 | a socket no registered worker has leads nowhere; otherwise the entry found for it goes on to commit exactly when the read worked and matched job, worker and token |
| `WorkerHub.WorkerHubService.OnResultCommit` | src/coordinator/services/worker-hub.service.ts:180-245 | its statements amount to the commit step of the state machine; the ack goes out exactly on acceptance when no drop is pending and the socket is open |
| `WorkerHub.WorkerHubService.OnResultReread` | src/coordinator/services/worker-hub.service.ts:150-178 | re-acks exactly when the read worked and the job is SUCCEEDED, and lowers the load only on the lookup path |
| `WorkerHub.WorkerHubService.OnFailed` | src/coordinator/services/worker-hub.service.ts:252-305 | for any socket, registered or not, and any token: the lease is gone, a DISPATCHED job is PENDING if temporary and otherwise FAILED with one record, open rows are closed; only the load of the reporter's entry goes down |
| `WorkerHub.WorkerHubService.OnHeartbeat` | src/coordinator/services/worker-hub.service.ts:316-332 | an unregistered socket changes nothing; otherwise only the lease named by its worker, job and token is renewed, to the skewed now + 15 s |
| `WorkerHub.WorkerHubService.GetAvailableWorkers` | src/coordinator/services/worker-hub.service.ts:362-367 | every registered worker with an open socket and room, no other, each once |
| `DispatchLoop.DispatchService.TryDispatchOne` | src/coordinator/services/dispatch.service.ts:88-197 | reports false only on an empty queue and then changes nothing; otherwise leases out an oldest job first, for 60 s by the skewed clock, and sends it with its lease's token exactly if the worker's connection has survived the wait |
| `DispatchLoop.DispatchService.RunPasses` | src/coordinator/services/dispatch.service.ts:74-83 | with connections lost at every wait, ends with the queue empty or every worker of the snapshot full, having served them round robin |
| `DispatchLoop.DispatchService.Tick` | src/coordinator/services/dispatch.service.ts:62-84 | with connections lost at every wait: oldest jobs first, each lease expiring 60 s after its own clock reading; a job is sent exactly if its worker was not lost by then; no load passes its limit; on exit the queue is empty or every worker is full; nobody got over one lease more than anybody with room; a worker lost with room empties the queue and gets exactly its turns beyond the jobs it was sent as unsent leases, a full one none |
| `DispatchLoop.TickIsOldestFirst` | src/coordinator/services/dispatch.service.ts:75-101 | a tick moves exactly its jobs to DISPATCHED, each once with one lease, and leaves no pending job strictly older than one of them |
| `DispatchLoop.TickIsARun` | src/coordinator/services/dispatch.service.ts:92-168 | a tick's effect is a run of the state machine, so the theorems about runs cover it |
| `DispatchLoop.LostWorkerDrainsQueue` | src/coordinator/services/dispatch.service.ts:77-81 | a worker lost during the tick while it had room never fills up, so only an empty queue ends the tick, and it is leased a job on every turn |
| `LostWorker.LostWorkerIsLeasedTheQueue` | src/coordinator/services/dispatch.service.ts:62-84 | a concrete tick: room for one, three jobs, the socket closes during the first dispatch, and all three are leased to it, none sent, its load still zero |
| `WorkerProcess.WorkerService.OnDispatch` | src/worker/worker.ts:137-173 | the in-place handler equals the model: duplicates ignored, over capacity refused as temporary, else one entry, one heartbeat timer, one execution |
| `WorkerProcess.WorkerService.OnExecuted` | src/worker/worker.ts:175-203 | the in-place continuation equals the model in all its branches, superseded tokens and thrown errors included |
| `WorkerProcess.WorkerService.ScheduleResultRetry` | src/worker/worker.ts:206-221 | arms one more retry or gives the job up after the fifth, as the model does |
| `WorkerProcess.WorkerService.OnTimer` | src/worker/worker.ts:220-235 | a firing heartbeat or retry timer acts only for the current token, as the model does |
| `WorkerProcess.WorkerService.OnAck` | src/worker/worker.ts:126-133 | clears the entry with both timers, as the model does |
| `WorkerRuns.WorkerStaysOrderly` | src/worker/worker.ts:166-173 | over any run each in-flight entry has exactly one heartbeat timer carrying its own token, no two entries share a timer, no heartbeat timer is left over, and each entry awaits an execution or an armed retry |
| `WorkerRuns.AtMostSixResults` | src/worker/worker.ts:206-236 | over any run at most six results are sent per accepted dispatch of a job and token |
| `WorkerOutbox.PermanentFailuresWereThrown` | src/worker/worker.ts:191-203 | over any run a permanent failure is reported only for executions that threw, at most once for each and at most once per accepted dispatch |
| `WorkerOutbox.TemporaryFailuresAreRefusals` | src/worker/worker.ts:142-161 | over any run the temporary failures of a dispatch are its refusals, one for one: full, connected, and not already serving the job |
| `WorkerOutbox.ResultsWereComputed` | src/worker/worker.ts:175-190 | over any run every result kept or sent was returned by an execution of that very dispatch |
| `WorkerRuns.InFlightWithinLargestLimit` | src/worker/worker.ts:148-163 | the in-flight size never exceeds the largest limit in force so far |
| `AckConvergence.CommittedResultIsReacked` | src/coordinator/services/worker-hub.service.ts:150-166 | after the commit every result handler of the job is led to the re-read, and that acks if and only if the read works and no cancel of the job followed its commit |
| `AckConvergence.OneMoreResultIsEnough` | src/worker/worker.ts:220-235 | in the whole system: once the job SUCCEEDED, one more delivered result of a worker has its answer under way until the worker's entry is gone, for good, through any interleaving, unless the handler is abandoned, its read fails, the job is cancelled or the ack is lost |
| `AckConvergence.OneRetryClearsTheEntry` | src/worker/worker.ts:206-236 | from every reachable state in which a connected worker knows the result of a SUCCEEDED job, firing its retry timer once leads to the entry being cleared |
| `AckConvergence.RetryGoesOut` | src/worker/worker.ts:206-236 | a connected worker that knows a result always has a retry timer whose firing puts that result on the wire |
| `Network.NetIsARun` | src/coordinator/services/worker-hub.service.ts:69-93 | whatever workers and network do, the coordinators make a run of their own state machine, so its theorems hold in the whole system |
| `Wire.AckLettersFollowCommits` | src/coordinator/services/worker-hub.service.ts:225-245 | an ack on its way to a worker is for a committed job |
| `Wire.FenceIsTakenOnce` | src/coordinator/services/dispatch.service.ts:172-185 | the dispatch of a fence is taken by at most one worker, once, in a whole run |
| `Delivery.ReportsAreConserved` | src/worker/worker.ts:238-242 | over every run each report a worker said on an open socket is on the wire, delivered or lost, once; none is delivered twice or made up |
| `Delivery.FailureDelivered` | src/coordinator/services/worker-hub.service.ts:252-305 | in the whole system a delivered failure requeues a DISPATCHED job if temporary and fails it with one record otherwise, and takes its lease, whoever sent it |
| `Delivery.FailureIsStaleExactly` | src/coordinator/services/worker-hub.service.ts:256-262 | it comes from outside the lease if and only if its socket is unregistered or it names another lease |
| `Delivery.RefusedJobIsRequeued` | src/worker/worker.ts:147-161 | a full, connected worker that receives its dispatch asks for it back, and delivered next the report puts the job back to PENDING without a lease |
| `Delivery.FailedJobThrew` | src/coordinator/services/worker-hub.service.ts:279-301 | over every run of the whole system a job is FAILED only if a worker's execution of it threw |
| `Delivery.StoredResultWasComputed` | src/coordinator/services/worker-hub.service.ts:189-197 | over every run of the whole system the result stored with a job was returned by a worker's execution of it |
| `Delivery.BeatGoesOut` | src/worker/worker.ts:166-173 | in every reachable state a connected worker's entry has an armed timer whose firing puts its heartbeat on the wire and leaves it armed |
| `Delivery.BeatNamesEntry` | src/worker/worker.ts:168-171 | conversely a heartbeat only goes out for an entry the worker has, from that entry's timer |
| `Delivery.BeatRenews` | src/coordinator/services/worker-hub.service.ts:316-332 | delivered while the lease it names stands, a heartbeat sets that lease's expiry and nothing else; otherwise nothing |
| `Delivery.ResultDelivered` | src/coordinator/services/worker-hub.service.ts:129-178 | a delivered result goes on to commit exactly if its socket is registered and a working read finds the lease it names, to the re-read otherwise, and nowhere if unregistered |
| `Wire.WorkersAlwaysFit` | src/worker/worker.ts:137-204 | in every state of the whole system every worker is orderly, and an uncommitted job has no execution but the one its entry waits for |
| `Supersession.SupersededOnlyAfterCommit` | src/worker/worker.ts:178-185 | in every state of the whole system an execution whose token has been superseded belongs to a job that is committed and has no lease |
| `Supersession.DeletesOtherEntryExactly` | src/worker/worker.ts:178-193 | in every state of the whole system an execution returning while its job has an entry under another fence deletes that entry if and only if it returns a result rather than throws; the job is committed either way |
| `SupersededRun.SupersededDeletesNewerEntry` | src/worker/worker.ts:180-184 | a reachable state in which that branch deletes the entry of a newer fence |
| `Audit.HistorySortIsIssueOrder` | src/coordinator/routes/audit.ts:48-54 | ordering a job's history by (IssuedAtMs, Fence) gives its issue order |
| `Audit.AuditedFencesIncrease` | src/coordinator/routes/audit.ts:75-81 | the fences an audit shows strictly increase and every one is a history row of that job |
| `Audit.EveryRowIsAudited` | src/coordinator/routes/audit.ts:48-54 | conversely no history row is missing from its job's audit |
| `Audit.AuditedCommitIsUnique` | src/coordinator/routes/audit.ts:44-47 | an audit shows one commit exactly when the job has one, accepted, and shows that row |
| `Audit.TransitionsShown` | src/coordinator/routes/audit.ts:63-68 | an audit shows each record of the job as often as it was written, with its own fields, in order of time, and no other |
| `Audit.CommitsShown` | src/coordinator/routes/audit.ts:69-74 | the same of commits |
| `Audit.LeasesShown` | src/coordinator/routes/audit.ts:75-81 | the same of lease history rows, termination times included |
| `Harness.CheckDedup` | chaos_harness.py:172-177 | reports exactly the keys tracked twice; raises exactly when such a key has a null id and a real one |
| `Harness.CheckCommits` | chaos_harness.py:182-190 | reports `lost` exactly if no commit is accepted and no record says succeeded, failed or cancelled; `double_commit` exactly if two commits are accepted; nothing else |
| `Harness.CheckFences` | chaos_harness.py:191-199 | comparing tokens with their sorting reports exactly the audits whose fences fall; stale commits are exactly the accepted ones below the maximum |
| `Harness.CheckOrder` | chaos_harness.py:200-214 | is silent if and only if the time-sorted fences of all audits strictly rise; otherwise it makes one report, of the first row that does not, with its job, fence and predecessor |
| `Harness.Verify` | chaos_harness.py:170-215 | makes every report it should and no other |
| `HarnessVerdict.VerifyRun` | chaos_harness.py:170-215 | on audits of any run, read at arbitrary moments: never dedup, double commit, falling fences or stale commit; no global fence report if the database clock advances between issues; raises exactly on a null id beside a real one |
| `HarnessVerdict.AuditsAreBlameless` | chaos_harness.py:178-199 | no audit of any run is faulty other than by being unreachable or unfinished, with its three reads at different moments |
| `HarnessVerdict.TerminalJobIsNotLost` | chaos_harness.py:184-188 | a job terminal before its commits and transitions were read is never reported lost |
| `HarnessVerdict.LostExactly` | chaos_harness.py:182-189 | over runs: a job is reported lost if and only if the commits read hold no row of it and the transitions read no record of it to SUCCEEDED, FAILED or CANCELLED |
| `HarnessVerdict.UnfinishedJobIsLost` | chaos_harness.py:182-189 | a job that has only ever been PENDING or DISPATCHED, with no permanent failure reported for it, is always reported lost |
| `HarnessVerdict.GlobalOrderReportedIffTies` | chaos_harness.py:200-214 | the global fence report appears if and only if two rows of one clock tick were collected against fence order |
| `HarnessVerdict.TrackedTwiceIffNullId` | chaos_harness.py:57-71 | the harness tracks a key twice if and only if one answer was null and another was the job |
| `HarnessVerdict.ReliableReadsTrackOnce` | chaos_harness.py:57-71 | if no recovery read of a key failed, the key is never tracked twice |
| `Counterexamples.StaleFailureEndsNewLease` | src/coordinator/services/worker-hub.service.ts:279-301 | a run in which a stale worker's failure report, under its old fence, fails the job and takes the lease of the new holder |
| `Counterexamples.SpuriousFailureHidesLostJob` | src/coordinator/services/worker-hub.service.ts:281-301 | a run that leaves its job PENDING, without a commit, and not reported lost |
| `Counterexamples.SplitCancelStrandsLease` | src/coordinator/routes/jobs.ts:188-203 | a run that ends with a lease on a CANCELLED job |
| `Counterexamples.SplitCancelOverwritesSuccess` | src/coordinator/routes/jobs.ts:188-203 | a run in which a succeeded, acked job becomes CANCELLED and keeps its result |
| `Counterexamples.NullReplyLooksLikeDuplicate` | chaos_harness.py:172-177 | a run with one job whose key the harness tracks twice and cannot print |
| `Counterexamples.TiedIssuesLookNonmonotonic` | chaos_harness.py:200-214 | a run on which the harness reports a global fencing violation although fences and clock never disagreed |
| `Counterexamples.SkewedReaperTakesFreshLease` | src/coordinator/services/chaos.service.ts:63-74 | a run in which a coordinator two minutes ahead reaps a lease the moment it is issued |
| `Counterexamples.NotRecoveredIn20Seconds` | README.md:103 | a run in which a worker is silent from its dispatch on, and 20 s later no coordinator would reap the lease |

## Left out

- Columns no rule reads: coordinator ids, `UpdatedAt`, payloads, and the worker registry table; `CreatedAt` is kept, and among jobs created at the same instant any may count as oldest, as in the query.
- HTTP routing, validation, response envelopes, event streaming, statistics, logging, configuration.
- The hub's ping timer and its runtime retuning of a worker's limit; the worker side of a retuning is modelled.
- Chaos `apply` and the pause and partition timers; they appear as flags that disable a tick. The skew may change at any moment and the drop of an ack is the environment's choice.
- The worker's `stop`, its reconnect delay, the pong reply and `executeJob`; the outcome of an execution is an input.
- WorkerProcess.WorkerService.OnDispatch: in-flight entries are values in the map that the methods replace, so aliasing of an entry object held across an await is not captured; the source re-reads the map after each await.
- Audit.AuditedFencesIncrease: `Number()` of a fence or time beyond 2^53 is not modelled.
- Safety.AcksFollowCommits: acks are counted when the hub hands them to a socket; losing them on the way is a step of the whole system.
- DispatchLoop.DispatchService.Tick: stated for a tick during which no worker reconnects, is retuned or reports and no other coordinator writes.
- AckConvergence.OneMoreResultIsEnough: connections are not told apart, so an ack may also reach a worker that has reconnected; the code would drop it, which is the step that loses the letter.
- QueueOrder.DispatchedInTurn: jobs requeued or submitted with an earlier creation time restart the count, as they do in the code.
- LeaseBounds.TimelyHeartbeatsAreNeverReaped: the heartbeats' timeliness is a hypothesis; it is not derived from the worker's 5 s timer and a bound on message delay.
- Liveness.NoJobIsStranded: a constructed run, not a fairness or probability claim.
- The accuracy of the hub's load counter: it is reset by a hello and lowered again by repeated results, so it need not equal the worker's load.
- The rest of the harness: process control, fault scheduling, report text; the migrations beyond their constraints.
