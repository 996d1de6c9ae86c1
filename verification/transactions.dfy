/**
 The net effect of every database transaction of the coordinators, each one atomic.
 The service classes run the same transactions statement by statement and are proved to
 have exactly these effects.
 */
module Transactions {
  import opened Tables

  /** Lease TTL written at dispatch. */
  const LEASE_TTL_MS := 60_000

  /** Lease TTL written by a heartbeat. */
  const HEARTBEAT_LEASE_TTL_MS := 15_000

  /** POST /jobs: the job row and its first transition record. */
  function InsertJob(db: Db, id: JobId, key: Key, createdAt: int, at: int): Db {
    db.(jobs := db.jobs[id := JobRow(key, createdAt, Pending, None)],
        transitions := db.transitions + [TransitionRow(id, None, Pending, at)])
  }

  /** DELETE /jobs/:id after its status check: the update is by JobID alone. */
  function CancelJob(db: Db, job: JobId, at: int): Db {
    db.(jobs := if job in db.jobs then db.jobs[job := db.jobs[job].(status := Cancelled)] else db.jobs,
        transitions := db.transitions + [TransitionRow(job, Some(Pending), Cancelled, at)])
  }

  /** nextval and clock_timestamp under the advisory lock; nextval survives a rollback. */
  function IssueFence(db: Db, ts: int): Db {
    db.(lastFence := db.lastFence + 1, clock := ts)
  }

  function PendingJobs(db: Db): set<JobId> {
    set j | j in db.jobs && db.jobs[j].status == Pending
  }

  /** tryDispatchOne picks a PENDING job none of the others is older than. */
  ghost predicate Oldest(db: Db, job: JobId) {
    HasStatus(db, job, Pending) && forall p :: p in PendingJobs(db) ==> db.jobs[job].createdAt <= db.jobs[p].createdAt
  }

  /**
   tryDispatchOne for the job row it has locked. A lease row already present would violate
   the primary key and roll everything back except the sequence.
   */
  function DispatchJob(db: Db, job: JobId, worker: WorkerId, ts: int, expiresAt: int, at: int): Db
    requires job in db.jobs
  {
    var d := IssueFence(db, ts);
    if job in db.leases then d
    else
      d.(jobs := d.jobs[job := d.jobs[job].(status := Dispatched)],
         leases := d.leases[job := LeaseRow(worker, d.lastFence, expiresAt)],
         history := d.history + [HistoryRow(job, worker, d.lastFence, ts, None)],
         transitions := d.transitions + [TransitionRow(job, Some(Pending), Dispatched, at)])
  }

  /** The reaper's query: the lease expired before `now` and its job is DISPATCHED. */
  predicate ExpiredBefore(db: Db, job: JobId, now: int) {
    job in db.leases && db.leases[job].expiresAt < now && HasStatus(db, job, Dispatched)
  }

  datatype Verdict = NoLease | NotDispatched | Accepted

  function JudgeResult(db: Db, job: JobId, worker: WorkerId, token: nat): Verdict {
    if !Holds(db, job, worker, token) then NoLease
    else if !HasStatus(db, job, Dispatched) then NotDispatched
    else Accepted
  }

  /** The commit transaction of onResult. Its second early return keeps the lease deletion. */
  function CommitResult(db: Db, job: JobId, worker: WorkerId, token: nat, value: Value, at: int): Db {
    match JudgeResult(db, job, worker, token)
    case NoLease => db
    case NotDispatched => db.(leases := db.leases - {job})
    case Accepted =>
      db.(leases := db.leases - {job},
          jobs := db.jobs[job := db.jobs[job].(status := Succeeded, result := Some(value))],
          commits := db.commits + [CommitRow(job, true, token, worker, at)],
          history := Terminate(db.history, {job}, at),
          transitions := db.transitions + [TransitionRow(job, Some(Dispatched), Succeeded, at)])
  }

  /** What all three ways of ending leases without a commit share. */
  function EndLeases(db: Db, ids: set<JobId>, to: Status, at: int): Db {
    db.(leases := db.leases - ids,
        jobs := SetStatus(db.jobs, ids, Dispatched, to),
        history := Terminate(db.history, ids, at))
  }

  /** job.failed with `temporary`: no transition record, no token check. */
  function FailTemporarily(db: Db, job: JobId, at: int): Db {
    EndLeases(db, {job}, Pending, at)
  }

  /** job.failed: the transition record is written whatever the update hit. */
  function FailPermanently(db: Db, job: JobId, at: int): Db {
    EndLeases(db, {job}, Failed, at).(
      transitions := db.transitions + [TransitionRow(job, Some(Dispatched), Failed, at)])
  }

  function RequeueRecords(ids: seq<JobId>, at: int): seq<TransitionRow> {
    seq(|ids|, i requires 0 <= i < |ids| => TransitionRow(ids[i], Some(Dispatched), Pending, at))
  }

  function ReapLeases(db: Db, ids: seq<JobId>, at: int): Db {
    EndLeases(db, Elements(ids), Pending, at).(transitions := db.transitions + RequeueRecords(ids, at))
  }

  function RenewLease(db: Db, job: JobId, worker: WorkerId, token: nat, expiresAt: int): Db {
    if Holds(db, job, worker, token) then db.(leases := db.leases[job := db.leases[job].(expiresAt := expiresAt)])
    else db
  }
}
