/**
 The Postgres connection: one method per SQL statement the services issue, each changing exactly
 the columns its statement names. A transaction is a sequence of such calls.
 */
module DatabaseClient {
  import opened Tables
  import opened Transactions

  class Database {
    var jobs: map<JobId, JobRow>
    var leases: map<JobId, LeaseRow>
    var history: seq<HistoryRow>
    var commits: seq<CommitRow>
    var transitions: seq<TransitionRow>
    var fencingSeq: nat
    var clock: int

    /** The whole database as a value. */
    function Contents(): Db
      reads this
    {
      Db(jobs, leases, history, commits, transitions, fencingSeq, clock)
    }

    constructor ()
      ensures Contents() == EMPTY
    {
      jobs, leases, history, commits, transitions, fencingSeq, clock := map[], map[], [], [], [], 0, 0;
    }

    /** INSERT INTO Jobs; false on a violation of the unique key index. */
    method InsertJobRow(id: JobId, key: Key, createdAt: int) returns (ok: bool)
      requires id !in jobs
      modifies this`jobs
      ensures ok <==> !KeyTaken(old(Contents()), key)
      ensures ok <==> forall j :: j in old(jobs) ==> old(jobs)[j].key != key
      ensures jobs == if ok then old(jobs)[id := JobRow(key, createdAt, Pending, None)] else old(jobs)
    {
      ok := !exists j | j in jobs :: jobs[j].key == key;
      if ok {
        jobs := jobs[id := JobRow(key, createdAt, Pending, None)];
      }
    }

    /** UPDATE Jobs SET Status = to WHERE JobID IN ids AND Status = from. */
    method UpdateStatus(ids: set<JobId>, from: Status, to: Status) returns (affected: nat)
      modifies this`jobs
      ensures jobs == SetStatus(old(jobs), ids, from, to)
      ensures jobs.Keys == old(jobs.Keys) && forall j :: j in jobs ==>
        jobs[j] == if j in ids && old(jobs)[j].status == from then old(jobs)[j].(status := to) else old(jobs)[j]
      ensures affected == |set j | j in ids && j in old(jobs) && old(jobs)[j].status == from|
    {
      affected := |set j | j in ids && j in jobs && jobs[j].status == from|;
      jobs := SetStatus(jobs, ids, from, to);
    }

    /** UPDATE Jobs SET Status = to WHERE JobID = job. */
    method OverwriteStatus(job: JobId, to: Status)
      modifies this`jobs
      ensures jobs == if job in old(jobs) then old(jobs)[job := old(jobs)[job].(status := to)] else old(jobs)
    {
      if job in jobs {
        jobs := jobs[job := jobs[job].(status := to)];
      }
    }

    /** UPDATE Jobs SET Status = succeeded, Result = value WHERE JobID = job AND Status = dispatched. */
    method Succeed(job: JobId, value: Value) returns (affected: nat)
      modifies this`jobs
      ensures affected == if job in old(jobs) && old(jobs)[job].status == Dispatched then 1 else 0
      ensures jobs ==
        if affected == 1 then old(jobs)[job := old(jobs)[job].(status := Succeeded, result := Some(value))]
        else old(jobs)
    {
      affected := 0;
      if job in jobs && jobs[job].status == Dispatched {
        jobs := jobs[job := jobs[job].(status := Succeeded, result := Some(value))];
        affected := 1;
      }
    }

    /** The PENDING row that ORDER BY CreatedAt LIMIT 1 locks when no other row is locked. */
    method FindOldestPending() returns (found: Option<JobId>)
      ensures found.None? <==> PendingJobs(Contents()) == {}
      ensures found.Some? ==> Oldest(Contents(), found.value)
      ensures found.None? <==> forall j :: j in jobs ==> jobs[j].status != Pending
      ensures found.Some? ==>
        && found.value in jobs && jobs[found.value].status == Pending
        && forall j :: j in jobs && jobs[j].status == Pending ==> jobs[found.value].createdAt <= jobs[j].createdAt
    {
      found := None;
      var rest := PendingJobs(Contents());
      ghost var seen := {};
      while rest != {}
        invariant seen + rest == PendingJobs(Contents())
        invariant found.None? ==> seen == {}
        invariant found.Some? ==>
          found.value in seen && forall p :: p in seen ==> jobs[found.value].createdAt <= jobs[p].createdAt
        decreases rest
      {
        var j :| j in rest;
        if found.None? || jobs[j].createdAt < jobs[found.value].createdAt {
          found := Some(j);
        }
        seen, rest := seen + {j}, rest - {j};
      }
      assert forall j :: j in jobs && jobs[j].status == Pending ==> j in PendingJobs(Contents());
      assert found.Some? ==> found.value in PendingJobs(Contents());
    }

    /** nextval and clock_timestamp under the advisory lock: the clock never runs backwards. */
    method NextFence() returns (token: nat, ts: int)
      modifies this`fencingSeq, this`clock
      ensures token == fencingSeq == old(fencingSeq) + 1
      ensures ts == clock && old(clock) <= ts
    {
      var elapsed: nat :| true;
      fencingSeq, clock := fencingSeq + 1, clock + elapsed;
      token, ts := fencingSeq, clock;
    }

    /** INSERT INTO Leases; false on a violation of its primary key. */
    method InsertLease(job: JobId, lease: LeaseRow) returns (ok: bool)
      modifies this`leases
      ensures ok <==> job !in old(leases)
      ensures leases == if ok then old(leases)[job := lease] else old(leases)
    {
      ok := job !in leases;
      if ok {
        leases := leases[job := lease];
      }
    }

    /** DELETE FROM Leases WHERE JobID IN ids. */
    method DeleteLeases(ids: set<JobId>)
      modifies this`leases
      ensures leases == old(leases) - ids
    {
      leases := leases - ids;
    }

    /** DELETE FROM Leases WHERE JobID, WorkerID and Token match. */
    method DeleteHeldLease(job: JobId, worker: WorkerId, token: nat) returns (affected: nat)
      modifies this`leases
      ensures affected ==
        if job in old(leases) && old(leases)[job].worker == worker && old(leases)[job].token == token then 1 else 0
      ensures leases == if affected == 1 then old(leases) - {job} else old(leases)
    {
      affected := 0;
      if job in leases && leases[job].worker == worker && leases[job].token == token {
        leases := leases - {job};
        affected := 1;
      }
    }

    /** UPDATE Leases SET ExpiresAt WHERE JobID, WorkerID and Token match. */
    method UpdateExpiry(job: JobId, worker: WorkerId, token: nat, expiresAt: int)
      modifies this`leases
      ensures Contents() == RenewLease(old(Contents()), job, worker, token, expiresAt)
      ensures leases ==
        if job in old(leases) && old(leases)[job].worker == worker && old(leases)[job].token == token
        then old(leases)[job := LeaseRow(worker, token, expiresAt)] else old(leases)
    {
      if job in leases && leases[job].worker == worker && leases[job].token == token {
        leases := leases[job := leases[job].(expiresAt := expiresAt)];
      }
    }

    /** UPDATE LeaseHistory SET TerminatedAtMs = at WHERE JobID IN ids AND TerminatedAtMs IS NULL. */
    method TerminateHistory(ids: set<JobId>, at: int)
      modifies this`history
      ensures history == Terminate(old(history), ids, at)
      ensures |history| == |old(history)| && forall i :: 0 <= i < |history| ==>
        history[i] == if old(history)[i].job in ids && old(history)[i].terminatedAt == None
                      then old(history)[i].(terminatedAt := Some(at)) else old(history)[i]
    {
      history := Terminate(history, ids, at);
    }

    method InsertHistory(row: HistoryRow)
      modifies this`history
      ensures history == old(history) + [row]
    {
      history := history + [row];
    }

    method InsertCommit(row: CommitRow)
      modifies this`commits
      ensures commits == old(commits) + [row]
    {
      commits := commits + [row];
    }

    method InsertTransitions(rows: seq<TransitionRow>)
      modifies this`transitions
      ensures transitions == old(transitions) + rows
    {
      transitions := transitions + rows;
    }
  }
}
