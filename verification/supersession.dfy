/**
 The worker's guard against a superseded token, which deletes whatever entry the job then has: it can be
 reached, and can delete a newer entry, but only when the job has been committed already.
 */
module Supersession {
  import opened Tables
  import opened Invariant
  import opened Network
  import opened Wire
  import opened AckConvergence

  /** An execution is about to return although its entry is gone or belongs to another fence. */
  predicate Superseded(n: Net, worker: WorkerId, job: JobId, token: nat) {
    && worker in n.workers && W.Execution(job, token) in n.workers[worker].executing
    && !W.Current(n.workers[worker], job, token)
  }

  /** In every state of the whole system this happens only to a committed job, for which no lease exists. */
  lemma SupersededOnlyAfterCommit(run: NetRun, worker: WorkerId, job: JobId, token: nat)
    requires NetValid(run) && Superseded(NetAfter(run), worker, job, token)
    ensures HasCommit(NetAfter(run).hub.db, job) && job !in NetAfter(run).hub.db.leases
  {
    var n := NetAfter(run);
    assert WorkerFits(n, worker) by {
      WorkersAlwaysFit(run);
    }
    assert CommitsFinal(n.hub.db) by {
      HubAgrees(run);
    }
    SupersededIsCommitted(n, worker, job, token);
  }

  /**
   An execution that returns while its job has an entry under another fence deletes that entry if and only
   if it returns a result; a thrown error leaves it alone. Either way the job is committed already.
   */
  lemma DeletesOtherEntryExactly(
    run: NetRun, worker: WorkerId, job: JobId, token: nat, outcome: Option<Value>, other: nat)
    requires NetValid(run) && NetEnabled(NetAfter(run), Act(worker, W.Executed(job, token, outcome)))
    requires Holding(NetAfter(run), worker, job, other) && other != token
    ensures var n' := NetStep(NetAfter(run), Act(worker, W.Executed(job, token, outcome)));
      !Holding(n', worker, job, other) <==> outcome.Some?
    ensures HasCommit(NetAfter(run).hub.db, job)
  {
    SupersededOnlyAfterCommit(run, worker, job, token);
    ReturnsToOther(NetAfter(run), worker, job, token, outcome, other);
  }

  lemma ReturnsToOther(n: Net, worker: WorkerId, job: JobId, token: nat, outcome: Option<Value>, other: nat)
    requires NetEnabled(n, Act(worker, W.Executed(job, token, outcome)))
    requires Holding(n, worker, job, other) && other != token
    ensures !Holding(NetStep(n, Act(worker, W.Executed(job, token, outcome))), worker, job, other) <==> outcome.Some?
  {
  }

  lemma SupersededIsCommitted(n: Net, worker: WorkerId, job: JobId, token: nat)
    requires Superseded(n, worker, job, token) && WorkerFits(n, worker) && CommitsFinal(n.hub.db)
    ensures HasCommit(n.hub.db, job) && job !in n.hub.db.leases
  {
    assert HasCommit(n.hub.db, job) || Sole(n.workers[worker], job);
    var c :| c in n.hub.db.commits && c.job == job;
    assert CommitFinal(n.hub.db, c);
  }
}
