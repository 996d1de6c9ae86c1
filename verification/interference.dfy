/**
 Fencing at work: who can end a lease, and who cannot. Results and heartbeats are fenced by their
 token; failure reports are not.
 */
module Interference {
  import opened Tables
  import opened Transactions
  import opened Protocol
  import opened Invariant
  import opened Growth
  import opened Safety

  // Results and heartbeats

  lemma LeasesComeFromDispatch(s: State, e: Event, job: JobId)
    requires Enabled(s, e) && job in Step(s, e).db.leases
    ensures
      || Step(s, e).db.leases[job].token == s.db.lastFence + 1
      || (job in s.db.leases
          && Step(s, e).db.leases[job].worker == s.db.leases[job].worker
          && Step(s, e).db.leases[job].token == s.db.leases[job].token)
  {
  }

  /** A fence already issued that is not the current lease of the worker never becomes it again. */
  lemma {:induction false} NotHeldIsNeverHeld(run: Run, a: nat, b: nat, job: JobId, worker: WorkerId, token: nat)
    requires Valid(run) && a <= b <= |run|
    requires token <= StateAt(run, a).db.lastFence && !Holds(StateAt(run, a).db, job, worker, token)
    ensures !Holds(StateAt(run, b).db, job, worker, token)
    decreases b
  {
    if a < b {
      NotHeldIsNeverHeld(run, a, b - 1, job, worker, token);
      StateAtStep(run, b - 1);
      assert StateAt(run, a).db.lastFence <= StateAt(run, b - 1).db.lastFence by {
        RunGrows(run, a, b - 1);
      }
      if job in StateAt(run, b).db.leases {
        LeasesComeFromDispatch(StateAt(run, b - 1), run[b - 1], job);
      }
    }
  }

  /** Reports under a fence that is not, or no longer, the worker's lease never change a table, however late. */
  lemma StaleReportsCannotInterfere(
    run: Run, a: nat, b: nat, job: JobId, worker: WorkerId, token: nat, value: Value, at: int, expiresAt: int)
    requires Valid(run) && a <= b <= |run|
    requires token <= StateAt(run, a).db.lastFence && !Holds(StateAt(run, a).db, job, worker, token)
    ensures var db := StateAt(run, b).db;
      && CommitResult(db, job, worker, token, value, at) == db
      && RenewLease(db, job, worker, token, expiresAt) == db
  {
    NotHeldIsNeverHeld(run, a, b, job, worker, token);
  }

  /** A fence whose history row has been closed is not held by anybody. */
  lemma EndedFenceIsNotHeld(db: Db, i: nat, worker: WorkerId)
    requires FencesOrdered(db) && LeasesBacked(db)
    requires i < |db.history| && !db.history[i].Open()
    ensures db.history[i].fence <= db.lastFence && !Holds(db, db.history[i].job, worker, db.history[i].fence)
  {
    var n := Newest(db.history, db.history[i].job);
    if 0 <= n < i {
      assert db.history[n].fence < db.history[i].fence;
    } else if i < n {
      assert db.history[i].fence < db.history[n].fence;
    }
  }

  /** So a fence whose row has been closed at some moment is held by nobody ever after. */
  lemma EndedFenceIsNeverHeld(run: Run, a: nat, b: nat, i: nat, worker: WorkerId)
    requires Valid(run) && a <= b <= |run|
    requires i < |StateAt(run, a).db.history| && !StateAt(run, a).db.history[i].Open()
    ensures var row := StateAt(run, a).db.history[i];
      !Holds(StateAt(run, b).db, row.job, worker, row.fence)
  {
    var row := StateAt(run, a).db.history[i];
    assert row.fence <= StateAt(run, a).db.lastFence && !Holds(StateAt(run, a).db, row.job, worker, row.fence) by {
      ReachableAt(run, a);
      EndedFenceIsNotHeld(StateAt(run, a).db, i, worker);
    }
    NotHeldIsNeverHeld(run, a, b, row.job, worker, row.fence);
  }

  /** A result or heartbeat changes a table exactly when it names the current lease at its write step. */
  lemma OnlyTheHolderChangesTables(db: Db, job: JobId, worker: WorkerId, token: nat, value: Value, at: int,
    expiresAt: int)
    ensures CommitResult(db, job, worker, token, value, at) != db <==> Holds(db, job, worker, token)
    ensures RenewLease(db, job, worker, token, expiresAt) != db <==>
            Holds(db, job, worker, token) && db.leases[job].expiresAt != expiresAt
  {
    if Holds(db, job, worker, token) {
      var d := RenewLease(db, job, worker, token, expiresAt);
      assert job !in CommitResult(db, job, worker, token, value, at).leases;
      assert d.leases[job].expiresAt == expiresAt;
      assert db.leases[job].expiresAt == expiresAt ==> d.leases == db.leases;
    }
  }

  // Failure reports

  /** A failure report changes more than the log exactly when the job has an open row, whoever sends it. */
  lemma FailureInterferesExactly(run: Run, job: JobId, at: int)
    requires Valid(run)
    ensures var db := After(run).db;
      var open := exists i :: 0 <= i < |db.history| && db.history[i].job == job && db.history[i].Open();
      && (FailTemporarily(db, job, at) != db <==> open)
      && (FailPermanently(db, job, at).(transitions := db.transitions) != db <==> open)
  {
    Reachable(run);
    var db := After(run).db;
    if i :| 0 <= i < |db.history| && db.history[i].job == job && db.history[i].Open() {
      assert !FailTemporarily(db, job, at).history[i].Open();
      assert !FailPermanently(db, job, at).history[i].Open();
    } else {
      UnleasedIsUntouched(db, job, Pending, at);
      UnleasedIsUntouched(db, job, Failed, at);
    }
  }

  lemma UnleasedIsUntouched(db: Db, job: JobId, to: Status, at: int)
    requires StatusMatchesLease(db) && LeasesBacked(db)
    requires forall i :: 0 <= i < |db.history| && db.history[i].job == job ==> !db.history[i].Open()
    ensures EndLeases(db, {job}, to, at) == db
  {
    NewestSpec(db.history, job);
    var d := EndLeases(db, {job}, to, at);
    assert d.leases == db.leases;
    assert d.jobs == db.jobs;
    assert d.history == db.history;
  }

  /** The step takes the job's lease away, replaces it, or changes the status under it. */
  ghost predicate DisturbsLease(s: State, e: Event, job: JobId)
    requires Enabled(s, e)
  {
    job in s.db.leases && job in s.db.jobs && (
      var db' := Step(s, e).db;
      || job !in db'.leases
      || !Holds(db', job, s.db.leases[job].worker, s.db.leases[job].token)
      || !HasStatus(db', job, s.db.jobs[job].status))
  }

  /** The report, of whatever kind, names the job's current lease. */
  ghost predicate ComesFromHolder(s: State, e: Event, job: JobId)
    requires Enabled(s, e)
  {
    match e
    case ResultWrite(h, _, _) => s.handlers[h].job == job && Holds(s.db, job, s.handlers[h].worker, s.handlers[h].token)
    case FailTemp(reporter, j, token, _) => j == job && reporter.Some? && Holds(s.db, job, reporter.value, token)
    case FailPerm(reporter, j, token, _) => j == job && reporter.Some? && Holds(s.db, job, reporter.value, token)
    case _ => false
  }

  ghost predicate StaleFailure(s: State, e: Event, job: JobId)
    requires Enabled(s, e)
  {
    (e.FailTemp? || e.FailPerm?) && e.job == job && !ComesFromHolder(s, e, job)
  }

  lemma DisturbedExactly(s: State, e: Event, job: JobId)
    requires Enabled(s, e) && Referential(s.db) && StatusMatchesLease(s.db)
    ensures DisturbsLease(s, e, job) && !ComesFromHolder(s, e, job) <==>
      job in s.db.leases && (
        || StaleFailure(s, e, job)
        || (e.Reap? && job in e.ids)
        || (CancelsJob(s, e, job) && HasStatus(s.db, job, Dispatched)))
  {
    assert e.FailTemp? && e.job == job ==> job !in Step(s, e).db.leases;
    assert e.FailPerm? && e.job == job ==> job !in Step(s, e).db.leases;
    assert e.Reap? && job in e.ids ==> job !in Step(s, e).db.leases;
  }

  /**
   The exact reach of fencing: at any moment of any run a live lease is ended, or the status under it
   changed, without its holder's doing, if and only if the step is a failure report by somebody else
   or under another token, a reap of the job, or a late cancel of it.
   */
  lemma LeasesEndFromOutsideExactly(run: Run, k: nat, job: JobId)
    requires Valid(run) && k < |run|
    ensures Enabled(StateAt(run, k), run[k])
    ensures var s := StateAt(run, k);
      var e := run[k];
      DisturbsLease(s, e, job) && !ComesFromHolder(s, e, job) <==>
        job in s.db.leases && (
          || StaleFailure(s, e, job)
          || (e.Reap? && job in e.ids)
          || (CancelsAt(run, k, job) && HasStatus(s.db, job, Dispatched)))
  {
    StateAtStep(run, k);
    assert Referential(StateAt(run, k).db) && StatusMatchesLease(StateAt(run, k).db) by {
      ReachableAt(run, k);
    }
    DisturbedExactly(StateAt(run, k), run[k], job);
  }
}
