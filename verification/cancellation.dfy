/**
 What a cancel leaves behind when its job has moved on between the check and the write: exactly when
 a lease is stranded on a CANCELLED job, and exactly when a history row stays open for good.
 */
module Cancellation {
  import opened Tables
  import opened Transactions
  import opened Protocol
  import opened Invariant
  import opened Growth
  import opened Safety

  /** The write hits a job that has been leased since the status check. */
  ghost predicate Strands(s: State, e: Event, job: JobId)
    requires Enabled(s, e)
  {
    CancelsJob(s, e, job) && HasStatus(s.db, job, Dispatched)
  }

  ghost predicate FailsJob(e: Event, job: JobId) {
    (e.FailTemp? || e.FailPerm?) && e.job == job
  }

  /** The lease holder's result reaches its write. */
  ghost predicate HolderWrites(s: State, e: Event, job: JobId)
    requires Enabled(s, e)
  {
    e.ResultWrite? && s.handlers[e.h].job == job && Holds(s.db, job, s.handlers[e.h].worker, s.handlers[e.h].token)
  }

  /** A cancel was written while the job was DISPATCHED, and since then nobody failed it or reported its result. */
  ghost predicate Stranded(run: Run, job: JobId)
    requires Valid(run)
  {
    run != [] && (
      var before, e := run[..|run| - 1], run[|run| - 1];
      var s := After(before);
      Strands(s, e, job) || (Stranded(before, job) && !FailsJob(e, job) && !HolderWrites(s, e, job)))
  }

  /** The holder of a stranded lease reported its result, and since then nobody failed the job. */
  ghost predicate Orphaned(run: Run, job: JobId)
    requires Valid(run)
  {
    run != [] && (
      var before, e := run[..|run| - 1], run[|run| - 1];
      (Stranded(before, job) && HolderWrites(After(before), e, job)) || (Orphaned(before, job) && !FailsJob(e, job)))
  }

  predicate LeasedWhileCancelled(db: Db, job: JobId) {
    HasStatus(db, job, Cancelled) && job in db.leases
  }

  /** The job's newest row is open although the job has no lease. */
  predicate OpenWithoutLease(db: Db, job: JobId) {
    var n := Newest(db.history, job);
    n >= 0 && db.history[n].Open() && job !in db.leases
  }

  lemma StrandedStep(s: State, e: Event, job: JobId)
    requires Enabled(s, e) && StatusMatchesLease(s.db) && Referential(s.db)
    ensures LeasedWhileCancelled(Step(s, e).db, job) <==>
      Strands(s, e, job) || (LeasedWhileCancelled(s.db, job) && !FailsJob(e, job) && !HolderWrites(s, e, job))
  {
    if e.ResultWrite? {
      StrandedResult(s, e, job);
    }
  }

  lemma StrandedResult(s: State, e: Event, job: JobId)
    requires Enabled(s, e) && e.ResultWrite? && StatusMatchesLease(s.db) && Referential(s.db)
    ensures LeasedWhileCancelled(Step(s, e).db, job) <==> LeasedWhileCancelled(s.db, job) && !HolderWrites(s, e, job)
  {
    var c := s.handlers[e.h];
    assert Step(s, e).db == CommitResult(s.db, c.job, c.worker, c.token, c.value, e.at);
  }

  /** In every reachable state a lease sits on a CANCELLED job if and only if it was stranded and not freed. */
  lemma {:induction false} StrandedExactly(run: Run, job: JobId)
    requires Valid(run)
    ensures LeasedWhileCancelled(After(run).db, job) <==> Stranded(run, job)
  {
    if run != [] {
      var before := run[..|run| - 1];
      StrandedExactly(before, job);
      assert StatusMatchesLease(After(before).db) && Referential(After(before).db) by {
        Reachable(before);
      }
      StrandedStep(After(before), run[|run| - 1], job);
    }
  }

  /** How one step makes, keeps and closes an open row without a lease. */
  ghost predicate OrphanStep(s: State, e: Event, job: JobId)
    requires Enabled(s, e)
  {
    OpenWithoutLease(Step(s, e).db, job) <==>
      (LeasedWhileCancelled(s.db, job) && HolderWrites(s, e, job)) || (OpenWithoutLease(s.db, job) && !FailsJob(e, job))
  }

  lemma OrphanedStep(s: State, e: Event, job: JobId)
    requires Enabled(s, e) && TablesAgree(s.db)
    ensures OrphanStep(s, e, job)
  {
    match e
    case Dispatch(_, _, _, _, _) => OrphanedDispatch(s, e, job);
    case ResultWrite(_, _, _) => OrphanedResult(s, e, job);
    case FailTemp(_, j, _, at) => OrphanedEnd(s, {j}, Pending, at, job);
    case FailPerm(_, j, _, at) => OrphanedEnd(s, {j}, Failed, at, job);
    case Reap(ids, at) => OrphanedEnd(s, Elements(ids), Pending, at, job);
    case _ =>
  }

  lemma OrphanedDispatch(s: State, e: Event, job: JobId)
    requires Enabled(s, e) && e.Dispatch? && OpenRowsHeld(s.db)
    ensures OrphanStep(s, e, job)
  {
    if e.job !in s.db.leases {
      DispatchMovesNewest(s.db, e.job, e.worker, e.ts, e.expiresAt, e.at);
    }
    NewestSpec(s.db.history, job);
  }

  lemma OrphanedResult(s: State, e: Event, job: JobId)
    requires Enabled(s, e) && e.ResultWrite?
    requires Referential(s.db) && StatusMatchesLease(s.db) && LeasesBacked(s.db)
    ensures OrphanStep(s, e, job)
  {
    NewestTerminate(s.db.history, {s.handlers[e.h].job}, e.at, job);
    NewestSpec(s.db.history, job);
  }

  lemma OrphanedEnd(s: State, ids: set<JobId>, to: Status, at: int, job: JobId)
    ensures OpenWithoutLease(EndLeases(s.db, ids, to, at), job) <==> OpenWithoutLease(s.db, job) && job !in ids
  {
    NewestTerminate(s.db.history, ids, at, job);
    NewestSpec(s.db.history, job);
  }

  /** In every reachable state a row is open without a lease if and only if the second early return left it so. */
  lemma {:induction false} OrphanedExactly(run: Run, job: JobId)
    requires Valid(run)
    ensures OpenWithoutLease(After(run).db, job) <==> Orphaned(run, job)
  {
    if run != [] {
      var before := run[..|run| - 1];
      OrphanedExactly(before, job);
      StrandedExactly(before, job);
      Reachable(before);
      OrphanedStep(After(before), run[|run| - 1], job);
    }
  }

  /** Leased exactly when DISPATCHED, and of the job's rows exactly the newest of a leased job is open. */
  ghost predicate LeaseMatches(db: Db, job: JobId) {
    && (job in db.leases <==> HasStatus(db, job, Dispatched))
    && (forall i :: 0 <= i < |db.history| && db.history[i].job == job ==>
          (db.history[i].Open() <==> job in db.leases && Newest(db.history, job) == i))
  }

  /**
   A job's lease, status and open row agree exactly when its lease is not stranded and its row not
   orphaned: "leases are the DISPATCHED jobs" fails in these two ways and in no other.
   */
  lemma LeasesMatchDispatched(run: Run, job: JobId)
    requires Valid(run)
    ensures LeaseMatches(After(run).db, job) <==> !Stranded(run, job) && !Orphaned(run, job)
  {
    StrandedExactly(run, job);
    OrphanedExactly(run, job);
    Reachable(run);
    MatchesUnlessLeftOver(After(run).db, job);
  }

  lemma MatchesUnlessLeftOver(db: Db, job: JobId)
    requires TablesAgree(db)
    ensures LeaseMatches(db, job) <==> !LeasedWhileCancelled(db, job) && !OpenWithoutLease(db, job)
  {
    NewestSpec(db.history, job);
  }

  /** Neither happens to a job whose every cancel finds it still PENDING at the write. */
  lemma {:induction false} AtomicCancelsLeaveNothing(run: Run, job: JobId)
    requires Valid(run)
    requires forall k :: CancelsAt(run, k, job) ==> HasStatus(StateAt(run, k).db, job, Pending)
    ensures !Stranded(run, job) && !Orphaned(run, job)
  {
    if run != [] {
      var before := run[..|run| - 1];
      forall k | CancelsAt(before, k, job) ensures CancelsAt(run, k, job) && StateAt(run, k) == StateAt(before, k) {
        assert run[..k] == before[..k];
      }
      AtomicCancelsLeaveNothing(before, job);
      StateAtStep(run, |before|);
      assert CancelsJob(After(before), run[|before|], job) ==> CancelsAt(run, |before|, job);
    }
  }

  // Committed jobs

  /** Event k is the write of a cancel of the job after its commit. */
  ghost predicate CancelsCommitted(run: Run, k: int, job: JobId)
    requires Valid(run)
  {
    CancelsAt(run, k, job) && HasCommit(StateAt(run, k).db, job)
  }

  lemma PrefixCancels(run: Run, k: int, job: JobId)
    requires Valid(run) && run != [] && 0 <= k < |run| - 1
    ensures CancelsCommitted(run, k, job) <==> CancelsCommitted(run[..|run| - 1], k, job)
  {
    assert run[..k] == run[..|run| - 1][..k];
  }

  /** A committed job is SUCCEEDED exactly when no cancel of it was written after its commit. */
  lemma {:induction false} CommittedSucceedsExactly(run: Run, job: JobId)
    requires Valid(run) && HasCommit(After(run).db, job)
    ensures HasStatus(After(run).db, job, Succeeded) <==> !exists k :: CancelsCommitted(run, k, job)
  {
    var before, last := run[..|run| - 1], |run| - 1;
    var s := After(before);
    assert run[..last] == before;
    forall k | 0 <= k < last ensures CancelsCommitted(run, k, job) <==> CancelsCommitted(before, k, job) {
      PrefixCancels(run, k, job);
    }
    if HasCommit(s.db, job) {
      CommittedSucceedsExactly(before, job);
      CommittedStep(s, run[last], job) by {
        Reachable(before);
      }
      assert CancelsCommitted(run, last, job) <==> CancelsJob(s, run[last], job);
    } else {
      FirstCommitSucceeds(s, run[last], job);
      NoCommitBefore(run, job);
    }
  }

  lemma CommittedStep(s: State, e: Event, job: JobId)
    requires Enabled(s, e) && CommitsFinal(s.db) && TerminalEvidence(s.db) && HasCommit(s.db, job)
    ensures HasStatus(Step(s, e).db, job, Succeeded) <==> HasStatus(s.db, job, Succeeded) && !CancelsJob(s, e, job)
  {
    var c :| c in s.db.commits && c.job == job;
    assert CommitFinal(s.db, c);
    RelabelledExactlyByLateCancel(s, e, job);
  }

  lemma FirstCommitSucceeds(s: State, e: Event, job: JobId)
    requires Enabled(s, e) && !HasCommit(s.db, job) && HasCommit(Step(s, e).db, job)
    ensures HasStatus(Step(s, e).db, job, Succeeded) && !CancelsJob(s, e, job)
  {
    var c :| c in Step(s, e).db.commits && c.job == job;
    assert c !in s.db.commits;
  }

  lemma NoCommitBefore(run: Run, job: JobId)
    requires Valid(run) && run != [] && !HasCommit(After(run[..|run| - 1]).db, job)
    ensures forall k :: !CancelsCommitted(run, k, job)
  {
    var last := |run| - 1;
    forall k | 0 <= k <= last ensures !HasCommit(StateAt(run, k).db, job) {
      RunGrows(run, k, last);
      assert forall c :: c in StateAt(run, k).db.commits ==> c in StateAt(run, last).db.commits;
    }
  }
}
