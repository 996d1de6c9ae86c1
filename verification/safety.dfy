/** The safety promises of the protocol, over every run and every interleaving. */
module Safety {
  import opened Tables
  import opened Transactions
  import opened Protocol
  import opened Invariant
  import opened Growth

  // Commits

  /**
   Once a commit for a job is accepted it is, now and in every later state, the job's only
   commit; it carries the newest fence ever issued for the job and that fence's worker.
   */
  lemma AcceptedCommitIsFinal(run: Run, a: nat, b: nat, c: CommitRow)
    requires Valid(run) && a <= b <= |run| && c in StateAt(run, a).db.commits
    ensures var db := StateAt(run, b).db;
      && c in db.commits && c.accepted
      && (forall c' :: c' in db.commits && c'.job == c.job ==> c' == c)
      && (forall i, k :: 0 <= i < k < |db.commits| ==> db.commits[i].job != db.commits[k].job)
      && (exists i :: 0 <= i < |db.history| && db.history[i].job == c.job
                   && db.history[i].fence == c.fence && db.history[i].worker == c.worker)
      && (forall i :: 0 <= i < |db.history| && db.history[i].job == c.job ==> db.history[i].fence <= c.fence)
  {
    var db := StateAt(run, b).db;
    assert c in db.commits by {
      RunGrows(run, a, b);
    }
    assert FencesOrdered(db) && CommitsFinal(db) by {
      ReachableAt(run, b);
    }
    CommitIsUnderNewestFence(db, c);
  }

  lemma CommitIsUnderNewestFence(db: Db, c: CommitRow)
    requires FencesOrdered(db) && CommitsFinal(db) && c in db.commits
    ensures c.accepted && forall c' :: c' in db.commits && c'.job == c.job ==> c' == c
    ensures exists i :: 0 <= i < |db.history| && db.history[i].job == c.job
                     && db.history[i].fence == c.fence && db.history[i].worker == c.worker
    ensures forall i :: 0 <= i < |db.history| && db.history[i].job == c.job ==> db.history[i].fence <= c.fence
  {
    assert CommitFinal(db, c);
    NewestSpec(db.history, c.job);
  }

  /** Each fence is issued once, so a live lease is the only thing its token can match. */
  lemma TokenNamesOneLease(run: Run, i: nat, k: nat)
    requires Valid(run)
    requires i < |After(run).db.history| && k < |After(run).db.history|
    requires After(run).db.history[i].fence == After(run).db.history[k].fence
    ensures i == k
  {
    Reachable(run);
  }

  // Acks

  ghost predicate AcksBacked(s: State) {
    && (forall k :: 0 <= k < |s.acks| ==> HasCommit(s.db, s.acks[k].job))
    && (forall k :: 0 <= k < |s.drops| ==> HasCommit(s.db, s.drops[k]))
    && Distinct(s.drops)
  }

  /** Every ack sent is for a committed job; at most one ack per job is ever suppressed. */
  lemma {:induction false} AcksFollowCommits(run: Run)
    requires Valid(run)
    ensures AcksBacked(After(run))
  {
    if run != [] {
      var before := run[..|run| - 1];
      AcksFollowCommits(before);
      Reachable(before);
      Reachable(run);
      AckStep(After(before), run[|run| - 1]);
    }
  }

  lemma AckStep(s: State, e: Event)
    requires Enabled(s, e) && CommitsFinal(s.db) && TerminalEvidence(s.db) && LeasesBacked(s.db)
    requires AcksBacked(s)
    ensures AcksBacked(Step(s, e))
  {
    var s' := Step(s, e);
    StepGrowsRecords(s, e);
    forall j | HasCommit(s.db, j) ensures HasCommit(s'.db, j) {
      var c :| c in s.db.commits && c.job == j;
      assert c in s'.db.commits;
    }
    if e.ResultWrite? {
      var c := s.handlers[e.h];
      if JudgeResult(s.db, c.job, c.worker, c.token).Accepted? {
        assert CommitRow(c.job, true, c.token, c.worker, e.at) in s'.db.commits;
        assert !HasCommit(s.db, c.job);
      }
    }
  }

  // Terminal states

  /** The terminal set is closed and a result is never rewritten, even with split cancels. */
  lemma TerminalIsForever(run: Run, a: nat, b: nat, job: JobId)
    requires Valid(run) && a <= b <= |run|
    requires job in StateAt(run, a).db.jobs && StateAt(run, a).db.jobs[job].status.Terminal()
    ensures job in StateAt(run, b).db.jobs
    ensures var before := StateAt(run, a).db.jobs[job];
      var after := StateAt(run, b).db.jobs[job];
      && after.status.Terminal() && after.result == before.result
      && (after.status == before.status || after.status == Cancelled)
  {
    RunGrows(run, a, b);
  }

  ghost predicate CancelsJob(s: State, e: Event, job: JobId)
    requires Enabled(s, e)
  {
    e.CancelWrite? && s.handlers[e.h].job == job
  }

  /** Event k of the run is the write of a cancel of this job. */
  ghost predicate CancelsAt(run: Run, k: int, job: JobId)
    requires Valid(run)
  {
    && 0 <= k < |run| && run[k].CancelWrite?
    && run[k].h in StateAt(run, k).handlers && StateAt(run, k).handlers[run[k].h] == Cancelling(job)
  }

  /** A terminal status is relabelled by a step exactly when the step is a late cancel write. */
  lemma RelabelledExactlyByLateCancel(s: State, e: Event, job: JobId)
    requires CommitsFinal(s.db) && TerminalEvidence(s.db) && Enabled(s, e)
    requires job in s.db.jobs && s.db.jobs[job].status.Terminal()
    ensures job in Step(s, e).db.jobs
    ensures Step(s, e).db.jobs[job].status != s.db.jobs[job].status
       <==> CancelsJob(s, e, job) && s.db.jobs[job].status != Cancelled
  {
    if e.ResultWrite? {
      var c := s.handlers[e.h];
      assert Step(s, e).db == CommitResult(s.db, c.job, c.worker, c.token, c.value, e.at);
    }
  }

  lemma CommitsAt(run: Run, k: nat)
    requires Valid(run) && k <= |run|
    ensures CommitsFinal(StateAt(run, k).db) && TerminalEvidence(StateAt(run, k).db)
  {
    ReachableAt(run, k);
  }

  lemma RelabelledAt(run: Run, k: nat, job: JobId)
    requires Valid(run) && k < |run|
    requires job in StateAt(run, k).db.jobs && StateAt(run, k).db.jobs[job].status.Terminal()
    ensures job in StateAt(run, k + 1).db.jobs
    ensures StateAt(run, k + 1).db.jobs[job].status ==
      if CancelsAt(run, k, job) then Cancelled else StateAt(run, k).db.jobs[job].status
  {
    StateAtStep(run, k);
    CommitsAt(run, k);
    RelabelledExactlyByLateCancel(StateAt(run, k), run[k], job);
    TerminalIsForever(run, k, k + 1, job);
  }

  /** A terminal status differs later exactly when it was not CANCELLED and this very job's cancel was written since. */
  lemma {:induction false} TerminalStatusChangesExactly(run: Run, a: nat, b: nat, job: JobId)
    requires Valid(run) && a <= b <= |run|
    requires job in StateAt(run, a).db.jobs && StateAt(run, a).db.jobs[job].status.Terminal()
    ensures job in StateAt(run, b).db.jobs && StateAt(run, b).db.jobs[job].status.Terminal()
    ensures StateAt(run, b).db.jobs[job].status != StateAt(run, a).db.jobs[job].status
       <==> StateAt(run, a).db.jobs[job].status != Cancelled && exists k :: a <= k < b && CancelsAt(run, k, job)
    decreases b
  {
    if a < b {
      TerminalStatusChangesExactly(run, a, b - 1, job);
      RelabelledAt(run, b - 1, job);
      TerminalIsForever(run, a, b - 1, job);
    }
  }

  /** The dispatched PENDING job never has a lease row, so the insert cannot hit the primary key. */
  lemma DispatchNeverHitsPrimaryKey(run: Run, k: nat)
    requires Valid(run) && k < |run| && run[k].Dispatch?
    ensures var db := StateAt(run, k).db;
      var after := StateAt(run, k + 1).db;
      && run[k].job !in db.leases
      && run[k].job in after.jobs && after.jobs[run[k].job].status == Dispatched
      && after.leases == db.leases[run[k].job := LeaseRow(run[k].worker, db.lastFence + 1, run[k].expiresAt)]
      && after.history == db.history + [HistoryRow(run[k].job, run[k].worker, db.lastFence + 1, run[k].ts, None)]
      && db.clock <= run[k].ts == after.clock
      && after.transitions == db.transitions + [TransitionRow(run[k].job, Some(Pending), Dispatched, run[k].at)]
      && Holds(after, run[k].job, run[k].worker, after.lastFence)
      && (forall i :: 0 <= i < |db.history| ==> db.history[i].fence < after.lastFence)
  {
    StateAtStep(run, k);
    assert FencesOrdered(StateAt(run, k).db) && StatusMatchesLease(StateAt(run, k).db) by {
      ReachableAt(run, k);
    }
    DispatchWrites(StateAt(run, k), run[k]);
  }

  lemma DispatchWrites(s: State, e: Event)
    requires Enabled(s, e) && e.Dispatch? && StatusMatchesLease(s.db)
    ensures var db, after := s.db, Step(s, e).db;
      && e.job !in db.leases
      && after.jobs == db.jobs[e.job := db.jobs[e.job].(status := Dispatched)]
      && after.leases == db.leases[e.job := LeaseRow(e.worker, db.lastFence + 1, e.expiresAt)]
      && after.history == db.history + [HistoryRow(e.job, e.worker, db.lastFence + 1, e.ts, None)]
      && db.clock <= e.ts == after.clock && after.lastFence == db.lastFence + 1
      && after.transitions == db.transitions + [TransitionRow(e.job, Some(Pending), Dispatched, e.at)]
  {
  }

  /** Dispatches rolled back after they drew their fence. */
  function Aborts(run: Run): nat {
    if run == [] then 0 else Aborts(run[..|run| - 1]) + if run[|run| - 1].AbortDispatch? then 1 else 0
  }

  /** Aborted issues leave gaps in the fences, and nothing else does. */
  lemma {:induction false} FencesAreCounted(run: Run)
    requires Valid(run)
    ensures After(run).db.lastFence == |After(run).db.history| + Aborts(run)
  {
    if run != [] {
      var before, e := run[..|run| - 1], run[|run| - 1];
      FencesAreCounted(before);
      assert StatusMatchesLease(After(before).db) by {
        Reachable(before);
      }
      FenceStep(After(before), e);
    }
  }

  lemma FenceStep(s: State, e: Event)
    requires Enabled(s, e) && StatusMatchesLease(s.db)
    ensures Step(s, e).db.lastFence == s.db.lastFence + if e.Dispatch? || e.AbortDispatch? then 1 else 0
    ensures |Step(s, e).db.history| == |s.db.history| + if e.Dispatch? then 1 else 0
  {
  }

  /** Once a cancel has overwritten a leased job, no reaper ever selects that lease again. */
  lemma CancelledLeaseIsNeverReaped(run: Run, a: nat, b: nat, job: JobId)
    requires Valid(run) && a <= b < |run|
    requires HasStatus(StateAt(run, a).db, job, Cancelled) && run[b].Reap?
    ensures job !in run[b].ids
  {
    TerminalIsForever(run, a, b, job);
    StateAtStep(run, b);
  }
}
