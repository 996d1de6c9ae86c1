/**
 What no step of the system ever takes back: rows are appended and closed once, results are
 written once, terminal states are never left, keys never move.
 */
module Growth {
  import opened Tables
  import opened Transactions
  import opened Protocol
  import opened Invariant

  /** The same issue; a termination time once set is kept. */
  ghost predicate RowGrows(r: HistoryRow, r': HistoryRow) {
    && r'.(terminatedAt := None) == r.(terminatedAt := None)
    && (!r.Open() ==> r' == r)
  }

  ghost predicate HistoryGrows(h: seq<HistoryRow>, h': seq<HistoryRow>) {
    |h| <= |h'| && forall i :: 0 <= i < |h| ==> RowGrows(h[i], h'[i])
  }

  /** A terminal job stays terminal, and only a cancel can still relabel it. */
  ghost predicate JobGrows(j: JobRow, j': JobRow) {
    && j'.key == j.key && j'.createdAt == j.createdAt
    && (j.result.Some? ==> j'.result == j.result)
    && (j.status.Terminal() ==>
          && (j'.status == j.status || j'.status == Cancelled)
          && j'.result == j.result)
  }

  ghost predicate JobsGrow(m: map<JobId, JobRow>, m': map<JobId, JobRow>) {
    forall j :: j in m ==> j in m' && JobGrows(m[j], m'[j])
  }

  ghost predicate RecordsGrow(s: State, s': State) {
    && s.db.commits <= s'.db.commits
    && s.db.transitions <= s'.db.transitions
    && s.db.lastFence <= s'.db.lastFence
    && s.replies <= s'.replies
    && s.acks <= s'.acks
    && s.drops <= s'.drops
  }

  ghost predicate Grows(s: State, s': State) {
    && JobsGrow(s.db.jobs, s'.db.jobs)
    && HistoryGrows(s.db.history, s'.db.history)
    && RecordsGrow(s, s')
  }

  lemma GrowsTransitive(a: State, b: State, c: State)
    requires Grows(a, b) && Grows(b, c)
    ensures Grows(a, c)
  {
    forall j | j in a.db.jobs ensures j in c.db.jobs && JobGrows(a.db.jobs[j], c.db.jobs[j]) {
      assert JobGrows(a.db.jobs[j], b.db.jobs[j]) && JobGrows(b.db.jobs[j], c.db.jobs[j]);
    }
    forall i | 0 <= i < |a.db.history| ensures RowGrows(a.db.history[i], c.db.history[i]) {
      assert RowGrows(a.db.history[i], b.db.history[i]) && RowGrows(b.db.history[i], c.db.history[i]);
    }
  }

  /** A job without a commit has no result yet, so a commit never overwrites one. */
  lemma DispatchedHasNoResult(db: Db, job: JobId)
    requires CommitsFinal(db) && TerminalEvidence(db) && HasStatus(db, job, Dispatched)
    ensures db.jobs[job].result == None
  {
  }

  lemma CommitGrows(db: Db, job: JobId, worker: WorkerId, token: nat, value: Value, at: int)
    requires CommitsFinal(db) && TerminalEvidence(db)
    ensures var d := CommitResult(db, job, worker, token, value, at);
      JobsGrow(db.jobs, d.jobs) && HistoryGrows(db.history, d.history)
  {
    if HasStatus(db, job, Dispatched) {
      DispatchedHasNoResult(db, job);
    }
  }

  lemma EndLeasesGrows(db: Db, ids: set<JobId>, to: Status, at: int)
    ensures var d := EndLeases(db, ids, to, at);
      JobsGrow(db.jobs, d.jobs) && HistoryGrows(db.history, d.history)
  {
  }

  lemma StepGrows(s: State, e: Event)
    requires CommitsFinal(s.db) && TerminalEvidence(s.db) && Enabled(s, e)
    ensures Grows(s, Step(s, e))
  {
    StepGrowsRecords(s, e);
    match e
    case ResultWrite(h, at, _) =>
      var c := s.handlers[h];
      CommitGrows(s.db, c.job, c.worker, c.token, c.value, at);
    case FailTemp(_, job, _, at) => EndLeasesGrows(s.db, {job}, Pending, at);
    case FailPerm(_, job, _, at) => EndLeasesGrows(s.db, {job}, Failed, at);
    case Reap(ids, at) => EndLeasesGrows(s.db, Elements(ids), Pending, at);
    case _ => StepGrowsRest(s, e);
  }

  lemma StepGrowsRecords(s: State, e: Event)
    requires Enabled(s, e)
    ensures RecordsGrow(s, Step(s, e))
  {
  }

  lemma StepGrowsRest(s: State, e: Event)
    requires Enabled(s, e) && !e.ResultWrite? && !e.FailTemp? && !e.FailPerm? && !e.Reap?
    ensures JobsGrow(s.db.jobs, Step(s, e).db.jobs) && HistoryGrows(s.db.history, Step(s, e).db.history)
  {
  }

  lemma LastStepGrows(run: Run, b: nat)
    requires Valid(run) && 0 < b <= |run|
    ensures Grows(StateAt(run, b - 1), StateAt(run, b))
  {
    StateAtStep(run, b - 1);
    assert CommitsFinal(StateAt(run, b - 1).db) && TerminalEvidence(StateAt(run, b - 1).db) by {
      ReachableAt(run, b - 1);
    }
    StepGrows(StateAt(run, b - 1), run[b - 1]);
  }

  lemma {:induction false} RunGrows(run: Run, a: nat, b: nat)
    requires Valid(run) && a <= b <= |run|
    ensures Grows(StateAt(run, a), StateAt(run, b))
    decreases b
  {
    if a < b {
      RunGrows(run, a, b - 1);
      LastStepGrows(run, b);
      GrowsTransitive(StateAt(run, a), StateAt(run, b - 1), StateAt(run, b));
    }
  }

  lemma ReachableAt(run: Run, k: nat)
    requires Valid(run) && k <= |run|
    ensures Inv(StateAt(run, k).db)
  {
    ValidPrefix(run, k);
    Reachable(run[..k]);
  }
}
