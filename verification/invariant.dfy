/**
 The inductive invariant of the tables: how job status, live leases, lease history and accepted
 commits fit together in every reachable state, split cancels included.
 */
module Invariant {
  import opened Tables
  import opened Transactions
  import opened Protocol

  /** Issue order, fence order and issue-time order are one and the same. */
  ghost predicate FencesOrdered(db: Db) {
    && (forall i, k :: 0 <= i < k < |db.history| ==>
          db.history[i].fence < db.history[k].fence && db.history[i].issuedAt <= db.history[k].issuedAt)
    && (forall i :: 0 <= i < |db.history| ==>
          1 <= db.history[i].fence <= db.lastFence && db.history[i].issuedAt <= db.clock)
  }

  ghost predicate KeysUnique(db: Db) {
    forall a, b :: a in db.jobs && b in db.jobs && db.jobs[a].key == db.jobs[b].key ==> a == b
  }

  ghost predicate Referential(db: Db) {
    && db.leases.Keys <= db.jobs.Keys
    && (forall i :: 0 <= i < |db.history| ==> db.history[i].job in db.jobs)
  }

  ghost predicate StatusMatchesLease(db: Db) {
    && (forall j :: j in db.jobs && db.jobs[j].status == Dispatched ==> j in db.leases)
    && (forall j :: j in db.leases && j in db.jobs ==>
      db.jobs[j].status == Dispatched || db.jobs[j].status == Cancelled)
  }

  /** The job's newest history row carries this fence and worker. */
  ghost predicate NewestRowIs(db: Db, job: JobId, worker: WorkerId, fence: nat) {
    var n := Newest(db.history, job);
    n >= 0 && db.history[n].worker == worker && db.history[n].fence == fence
  }

  ghost predicate LeasesBacked(db: Db) {
    forall j :: j in db.leases ==>
      && NewestRowIs(db, j, db.leases[j].worker, db.leases[j].token)
      && db.history[Newest(db.history, j)].Open()
  }

  /** An open row is its job's newest and belongs to a live lease or to a cancelled job. */
  ghost predicate OpenRowsHeld(db: Db) {
    forall i :: 0 <= i < |db.history| && db.history[i].Open() ==>
      && Newest(db.history, db.history[i].job) == i
      && (db.history[i].job in db.leases || HasStatus(db, db.history[i].job, Cancelled))
  }

  ghost predicate CommitFinal(db: Db, c: CommitRow) {
    && c.accepted
    && (HasStatus(db, c.job, Succeeded) || HasStatus(db, c.job, Cancelled)) && db.jobs[c.job].result.Some?
    && c.job !in db.leases
    && NewestRowIs(db, c.job, c.worker, c.fence)
  }

  ghost predicate CommitsFinal(db: Db) {
    && (forall i :: 0 <= i < |db.commits| ==> CommitFinal(db, db.commits[i]))
    && (forall i, k :: 0 <= i < k < |db.commits| ==> db.commits[i].job != db.commits[k].job)
  }

  ghost predicate Recorded(db: Db, job: JobId, to: Status) {
    exists t :: t in db.transitions && t.job == job && t.to == to
  }

  /** Every terminal status has left the audit row that proves it. */
  ghost predicate TerminalEvidence(db: Db) {
    forall j :: j in db.jobs ==>
      && (db.jobs[j].status == Succeeded || db.jobs[j].result.Some? ==> HasCommit(db, j))
      && (db.jobs[j].status == Failed || db.jobs[j].status == Cancelled ==> Recorded(db, j, db.jobs[j].status))
  }

  ghost predicate RowsAgree(db: Db) {
    && FencesOrdered(db)
    && KeysUnique(db)
    && Referential(db)
    && StatusMatchesLease(db)
  }

  ghost predicate TablesAgree(db: Db) {
    RowsAgree(db) && LeasesBacked(db) && OpenRowsHeld(db)
  }

  ghost predicate Inv(db: Db) {
    TablesAgree(db) && CommitsFinal(db) && TerminalEvidence(db)
  }

  // POST /jobs

  lemma InsertKeepsInv(db: Db, id: JobId, key: Key, createdAt: int, at: int)
    requires Inv(db) && id !in db.jobs && !KeyTaken(db, key)
    ensures Inv(InsertJob(db, id, key, createdAt, at))
  {
    InsertKeepsTables(db, id, key, createdAt, at);
    InsertKeepsCommits(db, id, key, createdAt, at);
    InsertKeepsEvidence(db, id, key, createdAt, at);
  }

  lemma InsertKeepsTables(db: Db, id: JobId, key: Key, createdAt: int, at: int)
    requires TablesAgree(db) && id !in db.jobs && !KeyTaken(db, key)
    ensures TablesAgree(InsertJob(db, id, key, createdAt, at))
  {
    InsertKeepsRows(db, id, key, createdAt, at);
    InsertKeepsOpenRows(db, id, key, createdAt, at);
  }

  lemma InsertKeepsRows(db: Db, id: JobId, key: Key, createdAt: int, at: int)
    requires RowsAgree(db) && id !in db.jobs && !KeyTaken(db, key)
    ensures RowsAgree(InsertJob(db, id, key, createdAt, at))
  {
  }

  lemma InsertKeepsOpenRows(db: Db, id: JobId, key: Key, createdAt: int, at: int)
    requires Referential(db) && OpenRowsHeld(db) && id !in db.jobs
    ensures OpenRowsHeld(InsertJob(db, id, key, createdAt, at))
  {
  }

  lemma InsertKeepsCommits(db: Db, id: JobId, key: Key, createdAt: int, at: int)
    requires CommitsFinal(db) && id !in db.jobs
    ensures CommitsFinal(InsertJob(db, id, key, createdAt, at))
  {
  }

  lemma InsertKeepsEvidence(db: Db, id: JobId, key: Key, createdAt: int, at: int)
    requires TerminalEvidence(db)
    ensures TerminalEvidence(InsertJob(db, id, key, createdAt, at))
  {
  }

  // DELETE /jobs/:id

  lemma CancelKeepsInv(db: Db, job: JobId, at: int)
    requires Inv(db)
    ensures Inv(CancelJob(db, job, at))
  {
    CancelKeepsTables(db, job, at);
    CancelKeepsCommits(db, job, at);
    CancelKeepsEvidence(db, job, at);
  }

  lemma CancelKeepsTables(db: Db, job: JobId, at: int)
    requires TablesAgree(db)
    ensures TablesAgree(CancelJob(db, job, at))
  {
    CancelKeepsRows(db, job, at);
    CancelKeepsOpenRows(db, job, at);
  }

  lemma CancelKeepsRows(db: Db, job: JobId, at: int)
    requires RowsAgree(db)
    ensures RowsAgree(CancelJob(db, job, at))
  {
  }

  lemma CancelKeepsOpenRows(db: Db, job: JobId, at: int)
    requires OpenRowsHeld(db)
    ensures OpenRowsHeld(CancelJob(db, job, at))
  {
  }

  lemma CancelKeepsCommits(db: Db, job: JobId, at: int)
    requires CommitsFinal(db)
    ensures CommitsFinal(CancelJob(db, job, at))
  {
  }

  lemma CancelKeepsEvidence(db: Db, job: JobId, at: int)
    requires TerminalEvidence(db)
    ensures TerminalEvidence(CancelJob(db, job, at))
  {
    assert TransitionRow(job, Some(Pending), Cancelled, at) in CancelJob(db, job, at).transitions;
  }

  // Dispatch

  lemma DispatchKeepsInv(db: Db, job: JobId, worker: WorkerId, ts: int, expiresAt: int, at: int)
    requires Inv(db) && HasStatus(db, job, Pending) && db.clock <= ts
    ensures Inv(DispatchJob(db, job, worker, ts, expiresAt, at))
  {
    DispatchKeepsTables(db, job, worker, ts, expiresAt, at);
    DispatchKeepsCommits(db, job, worker, ts, expiresAt, at);
    DispatchKeepsEvidence(db, job, worker, ts, expiresAt, at);
  }

  lemma DispatchMovesNewest(db: Db, job: JobId, worker: WorkerId, ts: int, expiresAt: int, at: int)
    requires job in db.jobs && job !in db.leases
    ensures forall j :: Newest(DispatchJob(db, job, worker, ts, expiresAt, at).history, j)
                     == if j == job then |db.history| else Newest(db.history, j)
  {
    forall j {
      NewestAppend(db.history, HistoryRow(job, worker, db.lastFence + 1, ts, None), j);
    }
  }

  lemma DispatchKeepsTables(db: Db, job: JobId, worker: WorkerId, ts: int, expiresAt: int, at: int)
    requires TablesAgree(db) && HasStatus(db, job, Pending) && db.clock <= ts
    ensures TablesAgree(DispatchJob(db, job, worker, ts, expiresAt, at))
  {
    DispatchKeepsRows(db, job, worker, ts, expiresAt, at);
    DispatchKeepsLeases(db, job, worker, ts, expiresAt, at);
  }

  lemma DispatchKeepsRows(db: Db, job: JobId, worker: WorkerId, ts: int, expiresAt: int, at: int)
    requires RowsAgree(db) && HasStatus(db, job, Pending) && db.clock <= ts
    ensures RowsAgree(DispatchJob(db, job, worker, ts, expiresAt, at))
  {
  }

  lemma DispatchKeepsLeases(db: Db, job: JobId, worker: WorkerId, ts: int, expiresAt: int, at: int)
    requires StatusMatchesLease(db) && LeasesBacked(db) && OpenRowsHeld(db) && HasStatus(db, job, Pending)
    ensures LeasesBacked(DispatchJob(db, job, worker, ts, expiresAt, at))
    ensures OpenRowsHeld(DispatchJob(db, job, worker, ts, expiresAt, at))
  {
    DispatchMovesNewest(db, job, worker, ts, expiresAt, at);
  }

  lemma DispatchKeepsCommits(db: Db, job: JobId, worker: WorkerId, ts: int, expiresAt: int, at: int)
    requires CommitsFinal(db) && HasStatus(db, job, Pending) && job !in db.leases
    ensures CommitsFinal(DispatchJob(db, job, worker, ts, expiresAt, at))
  {
    DispatchMovesNewest(db, job, worker, ts, expiresAt, at);
  }

  lemma DispatchKeepsEvidence(db: Db, job: JobId, worker: WorkerId, ts: int, expiresAt: int, at: int)
    requires TerminalEvidence(db) && job in db.jobs
    ensures TerminalEvidence(DispatchJob(db, job, worker, ts, expiresAt, at))
  {
  }

  // job.result

  lemma CommitKeepsInv(db: Db, job: JobId, worker: WorkerId, token: nat, value: Value, at: int)
    requires Inv(db)
    ensures Inv(CommitResult(db, job, worker, token, value, at))
  {
    CommitKeepsTables(db, job, worker, token, value, at);
    CommitKeepsCommits(db, job, worker, token, value, at);
    CommitKeepsEvidence(db, job, worker, token, value, at);
  }

  lemma TerminateKeepsNewest(db: Db, ids: set<JobId>, at: int)
    ensures forall j :: Newest(Terminate(db.history, ids, at), j) == Newest(db.history, j)
    ensures forall j :: j !in ids && Newest(db.history, j) >= 0 ==>
              Terminate(db.history, ids, at)[Newest(db.history, j)] == db.history[Newest(db.history, j)]
  {
    forall j ensures Newest(Terminate(db.history, ids, at), j) == Newest(db.history, j) {
      NewestTerminate(db.history, ids, at, j);
    }
    forall j | j !in ids && Newest(db.history, j) >= 0
      ensures Terminate(db.history, ids, at)[Newest(db.history, j)] == db.history[Newest(db.history, j)]
    {
      NewestSpec(db.history, j);
    }
  }

  lemma CommitKeepsTables(db: Db, job: JobId, worker: WorkerId, token: nat, value: Value, at: int)
    requires TablesAgree(db)
    ensures TablesAgree(CommitResult(db, job, worker, token, value, at))
  {
    CommitKeepsRows(db, job, worker, token, value, at);
    CommitKeepsLeases(db, job, worker, token, value, at);
  }

  lemma CommitKeepsRows(db: Db, job: JobId, worker: WorkerId, token: nat, value: Value, at: int)
    requires RowsAgree(db)
    ensures RowsAgree(CommitResult(db, job, worker, token, value, at))
  {
  }

  lemma CommitKeepsLeases(db: Db, job: JobId, worker: WorkerId, token: nat, value: Value, at: int)
    requires StatusMatchesLease(db) && Referential(db) && LeasesBacked(db) && OpenRowsHeld(db)
    ensures LeasesBacked(CommitResult(db, job, worker, token, value, at))
    ensures OpenRowsHeld(CommitResult(db, job, worker, token, value, at))
  {
    TerminateKeepsNewest(db, {job}, at);
    var d := CommitResult(db, job, worker, token, value, at);
    forall i | 0 <= i < |d.history| && d.history[i].Open()
      ensures Newest(d.history, d.history[i].job) == i
      ensures d.history[i].job in d.leases || HasStatus(d, d.history[i].job, Cancelled)
    {
      assert db.history[i].Open();
    }
  }

  lemma CommitKeepsCommits(db: Db, job: JobId, worker: WorkerId, token: nat, value: Value, at: int)
    requires LeasesBacked(db) && CommitsFinal(db)
    ensures CommitsFinal(CommitResult(db, job, worker, token, value, at))
  {
    TerminateKeepsNewest(db, {job}, at);
  }

  lemma CommitKeepsEvidence(db: Db, job: JobId, worker: WorkerId, token: nat, value: Value, at: int)
    requires TerminalEvidence(db)
    ensures TerminalEvidence(CommitResult(db, job, worker, token, value, at))
  {
    if JudgeResult(db, job, worker, token).Accepted? {
      assert CommitRow(job, true, token, worker, at) in CommitResult(db, job, worker, token, value, at).commits;
    }
  }

  // job.failed and the reaper

  lemma EndLeasesKeepsInv(db: Db, ids: set<JobId>, to: Status, at: int, log: seq<TransitionRow>)
    requires Inv(db) && (to == Pending || to == Failed)
    requires to == Failed ==> forall j :: j in ids ==> exists t :: t in log && t.job == j && t.to == Failed
    ensures Inv(EndLeases(db, ids, to, at).(transitions := db.transitions + log))
  {
    EndLeasesKeepsTables(db, ids, to, at, log);
    EndLeasesKeepsCommits(db, ids, to, at, log);
    EndLeasesKeepsEvidence(db, ids, to, at, log);
  }

  lemma EndLeasesKeepsTables(db: Db, ids: set<JobId>, to: Status, at: int, log: seq<TransitionRow>)
    requires TablesAgree(db) && (to == Pending || to == Failed)
    ensures TablesAgree(EndLeases(db, ids, to, at).(transitions := db.transitions + log))
  {
    EndLeasesKeepsRows(db, ids, to, at, log);
    EndLeasesKeepsLeases(db, ids, to, at, log);
  }

  lemma EndLeasesKeepsRows(db: Db, ids: set<JobId>, to: Status, at: int, log: seq<TransitionRow>)
    requires RowsAgree(db) && (to == Pending || to == Failed)
    ensures RowsAgree(EndLeases(db, ids, to, at).(transitions := db.transitions + log))
  {
  }

  lemma EndLeasesKeepsLeases(db: Db, ids: set<JobId>, to: Status, at: int, log: seq<TransitionRow>)
    requires LeasesBacked(db) && OpenRowsHeld(db)
    ensures LeasesBacked(EndLeases(db, ids, to, at).(transitions := db.transitions + log))
    ensures OpenRowsHeld(EndLeases(db, ids, to, at).(transitions := db.transitions + log))
  {
    TerminateKeepsNewest(db, ids, at);
  }

  lemma EndLeasesKeepsCommits(db: Db, ids: set<JobId>, to: Status, at: int, log: seq<TransitionRow>)
    requires CommitsFinal(db)
    ensures CommitsFinal(EndLeases(db, ids, to, at).(transitions := db.transitions + log))
  {
    TerminateKeepsNewest(db, ids, at);
  }

  lemma EndLeasesKeepsEvidence(db: Db, ids: set<JobId>, to: Status, at: int, log: seq<TransitionRow>)
    requires TerminalEvidence(db) && (to == Pending || to == Failed)
    requires to == Failed ==> forall j :: j in ids ==> exists t :: t in log && t.job == j && t.to == Failed
    ensures TerminalEvidence(EndLeases(db, ids, to, at).(transitions := db.transitions + log))
  {
  }

  // job.heartbeat

  lemma RenewKeepsInv(db: Db, job: JobId, worker: WorkerId, token: nat, expiresAt: int)
    requires Inv(db)
    ensures Inv(RenewLease(db, job, worker, token, expiresAt))
  {
    RenewKeepsTables(db, job, worker, token, expiresAt);
    RenewKeepsCommits(db, job, worker, token, expiresAt);
    var d := RenewLease(db, job, worker, token, expiresAt);
    assert d.jobs == db.jobs && d.commits == db.commits && d.transitions == db.transitions;
  }

  lemma RenewKeepsTables(db: Db, job: JobId, worker: WorkerId, token: nat, expiresAt: int)
    requires TablesAgree(db)
    ensures TablesAgree(RenewLease(db, job, worker, token, expiresAt))
  {
    RenewKeepsOpenRows(db, job, worker, token, expiresAt);
  }

  lemma RenewKeepsOpenRows(db: Db, job: JobId, worker: WorkerId, token: nat, expiresAt: int)
    requires OpenRowsHeld(db)
    ensures OpenRowsHeld(RenewLease(db, job, worker, token, expiresAt))
  {
  }

  lemma RenewKeepsCommits(db: Db, job: JobId, worker: WorkerId, token: nat, expiresAt: int)
    requires CommitsFinal(db)
    ensures CommitsFinal(RenewLease(db, job, worker, token, expiresAt))
  {
  }

  lemma StepKeepsInv(s: State, e: Event)
    requires Inv(s.db) && Enabled(s, e)
    ensures Inv(Step(s, e).db)
  {
    match e
    case SubmitCheck(_, _, _) =>
    case SubmitInsert(h, id, createdAt, at) =>
      if !KeyTaken(s.db, s.handlers[h].key) {
        InsertKeepsInv(s.db, id, s.handlers[h].key, createdAt, at);
      }
    case SubmitRecover(_, _) =>
    case CancelCheck(_, _) =>
    case CancelWrite(h, at) => CancelKeepsInv(s.db, s.handlers[h].job, at);
    case Dispatch(worker, job, ts, expiresAt, at) => DispatchKeepsInv(s.db, job, worker, ts, expiresAt, at);
    case AbortDispatch(_) =>
    case ResultLookup(_, _, _, _, _, _) =>
    case ResultWrite(h, at, _) =>
      var c := s.handlers[h];
      CommitKeepsInv(s.db, c.job, c.worker, c.token, c.value, at);
    case ResultReread(_, _) =>
    case FailTemp(_, job, _, at) =>
      EndLeasesKeepsInv(s.db, {job}, Pending, at, []);
      assert s.db.transitions + [] == s.db.transitions;
    case FailPerm(_, job, _, at) =>
      var record := TransitionRow(job, Some(Dispatched), Failed, at);
      assert record in [record];
      EndLeasesKeepsInv(s.db, {job}, Failed, at, [record]);
    case Heartbeat(worker, job, token, expiresAt) => RenewKeepsInv(s.db, job, worker, token, expiresAt);
    case Reap(ids, at) => EndLeasesKeepsInv(s.db, Elements(ids), Pending, at, RequeueRecords(ids, at));
    case Abandon(_) =>
  }

  /** Every reachable state satisfies the invariant. */
  lemma {:induction false} Reachable(run: Run)
    requires Valid(run)
    ensures Inv(After(run).db)
  {
    if run != [] {
      var before := run[..|run| - 1];
      Reachable(before);
      StepKeepsInv(After(before), run[|run| - 1]);
    }
  }
}
