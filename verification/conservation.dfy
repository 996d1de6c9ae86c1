/** Every lease issued ends at most once, and is accounted for by exactly one kind of ending. */
module Conservation {
  import opened Tables
  import opened Transactions
  import opened Protocol
  import opened Invariant
  import opened Cancellation

  datatype Tally = Tally(reaped: nat, requeued: nat, failed: nat, accepted: nat, discarded: nat) {
    function Total(): nat {
      reaped + requeued + failed + accepted + discarded
    }
  }

  /** What one event adds to a job's tally; `discarded` counts leases lost to a cancelled job. */
  function Count(s: State, e: Event, job: JobId, t: Tally): Tally
    requires Enabled(s, e)
  {
    if job !in s.db.leases then t
    else match e
      case Reap(ids, _) => if job in ids then t.(reaped := t.reaped + 1) else t
      case FailTemp(_, j, _, _) => if j == job then t.(requeued := t.requeued + 1) else t
      case FailPerm(_, j, _, _) => if j == job then t.(failed := t.failed + 1) else t
      case ResultWrite(h, _, _) =>
        var c := s.handlers[h];
        if c.job != job then t
        else (
          match JudgeResult(s.db, job, c.worker, c.token)
          case NoLease => t
          case NotDispatched => t.(discarded := t.discarded + 1)
          case Accepted => t.(accepted := t.accepted + 1))
      case _ => t
  }

  function Endings(run: Run, job: JobId): Tally
    requires Valid(run)
  {
    if run == [] then Tally(0, 0, 0, 0, 0)
    else
      var before := run[..|run| - 1];
      Count(After(before), run[|run| - 1], job, Endings(before, job))
  }

  /** How many leases the job was ever issued. */
  function LeasesIssued(history: seq<HistoryRow>, job: JobId): nat {
    if history == [] then 0
    else LeasesIssued(history[..|history| - 1], job) + if history[|history| - 1].job == job then 1 else 0
  }

  function Live(db: Db, job: JobId): nat {
    if job in db.leases then 1 else 0
  }

  lemma LeasesIssuedAppend(history: seq<HistoryRow>, row: HistoryRow, job: JobId)
    ensures LeasesIssued(history + [row], job) == LeasesIssued(history, job) + if row.job == job then 1 else 0
  {
    assert (history + [row])[..|history|] == history;
  }

  lemma {:induction false} LeasesIssuedTerminate(history: seq<HistoryRow>, ids: set<JobId>, at: int, job: JobId)
    ensures LeasesIssued(Terminate(history, ids, at), job) == LeasesIssued(history, job)
  {
    if history != [] {
      var before := history[..|history| - 1];
      LeasesIssuedTerminate(before, ids, at, job);
      assert Terminate(history, ids, at)[..|history| - 1] == Terminate(before, ids, at);
    }
  }

  ghost predicate Balanced(s: State, job: JobId, t: Tally) {
    LeasesIssued(s.db.history, job) == t.Total() + Live(s.db, job)
  }

  /** Leases issued = reaps + requeues + failures + accepted commits + discards + live leases. */
  lemma {:induction false} LeasesAreConserved(run: Run, job: JobId)
    requires Valid(run)
    ensures Balanced(After(run), job, Endings(run, job))
  {
    if run == [] {
      assert Balanced(INITIAL, job, Tally(0, 0, 0, 0, 0));
    } else {
      var before, e := run[..|run| - 1], run[|run| - 1];
      LeasesAreConserved(before, job);
      assert StatusMatchesLease(After(before).db) by {
        Reachable(before);
      }
      ConservedStep(After(before), e, job, Endings(before, job));
      assert After(run) == Step(After(before), e);
      assert Endings(run, job) == Count(After(before), e, job, Endings(before, job));
    }
  }

  lemma ConservedStep(s: State, e: Event, job: JobId, t: Tally)
    requires Enabled(s, e) && StatusMatchesLease(s.db) && Balanced(s, job, t)
    ensures Balanced(Step(s, e), job, Count(s, e, job, t))
  {
    match e
    case Dispatch(worker, j, ts, _, _) =>
      LeasesIssuedAppend(s.db.history, HistoryRow(j, worker, s.db.lastFence + 1, ts, None), job);
    case ResultWrite(_, _, _) => ConservedResult(s, e, job, t);
    case FailTemp(_, j, _, at) => LeasesIssuedTerminate(s.db.history, {j}, at, job);
    case FailPerm(_, j, _, at) => LeasesIssuedTerminate(s.db.history, {j}, at, job);
    case Reap(ids, at) => LeasesIssuedTerminate(s.db.history, Elements(ids), at, job);
    case _ =>
  }

  lemma ConservedResult(s: State, e: Event, job: JobId, t: Tally)
    requires Enabled(s, e) && e.ResultWrite? && Balanced(s, job, t)
    ensures Balanced(Step(s, e), job, Count(s, e, job, t))
  {
    LeasesIssuedTerminate(s.db.history, {s.handlers[e.h].job}, e.at, job);
  }

  /** The accepted endings are the job's commits: none or one. */
  lemma {:induction false} AcceptedEndingIsTheCommit(run: Run, job: JobId)
    requires Valid(run)
    ensures Endings(run, job).accepted == if HasCommit(After(run).db, job) then 1 else 0
  {
    if run != [] {
      var before := run[..|run| - 1];
      AcceptedEndingIsTheCommit(before, job);
      assert CommitsFinal(After(before).db) by {
        Reachable(before);
      }
      AcceptedStep(After(before), run[|run| - 1], job, Endings(before, job));
    }
  }

  lemma AcceptedStep(s: State, e: Event, job: JobId, t: Tally)
    requires Enabled(s, e) && CommitsFinal(s.db) && t.accepted == if HasCommit(s.db, job) then 1 else 0
    ensures Count(s, e, job, t).accepted == if HasCommit(Step(s, e).db, job) then 1 else 0
  {
    if e.ResultWrite? {
      var c := s.handlers[e.h];
      var db' := Step(s, e).db;
      if JudgeResult(s.db, c.job, c.worker, c.token).Accepted? {
        var row := CommitRow(c.job, true, c.token, c.worker, e.at);
        assert row in db'.commits;
        assert forall x :: x in s.db.commits ==> x in db'.commits;
        assert HasCommit(db', job) <==> HasCommit(s.db, job) || job == c.job;
      }
    }
  }

  /** At some moment of the run the holder of a lease stranded on the cancelled job reported its result. */
  ghost predicate EverDiscarded(run: Run, job: JobId)
    requires Valid(run)
  {
    run != [] && (
      var before, e := run[..|run| - 1], run[|run| - 1];
      EverDiscarded(before, job) || (Stranded(before, job) && HolderWrites(After(before), e, job)))
  }

  /** A lease ends without commit or requeue at most once per job, and exactly if that has happened. */
  lemma {:induction false} DiscardedExactly(run: Run, job: JobId)
    requires Valid(run)
    ensures Endings(run, job).discarded == if EverDiscarded(run, job) then 1 else 0
    ensures EverDiscarded(run, job) ==> HasStatus(After(run).db, job, Cancelled) && job !in After(run).db.leases
  {
    if run != [] {
      var before := run[..|run| - 1];
      var s := After(before);
      DiscardedExactly(before, job);
      StrandedExactly(before, job);
      assert StatusMatchesLease(s.db) && Referential(s.db) by {
        Reachable(before);
      }
      DiscardStep(s, run[|run| - 1], job, Endings(before, job));
    }
  }

  lemma DiscardStep(s: State, e: Event, job: JobId, t: Tally)
    requires Enabled(s, e) && StatusMatchesLease(s.db) && Referential(s.db)
    ensures Count(s, e, job, t).discarded == t.discarded +
      if LeasedWhileCancelled(s.db, job) && HolderWrites(s, e, job) then 1 else 0
    ensures LeasedWhileCancelled(s.db, job) && HolderWrites(s, e, job) ==>
      HasStatus(Step(s, e).db, job, Cancelled) && job !in Step(s, e).db.leases
    ensures HasStatus(s.db, job, Cancelled) && job !in s.db.leases ==>
      HasStatus(Step(s, e).db, job, Cancelled) && job !in Step(s, e).db.leases
  {
  }

  // The tally and the log

  /** How many records of each kind a job has in the log. */
  datatype Records = Records(issued: nat, requeued: nat, succeeded: nat, failed: nat)

  function Add(r: Records, t: TransitionRow, job: JobId): Records {
    if t.job != job then r
    else if t.from == Some(Pending) && t.to == Dispatched then r.(issued := r.issued + 1)
    else if t.from == Some(Dispatched) && t.to == Pending then r.(requeued := r.requeued + 1)
    else if t.from == Some(Dispatched) && t.to == Succeeded then r.(succeeded := r.succeeded + 1)
    else if t.from == Some(Dispatched) && t.to == Failed then r.(failed := r.failed + 1)
    else r
  }

  function RecordsOf(log: seq<TransitionRow>, job: JobId): Records {
    if log == [] then Records(0, 0, 0, 0)
    else Add(RecordsOf(log[..|log| - 1], job), log[|log| - 1], job)
  }

  lemma RecordsAppend(log: seq<TransitionRow>, t: TransitionRow, job: JobId)
    ensures RecordsOf(log + [t], job) == Add(RecordsOf(log, job), t, job)
  {
    assert (log + [t])[..|log|] == log;
  }

  lemma {:induction false} RecordsRequeued(log: seq<TransitionRow>, ids: seq<JobId>, at: int, job: JobId)
    requires Distinct(ids)
    ensures var r := RecordsOf(log, job);
      RecordsOf(log + RequeueRecords(ids, at), job) == if job in ids then r.(requeued := r.requeued + 1) else r
  {
    if ids == [] {
      assert log + RequeueRecords(ids, at) == log;
    } else {
      var rest, last := ids[..|ids| - 1], ids[|ids| - 1];
      var t := TransitionRow(last, Some(Dispatched), Pending, at);
      assert ids == rest + [last];
      assert RequeueRecords(ids, at) == RequeueRecords(rest, at) + [t];
      assert log + RequeueRecords(ids, at) == (log + RequeueRecords(rest, at)) + [t];
      RecordsRequeued(log, rest, at, job);
      RecordsAppend(log + RequeueRecords(rest, at), t, job);
    }
  }

  /** One record per issue, per reap and per commit, and at least one per lease ended by a permanent failure. */
  ghost predicate Logged(r: Records, issued: nat, t: Tally) {
    r.issued == issued && r.requeued == t.reaped && r.succeeded == t.accepted && r.failed >= t.failed
  }

  ghost predicate LogAgrees(db: Db, job: JobId, t: Tally) {
    && Logged(RecordsOf(db.transitions, job), LeasesIssued(db.history, job), t)
    && (HasStatus(db, job, Failed) ==> t.failed >= 1)
  }

  lemma LogStep(s: State, e: Event, job: JobId, t: Tally)
    requires Enabled(s, e) && StatusMatchesLease(s.db) && LogAgrees(s.db, job, t)
    ensures LogAgrees(Step(s, e).db, job, Count(s, e, job, t))
  {
    match e
    case SubmitInsert(_, _, _, _) => LogSubmit(s, e, job, t);
    case CancelWrite(_, _) => LogCancel(s, e, job, t);
    case Dispatch(_, _, _, _, _) => LogDispatch(s, e, job, t);
    case ResultWrite(_, _, _) => LogResult(s, e, job, t);
    case FailTemp(_, _, _, _) => LogRequeue(s, e, job, t);
    case FailPerm(_, _, _, _) => LogFailure(s, e, job, t);
    case Reap(_, _) => LogReap(s, e, job, t);
    case _ => LogUntouched(s, e, job, t);
  }

  lemma LogUntouched(s: State, e: Event, job: JobId, t: Tally)
    requires Enabled(s, e) && LogAgrees(s.db, job, t)
    requires !e.SubmitInsert? && !e.CancelWrite? && !e.Dispatch? && !e.ResultWrite?
    requires !e.FailTemp? && !e.FailPerm? && !e.Reap?
    ensures LogAgrees(Step(s, e).db, job, Count(s, e, job, t))
  {
  }

  lemma LogSubmit(s: State, e: Event, job: JobId, t: Tally)
    requires Enabled(s, e) && e.SubmitInsert? && LogAgrees(s.db, job, t)
    ensures LogAgrees(Step(s, e).db, job, Count(s, e, job, t))
  {
    RecordsAppend(s.db.transitions, TransitionRow(e.id, None, Pending, e.at), job);
  }

  lemma LogCancel(s: State, e: Event, job: JobId, t: Tally)
    requires Enabled(s, e) && e.CancelWrite? && LogAgrees(s.db, job, t)
    ensures LogAgrees(Step(s, e).db, job, Count(s, e, job, t))
  {
    RecordsAppend(s.db.transitions, TransitionRow(s.handlers[e.h].job, Some(Pending), Cancelled, e.at), job);
  }

  lemma LogRequeue(s: State, e: Event, job: JobId, t: Tally)
    requires Enabled(s, e) && e.FailTemp? && LogAgrees(s.db, job, t)
    ensures LogAgrees(Step(s, e).db, job, Count(s, e, job, t))
  {
    LeasesIssuedTerminate(s.db.history, {e.job}, e.at, job);
  }

  lemma LogDispatch(s: State, e: Event, job: JobId, t: Tally)
    requires Enabled(s, e) && e.Dispatch? && LogAgrees(s.db, job, t) && StatusMatchesLease(s.db)
    ensures LogAgrees(Step(s, e).db, job, Count(s, e, job, t))
  {
    LeasesIssuedAppend(s.db.history, HistoryRow(e.job, e.worker, s.db.lastFence + 1, e.ts, None), job);
    RecordsAppend(s.db.transitions, TransitionRow(e.job, Some(Pending), Dispatched, e.at), job);
  }

  lemma LogResult(s: State, e: Event, job: JobId, t: Tally)
    requires Enabled(s, e) && e.ResultWrite? && LogAgrees(s.db, job, t)
    ensures LogAgrees(Step(s, e).db, job, Count(s, e, job, t))
  {
    var c := s.handlers[e.h];
    ResultCounts(s, e, job, t);
    LogCommit(s.db, c.job, c.worker, c.token, c.value, e.at, job, t);
  }

  lemma ResultCounts(s: State, e: Event, job: JobId, t: Tally)
    requires Enabled(s, e) && e.ResultWrite?
    ensures var c := s.handlers[e.h];
      && Step(s, e).db == CommitResult(s.db, c.job, c.worker, c.token, c.value, e.at)
      && Count(s, e, job, t) == Judged(JudgeResult(s.db, c.job, c.worker, c.token), c.job == job, t)
  {
  }

  function Judged(v: Verdict, same: bool, t: Tally): Tally {
    if same && v.Accepted? then t.(accepted := t.accepted + 1)
    else if same && v.NotDispatched? then t.(discarded := t.discarded + 1)
    else t
  }

  lemma LogCommit(db: Db, j: JobId, worker: WorkerId, token: nat, value: Value, at: int, job: JobId, t: Tally)
    requires LogAgrees(db, job, t)
    ensures LogAgrees(
      CommitResult(db, j, worker, token, value, at), job, Judged(JudgeResult(db, j, worker, token), j == job, t))
  {
    CommitLogs(db, j, worker, token, value, at, job);
  }

  lemma CommitLogs(db: Db, j: JobId, worker: WorkerId, token: nat, value: Value, at: int, job: JobId)
    ensures var d := CommitResult(db, j, worker, token, value, at);
      var r := RecordsOf(db.transitions, job);
      && RecordsOf(d.transitions, job) ==
           (if j == job && JudgeResult(db, j, worker, token).Accepted? then r.(succeeded := r.succeeded + 1) else r)
      && LeasesIssued(d.history, job) == LeasesIssued(db.history, job)
      && (HasStatus(d, job, Failed) ==> HasStatus(db, job, Failed))
  {
    LeasesIssuedTerminate(db.history, {j}, at, job);
    RecordsAppend(db.transitions, TransitionRow(j, Some(Dispatched), Succeeded, at), job);
  }

  lemma LogFailure(s: State, e: Event, job: JobId, t: Tally)
    requires Enabled(s, e) && e.FailPerm? && LogAgrees(s.db, job, t) && StatusMatchesLease(s.db)
    ensures LogAgrees(Step(s, e).db, job, Count(s, e, job, t))
  {
    FailureLogs(s.db, e.job, e.at, job);
    assert Step(s, e).db == FailPermanently(s.db, e.job, e.at);
    assert Count(s, e, job, t) == if e.job == job && job in s.db.leases then t.(failed := t.failed + 1) else t;
  }

  lemma FailureLogs(db: Db, j: JobId, at: int, job: JobId)
    ensures var d := FailPermanently(db, j, at);
      var r := RecordsOf(db.transitions, job);
      && RecordsOf(d.transitions, job) == (if j == job then r.(failed := r.failed + 1) else r)
      && LeasesIssued(d.history, job) == LeasesIssued(db.history, job)
      && (HasStatus(d, job, Failed) ==> HasStatus(db, job, Failed) || (j == job && HasStatus(db, job, Dispatched)))
  {
    LeasesIssuedTerminate(db.history, {j}, at, job);
    RecordsAppend(db.transitions, TransitionRow(j, Some(Dispatched), Failed, at), job);
  }

  lemma LogReap(s: State, e: Event, job: JobId, t: Tally)
    requires Enabled(s, e) && e.Reap? && LogAgrees(s.db, job, t)
    ensures LogAgrees(Step(s, e).db, job, Count(s, e, job, t))
  {
    LeasesIssuedTerminate(s.db.history, Elements(e.ids), e.at, job);
    RecordsRequeued(s.db.transitions, e.ids, e.at, job);
  }

  /** The log tells the endings apart: at any moment issues, reaps and commits are counted by their records. */
  lemma {:induction false} EndingsAreLogged(run: Run, job: JobId)
    requires Valid(run)
    ensures var r := RecordsOf(After(run).db.transitions, job);
      var t := Endings(run, job);
      && r.issued == LeasesIssued(After(run).db.history, job)
      && r.requeued == t.reaped && r.succeeded == t.accepted && r.failed >= t.failed
      && (HasStatus(After(run).db, job, Failed) ==> t.failed >= 1)
  {
    if run != [] {
      var before := run[..|run| - 1];
      EndingsAreLogged(before, job);
      assert StatusMatchesLease(After(before).db) by {
        Reachable(before);
      }
      LogStep(After(before), run[|run| - 1], job, Endings(before, job));
    }
  }
}
