/**
 Replaying JobTransitions. The log of a job is a chain from "" to its current status exactly
 as long as no step has skipped or invented a record.
 */
module TransitionLog {
  import opened Tables
  import opened Transactions
  import opened Protocol
  import opened Invariant

  /** Reading a job's records in insertion order: the status reached, or a gap. */
  datatype Replayed = At(status: Option<Status>) | Gap

  function Advance(r: Replayed, t: TransitionRow): Replayed {
    if r == At(t.from) then At(Some(t.to)) else Gap
  }

  function Replay(log: seq<TransitionRow>, job: JobId): Replayed {
    if log == [] then At(None)
    else
      var before := Replay(log[..|log| - 1], job);
      var t := log[|log| - 1];
      if t.job == job then Advance(before, t) else before
  }

  function CurrentStatus(db: Db, job: JobId): Option<Status> {
    if job in db.jobs then Some(db.jobs[job].status) else None
  }

  /** The job's records chain from "" and end in its current status. */
  predicate Replays(db: Db, job: JobId) {
    Replay(db.transitions, job) == At(CurrentStatus(db, job))
  }

  /** The three branches that write a record for a change not made, or change without a record. */
  predicate SpoilsLog(s: State, e: Event, job: JobId)
    requires Enabled(s, e)
  {
    || (e.CancelWrite? && s.handlers[e.h].job == job && !HasStatus(s.db, job, Pending))
    || (e.FailTemp? && e.job == job && HasStatus(s.db, job, Dispatched))
    || (e.FailPerm? && e.job == job && !HasStatus(s.db, job, Dispatched))
  }

  predicate EverSpoiled(run: Run, job: JobId)
    requires Valid(run)
  {
    run != [] && (
      var before := run[..|run| - 1];
      EverSpoiled(before, job) || SpoilsLog(After(before), run[|run| - 1], job))
  }

  lemma ReplayAppend(log: seq<TransitionRow>, t: TransitionRow, job: JobId)
    ensures Replay(log + [t], job) == if t.job == job then Advance(Replay(log, job), t) else Replay(log, job)
  {
    assert (log + [t])[..|log|] == log;
  }

  lemma {:induction false} ReplayRequeues(log: seq<TransitionRow>, ids: seq<JobId>, at: int, job: JobId)
    requires Distinct(ids)
    ensures Replay(log + RequeueRecords(ids, at), job) ==
      if job in ids then Advance(Replay(log, job), TransitionRow(job, Some(Dispatched), Pending, at))
      else Replay(log, job)
  {
    if ids == [] {
      assert log + RequeueRecords(ids, at) == log;
    } else {
      var rest, last := ids[..|ids| - 1], ids[|ids| - 1];
      var t := TransitionRow(last, Some(Dispatched), Pending, at);
      assert ids == rest + [last];
      assert RequeueRecords(ids, at) == RequeueRecords(rest, at) + [t];
      assert log + RequeueRecords(ids, at) == (log + RequeueRecords(rest, at)) + [t];
      ReplayRequeues(log, rest, at, job);
      ReplayAppend(log + RequeueRecords(rest, at), t, job);
    }
  }

  /** A spoiled log cannot heal: it has a gap, or is one record ahead of a PENDING job. */
  predicate Stuck(db: Db, job: JobId) {
    var r := Replay(db.transitions, job);
    r == Gap || (HasStatus(db, job, Pending) && (r == At(Some(Dispatched)) || r == At(Some(Failed))))
  }

  /** One step keeps a replaying log replaying or spoils it for good. */
  ghost predicate StepDecides(s: State, e: Event, job: JobId)
    requires Enabled(s, e)
  {
    var db' := Step(s, e).db;
    && (Replays(s.db, job) ==> if SpoilsLog(s, e, job) then Stuck(db', job) else Replays(db', job))
    && (Stuck(s.db, job) ==> Stuck(db', job))
  }

  lemma ReplayStep(s: State, e: Event, job: JobId)
    requires Enabled(s, e) && StatusMatchesLease(s.db)
    ensures StepDecides(s, e, job)
  {
    match e
    case SubmitInsert(_, _, _, _) => ReplaySubmit(s, e, job);
    case CancelWrite(_, _) => ReplayCancel(s, e, job);
    case Dispatch(_, _, _, _, _) => ReplayDispatch(s, e, job);
    case ResultWrite(_, _, _) => ReplayResult(s, e, job);
    case FailTemp(_, _, _, _) => ReplayRequeue(s, e, job);
    case FailPerm(_, _, _, _) => ReplayFailure(s, e, job);
    case Reap(_, _) => ReplayReap(s, e, job);
    case _ => ReplayUntouched(s, e, job);
  }

  lemma ReplaySubmit(s: State, e: Event, job: JobId)
    requires e.SubmitInsert? && Enabled(s, e)
    ensures StepDecides(s, e, job)
  {
    ReplayAppend(s.db.transitions, TransitionRow(e.id, None, Pending, e.at), job);
  }

  lemma ReplayUntouched(s: State, e: Event, job: JobId)
    requires Enabled(s, e) && !e.SubmitInsert? && !e.CancelWrite? && !e.Dispatch? && !e.ResultWrite?
    requires !e.FailTemp? && !e.FailPerm? && !e.Reap?
    ensures StepDecides(s, e, job)
  {
  }

  lemma ReplayCancel(s: State, e: Event, job: JobId)
    requires e.CancelWrite? && Enabled(s, e)
    ensures StepDecides(s, e, job)
  {
    ReplayAppend(s.db.transitions, TransitionRow(s.handlers[e.h].job, Some(Pending), Cancelled, e.at), job);
  }

  lemma ReplayRequeue(s: State, e: Event, job: JobId)
    requires e.FailTemp? && Enabled(s, e)
    ensures StepDecides(s, e, job)
  {
  }

  lemma ReplayDispatch(s: State, e: Event, job: JobId)
    requires e.Dispatch? && Enabled(s, e) && StatusMatchesLease(s.db)
    ensures StepDecides(s, e, job)
  {
    ReplayAppend(s.db.transitions, TransitionRow(e.job, Some(Pending), Dispatched, e.at), job);
  }

  lemma ReplayResult(s: State, e: Event, job: JobId)
    requires e.ResultWrite? && Enabled(s, e)
    ensures StepDecides(s, e, job)
  {
    ReplayAppend(s.db.transitions, TransitionRow(s.handlers[e.h].job, Some(Dispatched), Succeeded, e.at), job);
  }

  lemma ReplayFailure(s: State, e: Event, job: JobId)
    requires e.FailPerm? && Enabled(s, e)
    ensures StepDecides(s, e, job)
  {
    ReplayAppend(s.db.transitions, TransitionRow(e.job, Some(Dispatched), Failed, e.at), job);
  }

  lemma ReplayReap(s: State, e: Event, job: JobId)
    requires e.Reap? && Enabled(s, e)
    ensures StepDecides(s, e, job)
  {
    ReplayRequeues(s.db.transitions, e.ids, e.at, job);
  }

  /** In every reachable state a job's log replays if and only if no step has spoiled it so far. */
  lemma {:induction false} LogReplaysIffNeverSpoiled(run: Run, job: JobId)
    requires Valid(run)
    ensures Replays(After(run).db, job) <==> !EverSpoiled(run, job)
  {
    LogReplaysOrStuck(run, job);
  }

  lemma {:induction false} LogReplaysOrStuck(run: Run, job: JobId)
    requires Valid(run)
    ensures if EverSpoiled(run, job) then Stuck(After(run).db, job) else Replays(After(run).db, job)
  {
    if run != [] {
      var before := run[..|run| - 1];
      LogReplaysOrStuck(before, job);
      assert StatusMatchesLease(After(before).db) by {
        Reachable(before);
      }
      ReplayStep(After(before), run[|run| - 1], job);
    }
  }
}
