/**
 The coordinators as a state machine over the shared tables, without clocks: any lease of a
 dispatched job may be reaped at any moment. Every transaction is one step; reads made outside
 a transaction are steps of their own, so the steps of all handlers interleave freely.
 An event carries every choice the environment makes (ids, clock readings, lost reads), hence
 `Step` is a function and a run is just a list of events. A failure report carries who made it (nobody
 when its socket is not registered) and under which token, though its handler looks at neither.
 */
module Protocol {
  import opened Tables
  import opened Transactions

  /** Where a request handler waits between two of its steps. */
  datatype Handler =
    | SubmitInserting(key: Key)
    | SubmitRecovering(key: Key)
    | Cancelling(job: JobId)
    | Committing(worker: WorkerId, job: JobId, token: nat, value: Value)
    | Rereading(worker: WorkerId, job: JobId)

  /** A submit response; the id is null when the recovery read found nothing. */
  datatype Reply = Reply(key: Key, id: Option<JobId>)

  datatype Ack = Ack(worker: WorkerId, job: JobId)

  datatype State = State(
    db: Db,
    handlers: map<nat, Handler>,
    replies: seq<Reply>,
    acks: seq<Ack>,
    drops: seq<JobId>)

  const INITIAL := State(EMPTY, map[], [], [], [])

  datatype Event =
    | SubmitCheck(h: nat, key: Key, found: Option<JobId>)
    | SubmitInsert(h: nat, id: JobId, createdAt: int, at: int)
    | SubmitRecover(h: nat, found: Option<JobId>)
    | CancelCheck(h: nat, job: JobId)
    | CancelWrite(h: nat, at: int)
    | Dispatch(worker: WorkerId, job: JobId, ts: int, expiresAt: int, at: int)
    | AbortDispatch(ts: int)
    | ResultLookup(h: nat, worker: WorkerId, job: JobId, token: nat, value: Value, readOk: bool)
    | ResultWrite(h: nat, at: int, drop: bool)
    | ResultReread(h: nat, readOk: bool)
    | FailTemp(reporter: Option<WorkerId>, job: JobId, token: nat, at: int)
    | FailPerm(reporter: Option<WorkerId>, job: JobId, token: nat, at: int)
    | Heartbeat(worker: WorkerId, job: JobId, token: nat, expiresAt: int)
    | Reap(ids: seq<JobId>, at: int)
    | Abandon(h: nat)

  /** `found` is the row with that key, or None if there is none or the read failed. */
  predicate ReadsKey(db: Db, key: Key, found: Option<JobId>) {
    found.Some? ==> found.value in db.jobs && db.jobs[found.value].key == key
  }

  predicate Enabled(s: State, e: Event) {
    match e
    case SubmitCheck(h, key, found) => h !in s.handlers && ReadsKey(s.db, key, found)
    case SubmitInsert(h, id, _, _) => h in s.handlers && s.handlers[h].SubmitInserting? && id !in s.db.jobs
    case SubmitRecover(h, found) =>
      h in s.handlers && s.handlers[h].SubmitRecovering? && ReadsKey(s.db, s.handlers[h].key, found)
    case CancelCheck(h, job) => h !in s.handlers && HasStatus(s.db, job, Pending)
    case CancelWrite(h, _) => h in s.handlers && s.handlers[h].Cancelling?
    case Dispatch(_, job, ts, _, _) => HasStatus(s.db, job, Pending) && s.db.clock <= ts
    case AbortDispatch(ts) => s.db.clock <= ts
    case ResultLookup(h, _, _, _, _, _) => h !in s.handlers
    case ResultWrite(h, _, _) => h in s.handlers && s.handlers[h].Committing?
    case ResultReread(h, _) => h in s.handlers && s.handlers[h].Rereading?
    case FailTemp(_, _, _, _) => true
    case FailPerm(_, _, _, _) => true
    case Heartbeat(_, _, _, _) => true
    case Reap(ids, _) => Distinct(ids) && forall j :: j in ids ==> j in s.db.leases && HasStatus(s.db, j, Dispatched)
    case Abandon(h) => h in s.handlers
  }

  function Done(s: State, h: nat): State {
    s.(handlers := s.handlers - {h})
  }

  function Step(s: State, e: Event): State
    requires Enabled(s, e)
  {
    match e
    case SubmitCheck(h, key, found) =>
      if found.Some? then s.(replies := s.replies + [Reply(key, found)])
      else s.(handlers := s.handlers[h := SubmitInserting(key)])
    case SubmitInsert(h, id, createdAt, at) =>
      var key := s.handlers[h].key;
      if KeyTaken(s.db, key) then s.(handlers := s.handlers[h := SubmitRecovering(key)])
      else Done(s, h).(db := InsertJob(s.db, id, key, createdAt, at), replies := s.replies + [Reply(key, Some(id))])
    case SubmitRecover(h, found) => Done(s, h).(replies := s.replies + [Reply(s.handlers[h].key, found)])
    case CancelCheck(h, job) => s.(handlers := s.handlers[h := Cancelling(job)])
    case CancelWrite(h, at) => Done(s, h).(db := CancelJob(s.db, s.handlers[h].job, at))
    case Dispatch(worker, job, ts, expiresAt, at) => s.(db := DispatchJob(s.db, job, worker, ts, expiresAt, at))
    case AbortDispatch(ts) => s.(db := IssueFence(s.db, ts))
    case ResultLookup(h, worker, job, token, value, readOk) =>
      s.(handlers := s.handlers[h := LookUp(s.db, worker, job, token, value, readOk)])
    case ResultWrite(h, at, drop) =>
      var c := s.handlers[h];
      var written := s.(db := CommitResult(s.db, c.job, c.worker, c.token, c.value, at));
      if !JudgeResult(s.db, c.job, c.worker, c.token).Accepted? then
        written.(handlers := s.handlers[h := Rereading(c.worker, c.job)])
      else if drop then Done(written, h).(drops := s.drops + [c.job])
      else Done(written, h).(acks := s.acks + [Ack(c.worker, c.job)])
    case ResultReread(h, readOk) =>
      var c := s.handlers[h];
      if readOk && HasStatus(s.db, c.job, Succeeded) then Done(s, h).(acks := s.acks + [Ack(c.worker, c.job)])
      else Done(s, h)
    case FailTemp(_, job, _, at) => s.(db := FailTemporarily(s.db, job, at))
    case FailPerm(_, job, _, at) => s.(db := FailPermanently(s.db, job, at))
    case Heartbeat(worker, job, token, expiresAt) => s.(db := RenewLease(s.db, job, worker, token, expiresAt))
    case Reap(ids, at) => s.(db := ReapLeases(s.db, ids, at))
    case Abandon(h) => Done(s, h)
  }

  /** onResult's lookup outside its transaction, and the branch taken on it. */
  function LookUp(db: Db, worker: WorkerId, job: JobId, token: nat, value: Value, readOk: bool): Handler {
    if readOk && Holds(db, job, worker, token) then Committing(worker, job, token, value)
    else Rereading(worker, job)
  }

  type Run = seq<Event>

  /** A run the system can make from the empty tables. */
  predicate Valid(run: Run)
    decreases |run|, 0
  {
    run == [] ||
    (var before := run[..|run| - 1];
     Valid(before) && Enabled(After(before), run[|run| - 1]))
  }

  function After(run: Run): State
    requires Valid(run)
    decreases |run|, 1
  {
    if run == [] then INITIAL
    else
      var before := run[..|run| - 1];
      Step(After(before), run[|run| - 1])
  }

  lemma {:induction false} ValidPrefix(run: Run, k: nat)
    requires Valid(run) && k <= |run|
    ensures Valid(run[..k])
    decreases |run|
  {
    if k == |run| {
      assert run[..k] == run;
    } else {
      ValidPrefix(run[..|run| - 1], k);
      assert run[..|run| - 1][..k] == run[..k];
    }
  }

  /** The state reached by the first k events of a run. */
  function StateAt(run: Run, k: nat): State
    requires Valid(run) && k <= |run|
  {
    ValidPrefix(run, k);
    After(run[..k])
  }

  lemma StateAtStep(run: Run, k: nat)
    requires Valid(run) && k < |run|
    ensures Enabled(StateAt(run, k), run[k])
    ensures StateAt(run, k + 1) == Step(StateAt(run, k), run[k])
  {
    ValidPrefix(run, k + 1);
    assert run[..k + 1][..k] == run[..k];
  }

  lemma Extend(run: Run, e: Event)
    requires Valid(run) && Enabled(After(run), e)
    ensures Valid(run + [e]) && After(run + [e]) == Step(After(run), e)
  {
    assert (run + [e])[..|run|] == run;
  }
}
