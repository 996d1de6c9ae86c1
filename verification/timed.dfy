/**
 The system with its clocks: a wall clock, a skew per coordinator that may change at any moment,
 lease expiries written with the writer's skew and compared with the reaper's. A coordinator reads its
 clock some time before the statement that uses the reading takes effect.
 */
module Timed {
  import opened Tables
  import opened Transactions
  import opened Protocol
  import opened Invariant
  import opened Safety

  type Coordinator = nat

  /** A look at a coordinator's clock: the true time and the skew it was seen with. */
  datatype Reading = Reading(coordinator: Coordinator, at: int, skew: int) {
    function Seen(): int {
      at + skew
    }
  }

  /** The reading, the TTL and the true time with which a lease was last written. */
  datatype Renewal = Renewal(reading: Reading, ttl: int, written: int)

  datatype TimedState = TimedState(
    core: State,
    now: int,
    skews: map<Coordinator, int>,
    readings: set<Reading>,
    renewals: map<JobId, Renewal>)

  datatype TimedEvent =
    | Elapse(ms: nat)
    | SetSkew(coordinator: Coordinator, skew: int)
    | ReadClock(coordinator: Coordinator)
    | Free(event: Event)
    | TimedDispatch(reading: Reading, worker: WorkerId, job: JobId, ts: int, at: int)
    | TimedHeartbeat(reading: Reading, worker: WorkerId, job: JobId, token: nat)
    | TimedReap(reading: Reading, ids: seq<JobId>, locked: set<JobId>, at: int)

  const TIMED_INITIAL := TimedState(INITIAL, 0, map[], {}, map[])

  function Skew(t: TimedState, c: Coordinator): int {
    if c in t.skews then t.skews[c] else 0
  }

  /** What a look at the coordinator's clock shows right now. */
  function Glance(t: TimedState, c: Coordinator): Reading {
    Reading(c, t.now, Skew(t, c))
  }

  /** The lease is up for reaping by this reading. */
  predicate Expired(t: TimedState, r: Reading, job: JobId) {
    ExpiredBefore(t.core.db, job, r.Seen())
  }

  /** The step of the tables behind a timed event. */
  function Core(te: TimedEvent): Option<Event> {
    match te
    case Elapse(_) => None
    case SetSkew(_, _) => None
    case ReadClock(_) => None
    case Free(e) => Some(e)
    case TimedDispatch(r, worker, job, ts, at) => Some(Dispatch(worker, job, ts, r.Seen() + LEASE_TTL_MS, at))
    case TimedHeartbeat(r, worker, job, token) => Some(Heartbeat(worker, job, token, r.Seen() + HEARTBEAT_LEASE_TTL_MS))
    case TimedReap(_, ids, _, at) => Some(Reap(ids, at))
  }

  predicate TakesExpired(t: TimedState, r: Reading, ids: seq<JobId>, locked: set<JobId>) {
    && (forall j :: j in ids ==> Expired(t, r, j) && j !in locked)
    && (forall j :: j in t.core.db.leases && Expired(t, r, j) && j !in locked ==> j in ids)
  }

  /** Statements use readings made before. A reap takes every expired lease whose row is not locked elsewhere. */
  predicate TimedEnabled(t: TimedState, te: TimedEvent) {
    && (te.Free? ==> !te.event.Dispatch? && !te.event.Heartbeat? && !te.event.Reap?)
    && (te.TimedDispatch? || te.TimedHeartbeat? || te.TimedReap? ==> te.reading in t.readings)
    && (te.TimedReap? ==> Distinct(te.ids) && TakesExpired(t, te.reading, te.ids, te.locked))
    && (te.Free? || te.TimedDispatch? ==> Enabled(t.core, Core(te).value))
  }

  function TimedStep(t: TimedState, te: TimedEvent): TimedState
    requires TimedEnabled(t, te)
  {
    match te
    case Elapse(ms) => t.(now := t.now + ms)
    case SetSkew(c, ms) => t.(skews := t.skews[c := ms])
    case ReadClock(c) => t.(readings := t.readings + {Glance(t, c)})
    case Free(e) => t.(core := Step(t.core, e))
    case TimedDispatch(r, _, job, _, _) =>
      var t' := t.(core := Step(t.core, Core(te).value));
      if job in t.core.db.leases then t'
      else t'.(renewals := t.renewals[job := Renewal(r, LEASE_TTL_MS, t.now)])
    case TimedHeartbeat(r, worker, job, token) =>
      var t' := t.(core := Step(t.core, Core(te).value));
      if Holds(t.core.db, job, worker, token) then
        t'.(renewals := t.renewals[job := Renewal(r, HEARTBEAT_LEASE_TTL_MS, t.now)])
      else t'
    case TimedReap(_, ids, _, at) => t.(core := Step(t.core, Reap(ids, at)))
  }

  type TimedRun = seq<TimedEvent>

  predicate TimedValid(run: TimedRun)
    decreases |run|, 0
  {
    run == [] ||
    (var before := run[..|run| - 1];
     TimedValid(before) && TimedEnabled(TimedAfter(before), run[|run| - 1]))
  }

  function TimedAfter(run: TimedRun): TimedState
    requires TimedValid(run)
    decreases |run|, 1
  {
    if run == [] then TIMED_INITIAL
    else
      var before := run[..|run| - 1];
      TimedStep(TimedAfter(before), run[|run| - 1])
  }

  lemma TimedExtend(run: TimedRun, te: TimedEvent)
    requires TimedValid(run) && TimedEnabled(TimedAfter(run), te)
    ensures TimedValid(run + [te]) && TimedAfter(run + [te]) == TimedStep(TimedAfter(run), te)
  {
    assert (run + [te])[..|run|] == run;
  }

  /** Time passes for everybody, a skew is set for one coordinator, a look at a clock shows both. */
  lemma ClockEvents(t: TimedState, te: TimedEvent, c: Coordinator)
    requires TimedEnabled(t, te)
    ensures TimedStep(t, te).now == t.now + if te.Elapse? then te.ms else 0
    ensures Skew(TimedStep(t, te), c) == if te.SetSkew? && te.coordinator == c then te.skew else Skew(t, c)
    ensures TimedStep(t, te).readings ==
      t.readings + if te.ReadClock? then {Reading(te.coordinator, t.now, Skew(t, te.coordinator))} else {}
  {
  }

  /** What a dispatch and a heartbeat write: 60 s and 15 s after the clock reading, as its coordinator saw it. */
  lemma WrittenExpiry(t: TimedState, te: TimedEvent)
    requires TimedEnabled(t, te) && (te.TimedDispatch? || te.TimedHeartbeat?)
    ensures te.TimedDispatch? && te.job !in t.core.db.leases ==>
      && te.job in TimedStep(t, te).core.db.leases
      && TimedStep(t, te).core.db.leases[te.job].worker == te.worker
      && TimedStep(t, te).core.db.leases[te.job].expiresAt == te.reading.at + te.reading.skew + 60_000
    ensures te.TimedHeartbeat? && Holds(t.core.db, te.job, te.worker, te.token) ==>
      && te.job in TimedStep(t, te).core.db.leases
      && TimedStep(t, te).core.db.leases[te.job].expiresAt == te.reading.at + te.reading.skew + 15_000
  {
  }

  // Clock independence

  /** The tables without any expiry. */
  function Blank(db: Db): Db {
    db.(leases := map j | j in db.leases :: db.leases[j].(expiresAt := 0))
  }

  function Forget(s: State): State {
    s.(db := Blank(s.db))
  }

  function WithoutClock(e: Event): Event {
    if e.Dispatch? || e.Heartbeat? then e.(expiresAt := 0) else e
  }

  /** The untimed run behind a timed one: clock events vanish, expiries are blanked. */
  function Untimed(run: TimedRun): Run
    requires TimedValid(run)
  {
    if run == [] then []
    else
      var before := run[..|run| - 1];
      var e := Core(run[|run| - 1]);
      Untimed(before) + if e.Some? then [WithoutClock(e.value)] else []
  }

  lemma BlankCommit(db: Db, job: JobId, worker: WorkerId, token: nat, value: Value, at: int)
    ensures JudgeResult(Blank(db), job, worker, token) == JudgeResult(db, job, worker, token)
    ensures CommitResult(Blank(db), job, worker, token, value, at) ==
      Blank(CommitResult(db, job, worker, token, value, at))
  {
    assert CommitResult(Blank(db), job, worker, token, value, at).leases
        == Blank(CommitResult(db, job, worker, token, value, at)).leases;
  }

  lemma BlankEndLeases(db: Db, ids: set<JobId>, to: Status, at: int, log: seq<TransitionRow>)
    ensures EndLeases(Blank(db), ids, to, at).(transitions := log) ==
      Blank(EndLeases(db, ids, to, at).(transitions := log))
  {
    assert EndLeases(Blank(db), ids, to, at).leases == Blank(EndLeases(db, ids, to, at)).leases;
  }

  lemma BlankDispatch(db: Db, job: JobId, worker: WorkerId, ts: int, expiresAt: int, at: int)
    requires job in db.jobs
    ensures DispatchJob(Blank(db), job, worker, ts, 0, at) == Blank(DispatchJob(db, job, worker, ts, expiresAt, at))
  {
    assert DispatchJob(Blank(db), job, worker, ts, 0, at).leases ==
      Blank(DispatchJob(db, job, worker, ts, expiresAt, at)).leases;
  }

  lemma BlankRenew(db: Db, job: JobId, worker: WorkerId, token: nat, expiresAt: int)
    ensures RenewLease(Blank(db), job, worker, token, 0) == Blank(RenewLease(db, job, worker, token, expiresAt))
  {
    assert RenewLease(Blank(db), job, worker, token, 0).leases ==
      Blank(RenewLease(db, job, worker, token, expiresAt)).leases;
  }

  lemma ForgetStep(s: State, e: Event)
    requires Enabled(s, e)
    ensures Enabled(Forget(s), WithoutClock(e))
    ensures Step(Forget(s), WithoutClock(e)) == Forget(Step(s, e))
  {
    match e
    case ResultWrite(h, at, _) =>
      var c := s.handlers[h];
      BlankCommit(s.db, c.job, c.worker, c.token, c.value, at);
    case Dispatch(worker, job, ts, expiresAt, at) => BlankDispatch(s.db, job, worker, ts, expiresAt, at);
    case Heartbeat(worker, job, token, expiresAt) => BlankRenew(s.db, job, worker, token, expiresAt);
    case FailTemp(_, job, _, at) => BlankEndLeases(s.db, {job}, Pending, at, s.db.transitions);
    case FailPerm(_, job, _, at) =>
      BlankEndLeases(s.db, {job}, Failed, at, s.db.transitions + [TransitionRow(job, Some(Dispatched), Failed, at)]);
    case Reap(ids, at) => BlankEndLeases(s.db, Elements(ids), Pending, at, s.db.transitions + RequeueRecords(ids, at));
    case _ => ForgetOther(s, e);
  }

  lemma ForgetOther(s: State, e: Event)
    requires Enabled(s, e)
    requires !e.ResultWrite? && !e.Dispatch? && !e.Heartbeat? && !e.FailTemp? && !e.FailPerm? && !e.Reap?
    ensures Enabled(Forget(s), e) && Step(Forget(s), e) == Forget(Step(s, e))
  {
  }

  lemma CoreEnabled(t: TimedState, te: TimedEvent)
    requires TimedEnabled(t, te) && Core(te).Some?
    ensures Enabled(t.core, Core(te).value)
    ensures TimedStep(t, te).core == Step(t.core, Core(te).value)
  {
  }

  /**
   Every timed run, whatever the skews do, is an untimed run with the same tables up to expiries:
   no clock influences anything the untimed theorems speak about.
   */
  lemma {:induction false} ClocksAreIrrelevant(run: TimedRun)
    requires TimedValid(run)
    ensures Valid(Untimed(run)) && After(Untimed(run)) == Forget(TimedAfter(run).core)
  {
    if run != [] {
      var before, te := run[..|run| - 1], run[|run| - 1];
      var t := TimedAfter(before);
      ClocksAreIrrelevant(before);
      if Core(te).Some? {
        CoreEnabled(t, te);
        ForgetStep(t.core, Core(te).value);
        Extend(Untimed(before), WithoutClock(Core(te).value));
      } else {
        assert Untimed(run) == Untimed(before);
      }
    }
  }

  /** The invariant of the tables carries over to the timed system. */
  lemma TimedReachable(run: TimedRun)
    requires TimedValid(run)
    ensures Inv(TimedAfter(run).core.db)
  {
    ClocksAreIrrelevant(run);
    Reachable(Untimed(run));
    ForgetKeepsInv(TimedAfter(run).core);
  }

  /** So under any clocks a committed job has one commit, made under the newest fence ever issued for it. */
  lemma TimedCommitIsFinal(run: TimedRun, c: CommitRow)
    requires TimedValid(run) && c in TimedAfter(run).core.db.commits
    ensures var db := TimedAfter(run).core.db;
      && (forall c' :: c' in db.commits && c'.job == c.job ==> c' == c)
      && (forall i :: 0 <= i < |db.history| && db.history[i].job == c.job ==> db.history[i].fence <= c.fence)
  {
    ClocksAreIrrelevant(run);
    assert FencesOrdered(After(Untimed(run)).db) && CommitsFinal(After(Untimed(run)).db) by {
      Reachable(Untimed(run));
    }
    CommitIsUnderNewestFence(After(Untimed(run)).db, c);
  }

  lemma ForgetKeepsInv(s: State)
    requires Inv(Forget(s).db)
    ensures Inv(s.db)
  {
    BlankAgrees(s.db);
    BlankCommits(s.db);
    assert TerminalEvidence(Blank(s.db));
  }

  lemma BlankAgrees(db: Db)
    requires TablesAgree(Blank(db))
    ensures TablesAgree(db)
  {
    assert forall j :: j in db.leases ==> Blank(db).leases[j] == db.leases[j].(expiresAt := 0);
    assert Blank(db).leases.Keys == db.leases.Keys;
  }

  lemma BlankCommits(db: Db)
    requires CommitsFinal(Blank(db))
    ensures CommitsFinal(db)
  {
    forall i | 0 <= i < |db.commits| ensures CommitFinal(db, db.commits[i]) {
      assert CommitFinal(Blank(db), db.commits[i]);
    }
  }
}
