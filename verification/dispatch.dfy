/** DispatchService: the lease-issuing transaction and the round-robin tick. */
module DispatchLoop {
  import opened Tables
  import opened Transactions
  import opened Protocol
  import opened Invariant
  import opened DatabaseClient
  import opened WorkerHub
  import opened Messages

  // What a tick does to the tables

  /** One committed dispatch, with the clock readings it made; `sent` when the job also went out. */
  datatype Issue = Issue(worker: WorkerId, job: JobId, ts: int, expiresAt: int, at: int, sent: bool)

  /** Each issue takes the oldest job pending at its moment. */
  ghost predicate InOrder(db: Db, issues: seq<Issue>)
    decreases |issues|, 0
  {
    issues == [] || (
      var before, last := issues[..|issues| - 1], issues[|issues| - 1];
      InOrder(db, before) && MayIssue(AfterIssues(db, before), last))
  }

  ghost predicate MayIssue(db: Db, i: Issue) {
    Oldest(db, i.job) && i.job !in db.leases && db.clock <= i.ts
  }

  ghost function AfterIssues(db: Db, issues: seq<Issue>): Db
    requires InOrder(db, issues)
    decreases |issues|, 1
  {
    if issues == [] then db
    else
      var i := issues[|issues| - 1];
      DispatchJob(AfterIssues(db, issues[..|issues| - 1]), i.job, i.worker, i.ts, i.expiresAt, i.at)
  }

  /** The tables went from d to d' by this one issue. */
  ghost predicate IssuedNow(d: Db, d': Db, i: Issue) {
    MayIssue(d, i) && d' == DispatchJob(d, i.job, i.worker, i.ts, i.expiresAt, i.at)
  }

  lemma IssueOneMore(db: Db, issues: seq<Issue>, d: Db, d': Db, i: Issue)
    requires InOrder(db, issues) && d == AfterIssues(db, issues) && IssuedNow(d, d', i)
    ensures InOrder(db, issues + [i]) && d' == AfterIssues(db, issues + [i])
    ensures PendingJobs(d') < PendingJobs(d)
  {
    assert (issues + [i])[..|issues|] == issues;
    assert i.job in PendingJobs(d);
  }

  ghost function JobsOf(issues: seq<Issue>): set<JobId> {
    if issues == [] then {} else JobsOf(issues[..|issues| - 1]) + {issues[|issues| - 1].job}
  }

  function CountFor(issues: seq<Issue>, worker: WorkerId): nat {
    if issues == [] then 0
    else CountFor(issues[..|issues| - 1], worker) + if issues[|issues| - 1].worker == worker then 1 else 0
  }

  /** Of these, the jobs that went out. */
  function SentTo(issues: seq<Issue>, worker: WorkerId): nat {
    if issues == [] then 0
    else
      var i := issues[|issues| - 1];
      SentTo(issues[..|issues| - 1], worker) + if i.worker == worker && i.sent then 1 else 0
  }

  lemma CountOneMore(issues: seq<Issue>, i: Issue, worker: WorkerId)
    ensures CountFor(issues + [i], worker) == CountFor(issues, worker) + if i.worker == worker then 1 else 0
    ensures SentTo(issues + [i], worker) == SentTo(issues, worker) + if i.worker == worker && i.sent then 1 else 0
  {
    assert (issues + [i])[..|issues|] == issues;
  }

  /** `d` is `db` with exactly these jobs moved from PENDING to DISPATCHED, one lease each. */
  ghost predicate MovedOldest(db: Db, d: Db, moved: set<JobId>) {
    && moved <= PendingJobs(db)
    && d.jobs.Keys == db.jobs.Keys
    && (forall j :: j in db.jobs ==> d.jobs[j] == if j in moved then db.jobs[j].(status := Dispatched) else db.jobs[j])
    && d.leases.Keys == db.leases.Keys + moved
    && db.leases.Keys !! moved
    && (forall i, p :: i in moved && p in PendingJobs(db) - moved ==> db.jobs[i].createdAt <= db.jobs[p].createdAt)
  }

  lemma MoveOneMore(db: Db, d: Db, moved: set<JobId>, i: Issue)
    requires MovedOldest(db, d, moved) && MayIssue(d, i)
    ensures i.job !in moved
    ensures MovedOldest(db, DispatchJob(d, i.job, i.worker, i.ts, i.expiresAt, i.at), moved + {i.job})
  {
    assert PendingJobs(d) == PendingJobs(db) - moved;
    assert i.job in PendingJobs(d);
  }

  lemma MovedNothing(db: Db)
    ensures MovedOldest(db, db, {})
  {
  }

  /**
   A tick moves exactly its jobs from PENDING to DISPATCHED, one lease each, and leaves no pending
   job strictly older than one it dispatched.
   */
  lemma {:induction false} TickIsOldestFirst(db: Db, issues: seq<Issue>)
    requires InOrder(db, issues)
    ensures MovedOldest(db, AfterIssues(db, issues), JobsOf(issues))
    ensures |JobsOf(issues)| == |issues|
  {
    if issues == [] {
      MovedNothing(db);
    } else {
      var before, last := issues[..|issues| - 1], issues[|issues| - 1];
      TickIsOldestFirst(db, before);
      MoveOneMore(db, AfterIssues(db, before), JobsOf(before), last);
    }
  }

  /** Each job of these issues is DISPATCHED under the lease its issue wrote. */
  ghost predicate IssuesStand(d: Db, issues: seq<Issue>) {
    forall m :: 0 <= m < |issues| ==>
      && issues[m].job in d.leases && d.leases[issues[m].job].worker == issues[m].worker
      && d.leases[issues[m].job].expiresAt == issues[m].expiresAt
      && issues[m].job in d.jobs && d.jobs[issues[m].job].status == Dispatched
  }

  lemma {:induction false} LeasesStand(db: Db, issues: seq<Issue>)
    requires InOrder(db, issues)
    ensures IssuesStand(AfterIssues(db, issues), issues)
  {
    if issues != [] {
      var before := issues[..|issues| - 1];
      LeasesStand(db, before);
      forall m | 0 <= m < |before| ensures issues[m].job != issues[|before|].job {
        assert before[m] == issues[m];
      }
      assert forall m :: 0 <= m < |before| ==> before[m] == issues[m];
    }
  }

  function EventsOf(issues: seq<Issue>): Run {
    seq(|issues|, k requires 0 <= k < |issues| =>
      Dispatch(issues[k].worker, issues[k].job, issues[k].ts, issues[k].expiresAt, issues[k].at))
  }

  lemma IssueIsAStep(s: State, i: Issue)
    requires MayIssue(s.db, i)
    ensures var e := Dispatch(i.worker, i.job, i.ts, i.expiresAt, i.at);
      Enabled(s, e) && Step(s, e) == s.(db := DispatchJob(s.db, i.job, i.worker, i.ts, i.expiresAt, i.at))
  {
  }

  lemma IssueExtends(run: Run, i: Issue)
    requires Valid(run) && MayIssue(After(run).db, i)
    ensures var longer := run + [Dispatch(i.worker, i.job, i.ts, i.expiresAt, i.at)];
      && Valid(longer)
      && After(longer) == After(run).(db := DispatchJob(After(run).db, i.job, i.worker, i.ts, i.expiresAt, i.at))
  {
    IssueIsAStep(After(run), i);
    Extend(run, Dispatch(i.worker, i.job, i.ts, i.expiresAt, i.at));
  }

  /** What a tick does is a run of the protocol, so every theorem about runs covers it. */
  lemma {:induction false} TickIsARun(run: Run, issues: seq<Issue>)
    requires Valid(run) && InOrder(After(run).db, issues)
    ensures Valid(run + EventsOf(issues))
    ensures After(run + EventsOf(issues)) == After(run).(db := AfterIssues(After(run).db, issues))
  {
    if issues == [] {
      assert run + EventsOf(issues) == run;
    } else {
      var before, last := issues[..|issues| - 1], issues[|issues| - 1];
      TickIsARun(run, before);
      var soFar := run + EventsOf(before);
      IssueExtends(soFar, last);
      assert run + EventsOf(issues) == soFar + [Dispatch(last.worker, last.job, last.ts, last.expiresAt, last.at)];
    }
  }

  // Fair shares

  /** A worker of the tick's snapshot; `reached` while its registration and socket are live. */
  datatype Entry = Entry(load: nat, limit: int, reached: bool)

  function Turns(passes: nat, position: nat, i: nat): nat {
    if i < position then passes + 1 else passes
  }

  /**
   What a worker has after so many turns: one lease per turn while it has room, counted as load only if
   the job went out. Only a worker no longer reached can hold leases that did not.
   */
  predicate Share(now: Entry, entry: Entry, turns: nat, count: nat, sent: nat) {
    && now.limit == entry.limit && now.load == entry.load + sent && sent <= count <= turns
    && (now.load < now.limit ==> count == turns)
    && (now.load >= now.limit ==> count == sent && (count == 0 || now.load == now.limit))
    && (now.reached ==> entry.reached && count == sent)
  }

  /** How far the round robin has come: `passes` whole passes and `position` workers of the next. */
  ghost predicate Progress(
    now: seq<Entry>, entries: seq<Entry>, ids: seq<WorkerId>, issues: seq<Issue>, passes: nat, position: nat)
  {
    && |now| == |entries| == |ids|
    && (forall i :: 0 <= i < |now| ==>
          Share(now[i], entries[i], Turns(passes, position, i), CountFor(issues, ids[i]), SentTo(issues, ids[i])))
  }

  ghost predicate FullBelow(now: seq<Entry>, k: nat) {
    k <= |now| && forall i :: 0 <= i < k ==> now[i].load >= now[i].limit
  }

  ghost predicate AllFull(now: seq<Entry>) {
    FullBelow(now, |now|)
  }

  /** The job of this issue is for worker k and counts if it went out; connections are lost, never restored. */
  ghost predicate HandedTo(now: seq<Entry>, now': seq<Entry>, k: nat, i: Issue) {
    && k < |now| == |now'|
    && (forall j :: 0 <= j < |now| ==>
          && now'[j].limit == now[j].limit
          && now'[j].load == now[j].load + (if j == k && i.sent then 1 else 0)
          && (now'[j].reached ==> now[j].reached))
    && (i.sent <==> now'[k].reached)
  }

  lemma NothingServed(entries: seq<Entry>, ids: seq<WorkerId>)
    requires |entries| == |ids|
    ensures Progress(entries, entries, ids, [], 0, 0)
  {
  }

  lemma SkipFull(now: seq<Entry>, entries: seq<Entry>, ids: seq<WorkerId>, issues: seq<Issue>, passes: nat, k: nat)
    requires Progress(now, entries, ids, issues, passes, k) && k < |now| && now[k].load >= now[k].limit
    ensures Progress(now, entries, ids, issues, passes, k + 1)
  {
  }

  lemma ServeNext(
    now: seq<Entry>, now': seq<Entry>, entries: seq<Entry>, ids: seq<WorkerId>, issues: seq<Issue>, passes: nat,
    k: nat, i: Issue)
    requires Progress(now, entries, ids, issues, passes, k) && HandedTo(now, now', k, i) && now[k].load < now[k].limit
    requires Distinct(ids) && i.worker == ids[k]
    ensures Progress(now', entries, ids, issues + [i], passes, k + 1)
  {
    forall n | 0 <= n < |ids|
      ensures Share(now'[n], entries[n], Turns(passes, k + 1, n), CountFor(issues + [i], ids[n]),
        SentTo(issues + [i], ids[n]))
    {
      CountOneMore(issues, i, ids[n]);
      assert n != k ==> ids[n] != ids[k];
    }
  }

  lemma NextPass(now: seq<Entry>, entries: seq<Entry>, ids: seq<WorkerId>, issues: seq<Issue>, passes: nat)
    requires Progress(now, entries, ids, issues, passes, |now|)
    ensures Progress(now, entries, ids, issues, passes + 1, 0)
  {
  }

  /** Loads stay within limits, and nobody gets over one lease more than anybody who still has room. */
  ghost predicate Fair(now: seq<Entry>, entries: seq<Entry>, ids: seq<WorkerId>, issues: seq<Issue>) {
    && |now| == |entries| == |ids|
    && (forall i :: 0 <= i < |now| ==>
          && now[i].load == entries[i].load + SentTo(issues, ids[i])
          && (now[i].load <= entries[i].limit || now[i].load == entries[i].load))
    && (forall i, k :: 0 <= i < |now| && 0 <= k < |now| && now[k].load < entries[k].limit ==>
          CountFor(issues, ids[i]) <= CountFor(issues, ids[k]) + 1)
  }

  /** Wherever the round robin stops, and whoever was lost on the way. */
  lemma RoundRobinIsFair(
    now: seq<Entry>, entries: seq<Entry>, ids: seq<WorkerId>, issues: seq<Issue>, passes: nat, position: nat)
    requires Progress(now, entries, ids, issues, passes, position)
    ensures Fair(now, entries, ids, issues)
  {
    forall i | 0 <= i < |now|
      ensures Share(now[i], entries[i], Turns(passes, position, i), CountFor(issues, ids[i]), SentTo(issues, ids[i]))
    {
    }
  }

  /** The two clock readings of one dispatch: for the lease's expiry, and for its log record. */
  datatype Clock = Clock(wall: int, at: int)

  // Lost connections

  /** The connections that go down while one dispatch waits for its transaction. */
  datatype Loss = Loss(closed: set<Socket>, gone: set<WorkerId>)

  /** The m-th lease of the tick expires 60 s after the m-th clock reading as its coordinator saw it. */
  ghost predicate Stamped(clocks: nat -> Clock, skew: int, issues: seq<Issue>) {
    forall m :: 0 <= m < |issues| ==>
      issues[m].expiresAt == clocks(m).wall + 60_000 + skew && issues[m].at == clocks(m).at
  }

  /** The loss during the m-th dispatch of the tick. */
  function LossAt(losses: seq<Loss>, m: nat): Loss {
    if m < |losses| then losses[m] else Loss({}, {})
  }

  predicate Hit(w: WorkerState, loss: Loss) {
    w.ws in loss.closed || w.workerId in loss.gone
  }

  /** The worker lost its connection during the first n dispatches. */
  predicate LostBy(losses: seq<Loss>, n: nat, w: WorkerState) {
    exists m | 0 <= m < n && m < |losses| :: w.ws in losses[m].closed || w.workerId in losses[m].gone
  }

  lemma LostOneMore(losses: seq<Loss>, n: nat, w: WorkerState)
    ensures LostBy(losses, n + 1, w) <==> LostBy(losses, n, w) || Hit(w, LossAt(losses, n))
  {
    if Hit(w, LossAt(losses, n)) {
      assert w.ws in losses[n].closed || w.workerId in losses[n].gone;
    }
  }

  /** Every lease is for a worker of the snapshot; its job went out exactly when that worker was not lost by then. */
  ghost predicate DeliveredUnlessLost(available: seq<WorkerState>, losses: seq<Loss>, issues: seq<Issue>) {
    && (forall m :: 0 <= m < |issues| ==> issues[m].worker in Ids(available))
    && forall m, i :: 0 <= m < |issues| && 0 <= i < |available| && issues[m].worker == available[i].workerId ==>
      (issues[m].sent <==> !LostBy(losses, m + 1, available[i]))
  }

  ghost predicate ReachedUnlessLost(available: seq<WorkerState>, now: seq<Entry>, losses: seq<Loss>, n: nat) {
    && |now| == |available|
    && forall i :: 0 <= i < |available| ==> (now[i].reached <==> !LostBy(losses, n, available[i]))
  }

  lemma StampOneMore(clocks: nat -> Clock, skew: int, issues: seq<Issue>, i: Issue)
    requires Stamped(clocks, skew, issues)
    requires i.expiresAt == clocks(|issues|).wall + 60_000 + skew && i.at == clocks(|issues|).at
    ensures Stamped(clocks, skew, issues + [i])
  {
  }

  lemma ReachedOneMore(available: seq<WorkerState>, now: seq<Entry>, now': seq<Entry>, losses: seq<Loss>, n: nat)
    requires ReachedUnlessLost(available, now, losses, n) && |now'| == |available|
    requires forall i :: 0 <= i < |available| ==>
      (now'[i].reached <==> now[i].reached && !Hit(available[i], LossAt(losses, n)))
    ensures ReachedUnlessLost(available, now', losses, n + 1)
  {
    forall i | 0 <= i < |available| ensures now'[i].reached <==> !LostBy(losses, n + 1, available[i]) {
      LostOneMore(losses, n, available[i]);
    }
  }

  lemma DeliverOneMore(
    available: seq<WorkerState>, now': seq<Entry>, losses: seq<Loss>, issues: seq<Issue>, k: nat, i: Issue)
    requires DeliveredUnlessLost(available, losses, issues) && ReachedUnlessLost(available, now', losses, |issues| + 1)
    requires k < |available| && i.worker == available[k].workerId && (i.sent <==> now'[k].reached)
    requires Distinct(Ids(available))
    ensures DeliveredUnlessLost(available, losses, issues + [i])
  {
    assert Ids(available)[k] == i.worker;
    forall n | 0 <= n < |available| && n != k ensures available[n].workerId != available[k].workerId {
      assert Ids(available)[n] != Ids(available)[k];
    }
    forall m, n | 0 <= m < |issues + [i]| && 0 <= n < |available| && (issues + [i])[m].worker == available[n].workerId
      ensures (issues + [i])[m].sent <==> !LostBy(losses, m + 1, available[n])
    {
      if m < |issues| {
        assert (issues + [i])[m] == issues[m];
      }
    }
  }

  /** The worker lost its connection before it was filled up from this load. */
  ghost predicate LostWithRoom(w: WorkerState, load: nat, limit: int, losses: seq<Loss>, issues: seq<Issue>) {
    exists m :: 0 <= m <= |issues| && LostBy(losses, m, w) && load + SentTo(issues[..m], w.workerId) < limit
  }

  /** Once lost, a worker's load stands still. */
  lemma {:induction false} LostLoadStands(
    available: seq<WorkerState>, losses: seq<Loss>, issues: seq<Issue>, m: nat, i: nat)
    requires DeliveredUnlessLost(available, losses, issues) && i < |available|
    requires m <= |issues| && LostBy(losses, m, available[i])
    ensures SentTo(issues, available[i].workerId) == SentTo(issues[..m], available[i].workerId)
  {
    if m == |issues| {
      assert issues[..m] == issues;
    } else {
      var before, last := issues[..|issues| - 1], |issues| - 1;
      assert forall n :: 0 <= n < |before| ==> before[n] == issues[n];
      LostLoadStands(available, losses, before, m, i);
      assert before[..m] == issues[..m];
      assert LostBy(losses, last + 1, available[i]);
    }
  }

  /**
   A worker lost while it had room keeps that room, so only an empty queue can end the tick, and until
   then it is leased a job on every turn.
   */
  lemma LostWorkerDrainsQueue(
    available: seq<WorkerState>, now: seq<Entry>, entries: seq<Entry>, losses: seq<Loss>, issues: seq<Issue>,
    passes: nat, position: nat, m: nat, i: nat)
    requires Progress(now, entries, Ids(available), issues, passes, position)
    requires DeliveredUnlessLost(available, losses, issues)
    requires m <= |issues| && i < |available| && LostBy(losses, m, available[i])
    requires entries[i].load + SentTo(issues[..m], available[i].workerId) < entries[i].limit
    ensures !AllFull(now)
    ensures CountFor(issues, available[i].workerId) == Turns(passes, position, i)
  {
    LostLoadStands(available, losses, issues, m, i);
    var id := available[i].workerId;
    assert Share(now[i], entries[i], Turns(passes, position, i), CountFor(issues, id), SentTo(issues, id));
  }

  /**
   The leases a tick gives a worker without sending it the job: as many as the turns it had beyond the
   jobs it was sent, if it still has room; none if it is full.
   */
  lemma UnsentLeasesExactly(
    available: seq<WorkerState>, now: seq<Entry>, entries: seq<Entry>, losses: seq<Loss>, issues: seq<Issue>,
    passes: nat, position: nat, i: nat)
    requires Progress(now, entries, Ids(available), issues, passes, position) && i < |available|
    requires ReachedUnlessLost(available, now, losses, |issues|)
    ensures var id := available[i].workerId;
      && CountFor(issues, id) - SentTo(issues, id)
           == (if now[i].load < now[i].limit then Turns(passes, position, i) - SentTo(issues, id) else 0)
      && (CountFor(issues, id) > SentTo(issues, id) ==> LostBy(losses, |issues|, available[i]))
  {
    var id := available[i].workerId;
    assert Share(now[i], entries[i], Turns(passes, position, i), CountFor(issues, id), SentTo(issues, id));
  }

  ghost function Ids(available: seq<WorkerState>): (ids: seq<WorkerId>)
    ensures |ids| == |available|
  {
    seq(|available|, i requires 0 <= i < |available| => available[i].workerId)
  }

  ghost function Sockets(available: seq<WorkerState>): set<Socket> {
    set i | 0 <= i < |available| :: available[i].ws
  }

  ghost function Closable(losses: seq<Loss>): set<Socket> {
    set m, s | 0 <= m < |losses| && s in losses[m].closed :: s
  }

  class DispatchService {
    const db: Database
    const hub: WorkerHubService

    constructor (hub: WorkerHubService)
      ensures this.hub == hub && this.db == hub.db
    {
      this.hub, this.db := hub, hub.db;
    }

    /** The transaction of tryDispatchOne; without a job it changes nothing. */
    method IssueLease(worker: WorkerId, wall: int, at: int) returns (issue: Option<Issue>, token: nat)
      requires StatusMatchesLease(db.Contents())
      modifies db
      ensures issue.None? ==> PendingJobs(old(db.Contents())) == {} && db.Contents() == old(db.Contents())
      ensures issue.Some? ==>
        && issue.value.worker == worker && issue.value.at == at
        && issue.value.expiresAt == wall + LEASE_TTL_MS + hub.chaos.clockSkewMs
        && IssuedNow(old(db.Contents()), db.Contents(), issue.value)
        && Holds(db.Contents(), issue.value.job, worker, token)
      ensures StatusMatchesLease(db.Contents())
    {
      var job := db.FindOldestPending();
      if job.None? {
        return None, 0;
      }
      var ts;
      token, ts := db.NextFence();
      var expiresAt := wall + LEASE_TTL_MS + hub.chaos.clockSkewMs;
      var ok := db.InsertLease(job.value, LeaseRow(worker, token, expiresAt));
      assert ok;
      db.OverwriteStatus(job.value, Dispatched);
      db.InsertHistory(HistoryRow(job.value, worker, token, ts, None));
      db.InsertTransitions([TransitionRow(job.value, Some(Pending), Dispatched, at)]);
      issue := Some(Issue(worker, job.value, ts, expiresAt, at, false));
    }

    /**
     tryDispatchOne: the lease is committed first; connections may be lost meanwhile; then the job is
     sent, if its worker's is still there. A send that fails is not undone.
     */
    method TryDispatchOne(worker: WorkerId, wall: int, at: int, loss: Loss)
      returns (dispatched: bool, ghost issue: Option<Issue>)
      requires hub.db == db && StatusMatchesLease(db.Contents())
      modifies db, hub`workers, loss.closed`open
      modifies (if worker in hub.workers then {hub.workers[worker]} else {})`inFlight
      modifies (if worker in hub.workers then {hub.workers[worker].ws} else {})`sent
      ensures StatusMatchesLease(db.Contents())
      ensures dispatched <==> issue.Some?
      ensures !dispatched ==> PendingJobs(old(db.Contents())) == {} && db.Contents() == old(db.Contents())
      ensures dispatched ==> issue.value.worker == worker && IssuedNow(old(db.Contents()), db.Contents(), issue.value)
      ensures dispatched ==>
        var i, token := issue.value, old(db.fencingSeq) + 1;
        && i.worker == worker && i.at == at && i.expiresAt == wall + 60_000 + hub.chaos.clockSkewMs
        && old(db.clock) <= i.ts == db.clock && db.fencingSeq == token
        && i.job in old(db.jobs) && old(db.jobs)[i.job].status == Pending && i.job !in old(db.leases)
        && db.jobs == old(db.jobs)[i.job := old(db.jobs)[i.job].(status := Dispatched)]
        && db.leases == old(db.leases)[i.job := LeaseRow(worker, token, wall + 60_000 + hub.chaos.clockSkewMs)]
        && db.history == old(db.history) + [HistoryRow(i.job, worker, token, i.ts, None)]
        && db.transitions == old(db.transitions) + [TransitionRow(i.job, Some(Pending), Dispatched, at)]
        && db.commits == old(db.commits)
      ensures hub.workers == if dispatched then old(hub.workers) - loss.gone else old(hub.workers)
      ensures forall s :: s in loss.closed ==> s.open == (old(s.open) && !dispatched)
      ensures dispatched ==> (issue.value.sent <==> worker in hub.workers && hub.workers[worker].ws.open)
      ensures worker in old(hub.workers) ==>
        var w := old(hub.workers)[worker];
        && w.inFlight == old(w.inFlight) + (if dispatched && issue.value.sent then 1 else 0)
        && w.ws.sent == old(w.ws.sent) + (if dispatched && issue.value.sent
                                          then [JobDispatch(issue.value.job, db.leases[issue.value.job].token)] else [])
    {
      var i, token := IssueLease(worker, wall, at);
      issue := i;
      dispatched := i.Some?;
      if dispatched {
        hub.LoseConnections(loss.closed, loss.gone);
        var sent := hub.SendJob(worker, JobDispatch(i.value.job, token));
        issue := Some(i.value.(sent := sent));
      }
    }

    // The tick

    /** The socket a job for this worker goes out on still belongs to this very entry. */
    ghost predicate Reached(w: WorkerState)
      reads hub, w.ws
    {
      w.workerId in hub.workers && hub.workers[w.workerId] == w && w.ws.open
    }

    /** Nobody reconnected under the id of an entry of the snapshot: it is registered or gone. */
    ghost predicate NotReplaced(available: seq<WorkerState>)
      reads hub
    {
      forall w :: w in available && w.workerId in hub.workers ==> hub.workers[w.workerId] == w
    }

    ghost function Snapshot(available: seq<WorkerState>): (entries: seq<Entry>)
      reads hub, available, Sockets(available)
      ensures |entries| == |available|
    {
      seq(|available|, i requires 0 <= i < |available| reads hub, available, Sockets(available) =>
        Entry(available[i].inFlight, available[i].concurrencyLimit, Reached(available[i])))
    }

    /** What makes the passes run undisturbed but for lost connections. */
    ghost predicate Ready(available: seq<WorkerState>)
      reads db, hub
    {
      && hub.db == db && StatusMatchesLease(db.Contents())
      && hub.Valid() && NotReplaced(available) && Distinct(Ids(available))
    }

    /** The body of a pass for one worker. */
    method ServeWorker(available: seq<WorkerState>, k: nat, clock: Clock, loss: Loss)
      returns (full: bool, dispatched: bool, ghost issue: Option<Issue>)
      requires Ready(available) && k < |available|
      modifies db, hub`workers, available`inFlight, Sockets(available)`sent, loss.closed`open
      ensures Ready(available)
      ensures full <==> old(available[k].inFlight >= available[k].concurrencyLimit)
      ensures dispatched ==>
        && !full && issue.Some? && issue.value.worker == available[k].workerId
        && issue.value.expiresAt == clock.wall + 60_000 + hub.chaos.clockSkewMs && issue.value.at == clock.at
      ensures !full && !dispatched ==> PendingJobs(db.Contents()) == {}
      ensures
        if dispatched then IssuedNow(old(db.Contents()), db.Contents(), issue.value)
        else db.Contents() == old(db.Contents())
      ensures !dispatched ==> Snapshot(available) == old(Snapshot(available))
      ensures dispatched ==>
        && HandedTo(old(Snapshot(available)), Snapshot(available), k, issue.value)
        && forall j :: 0 <= j < |available| ==>
             (Snapshot(available)[j].reached <==> old(Snapshot(available))[j].reached && !Hit(available[j], loss))
    {
      var worker := available[k];
      full, dispatched, issue := worker.inFlight >= worker.concurrencyLimit, false, None;
      if full {
        return;
      }
      dispatched, issue := TryDispatchOne(worker.workerId, clock.wall, clock.at, loss);
      forall i | 0 <= i < |available| && i != k ensures available[i].inFlight == old(available[i].inFlight) {
        assert Ids(available)[i] != Ids(available)[k];
      }
      forall i | 0 <= i < |available| && dispatched
        ensures Reached(available[i]) <==> old(Reached(available[i])) && !Hit(available[i], loss)
      {
        assert available[i] in available;
      }
    }

    /** The tables hold what these issues made of `db0`, and this many passes have been made. */
    ghost predicate Halfway(
      available: seq<WorkerState>, entries: seq<Entry>, db0: Db, clocks: nat -> Clock, losses: seq<Loss>,
      issues: seq<Issue>, passes: nat, position: nat)
      reads db, hub, hub.chaos, available, Sockets(available)
    {
      && Ready(available)
      && InOrder(db0, issues) && db.Contents() == AfterIssues(db0, issues)
      && position <= |available| && Progress(Snapshot(available), entries, Ids(available), issues, passes, position)
      && ReachedUnlessLost(available, Snapshot(available), losses, |issues|)
      && DeliveredUnlessLost(available, losses, issues)
      && Stamped(clocks, hub.chaos.clockSkewMs, issues)
    }

    /** Within a pass: the queue got shorter if anything was dispatched, else all workers so far were full. */
    ghost predicate PassedTo(available: seq<WorkerState>, k: nat, anyDispatched: bool, queue: set<JobId>)
      reads db, hub, available, Sockets(available)
    {
      if anyDispatched then PendingJobs(db.Contents()) < queue
      else PendingJobs(db.Contents()) == queue && FullBelow(Snapshot(available), k)
    }

    method TakeTurn(
      available: seq<WorkerState>, k: nat, clocks: nat -> Clock, losses: seq<Loss>, m: nat, anyDispatched: bool,
      ghost entries: seq<Entry>, ghost db0: Db, ghost before: seq<Issue>, ghost passes: nat, ghost queue: set<JobId>)
      returns (full: bool, dispatched: bool, ghost issues: seq<Issue>)
      requires k < |available| && m == |before| && Halfway(available, entries, db0, clocks, losses, before, passes, k)
      requires PassedTo(available, k, anyDispatched, queue)
      modifies db, hub`workers, available`inFlight, Sockets(available)`sent, Closable(losses)`open
      ensures !full && !dispatched ==> PendingJobs(db.Contents()) == {}
      ensures |issues| == if dispatched then m + 1 else m
      ensures var k' := if full || dispatched then k + 1 else k;
        && Halfway(available, entries, db0, clocks, losses, issues, passes, k')
        && PassedTo(available, k', anyDispatched || dispatched, queue)
    {
      ghost var d, now := db.Contents(), Snapshot(available);
      ghost var issue;
      full, dispatched, issue := ServeWorker(available, k, clocks(m), LossAt(losses, m));
      issues := before;
      if full {
        SkipFull(now, entries, Ids(available), before, passes, k);
      } else if dispatched {
        ghost var now' := Snapshot(available);
        ServeNext(now, now', entries, Ids(available), before, passes, k, issue.value);
        IssueOneMore(db0, before, d, db.Contents(), issue.value);
        ReachedOneMore(available, now, now', losses, m);
        DeliverOneMore(available, now', losses, before, k, issue.value);
        StampOneMore(clocks, hub.chaos.clockSkewMs, before, issue.value);
        issues := before + [issue.value];
      }
    }

    /** One pass: a job for every worker with room, until the queue is empty. */
    method RunPass(
      available: seq<WorkerState>, clocks: nat -> Clock, losses: seq<Loss>, m: nat,
      ghost entries: seq<Entry>, ghost db0: Db, ghost before: seq<Issue>, ghost passes: nat)
      returns (anyDispatched: bool, empty: bool, n: nat, ghost issues: seq<Issue>, ghost position: nat)
      requires m == |before| && Halfway(available, entries, db0, clocks, losses, before, passes, 0)
      modifies db, hub`workers, available`inFlight, Sockets(available)`sent, Closable(losses)`open
      ensures n == |issues| && Halfway(available, entries, db0, clocks, losses, issues, passes, position)
      ensures if empty then PendingJobs(db.Contents()) == {} else position == |available|
      ensures PassedTo(available, position, anyDispatched, PendingJobs(old(db.Contents())))
    {
      anyDispatched, empty, n, issues := false, false, m, before;
      ghost var queue := PendingJobs(db.Contents());
      for k := 0 to |available|
        invariant n == |issues| && Halfway(available, entries, db0, clocks, losses, issues, passes, k)
        invariant PassedTo(available, k, anyDispatched, queue)
      {
        var full, dispatched;
        full, dispatched, issues :=
          TakeTurn(available, k, clocks, losses, n, anyDispatched, entries, db0, issues, passes, queue);
        if dispatched {
          anyDispatched, n := true, n + 1;
        } else if !full {
          return anyDispatched, true, n, issues, k;
        }
      }
      position := |available|;
    }

    /** No worker of the snapshot has been lost yet. */
    ghost predicate AllReached(available: seq<WorkerState>)
      reads hub, Sockets(available)
    {
      forall i :: 0 <= i < |available| ==> Reached(available[i])
    }

    /**
     The passes of a tick over its snapshot of workers, with nobody else writing meanwhile but with
     connections lost at every wait. The loop ends because every dispatch takes a pending job.
     */
    method RunPasses(available: seq<WorkerState>, clocks: nat -> Clock, losses: seq<Loss>)
      returns (ghost issues: seq<Issue>, ghost passes: nat, ghost position: nat)
      requires Ready(available) && AllReached(available)
      modifies db, hub`workers, available`inFlight, Sockets(available)`sent, Closable(losses)`open
      ensures Halfway(available, old(Snapshot(available)), old(db.Contents()), clocks, losses, issues, passes, position)
      ensures PendingJobs(db.Contents()) == {} || AllFull(Snapshot(available))
    {
      ghost var db0, entries := db.Contents(), Snapshot(available);
      issues, passes, position := [], 0, 0;
      NothingServed(entries, Ids(available));
      var anyDispatched, empty, n := true, false, 0;
      while anyDispatched && !empty
        invariant n == |issues| && Halfway(available, entries, db0, clocks, losses, issues, passes, position)
        invariant if empty then PendingJobs(db.Contents()) == {} else position == 0
        invariant !anyDispatched && !empty ==> AllFull(Snapshot(available))
        decreases PendingJobs(db.Contents()), anyDispatched
      {
        anyDispatched, empty, n, issues, position :=
          RunPass(available, clocks, losses, n, entries, db0, issues, passes);
        if !empty {
          NextPass(Snapshot(available), entries, Ids(available), issues, passes);
          passes, position := passes + 1, 0;
        }
      }
    }

    ghost function Loads(available: seq<WorkerState>): (loads: seq<nat>)
      reads available
      ensures |loads| == |available|
    {
      seq(|available|, i requires 0 <= i < |available| reads available => available[i].inFlight)
    }

    /**
     What a tick comes to. It leases out the oldest jobs, each for 60 s as its coordinator sees the time, and
     sends each unless its worker was lost by then. Loads count what was sent and stay within limits. In the
     end the queue is empty or everybody is full, and nobody got over one lease more than anybody with room.
     A worker lost while it had room forces the queue empty and is leased a job on each of its turns to the
     end, so it gets as many leases for nothing as it had turns beyond the jobs it was sent. A worker that is
     full gets none.
     */
    ghost predicate Outcome(
      available: seq<WorkerState>, loads: seq<nat>, db0: Db, clocks: nat -> Clock, losses: seq<Loss>,
      issues: seq<Issue>, passes: nat, position: nat)
      requires |loads| == |available|
      reads db, hub, hub.chaos, available
    {
      && Stamped(clocks, hub.chaos.clockSkewMs, issues)
      && IssuesStand(db.Contents(), issues)
      && InOrder(db0, issues) && db.Contents() == AfterIssues(db0, issues)
      && DeliveredUnlessLost(available, losses, issues)
      && (PendingJobs(db.Contents()) == {} ||
          forall i :: 0 <= i < |available| ==> available[i].inFlight == available[i].concurrencyLimit)
      && (forall i :: 0 <= i < |available| ==>
            ShareOf(available[i], loads[i], losses, issues, Turns(passes, position, i)))
      && (forall i, k ::
            0 <= i < |available| && 0 <= k < |available| && available[k].inFlight < available[k].concurrencyLimit ==>
            CountFor(issues, available[i].workerId) <= CountFor(issues, available[k].workerId) + 1)
    }

    ghost predicate ShareOf(w: WorkerState, load: nat, losses: seq<Loss>, issues: seq<Issue>, turns: nat)
      reads db, w
    {
      var leased, sent := CountFor(issues, w.workerId), SentTo(issues, w.workerId);
      && w.inFlight == load + sent <= w.concurrencyLimit
      && (LostWithRoom(w, load, w.concurrencyLimit, losses, issues) ==>
        PendingJobs(db.Contents()) == {} && leased == turns)
      && (leased - sent == if w.inFlight < w.concurrencyLimit then turns - sent else 0)
      && (leased > sent ==> LostWithRoom(w, load, w.concurrencyLimit, losses, issues))
    }

    lemma SharesAreKept(
      available: seq<WorkerState>, entries: seq<Entry>, db0: Db, clocks: nat -> Clock, losses: seq<Loss>,
      issues: seq<Issue>, passes: nat, position: nat, i: nat)
      requires Halfway(available, entries, db0, clocks, losses, issues, passes, position)
      requires PendingJobs(db.Contents()) == {} || AllFull(Snapshot(available))
      requires i < |available| && entries[i].load < entries[i].limit
      ensures ShareOf(available[i], entries[i].load, losses, issues, Turns(passes, position, i))
    {
      var now, w := Snapshot(available), available[i];
      RoundRobinIsFair(now, entries, Ids(available), issues, passes, position);
      UnsentLeasesExactly(available, now, entries, losses, issues, passes, position, i);
      forall m |
        0 <= m <= |issues| && LostBy(losses, m, w) &&
          entries[i].load + SentTo(issues[..m], w.workerId) < entries[i].limit
        ensures !AllFull(now) && CountFor(issues, w.workerId) == Turns(passes, position, i)
      {
        LostWorkerDrainsQueue(available, now, entries, losses, issues, passes, position, m, i);
      }
      assert issues[..|issues|] == issues;
    }

    /** The passes over workers that all have room to begin with. */
    method ServeAvailable(available: seq<WorkerState>, clocks: nat -> Clock, losses: seq<Loss>)
      returns (ghost issues: seq<Issue>, ghost passes: nat, ghost position: nat)
      requires Ready(available) && AllReached(available)
      requires forall w :: w in available ==> w.inFlight < w.concurrencyLimit
      modifies db, hub`workers, available`inFlight, Sockets(available)`sent, Closable(losses)`open
      ensures Outcome(available, old(Loads(available)), old(db.Contents()), clocks, losses, issues, passes, position)
    {
      ghost var db0, entries := db.Contents(), Snapshot(available);
      issues, passes, position := RunPasses(available, clocks, losses);
      ghost var now := Snapshot(available);
      LeasesStand(db0, issues);
      RoundRobinIsFair(now, entries, Ids(available), issues, passes, position);
      forall i | 0 <= i < |available|
        ensures ShareOf(available[i], entries[i].load, losses, issues, Turns(passes, position, i))
      {
        SharesAreKept(available, entries, db0, clocks, losses, issues, passes, position, i);
      }
      forall i | 0 <= i < |available| && AllFull(now) ensures available[i].inFlight == available[i].concurrencyLimit {
        assert now[i].load >= now[i].limit;
      }
      forall i, k | 0 <= i < |available| && 0 <= k < |available| &&
        available[k].inFlight < available[k].concurrencyLimit
        ensures CountFor(issues, available[i].workerId) <= CountFor(issues, available[k].workerId) + 1
      {
        assert now[k].load < entries[k].limit;
        assert CountFor(issues, Ids(available)[i]) <= CountFor(issues, Ids(available)[k]) + 1;
      }
    }

    /** One tick: nothing while dispatch is paused or the database partitioned, else the passes. */
    method Tick(paused: bool, partitioned: bool, clocks: nat -> Clock, losses: seq<Loss>)
      returns (
        available: seq<WorkerState>, ghost loads: seq<nat>,
        ghost issues: seq<Issue>, ghost passes: nat, ghost position: nat)
      requires hub.db == db && StatusMatchesLease(db.Contents()) && hub.Valid()
      modifies db, hub`workers, hub.workers.Values`inFlight, (set w | w in hub.workers.Values :: w.ws)`sent,
        Closable(losses)`open
      ensures forall w :: w in available <==>
        !paused && !partitioned && w in old(hub.workers).Values && old(w.ws.open && w.inFlight < w.concurrencyLimit)
      ensures |loads| == |available| && forall i :: 0 <= i < |available| ==>
        available[i] in old(hub.workers).Values && loads[i] == old(available[i].inFlight)
      ensures Outcome(available, loads, old(db.Contents()), clocks, losses, issues, passes, position)
      ensures forall m :: 0 <= m < |issues| ==>
        && issues[m].job in db.leases
        && db.leases[issues[m].job].expiresAt == clocks(m).wall + 60_000 + hub.chaos.clockSkewMs
    {
      available, loads, issues, passes, position := [], [], [], 0, 0;
      if paused || partitioned {
        return;
      }
      available := hub.GetAvailableWorkers();
      if available == [] {
        return;
      }
      assert forall i :: 0 <= i < |available| ==> available[i] in hub.workers.Values;
      forall i, k | 0 <= i < k < |available| ensures available[i].workerId != available[k].workerId {
        assert available[i] != available[k];
      }
      loads := Loads(available);
      issues, passes, position := ServeAvailable(available, clocks, losses);
    }
  }
}
