/** What becomes of a message: the effect of each report on the tables, and where it must have come from. */
module Delivery {
  import opened Tables
  import opened Transactions
  import opened Protocol
  import opened Interference
  import opened Messages
  import opened Network
  import opened Wire
  import opened AckConvergence
  import WO = WorkerOutbox

  // Nothing is delivered twice

  /** How often an event of the run took this report off the wire, for the hub or for good. */
  function Taken(run: NetRun, r: Report): nat {
    if run == [] then 0
    else
      var e := run[|run| - 1];
      Taken(run[..|run| - 1], r)
      + if (e.Deliver? && e.worker == r.worker && e.message == r.message) || e == LoseReport(r) then 1 else 0
  }

  /** How often its worker said it. */
  function Said(run: NetRun, r: Report): nat
    requires NetValid(run)
  {
    if run == [] then 0
    else
      var before, e := run[..|run| - 1], run[|run| - 1];
      Said(before, r) + if SaysNow(NetAfter(before), e, r) then 1 else 0
  }

  predicate SaysNow(n: Net, e: NetEvent, r: Report)
    requires NetEnabled(n, e)
  {
    && r.worker in n.workers
    && ((e.Act? && e.worker == r.worker) || (e.Receive? && n.down[e.k].worker == r.worker))
    && var a := if e.Act? then e.action else Handling(n.down[e.k].message);
       WO.Says(n.workers[r.worker], a) == Some(r.message) && (n.workers[r.worker].connected || a.Connected?)
  }

  lemma ReportStep(n: Net, e: NetEvent, r: Report)
    requires NetEnabled(n, e)
    ensures NetStep(n, e).up[r]
      + (if (e.Deliver? && e.worker == r.worker && e.message == r.message) || e == LoseReport(r) then 1 else 0)
      == n.up[r] + (if SaysNow(n, e, r) then 1 else 0)
  {
    if e.Act? || e.Receive? {
      var id := if e.Act? then e.worker else n.down[e.k].worker;
      WO.StepSays(n.workers[id], if e.Act? then e.action else Handling(n.down[e.k].message));
    }
  }

  /** Every report ever said is on the wire, delivered or lost, once: none is delivered twice or made up. */
  lemma {:induction false} ReportsAreConserved(run: NetRun, r: Report)
    requires NetValid(run)
    ensures Said(run, r) == NetAfter(run).up[r] + Taken(run, r)
  {
    if run != [] {
      ReportsAreConserved(run[..|run| - 1], r);
      ReportStep(NetAfter(run[..|run| - 1]), run[|run| - 1], r);
    }
  }

  // Failures

  /** A delivered failure requeues the job or fails it as it says, whoever sent it, and takes its lease. */
  lemma FailureDelivered(n: Net, e: NetEvent, job: JobId, token: nat, temporary: bool)
    requires NetEnabled(n, e) && e.Deliver? && e.message == W.Failure(job, token, temporary)
    ensures var db, db' := n.hub.db, NetStep(n, e).hub.db;
      && job !in db'.leases
      && (job in db.jobs && db.jobs[job].status == Dispatched ==>
            job in db'.jobs && db'.jobs[job].status == if temporary then Pending else Failed)
      && (job in db.jobs && db.jobs[job].status != Dispatched ==>
            job in db'.jobs && db'.jobs[job].status == db.jobs[job].status)
      && db'.transitions ==
           db.transitions + if temporary then [] else [TransitionRow(job, Some(Dispatched), Failed, e.at)]
  {
    CoreStep(n, e);
  }

  /** It comes from outside the lease exactly when its socket is unregistered or it names another lease. */
  lemma FailureIsStaleExactly(n: Net, e: NetEvent, job: JobId, token: nat, temporary: bool)
    requires NetEnabled(n, e) && e.Deliver? && e.message == W.Failure(job, token, temporary)
    ensures CoreOf(e).Some? && Enabled(n.hub, CoreOf(e).value)
    ensures StaleFailure(n.hub, CoreOf(e).value, job) <==>
      !e.registered || job !in n.hub.db.leases
      || n.hub.db.leases[job].worker != e.worker || n.hub.db.leases[job].token != token
  {
  }

  /** A worker that is full when its dispatch arrives asks for it to be requeued; the hub has not changed yet. */
  lemma FullWorkerRefuses(n: Net, k: nat, job: JobId, token: nat)
    requires NetEnabled(n, Receive(k)) && n.down[k].message == JobDispatch(job, token)
    requires var w := n.workers[n.down[k].worker];
      job !in w.inFlight && |w.inFlight| >= w.limit
    ensures var n' := NetStep(n, Receive(k));
      && n'.hub == n.hub && n'.workers[n.down[k].worker].inFlight == n.workers[n.down[k].worker].inFlight
      && n'.up == n.up + multiset{Report(n.down[k].worker, W.Failure(job, token, true))}
  {
    var w := n.workers[n.down[k].worker];
    var w' := W.HandleDispatch(w, job, token);
    WO.StepSays(w, W.JobArrives(job, token));
    assert w'.outbox == w.outbox + [W.Failure(job, token, true)];
  }

  /** Delivered next, that report puts the DISPATCHED job back into the queue. */
  lemma RefusedJobIsRequeued(n: Net, k: nat, job: JobId, token: nat, e: NetEvent)
    requires NetEnabled(n, Receive(k)) && n.down[k].message == JobDispatch(job, token)
    requires var w := n.workers[n.down[k].worker];
      job !in w.inFlight && |w.inFlight| >= w.limit
    requires job in n.hub.db.jobs && n.hub.db.jobs[job].status == Dispatched
    requires e.Deliver? && e.worker == n.down[k].worker && e.message == W.Failure(job, token, true)
    ensures NetEnabled(NetStep(n, Receive(k)), e)
    ensures var db' := NetStep(NetStep(n, Receive(k)), e).hub.db;
      job in db'.jobs && db'.jobs[job].status == Pending && job !in db'.leases
  {
    FullWorkerRefuses(n, k, job, token);
    FailureDelivered(NetStep(n, Receive(k)), e, job, token, true);
  }

  // Heartbeats

  /** An entry's heartbeat timer is armed, and firing puts its beat on the wire and leaves it armed. */
  lemma BeatGoesOut(n: Net, worker: WorkerId, job: JobId, token: nat) returns (fires: NetEvent)
    requires WorkersFit(n) && Holding(n, worker, job, token) && n.workers[worker].connected
    ensures fires.Act? && fires.worker == worker && fires.action.Fires? && NetEnabled(n, fires)
    ensures NetStep(n, fires).up == n.up + multiset{Report(worker, W.Beat(job, token))}
    ensures worker in NetStep(n, fires).workers
    ensures NetStep(n, fires).workers[worker].timers == n.workers[worker].timers
    ensures NetStep(n, fires).workers[worker].inFlight == n.workers[worker].inFlight
    ensures NetStep(n, fires).hub == n.hub
  {
    var w := n.workers[worker];
    assert WorkerFits(n, worker) && WR.Served(w, job);
    var timer := w.inFlight[job].heartbeatTimer.value;
    fires := Act(worker, W.Fires(timer));
    WO.StepSays(w, W.Fires(timer));
    assert W.FireTimer(w, timer).outbox == w.outbox + [W.Beat(job, token)];
  }

  /** A report that appears on the wire is what its worker just said. */
  lemma NewReportWasSaid(n: Net, e: NetEvent, r: Report)
    requires NetEnabled(n, e) && n.up[r] < NetStep(n, e).up[r]
    ensures r.worker in n.workers
    ensures (e.Act? && e.worker == r.worker) || (e.Receive? && n.down[e.k].worker == r.worker)
    ensures var a := if e.Act? then e.action else Handling(n.down[e.k].message);
      && W.Can(n.workers[r.worker], a) && WO.Says(n.workers[r.worker], a) == Some(r.message)
      && NetStep(n, e).workers == n.workers[r.worker := W.WorkerStep(n.workers[r.worker], a)]
  {
    assert e.Act? || e.Receive?;
    var id := if e.Act? then e.worker else n.down[e.k].worker;
    var a := if e.Act? then e.action else Handling(n.down[e.k].message);
    WO.StepSays(n.workers[id], a);
  }

  /** Conversely a beat only goes out for an entry the worker has, from a heartbeat timer of that entry. */
  lemma BeatNamesEntry(n: Net, e: NetEvent, worker: WorkerId, job: JobId, token: nat)
    requires NetEnabled(n, e)
    requires n.up[Report(worker, W.Beat(job, token))] < NetStep(n, e).up[Report(worker, W.Beat(job, token))]
    ensures Holding(n, worker, job, token)
    ensures e.Act? && e.action.Fires? && n.workers[worker].timers[e.action.timer] == W.HeartbeatTimer(job, token)
  {
    NewReportWasSaid(n, e, Report(worker, W.Beat(job, token)));
  }

  /** Delivered while its lease stands, a beat sets the lease's expiry and nothing else. */
  lemma BeatRenews(n: Net, e: NetEvent, job: JobId, token: nat)
    requires NetEnabled(n, e) && e.Deliver? && e.message == W.Beat(job, token)
    ensures var db, db' := n.hub.db, NetStep(n, e).hub.db;
      if e.registered && job in db.leases && db.leases[job].worker == e.worker && db.leases[job].token == token
      then db' == db.(leases := db.leases[job := LeaseRow(e.worker, token, e.expiresAt)])
      else db' == db
  {
    CoreStep(n, e);
  }

  // Results

  /** A delivered result of a registered worker waits to commit if it names the lease it reads, else to re-read. */
  lemma ResultDelivered(n: Net, e: NetEvent, job: JobId, token: nat, value: Value)
    requires NetEnabled(n, e) && e.Deliver? && e.message == W.Result(job, token, value)
    ensures var db, n' := n.hub.db, NetStep(n, e);
      && n'.hub.db == db && n'.down == n.down && n'.hub.acks == n.hub.acks
      && n'.hub.handlers == if !e.registered then n.hub.handlers else n.hub.handlers[e.h :=
           if e.readOk && job in db.leases && db.leases[job].worker == e.worker && db.leases[job].token == token
           then Committing(e.worker, job, token, value)
           else Rereading(e.worker, job)]
  {
    CoreStep(n, e);
  }

  // Origins

  /** Somewhere in the run a worker's execution of the job ended this way: a result, or None for an error. */
  ghost predicate Ran(run: NetRun, job: JobId, outcome: Option<Value>) {
    exists worker, token :: Act(worker, W.Executed(job, token, outcome)) in run
  }

  /** The message reports an ending that has happened. */
  ghost predicate MessageRan(m: W.Outgoing, run: NetRun) {
    match m
    case Failure(job, _, temporary) => !temporary ==> Ran(run, job, None)
    case Result(job, _, value) => Ran(run, job, Some(value))
    case _ => true
  }

  ghost predicate ReportsRan(n: Net, run: NetRun) {
    forall r :: r in n.up ==> MessageRan(r.message, run)
  }

  ghost predicate EntriesRan(n: Net, run: NetRun) {
    forall id, j :: id in n.workers && j in n.workers[id].inFlight && n.workers[id].inFlight[j].result.Some? ==>
      Ran(run, j, n.workers[id].inFlight[j].result)
  }

  ghost predicate TablesRan(s: State, run: NetRun) {
    && (forall h :: h in s.handlers && s.handlers[h].Committing? ==>
          Ran(run, s.handlers[h].job, Some(s.handlers[h].value)))
    && (forall j :: j in s.db.jobs && s.db.jobs[j].status == Failed ==> Ran(run, j, None))
    && (forall j :: j in s.db.jobs && s.db.jobs[j].result.Some? ==> Ran(run, j, s.db.jobs[j].result))
  }

  lemma RanStays(run: NetRun, e: NetEvent)
    ensures forall j, o :: Ran(run, j, o) ==> Ran(run + [e], j, o)
    ensures e.Act? && e.action.Executed? ==> Ran(run + [e], e.action.job, e.action.outcome)
  {
    forall j, o | Ran(run, j, o) ensures Ran(run + [e], j, o) {
      var worker, token :| Act(worker, W.Executed(j, token, o)) in run;
      assert Act(worker, W.Executed(j, token, o)) in run + [e];
    }
    if e.Act? && e.action.Executed? {
      assert Act(e.worker, W.Executed(e.action.job, e.action.token, e.action.outcome)) in run + [e];
    }
  }

  lemma SaidWasRun(w: W.Worker, a: W.WorkerEvent, run: NetRun)
    requires W.Can(w, a) && WO.Says(w, a).Some?
    requires forall j :: j in w.inFlight && w.inFlight[j].result.Some? ==> Ran(run, j, w.inFlight[j].result)
    requires a.Executed? ==> Ran(run, a.job, a.outcome)
    ensures MessageRan(WO.Says(w, a).value, run)
  {
  }

  lemma ReportRanStep(n: Net, e: NetEvent, run: NetRun, r: Report)
    requires NetEnabled(n, e) && ReportsRan(n, run) && EntriesRan(n, run) && r in NetStep(n, e).up
    ensures MessageRan(r.message, run + [e])
  {
    RanStays(run, e);
    if r in n.up {
      assert MessageRan(r.message, run);
    } else {
      NewReportWasSaid(n, e, r);
      SaidWasRun(n.workers[r.worker], if e.Act? then e.action else Handling(n.down[e.k].message), run + [e]);
    }
  }

  lemma ReportsRanStep(n: Net, e: NetEvent, run: NetRun)
    requires NetEnabled(n, e) && ReportsRan(n, run) && EntriesRan(n, run)
    ensures ReportsRan(NetStep(n, e), run + [e])
  {
    forall r | r in NetStep(n, e).up ensures MessageRan(r.message, run + [e]) {
      ReportRanStep(n, e, run, r);
    }
  }

  lemma EntriesRanStep(n: Net, e: NetEvent, run: NetRun)
    requires NetEnabled(n, e) && EntriesRan(n, run)
    ensures EntriesRan(NetStep(n, e), run + [e])
  {
    RanStays(run, e);
    var n' := NetStep(n, e);
    forall id, j | id in n'.workers && j in n'.workers[id].inFlight && n'.workers[id].inFlight[j].result.Some?
      ensures Ran(run + [e], j, n'.workers[id].inFlight[j].result)
    {
      WorkersAfter(n, e, id);
      if (e.Act? && e.worker == id) || (e.Receive? && n.down[e.k].worker == id) {
        WO.EntryResultAfter(n.workers[id], if e.Act? then e.action else Handling(n.down[e.k].message), j);
      }
    }
  }

  /** What a step of the hub itself leaves was there before; what a report leaves is what it says. */
  lemma TablesRanHub(s: State, e: Event, run: NetRun)
    requires Enabled(s, e) && TablesRan(s, run)
    requires e.ResultLookup? ==> Ran(run, e.job, Some(e.value))
    requires e.FailPerm? ==> Ran(run, e.job, None)
    ensures TablesRan(Step(s, e), run)
  {
    if e.ResultWrite? {
      CommitRan(s, e, run);
    }
  }

  lemma CommitRan(s: State, e: Event, run: NetRun)
    requires Enabled(s, e) && e.ResultWrite? && TablesRan(s, run)
    ensures TablesRan(Step(s, e), run)
  {
    var c := s.handlers[e.h];
    assert Step(s, e).db == CommitResult(s.db, c.job, c.worker, c.token, c.value, e.at);
  }

  lemma TablesRanStep(n: Net, e: NetEvent, run: NetRun)
    requires NetEnabled(n, e) && ReportsRan(n, run) && TablesRan(n.hub, run)
    ensures TablesRan(NetStep(n, e).hub, run + [e])
  {
    CoreStep(n, e);
    if CoreOf(e).Some? {
      TablesRanHub(n.hub, CoreOf(e).value, run);
    }
    RanStays(run, e);
  }

  /**
   Over every run of the whole system: a job is FAILED only if a worker's execution of it threw, and the
   result stored with a job, or about to be committed, is one that a worker's execution of it returned.
   */
  lemma {:induction false} EndingsWereExecuted(run: NetRun)
    requires NetValid(run)
    ensures ReportsRan(NetAfter(run), run) && EntriesRan(NetAfter(run), run) && TablesRan(NetAfter(run).hub, run)
  {
    if run != [] {
      var before, e := run[..|run| - 1], run[|run| - 1];
      EndingsWereExecuted(before);
      ReportsRanStep(NetAfter(before), e, before);
      EntriesRanStep(NetAfter(before), e, before);
      TablesRanStep(NetAfter(before), e, before);
      assert run == before + [e];
    }
  }

  lemma FailedJobThrew(run: NetRun, job: JobId)
    requires NetValid(run) && job in NetAfter(run).hub.db.jobs && NetAfter(run).hub.db.jobs[job].status == Failed
    ensures exists worker, token :: Act(worker, W.Executed(job, token, None)) in run
  {
    EndingsWereExecuted(run);
    assert Ran(run, job, None);
  }

  lemma StoredResultWasComputed(run: NetRun, job: JobId, value: Value)
    requires NetValid(run) && job in NetAfter(run).hub.db.jobs
    requires NetAfter(run).hub.db.jobs[job].result == Some(value)
    ensures exists worker, token :: Act(worker, W.Executed(job, token, Some(value))) in run
  {
    EndingsWereExecuted(run);
    assert Ran(run, job, Some(value));
  }
}
