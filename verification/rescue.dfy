/**
 No job is stranded in the whole system: whatever state coordinators, workers and network are in, a worker
 that joins now can be handed any unfinished job, execute it, have it committed and get its ack.
 */
module Rescue {
  import opened Tables
  import opened Transactions
  import opened Protocol
  import opened Invariant
  import opened Messages
  import opened Network
  import opened AckConvergence

  /** No letter for this worker is on the wire. */
  predicate NoMailFor(n: Net, id: WorkerId) {
    forall k :: 0 <= k < |n.down| ==> n.down[k].worker != id
  }

  /** The last letter on the wire is the only one for this worker. */
  predicate OnlyMail(n: Net, id: WorkerId, m: Message) {
    && n.down != [] && n.down[|n.down| - 1] == Letter(id, m)
    && forall k :: 0 <= k < |n.down| - 1 ==> n.down[k].worker != id
  }

  predicate Idle(n: Net, id: WorkerId) {
    && id in n.workers && n.workers[id].connected
    && n.workers[id].inFlight == map[] && n.workers[id].limit == 1
  }

  predicate Leased(n: Net, id: WorkerId, job: JobId, fence: nat) {
    Holds(n.hub.db, job, id, fence) && HasStatus(n.hub.db, job, Dispatched)
  }

  /** The worker has the job in flight under this fence. */
  predicate Serving(n: Net, id: WorkerId, job: JobId, fence: nat) {
    && Holding(n, id, job, fence) && n.workers[id].connected && n.workers[id].inFlight[job].retryCount == 0
    && NoMailFor(n, id) && Leased(n, id, job, fence)
  }

  lemma UnusedWorker(n: Net) returns (id: WorkerId)
    ensures id !in n.workers && NoMailFor(n, id) && forall l :: l in n.sending ==> l.worker != id
  {
    var waiting := set l | l in n.sending :: l.worker;
    var mailed := set k | 0 <= k < |n.down| :: n.down[k].worker;
    id := L.FreshIn(n.workers.Keys + waiting + mailed);
    assert forall l :: l in n.sending ==> l.worker in waiting;
    assert forall k :: 0 <= k < |n.down| ==> n.down[k].worker in mailed;
  }

  lemma Joins(n: Net, id: WorkerId)
    ensures NetEnabled(n, Restart(id, 1))
    ensures var r := NetStep(n, Restart(id, 1));
      && NetEnabled(r, Act(id, W.Connected))
      && var n' := NetStep(r, Act(id, W.Connected));
         Idle(n', id) && n'.hub == n.hub && n'.down == n.down && n'.sending == n.sending
  {
  }

  lemma ReapFrees(n: Net, id: WorkerId, job: JobId)
    requires Idle(n, id) && NoMailFor(n, id)
    requires StatusMatchesLease(n.hub.db) && HasStatus(n.hub.db, job, Dispatched)
    ensures NetEnabled(n, Hub(Reap([job], 0)))
    ensures var n' := NetStep(n, Hub(Reap([job], 0)));
      && Idle(n', id) && NoMailFor(n', id)
      && HasStatus(n'.hub.db, job, Pending) && job !in n'.hub.db.leases
  {
    assert job in Elements([job]);
  }

  function Issue(n: Net, id: WorkerId, job: JobId): NetEvent {
    Hub(Dispatch(id, job, n.hub.db.clock, 0, 0))
  }

  lemma DispatchLeases(n: Net, id: WorkerId, job: JobId)
    requires Idle(n, id) && NoMailFor(n, id) && HasStatus(n.hub.db, job, Pending) && job !in n.hub.db.leases
    ensures NetEnabled(n, Issue(n, id, job))
    ensures var n' := NetStep(n, Issue(n, id, job));
      && Idle(n', id) && NoMailFor(n', id) && Leased(n', id, job, n.hub.db.lastFence + 1)
      && Letter(id, JobDispatch(job, n.hub.db.lastFence + 1)) in n'.sending
  {
  }

  lemma DispatchGoesOut(n: Net, id: WorkerId, job: JobId, fence: nat)
    requires Idle(n, id) && NoMailFor(n, id) && Leased(n, id, job, fence)
    requires Letter(id, JobDispatch(job, fence)) in n.sending
    ensures NetEnabled(n, SendJob(Letter(id, JobDispatch(job, fence))))
    ensures var n' := NetStep(n, SendJob(Letter(id, JobDispatch(job, fence))));
      Idle(n', id) && OnlyMail(n', id, JobDispatch(job, fence)) && Leased(n', id, job, fence)
  {
  }

  function LastLetter(n: Net): NetEvent
    requires n.down != []
  {
    Receive(|n.down| - 1)
  }

  lemma WorkerAccepts(n: Net, id: WorkerId, job: JobId, fence: nat)
    requires Idle(n, id) && OnlyMail(n, id, JobDispatch(job, fence)) && Leased(n, id, job, fence)
    ensures NetEnabled(n, LastLetter(n))
    ensures var n' := NetStep(n, LastLetter(n));
      && Serving(n', id, job, fence)
      && W.Execution(job, fence) in n'.workers[id].executing
  {
  }

  lemma WorkerReports(n: Net, id: WorkerId, job: JobId, fence: nat, value: Value)
    requires Serving(n, id, job, fence) && W.Execution(job, fence) in n.workers[id].executing
    ensures NetEnabled(n, Act(id, W.Executed(job, fence, Some(value))))
    ensures var n' := NetStep(n, Act(id, W.Executed(job, fence, Some(value))));
      Serving(n', id, job, fence) && Report(id, W.Result(job, fence, value)) in n'.up
  {
    var w := n.workers[id];
    var w' := W.FinishExecution(w, job, fence, Some(value));
    assert w'.outbox == w.outbox + [W.Result(job, fence, value)];
  }

  /** The job SUCCEEDED with this result of this worker's. */
  ghost predicate Finished(n: Net, id: WorkerId, job: JobId, value: Value) {
    && HasStatus(n.hub.db, job, Succeeded) && n.hub.db.jobs[job].result == Some(value)
    && exists c :: c in n.hub.db.commits && c.job == job && c.worker == id
  }

  function Arrival(id: WorkerId, job: JobId, fence: nat, value: Value, h: nat): NetEvent {
    Deliver(id, W.Result(job, fence, value), h, true, true, 0, 0)
  }

  lemma ResultLooksUp(n: Net, id: WorkerId, job: JobId, fence: nat, value: Value, h: nat)
    requires Serving(n, id, job, fence) && Report(id, W.Result(job, fence, value)) in n.up
    requires h !in n.hub.handlers
    ensures NetEnabled(n, Arrival(id, job, fence, value, h))
    ensures var n' := NetStep(n, Arrival(id, job, fence, value, h));
      && Serving(n', id, job, fence)
      && h in n'.hub.handlers && n'.hub.handlers[h] == Committing(id, job, fence, value)
  {
  }

  lemma ResultCommits(n: Net, id: WorkerId, job: JobId, fence: nat, value: Value, h: nat)
    requires Serving(n, id, job, fence)
    requires h in n.hub.handlers && n.hub.handlers[h] == Committing(id, job, fence, value)
    ensures NetEnabled(n, Hub(ResultWrite(h, 0, false)))
    ensures var n' := NetStep(n, Hub(ResultWrite(h, 0, false)));
      && Finished(n', id, job, value) && OnlyMail(n', id, JobAck(job))
      && id in n'.workers && n'.workers[id].connected
  {
    assert JudgeResult(n.hub.db, job, id, fence).Accepted?;
    assert CommitRow(job, true, fence, id, 0) in NetStep(n, Hub(ResultWrite(h, 0, false))).hub.db.commits;
    assert NewAcks(n.hub, Step(n.hub, ResultWrite(h, 0, false))) == [Letter(id, JobAck(job))];
  }

  lemma AckClears(n: Net, id: WorkerId, job: JobId, value: Value)
    requires Finished(n, id, job, value) && OnlyMail(n, id, JobAck(job)) && id in n.workers && n.workers[id].connected
    ensures NetEnabled(n, LastLetter(n))
    ensures Finished(NetStep(n, LastLetter(n)), id, job, value) && Cleared(NetStep(n, LastLetter(n)), id, job)
  {
  }

  // The whole way

  /** Where it is to end: the job finished by this worker, which has no entry for it any more. */
  ghost predicate Rescued(n: Net, steps: NetRun, end: Net, id: WorkerId, job: JobId, value: Value) {
    Leads(n, steps, end) && Finished(end, id, job, value) && Cleared(end, id, job)
  }

  lemma RescuedCons(n: Net, e: NetEvent, steps: NetRun, end: Net, id: WorkerId, job: JobId, value: Value)
    requires NetEnabled(n, e) && Rescued(NetStep(n, e), steps, end, id, job, value)
    ensures Rescued(n, [e] + steps, end, id, job, value)
  {
    LeadsCons(n, e, steps, end);
  }

  lemma FromResult(n: Net, id: WorkerId, job: JobId, fence: nat, value: Value) returns (steps: NetRun, end: Net)
    requires Serving(n, id, job, fence) && Report(id, W.Result(job, fence, value)) in n.up
    ensures Rescued(n, steps, end, id, job, value)
  {
    var h := L.FreshHandler(n.hub);
    ResultLooksUp(n, id, job, fence, value, h);
    var n1 := NetStep(n, Arrival(id, job, fence, value, h));
    ResultCommits(n1, id, job, fence, value, h);
    var n2 := NetStep(n1, Hub(ResultWrite(h, 0, false)));
    AckClears(n2, id, job, value);
    end := NetStep(n2, LastLetter(n2));
    RescuedCons(n2, LastLetter(n2), [], end, id, job, value);
    RescuedCons(n1, Hub(ResultWrite(h, 0, false)), [LastLetter(n2)] + [], end, id, job, value);
    steps := [Hub(ResultWrite(h, 0, false))] + ([LastLetter(n2)] + []);
    RescuedCons(n, Arrival(id, job, fence, value, h), steps, end, id, job, value);
    steps := [Arrival(id, job, fence, value, h)] + steps;
  }

  lemma FromDispatch(n: Net, id: WorkerId, job: JobId, fence: nat, value: Value) returns (steps: NetRun, end: Net)
    requires Idle(n, id) && OnlyMail(n, id, JobDispatch(job, fence)) && Leased(n, id, job, fence)
    ensures Rescued(n, steps, end, id, job, value)
  {
    WorkerAccepts(n, id, job, fence);
    var n1 := NetStep(n, LastLetter(n));
    WorkerReports(n1, id, job, fence, value);
    var executed := Act(id, W.Executed(job, fence, Some(value)));
    var n2 := NetStep(n1, executed);
    steps, end := FromResult(n2, id, job, fence, value);
    RescuedCons(n1, executed, steps, end, id, job, value);
    RescuedCons(n, LastLetter(n), [executed] + steps, end, id, job, value);
    steps := [LastLetter(n)] + ([executed] + steps);
  }

  lemma FromPending(n: Net, id: WorkerId, job: JobId, value: Value) returns (steps: NetRun, end: Net)
    requires Idle(n, id) && NoMailFor(n, id) && HasStatus(n.hub.db, job, Pending) && job !in n.hub.db.leases
    ensures Rescued(n, steps, end, id, job, value)
  {
    DispatchLeases(n, id, job);
    var fence := n.hub.db.lastFence + 1;
    var n1 := NetStep(n, Issue(n, id, job));
    DispatchGoesOut(n1, id, job, fence);
    var out := SendJob(Letter(id, JobDispatch(job, fence)));
    steps, end := FromDispatch(NetStep(n1, out), id, job, fence, value);
    RescuedCons(n1, out, steps, end, id, job, value);
    RescuedCons(n, Issue(n, id, job), [out] + steps, end, id, job, value);
    steps := [Issue(n, id, job)] + ([out] + steps);
  }

  lemma FromIdle(n: Net, id: WorkerId, job: JobId, value: Value) returns (steps: NetRun, end: Net)
    requires Idle(n, id) && NoMailFor(n, id) && StatusMatchesLease(n.hub.db)
    requires HasStatus(n.hub.db, job, Pending) || HasStatus(n.hub.db, job, Dispatched)
    ensures Rescued(n, steps, end, id, job, value)
  {
    if HasStatus(n.hub.db, job, Pending) {
      steps, end := FromPending(n, id, job, value);
    } else {
      ReapFrees(n, id, job);
      steps, end := FromPending(NetStep(n, Hub(Reap([job], 0))), id, job, value);
      RescuedCons(n, Hub(Reap([job], 0)), steps, end, id, job, value);
      steps := [Hub(Reap([job], 0))] + steps;
    }
  }

  /**
   From every reachable state of the whole system every job that is not terminal has a run on which a new
   worker joins, is sent the job, executes it, has its result committed, and clears its entry on the ack.
   */
  lemma NoJobIsStrandedInTheNet(run: NetRun, job: JobId, value: Value)
    returns (id: WorkerId, steps: NetRun, end: Net)
    requires NetValid(run) && job in NetAfter(run).hub.db.jobs
    requires !NetAfter(run).hub.db.jobs[job].status.Terminal()
    ensures id !in NetAfter(run).workers
    ensures Leads(NetAfter(run), steps, end) && Finished(end, id, job, value) && Cleared(end, id, job)
  {
    var n := NetAfter(run);
    HubAgrees(run);
    id := UnusedWorker(n);
    Joins(n, id);
    var n1 := NetStep(n, Restart(id, 1));
    steps, end := FromIdle(NetStep(n1, Act(id, W.Connected)), id, job, value);
    RescuedCons(n1, Act(id, W.Connected), steps, end, id, job, value);
    RescuedCons(n, Restart(id, 1), [Act(id, W.Connected)] + steps, end, id, job, value);
    steps := [Restart(id, 1)] + ([Act(id, W.Connected)] + steps);
  }
}
