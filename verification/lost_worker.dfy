/** One concrete tick during which the only worker loses its connection. */
module LostWorker {
  import opened Tables
  import opened Transactions
  import opened DatabaseClient
  import opened Chaos
  import opened WorkerHub
  import opened DispatchLoop

  lemma NoneSent(issues: seq<Issue>, worker: WorkerId)
    requires forall m :: 0 <= m < |issues| ==> !issues[m].sent
    ensures SentTo(issues, worker) == 0
  {
    if issues != [] {
      NoneSent(issues[..|issues| - 1], worker);
    }
  }

  /** A tick over one worker that is hit during the first dispatch. */
  lemma LeasedForNothing(
    service: DispatchService, available: seq<WorkerState>, w: WorkerState, loads: seq<nat>, db0: Db,
    clocks: nat -> Clock, loss: Loss,
    issues: seq<Issue>, passes: nat, position: nat)
    requires |loads| == |available| && service.Outcome(available, loads, db0, clocks, [loss], issues, passes, position)
    requires w in available && Hit(w, loss)
    requires forall i :: 0 <= i < |available| ==> available[i] == w && loads[i] == 0 < w.concurrencyLimit
    ensures PendingJobs(service.db.Contents()) == {} && w.inFlight == 0
    ensures forall m :: 0 <= m < |issues| ==> issues[m].worker == w.workerId && !issues[m].sent
  {
    forall m | 0 <= m < |issues| ensures issues[m].worker == w.workerId && !issues[m].sent {
      var i :| 0 <= i < |available| && Ids(available)[i] == issues[m].worker;
      assert w.ws in [loss][0].closed || w.workerId in [loss][0].gone;
    }
    NoneSent(issues, w.workerId);
    var i :| 0 <= i < |available| && available[i] == w;
    assert service.ShareOf(available[i], loads[i], [loss], issues, Turns(passes, position, i));
  }

  method ThreeJobs() returns (db: Database)
    ensures fresh(db) && db.leases == map[]
    ensures db.jobs == map[
      1 := JobRow(7, 0, Pending, None),
      2 := JobRow(8, 0, Pending, None),
      3 := JobRow(9, 0, Pending, None)]
  {
    db := new Database();
    var a := db.InsertJobRow(1, 7, 0);
    var b := db.InsertJobRow(2, 8, 0);
    var c := db.InsertJobRow(3, 9, 0);
  }

  lemma QueueOfThree(db: Db, issues: seq<Issue>)
    requires InOrder(db, issues) && PendingJobs(db) == {1, 2, 3} && PendingJobs(AfterIssues(db, issues)) == {}
    ensures |issues| == 3 && AfterIssues(db, issues).leases.Keys == db.leases.Keys + {1, 2, 3}
  {
    TickIsOldestFirst(db, issues);
    AllMoved(db, AfterIssues(db, issues), JobsOf(issues));
    assert JobsOf(issues) == {1, 2, 3};
  }

  lemma ThreePending(db: Db)
    requires db.jobs.Keys == {1, 2, 3} && forall j :: j in db.jobs ==> db.jobs[j].status == Pending
    ensures PendingJobs(db) == {1, 2, 3}
  {
  }

  lemma AllMoved(db: Db, d: Db, moved: set<JobId>)
    requires MovedOldest(db, d, moved) && PendingJobs(d) == {}
    ensures moved == PendingJobs(db)
  {
    forall j | j in PendingJobs(db) ensures j in moved {
      assert j !in PendingJobs(d);
    }
  }

  /** One worker with room for one job, three jobs in the queue. */
  method OneWorkerThreeJobs() returns (service: DispatchService, w: WorkerState)
    ensures fresh(service.db) && fresh(service.hub) && fresh(w) && fresh(w.ws)
    ensures service.hub.db == service.db && service.hub.Valid() && service.hub.workers == map[5 := w]
    ensures w.workerId == 5 && w.ws.open && w.inFlight == 0 && w.concurrencyLimit == 1
    ensures service.db.leases == map[] && service.db.jobs.Keys == {1, 2, 3}
    ensures forall j :: j in service.db.jobs ==> service.db.jobs[j].status == Pending
  {
    var db := ThreeJobs();
    var chaos := new ChaosService();
    var hub := new WorkerHubService(db, chaos);
    var ws := new Socket();
    hub.OnHello(ws, 5, 1);
    w := hub.workers[5];
    service := new DispatchService(hub);
  }

  /** Its socket closes while the first dispatch waits for its transaction: all three are leased, none sent. */
  method LostWorkerIsLeasedTheQueue() returns (leased: set<JobId>, load: nat, ghost issues: seq<Issue>)
    ensures leased == {1, 2, 3} && load == 0
    ensures |issues| == 3 && forall m :: 0 <= m < 3 ==> issues[m].worker == 5 && !issues[m].sent
  {
    var service, w := OneWorkerThreeJobs();
    issues := LosingTick(service, w);
    leased, load := service.db.leases.Keys, w.inFlight;
  }

  method LosingTick(service: DispatchService, w: WorkerState) returns (ghost issues: seq<Issue>)
    requires service.hub.db == service.db && service.hub.Valid() && service.hub.workers == map[5 := w]
    requires w.workerId == 5 && w.ws.open && w.inFlight == 0 && w.concurrencyLimit == 1
    requires service.db.leases == map[] && service.db.jobs.Keys == {1, 2, 3}
    requires forall j :: j in service.db.jobs ==> service.db.jobs[j].status == Pending
    modifies service.db, service.hub`workers, w`inFlight, w.ws
    ensures service.db.leases.Keys == {1, 2, 3} && w.inFlight == 0
    ensures |issues| == 3 && forall m :: 0 <= m < 3 ==> issues[m].worker == 5 && !issues[m].sent
  {
    ghost var db0 := service.db.Contents();
    ThreePending(db0);
    assert service.hub.workers[5] == w && w in service.hub.workers.Values;
    var clocks := (m: nat) => Clock(0, 0);
    var loss := Loss({w.ws}, {});
    var available;
    ghost var loads, passes, position;
    available, loads, issues, passes, position := service.Tick(false, false, clocks, [loss]);
    LeasedForNothing(service, available, w, loads, db0, clocks, loss, issues, passes, position);
    QueueOfThree(db0, issues);
  }
}
