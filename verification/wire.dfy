/** What holds of messages and workers in every state the whole system reaches. */
module Wire {
  import opened Tables
  import opened Protocol
  import opened Growth
  import opened Safety
  import opened Network
  import WR = WorkerRuns

  // Acks

  ghost predicate AcksCommitted(n: Net) {
    forall k :: 0 <= k < |n.down| && n.down[k].message.JobAck? ==> HasCommit(n.hub.db, n.down[k].message.job)
  }

  lemma CommitsStay(s: State, s': State)
    requires s.db.commits <= s'.db.commits
    ensures forall j :: HasCommit(s.db, j) ==> HasCommit(s'.db, j)
  {
    forall j | HasCommit(s.db, j) ensures HasCommit(s'.db, j) {
      var c :| c in s.db.commits && c.job == j;
      assert c in s'.db.commits;
    }
  }

  lemma HubRecordsGrow(n: Net, e: NetEvent)
    requires NetEnabled(n, e)
    ensures RecordsGrow(n.hub, NetStep(n, e).hub)
    ensures forall j :: HasCommit(n.hub.db, j) ==> HasCommit(NetStep(n, e).hub.db, j)
  {
    CoreStep(n, e);
    if CoreOf(e).Some? {
      StepGrowsRecords(n.hub, CoreOf(e).value);
    }
    CommitsStay(n.hub, NetStep(n, e).hub);
  }

  /** Letters after a step are old ones, a dispatch just sent, or an ack just written by the hub. */
  lemma LettersAfter(n: Net, e: NetEvent, l: Letter)
    requires NetEnabled(n, e) && l in NetStep(n, e).down && l !in n.down
    ensures e == SendJob(l)
      || (l.message.JobAck? && Ack(l.worker, l.message.job) in NetStep(n, e).hub.acks)
  {
  }

  ghost predicate OnlyDispatchesWait(n: Net) {
    forall l :: l in n.sending ==> l.message.JobDispatch?
  }

  lemma AckLettersStep(n: Net, e: NetEvent)
    requires NetEnabled(n, e) && AcksCommitted(n) && OnlyDispatchesWait(n) && AcksBacked(NetStep(n, e).hub)
    ensures AcksCommitted(NetStep(n, e)) && OnlyDispatchesWait(NetStep(n, e))
  {
    HubRecordsGrow(n, e);
    var n' := NetStep(n, e);
    forall k | 0 <= k < |n'.down| && n'.down[k].message.JobAck? ensures HasCommit(n'.hub.db, n'.down[k].message.job) {
      var l := n'.down[k];
      if l in n.down {
        var i :| 0 <= i < |n.down| && n.down[i] == l;
        assert HasCommit(n.hub.db, n.down[i].message.job);
      } else {
        LettersAfter(n, e, l);
      }
    }
  }

  /** An ack on its way to a worker is for a committed job. */
  lemma {:induction false} AckLettersFollowCommits(run: NetRun)
    requires NetValid(run)
    ensures AcksCommitted(NetAfter(run)) && OnlyDispatchesWait(NetAfter(run))
  {
    if run != [] {
      AckLettersFollowCommits(run[..|run| - 1]);
      NetIsARun(run);
      AcksFollowCommits(CoreRun(run));
      AckLettersStep(NetAfter(run[..|run| - 1]), run[|run| - 1]);
    }
  }

  // Fences on the wire

  predicate Carries(l: Letter, token: nat) {
    l.message.JobDispatch? && l.message.token == token
  }

  /** The fence was issued and its dispatch is not, or no longer, on the way to anybody. */
  ghost predicate Spent(n: Net, token: nat) {
    && token <= n.hub.db.lastFence
    && (forall l :: l in n.sending ==> !Carries(l, token))
    && (forall k :: 0 <= k < |n.down| ==> !Carries(n.down[k], token))
  }

  /** Each fence on its way is on its way once. */
  ghost predicate FencesOnce(n: Net) {
    Once(n.sending, n.down, n.hub.db.lastFence)
  }

  ghost predicate Once(sending: set<Letter>, down: seq<Letter>, last: nat) {
    && (forall l :: l in sending ==> l.message.JobDispatch? && l.message.token <= last)
    && (forall l, m :: l in sending && m in sending && l.message.token == m.message.token ==> l == m)
    && (forall k :: 0 <= k < |down| && down[k].message.JobDispatch? ==>
          && down[k].message.token <= last
          && (forall l :: l in sending ==> !Carries(l, down[k].message.token))
          && (forall i :: 0 <= i < |down| && i != k ==> !Carries(down[i], down[k].message.token)))
  }

  lemma SpentStays(n: Net, e: NetEvent, token: nat)
    requires NetEnabled(n, e) && Spent(n, token)
    ensures Spent(NetStep(n, e), token)
  {
    HubRecordsGrow(n, e);
    var n' := NetStep(n, e);
    forall k | 0 <= k < |n'.down| ensures !Carries(n'.down[k], token) {
      if n'.down[k] !in n.down {
        LettersAfter(n, e, n'.down[k]);
      }
    }
  }

  lemma FencesOnceStep(n: Net, e: NetEvent)
    requires NetEnabled(n, e) && FencesOnce(n)
    ensures FencesOnce(NetStep(n, e))
  {
    match e
    case Hub(event) => FencesOnceHub(n, event);
    case Deliver(worker, message, _, _, _, _, _) =>
      if Prompted(e).Some? {
        FencesOnceHub(n.(up := n.up - multiset{Report(worker, message)}), Prompted(e).value);
      }
    case SendJob(letter) => OnceSent(n.sending, n.down, n.hub.db.lastFence, letter);
    case Receive(k) => OnceTaken(n.sending, n.down, n.hub.db.lastFence, k);
    case LoseLetter(k) => OnceTaken(n.sending, n.down, n.hub.db.lastFence, k);
    case _ =>
  }

  lemma FencesOnceHub(n: Net, e: Event)
    requires Enabled(n.hub, e) && FencesOnce(n)
    ensures FencesOnce(HubStep(n, e))
  {
    StepGrowsRecords(n.hub, e);
    OnceWritten(n.sending, n.down, n.hub.db.lastFence, NewDispatches(n.hub, e), NewAcks(n.hub, Step(n.hub, e)),
      Step(n.hub, e).db.lastFence);
  }

  lemma OnceWritten(sending: set<Letter>, down: seq<Letter>, last: nat, dispatches: set<Letter>, acks: seq<Letter>,
    last': nat)
    requires Once(sending, down, last) && last <= last'
    requires forall l :: l in dispatches ==> l.message.JobDispatch? && last < l.message.token <= last'
    requires forall l, m :: l in dispatches && m in dispatches ==> l == m
    requires forall k :: 0 <= k < |acks| ==> acks[k].message.JobAck?
    ensures Once(sending + dispatches, down + acks, last')
  {
  }

  lemma OnceSent(sending: set<Letter>, down: seq<Letter>, last: nat, l: Letter)
    requires Once(sending, down, last) && l in sending
    ensures Once(sending - {l}, down + [l], last)
  {
  }

  lemma OnceTaken(sending: set<Letter>, down: seq<Letter>, last: nat, k: nat)
    requires Once(sending, down, last) && k < |down|
    ensures Once(sending, Without(down, k), last)
  {
    var rest := Without(down, k);
    assert forall i :: 0 <= i < |rest| ==> rest[i] == down[if i < k then i else i + 1];
  }

  /** A dispatch that has been received, or lost, is spent. */
  lemma ReceivedIsSpent(n: Net, e: NetEvent, k: nat)
    requires NetEnabled(n, e) && FencesOnce(n) && (e == Receive(k) || e == LoseLetter(k))
    requires n.down[k].message.JobDispatch?
    ensures Spent(NetStep(n, e), n.down[k].message.token)
  {
  }

  lemma {:induction false} FencesGoOutOnce(run: NetRun)
    requires NetValid(run)
    ensures FencesOnce(NetAfter(run))
  {
    if run != [] {
      FencesGoOutOnce(run[..|run| - 1]);
      FencesOnceStep(NetAfter(run[..|run| - 1]), run[|run| - 1]);
    }
  }

  ghost predicate SpentAt(run: NetRun, k: nat, token: nat)
    requires NetValid(run) && k <= |run|
  {
    Spent(NetAt(run, k), token)
  }

  lemma {:induction false} SpentRuns(run: NetRun, a: nat, b: nat, token: nat)
    requires NetValid(run) && a <= b <= |run| && SpentAt(run, a, token)
    ensures SpentAt(run, b, token)
    decreases b - a
  {
    if a < b {
      SpentGoesOn(run, a, token);
      SpentRuns(run, a + 1, b, token);
    }
  }

  lemma SpentGoesOn(run: NetRun, k: nat, token: nat)
    requires NetValid(run) && k < |run| && SpentAt(run, k, token)
    ensures SpentAt(run, k + 1, token)
  {
    NetAtStep(run, k);
    SpentStays(NetAt(run, k), run[k], token);
  }

  predicate TakesDispatch(run: NetRun, k: nat, token: nat)
    requires NetValid(run) && k < |run|
  {
    run[k].Receive? && run[k].k < |NetAt(run, k).down| && Carries(NetAt(run, k).down[run[k].k], token)
  }

  /** The dispatch of a fence reaches at most one worker, once, in a whole run. */
  lemma FenceIsTakenOnce(run: NetRun, a: nat, b: nat, token: nat)
    requires NetValid(run) && a < b < |run| && TakesDispatch(run, a, token)
    ensures !TakesDispatch(run, b, token)
  {
    assert SpentAt(run, a + 1, token) by {
      NetAtStep(run, a);
      NetValidPrefix(run, a);
      FencesGoOutOnce(run[..a]);
      ReceivedIsSpent(NetAt(run, a), run[a], run[a].k);
    }
    SpentRuns(run, a + 1, b, token);
  }

  // Workers

  lemma EntriesAfter(w: W.Worker, e: W.WorkerEvent, job: JobId)
    requires W.Can(w, e) && job in W.WorkerStep(w, e).inFlight
    ensures W.Current(w, job, W.WorkerStep(w, e).inFlight[job].token)
      || e == W.JobArrives(job, W.WorkerStep(w, e).inFlight[job].token)
  {
    match e
    case Executed(j, token, outcome) => EntriesAfterExecution(w, j, token, outcome, job);
    case Fires(timer) => EntriesAfterTimer(w, timer, job);
    case _ =>
  }

  lemma EntriesAfterExecution(w: W.Worker, j: JobId, token: nat, outcome: Option<Value>, job: JobId)
    requires job in W.FinishExecution(w, j, token, outcome).inFlight
    ensures W.Current(w, job, W.FinishExecution(w, j, token, outcome).inFlight[job].token)
  {
  }

  lemma EntriesAfterTimer(w: W.Worker, timer: nat, job: JobId)
    requires timer in w.timers && job in W.FireTimer(w, timer).inFlight
    ensures W.Current(w, job, W.FireTimer(w, timer).inFlight[job].token)
  {
  }

  /** The executions of a job that is not committed are just the one its entry waits for. */
  ghost predicate Sole(w: W.Worker, job: JobId) {
    forall token :: W.Execution(job, token) in w.executing ==>
      W.Current(w, job, token) && w.inFlight[job].result.None? && w.executing[W.Execution(job, token)] == 1
  }

  lemma SoleStep(w: W.Worker, e: W.WorkerEvent, job: JobId)
    requires W.Can(w, e) && Sole(w, job) && e != W.AckArrives(job)
    ensures Sole(W.WorkerStep(w, e), job)
  {
    match e
    case JobArrives(j, token) => SoleArrives(w, j, token, job);
    case Executed(j, token, outcome) => SoleExecuted(w, j, token, outcome, job);
    case Fires(timer) => SoleFires(w, timer, job);
    case _ =>
  }

  lemma SoleArrives(w: W.Worker, j: JobId, token: nat, job: JobId)
    requires Sole(w, job)
    ensures Sole(W.HandleDispatch(w, j, token), job)
  {
  }

  lemma SoleExecuted(w: W.Worker, j: JobId, token: nat, outcome: Option<Value>, job: JobId)
    requires Sole(w, job) && W.Execution(j, token) in w.executing
    ensures Sole(W.FinishExecution(w, j, token, outcome), job)
  {
    var w' := W.FinishExecution(w, j, token, outcome);
    assert w'.executing == w.executing - multiset{W.Execution(j, token)};
    if j == job {
      assert forall t :: W.Execution(job, t) in w.executing ==> t == token;
    } else {
      assert job in w.inFlight ==> job in w'.inFlight && w'.inFlight[job] == w.inFlight[job];
    }
  }

  lemma SoleFires(w: W.Worker, timer: nat, job: JobId)
    requires Sole(w, job) && timer in w.timers
    ensures Sole(W.FireTimer(w, timer), job)
  {
    var w' := W.FireTimer(w, timer);
    assert w'.executing == w.executing;
    assert job in w.inFlight && w.inFlight[job].result.None? ==>
      job in w'.inFlight && w'.inFlight[job] == w.inFlight[job];
  }

  /** The workers change by one event of one of them, or by a restart. */
  lemma WorkersAfter(n: Net, e: NetEvent, id: WorkerId)
    requires NetEnabled(n, e) && id in NetStep(n, e).workers
    ensures var w' := NetStep(n, e).workers[id];
      || (id in n.workers && w' == n.workers[id])
      || (e.Restart? && w' == W.Started(e.limit))
      || (id in n.workers && ((e.Act? && e.worker == id) || (e.Receive? && n.down[e.k].worker == id))
          && var a := if e.Act? then e.action else Handling(n.down[e.k].message);
             W.Can(n.workers[id], a) && w' == W.WorkerStep(n.workers[id], a))
  {
  }

  ghost predicate WorkerFits(n: Net, id: WorkerId)
    requires id in n.workers
  {
    var w := n.workers[id];
    && WR.Orderly(w)
    && (forall j :: j in w.inFlight ==> Spent(n, w.inFlight[j].token))
    && (forall j :: HasCommit(n.hub.db, j) || Sole(w, j))
  }

  ghost predicate WorkersFit(n: Net) {
    forall id :: id in n.workers ==> WorkerFits(n, id)
  }

  lemma WorkersFitStep(n: Net, e: NetEvent, id: WorkerId)
    requires NetEnabled(n, e) && AcksCommitted(n) && FencesOnce(n) && WorkersFit(n)
    requires id in NetStep(n, e).workers
    ensures WorkerFits(NetStep(n, e), id)
  {
    var n' := NetStep(n, e);
    WorkersAfter(n, e, id);
    HubRecordsGrow(n, e);
    if id in n.workers && n'.workers[id] == n.workers[id] {
      assert WorkerFits(n, id);
      forall j | j in n.workers[id].inFlight ensures Spent(n', n.workers[id].inFlight[j].token) {
        SpentStays(n, e, n.workers[id].inFlight[j].token);
      }
    } else if !e.Restart? {
      WorkerActed(n, e, id);
    }
  }

  lemma WorkerActed(n: Net, e: NetEvent, id: WorkerId)
    requires NetEnabled(n, e) && AcksCommitted(n) && FencesOnce(n) && id in n.workers && WorkerFits(n, id)
    requires (e.Act? && e.worker == id) || (e.Receive? && n.down[e.k].worker == id)
    ensures WorkerFits(NetStep(n, e), id)
  {
    var n' := NetStep(n, e);
    var w, w' := n.workers[id], n'.workers[id];
    var a := if e.Act? then e.action else Handling(n.down[e.k].message);
    HubRecordsGrow(n, e);
    WR.OrderlyStep(w, a);
    forall j | j in w'.inFlight ensures Spent(n', w'.inFlight[j].token) {
      EntriesAfter(w, a, j);
      if W.Current(w, j, w'.inFlight[j].token) {
        SpentStays(n, e, w'.inFlight[j].token);
      } else {
        ReceivedIsSpent(n, e, e.k);
      }
    }
    forall j ensures HasCommit(n'.hub.db, j) || Sole(w', j) {
      if !HasCommit(n.hub.db, j) {
        SoleStep(w, a, j);
      }
    }
  }

  /** In every state of the whole system every worker is orderly and its fences are spent. */
  lemma {:induction false} WorkersAlwaysFit(run: NetRun)
    requires NetValid(run)
    ensures WorkersFit(NetAfter(run))
  {
    if run != [] {
      var before, e := run[..|run| - 1], run[|run| - 1];
      WorkersAlwaysFit(before);
      AckLettersFollowCommits(before);
      FencesGoOutOnce(before);
      forall id | id in NetAfter(run).workers ensures WorkerFits(NetAfter(run), id) {
        WorkersFitStep(NetAfter(before), e, id);
      }
    }
  }
}
