/** A dropped ack costs one retry: the hub's re-ack rule and the worker's retries, as one system. */
module AckConvergence {
  import opened Tables
  import opened Transactions
  import opened Protocol
  import opened Invariant
  import opened Safety
  import opened Cancellation
  import opened Messages
  import opened Network
  import opened Wire
  import L = Liveness

  // The hub

  /** How a result handler for a job ends: nothing, a suppressed ack, or an ack. */
  ghost predicate FinishesResult(s: State, e: Event, job: JobId)
    requires Enabled(s, e)
  {
    || (e.ResultReread? && s.handlers[e.h].job == job)
    || (e.ResultWrite? && s.handlers[e.h].job == job
        && JudgeResult(s.db, job, s.handlers[e.h].worker, s.handlers[e.h].token).Accepted?)
  }

  ghost predicate SendsAck(s: State, e: Event, worker: WorkerId, job: JobId)
    requires Enabled(s, e)
  {
    Step(s, e).acks == s.acks + [Ack(worker, job)]
  }

  predicate WillReread(s: State, h: nat, worker: WorkerId, job: JobId) {
    h in s.handlers && s.handlers[h] == Rereading(worker, job)
  }

  /**
   After the commit every result handler of the job is led to the re-read, as no lookup matches and every
   late commit is refused. The re-read acks if and only if it works and no cancel followed the commit.
   */
  lemma CommittedResultIsReacked(run: Run, e: Event, job: JobId)
    requires Valid(run) && HasCommit(After(run).db, job) && Enabled(After(run), e)
    ensures e.ResultLookup? && e.job == job ==> WillReread(Step(After(run), e), e.h, e.worker, job)
    ensures e.ResultWrite? && After(run).handlers[e.h].job == job ==>
      WillReread(Step(After(run), e), e.h, After(run).handlers[e.h].worker, job)
    ensures FinishesResult(After(run), e, job) ==>
      e.ResultReread?
      && (e.readOk && (forall k :: !CancelsCommitted(run, k, job)) <==>
            SendsAck(After(run), e, After(run).handlers[e.h].worker, job))
  {
    var s := After(run);
    CommittedSucceedsExactly(run, job);
    assert job !in s.db.leases by {
      Reachable(run);
      var c :| c in s.db.commits && c.job == job;
      assert CommitFinal(s.db, c);
    }
    if e.ResultReread? {
      assert |s.acks + [Ack(s.handlers[e.h].worker, job)]| != |s.acks|;
    }
  }

  // Hub, wire and worker

  predicate Holding(n: Net, worker: WorkerId, job: JobId, token: nat) {
    worker in n.workers && W.Current(n.workers[worker], job, token)
  }

  /** The result's handler will re-read, or its ack is on the wire, or the worker's entry is gone. */
  predicate Answering(n: Net, h: nat, worker: WorkerId, job: JobId, token: nat) {
    WillReread(n.hub, h, worker, job) || Letter(worker, JobAck(job)) in n.down || !Holding(n, worker, job, token)
  }

  /** What can keep the answer from the worker: the handler or its read fails, a late cancel, a lost ack. */
  predicate Mishap(n: Net, e: NetEvent, h: nat, worker: WorkerId, job: JobId) {
    match e
    case Hub(event) =>
      || event == Abandon(h)
      || event == ResultReread(h, false)
      || (event.CancelWrite? && event.h in n.hub.handlers && n.hub.handlers[event.h] == Cancelling(job))
    case LoseLetter(k) => k < |n.down| && n.down[k] == Letter(worker, JobAck(job))
    case _ => false
  }

  lemma SucceededStays(n: Net, e: NetEvent, h: nat, worker: WorkerId, job: JobId)
    requires NetEnabled(n, e) && !Mishap(n, e, h, worker, job)
    requires CommitsFinal(n.hub.db) && TerminalEvidence(n.hub.db) && HasStatus(n.hub.db, job, Succeeded)
    ensures HasStatus(NetStep(n, e).hub.db, job, Succeeded)
  {
    CoreStep(n, e);
    if CoreOf(e).Some? {
      RelabelledExactlyByLateCancel(n.hub, CoreOf(e).value, job);
    }
  }

  lemma WaitingStep(n: Net, e: NetEvent, h: nat, worker: WorkerId, job: JobId)
    requires NetEnabled(n, e) && !Mishap(n, e, h, worker, job)
    requires HasStatus(n.hub.db, job, Succeeded) && WillReread(n.hub, h, worker, job)
    ensures WillReread(NetStep(n, e).hub, h, worker, job) || Letter(worker, JobAck(job)) in NetStep(n, e).down
  {
    CoreStep(n, e);
    if e == Hub(ResultReread(h, true)) {
      assert NewAcks(n.hub, Step(n.hub, e.event)) == [Letter(worker, JobAck(job))];
    }
  }

  lemma AckStep(n: Net, e: NetEvent, h: nat, worker: WorkerId, job: JobId, token: nat)
    requires NetEnabled(n, e) && !Mishap(n, e, h, worker, job)
    requires Letter(worker, JobAck(job)) in n.down
    ensures Letter(worker, JobAck(job)) in NetStep(n, e).down || !Holding(NetStep(n, e), worker, job, token)
  {
    var i :| 0 <= i < |n.down| && n.down[i] == Letter(worker, JobAck(job));
    if e.Receive? || e.LoseLetter? {
      var rest := Without(n.down, e.k);
      assert i < e.k ==> rest[i] == n.down[i];
      assert i > e.k ==> rest[i - 1] == n.down[i];
    }
  }

  lemma ClearedStep(n: Net, e: NetEvent, worker: WorkerId, job: JobId, token: nat)
    requires NetEnabled(n, e) && Spent(n, token) && !Holding(n, worker, job, token)
    ensures !Holding(NetStep(n, e), worker, job, token)
  {
    if worker in NetStep(n, e).workers {
      WorkersAfter(n, e, worker);
      var w' := NetStep(n, e).workers[worker];
      if job in w'.inFlight && worker in n.workers && w' != n.workers[worker] && !e.Restart? {
        EntriesAfter(n.workers[worker], if e.Act? then e.action else Handling(n.down[e.k].message), job);
      }
    }
  }

  /** The answer is under way or no longer needed, and nothing can bring the entry back. */
  ghost predicate OnCourse(n: Net, h: nat, worker: WorkerId, job: JobId, token: nat) {
    Answering(n, h, worker, job, token) && HasStatus(n.hub.db, job, Succeeded) && Spent(n, token)
  }

  lemma OnCourseStep(n: Net, e: NetEvent, h: nat, worker: WorkerId, job: JobId, token: nat)
    requires NetEnabled(n, e) && !Mishap(n, e, h, worker, job)
    requires CommitsFinal(n.hub.db) && TerminalEvidence(n.hub.db) && OnCourse(n, h, worker, job, token)
    ensures OnCourse(NetStep(n, e), h, worker, job, token)
  {
    SucceededStays(n, e, h, worker, job);
    SpentStays(n, e, token);
    if WillReread(n.hub, h, worker, job) {
      WaitingStep(n, e, h, worker, job);
    } else if Letter(worker, JobAck(job)) in n.down {
      AckStep(n, e, h, worker, job, token);
    } else {
      ClearedStep(n, e, worker, job, token);
    }
  }

  lemma DeliveryStep(n: Net, e: NetEvent, job: JobId, token: nat)
    requires NetEnabled(n, e) && ResultArrives(e, job)
    requires CommitsFinal(n.hub.db) && TerminalEvidence(n.hub.db) && StatusMatchesLease(n.hub.db)
    requires HasStatus(n.hub.db, job, Succeeded) && Spent(n, token)
    ensures WillReread(NetStep(n, e).hub, e.h, e.worker, job)
    ensures OnCourse(NetStep(n, e), e.h, e.worker, job, token)
  {
    CoreStep(n, e);
    SucceededStays(n, e, e.h, e.worker, job);
    SpentStays(n, e, token);
  }

  predicate ResultArrives(e: NetEvent, job: JobId) {
    e.Deliver? && e.registered && e.message.Result? && e.message.job == job
  }

  predicate MishapAt(run: NetRun, k: nat, h: nat, worker: WorkerId, job: JobId)
    requires NetValid(run) && k < |run|
  {
    Mishap(NetAt(run, k), run[k], h, worker, job)
  }

  lemma HeldIsSpent(run: NetRun, k: nat, worker: WorkerId, job: JobId, token: nat)
    requires NetValid(run) && k <= |run| && Holding(NetAt(run, k), worker, job, token)
    ensures Spent(NetAt(run, k), token)
  {
    NetValidPrefix(run, k);
    WorkersAlwaysFit(run[..k]);
    assert WorkerFits(NetAt(run, k), worker);
  }

  lemma HubAgrees(run: NetRun)
    requires NetValid(run)
    ensures CommitsFinal(NetAfter(run).hub.db) && TerminalEvidence(NetAfter(run).hub.db)
    ensures StatusMatchesLease(NetAfter(run).hub.db)
  {
    NetIsARun(run);
    Reachable(CoreRun(run));
  }

  lemma HubAgreesAt(run: NetRun, k: nat)
    requires NetValid(run) && k <= |run|
    ensures CommitsFinal(NetAt(run, k).hub.db) && TerminalEvidence(NetAt(run, k).hub.db)
    ensures StatusMatchesLease(NetAt(run, k).hub.db)
  {
    NetValidPrefix(run, k);
    HubAgrees(run[..k]);
  }

  lemma CourseStarts(run: NetRun, d: nat, job: JobId, token: nat)
    requires NetValid(run) && d < |run| && ResultArrives(run[d], job)
    requires HasStatus(NetAt(run, d).hub.db, job, Succeeded) && Holding(NetAt(run, d), run[d].worker, job, token)
    ensures OnCourse(NetAt(run, d + 1), run[d].h, run[d].worker, job, token)
  {
    NetAtStep(run, d);
    HubAgreesAt(run, d);
    HeldIsSpent(run, d, run[d].worker, job, token);
    DeliveryStep(NetAt(run, d), run[d], job, token);
  }

  lemma CourseIsKept(run: NetRun, k: nat, h: nat, worker: WorkerId, job: JobId, token: nat)
    requires NetValid(run) && k < |run| && !MishapAt(run, k, h, worker, job)
    requires OnCourse(NetAt(run, k), h, worker, job, token)
    ensures OnCourse(NetAt(run, k + 1), h, worker, job, token)
  {
    NetAtStep(run, k);
    HubAgreesAt(run, k);
    OnCourseStep(NetAt(run, k), run[k], h, worker, job, token);
  }

  lemma {:induction false} CourseRuns(run: NetRun, a: nat, b: nat, h: nat, worker: WorkerId, job: JobId, token: nat)
    requires NetValid(run) && a <= b <= |run| && OnCourse(NetAt(run, a), h, worker, job, token)
    requires forall k :: a <= k < b ==> !MishapAt(run, k, h, worker, job)
    ensures OnCourse(NetAt(run, b), h, worker, job, token)
    decreases b
  {
    if a < b {
      CourseRuns(run, a, b - 1, h, worker, job, token);
      CourseIsKept(run, b - 1, h, worker, job, token);
    }
  }

  lemma GoesOnWithout(run: NetRun, k: nat, worker: WorkerId, job: JobId, token: nat)
    requires NetValid(run) && k < |run| && Spent(NetAt(run, k), token) && !Holding(NetAt(run, k), worker, job, token)
    ensures Spent(NetAt(run, k + 1), token) && !Holding(NetAt(run, k + 1), worker, job, token)
  {
    NetAtStep(run, k);
    SpentStays(NetAt(run, k), run[k], token);
    ClearedStep(NetAt(run, k), run[k], worker, job, token);
  }

  /** An entry whose fence is spent, once gone, never comes back. */
  lemma {:induction false} GoneForGood(run: NetRun, a: nat, b: nat, worker: WorkerId, job: JobId, token: nat)
    requires NetValid(run) && a <= b <= |run|
    requires Spent(NetAt(run, a), token) && !Holding(NetAt(run, a), worker, job, token)
    ensures !Holding(NetAt(run, b), worker, job, token)
    decreases b - a
  {
    if a < b {
      GoesOnWithout(run, a, worker, job, token);
      GoneForGood(run, a + 1, b, worker, job, token);
    }
  }

  /**
   End to end: the job SUCCEEDED, its ack suppressed or lost however often, and one more job.result of the
   worker is delivered. From then on, through any interleaving, the answer is under way until the
   worker's entry for that fence is gone, and once gone it is gone for good. Only a mishap to the handler,
   the read, the job or the ack can prevent it.
   */
  lemma OneMoreResultIsEnough(run: NetRun, d: nat, b: nat, job: JobId, token: nat)
    requires NetValid(run) && d < b <= |run|
    requires ResultArrives(run[d], job) && HasStatus(NetAt(run, d).hub.db, job, Succeeded)
    requires Holding(NetAt(run, d), run[d].worker, job, token)
    requires forall k :: d < k < b ==> !MishapAt(run, k, run[d].h, run[d].worker, job)
    ensures OnCourse(NetAt(run, b), run[d].h, run[d].worker, job, token)
    ensures forall a :: d < a <= b && !Holding(NetAt(run, a), run[d].worker, job, token) ==>
      !Holding(NetAt(run, b), run[d].worker, job, token)
  {
    CourseStarts(run, d, job, token);
    CourseRuns(run, d + 1, b, run[d].h, run[d].worker, job, token);
    forall a | d < a <= b && !Holding(NetAt(run, a), run[d].worker, job, token)
      ensures !Holding(NetAt(run, b), run[d].worker, job, token)
    {
      CourseRuns(run, d + 1, a, run[d].h, run[d].worker, job, token);
      GoneForGood(run, a, b, run[d].worker, job, token);
    }
  }

  // One retry suffices

  lemma FirstLetter(down: seq<Letter>, worker: WorkerId) returns (k: nat)
    requires exists i :: 0 <= i < |down| && down[i].worker == worker
    ensures k < |down| && down[k].worker == worker && FirstForItsWorker(down, k)
  {
    k := 0;
    while down[k].worker != worker
      invariant k < |down| && forall i :: 0 <= i < k ==> down[i].worker != worker
      decreases |down| - k
    {
      k := k + 1;
    }
  }

  /** The worker is connected and the ack is among the letters it has still to read. */
  predicate AckAhead(n: Net, worker: WorkerId, job: JobId) {
    worker in n.workers && n.workers[worker].connected && Letter(worker, JobAck(job)) in n.down
  }

  lemma ReadOne(n: Net, k: nat, worker: WorkerId, job: JobId)
    requires NetEnabled(n, Receive(k)) && AckAhead(n, worker, job) && n.down[k].worker == worker
    ensures ReadFrom(n, NetStep(n, Receive(k)), k, worker, job)
  {
    var i :| 0 <= i < |n.down| && n.down[i] == Letter(worker, JobAck(job));
    if n.down[k].message != JobAck(job) {
      assert Without(n.down, k)[if i < k then i else i - 1] == n.down[i];
    }
  }

  /** The ack was read and the entry cleared, or the ack is still ahead and there is less to read. */
  predicate ReadFrom(n: Net, n': Net, k: nat, worker: WorkerId, job: JobId)
    requires k < |n.down|
  {
    && |n'.down| < |n.down|
    && if n.down[k].message == JobAck(job) then Cleared(n', worker, job) else AckAhead(n', worker, job)
  }

  predicate Cleared(n: Net, worker: WorkerId, job: JobId) {
    worker in n.workers && job !in n.workers[worker].inFlight
  }

  lemma ReadNext(n: Net, worker: WorkerId, job: JobId) returns (k: nat, n': Net)
    requires AckAhead(n, worker, job)
    ensures k < |n.down| && Leads(n, [Receive(k)], n') && ReadFrom(n, n', k, worker, job)
  {
    k := FirstLetter(n.down, worker);
    ReadOne(n, k, worker, job);
    n' := NetStep(n, Receive(k));
    LeadsCons(n, Receive(k), [], n');
    assert [Receive(k)] + [] == [Receive(k)];
  }

  /** A connected worker that reads its letters gets to the ack, and then has no entry for the job. */
  lemma {:induction false} ReadToTheAck(n: Net, worker: WorkerId, job: JobId) returns (letters: NetRun, end: Net)
    requires AckAhead(n, worker, job)
    ensures Leads(n, letters, end) && Cleared(end, worker, job)
    ensures forall i :: 0 <= i < |letters| ==> letters[i].Receive?
    decreases |n.down|
  {
    var k, n' := ReadNext(n, worker, job);
    letters, end := [Receive(k)], n';
    if n.down[k].message != JobAck(job) {
      var rest;
      rest, end := ReadToTheAck(n', worker, job);
      LeadsOn(n, Receive(k), n', rest, end);
      letters := letters + rest;
    }
  }

  /** A connected worker that knows a result of the job. */
  predicate KnowsResult(n: Net, worker: WorkerId, job: JobId, token: nat, value: Value) {
    && worker in n.workers && n.workers[worker].connected
    && W.Current(n.workers[worker], job, token) && n.workers[worker].inFlight[job].result == Some(value)
  }

  /** A known result is always waiting for a retry timer, whose firing puts it on the wire again. */
  lemma RetryGoesOut(n: Net, worker: WorkerId, job: JobId, token: nat, value: Value) returns (fires: NetEvent)
    requires WorkersFit(n) && KnowsResult(n, worker, job, token, value)
    ensures fires.Act? && fires.worker == worker && fires.action.Fires? && NetEnabled(n, fires)
    ensures Report(worker, W.Result(job, token, value)) in NetStep(n, fires).up
    ensures NetStep(n, fires).hub == n.hub
    ensures worker in NetStep(n, fires).workers && NetStep(n, fires).workers[worker].connected
  {
    var w := n.workers[worker];
    assert WorkerFits(n, worker) && WR.Served(w, job);
    var timer := w.inFlight[job].retryTimer.value;
    fires := Act(worker, W.Fires(timer));
    var r := W.Send(W.CountRetry(w.(timers := w.timers - {timer}), job), W.Result(job, token, value));
    assert W.ScheduleRetry(r, job, token).outbox == w.outbox + [W.Result(job, token, value)];
  }

  lemma ReportArrives(n: Net, worker: WorkerId, job: JobId, token: nat, value: Value, h: nat)
    requires HasStatus(n.hub.db, job, Succeeded) && StatusMatchesLease(n.hub.db) && h !in n.hub.handlers
    requires Report(worker, W.Result(job, token, value)) in n.up && worker in n.workers && n.workers[worker].connected
    ensures var e := Deliver(worker, W.Result(job, token, value), h, true, true, 0, 0);
      && NetEnabled(n, e)
      && var n' := NetStep(n, e);
         && WillReread(n'.hub, h, worker, job) && HasStatus(n'.hub.db, job, Succeeded)
         && worker in n'.workers && n'.workers[worker].connected
  {
  }

  lemma RereadAnswers(n: Net, worker: WorkerId, job: JobId, h: nat)
    requires WillReread(n.hub, h, worker, job) && HasStatus(n.hub.db, job, Succeeded)
    requires worker in n.workers && n.workers[worker].connected
    ensures NetEnabled(n, Hub(ResultReread(h, true))) && AckAhead(NetStep(n, Hub(ResultReread(h, true))), worker, job)
  {
    WaitingStep(n, Hub(ResultReread(h, true)), h, worker, job);
  }

  /**
   From every reachable state in which a connected worker knows a result of a SUCCEEDED job, one retry
   clears the entry: the timer fires once, the report arrives, the re-read works, the letters are read.
   */
  lemma OneRetryClearsTheEntry(run: NetRun, worker: WorkerId, job: JobId, token: nat, value: Value)
    returns (fires: NetEvent, h: nat, letters: NetRun, end: Net)
    requires NetValid(run) && HasStatus(NetAfter(run).hub.db, job, Succeeded)
    requires KnowsResult(NetAfter(run), worker, job, token, value)
    ensures fires.Act? && fires.worker == worker && fires.action.Fires?
    ensures forall i :: 0 <= i < |letters| ==> letters[i].Receive?
    ensures Leads(
      NetAfter(run),
      [fires]
      + ([Deliver(worker, W.Result(job, token, value), h, true, true, 0, 0)]
         + ([Hub(ResultReread(h, true))] + letters)),
      end)
    ensures Cleared(end, worker, job)
  {
    var n := NetAfter(run);
    HubAgrees(run);
    WorkersAlwaysFit(run);
    h := L.FreshHandler(n.hub);
    fires := RetryGoesOut(n, worker, job, token, value);
    var arrives := Deliver(worker, W.Result(job, token, value), h, true, true, 0, 0);
    var rereads := Hub(ResultReread(h, true));
    var n1 := NetStep(n, fires);
    ReportArrives(n1, worker, job, token, value, h);
    var n2 := NetStep(n1, arrives);
    RereadAnswers(n2, worker, job, h);
    letters, end := ReadToTheAck(NetStep(n2, rereads), worker, job);
    LeadsCons(n2, rereads, letters, end);
    LeadsCons(n1, arrives, [rereads] + letters, end);
    LeadsCons(n, fires, [arrives] + ([rereads] + letters), end);
  }
}
