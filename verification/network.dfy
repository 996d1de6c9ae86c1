/**
 Coordinators and workers as one system. Letters to a worker keep their order but any of them may be lost;
 reports to a coordinator may be lost or overtake one another. A dispatch is sent some time after its
 transaction, or never. Worker processes may crash and start afresh at any moment.
 */
module Network {
  import opened Tables
  import opened Protocol
  import opened Messages
  import W = WorkerModel

  datatype Letter = Letter(worker: WorkerId, message: Message)

  datatype Report = Report(worker: WorkerId, message: W.Outgoing)

  /** `sending` holds the dispatches committed but not yet sent. */
  datatype Net = Net(
    hub: State,
    workers: map<WorkerId, W.Worker>,
    sending: set<Letter>,
    down: seq<Letter>,
    up: multiset<Report>)

  const QUIET := Net(INITIAL, map[], {}, [], multiset{})

  datatype NetEvent =
    | Hub(event: Event)
    | Deliver(worker: WorkerId, message: W.Outgoing, h: nat, registered: bool, readOk: bool, expiresAt: int, at: int)
    | SendJob(letter: Letter)
    | Receive(k: nat)
    | Act(worker: WorkerId, action: W.WorkerEvent)
    | Restart(worker: WorkerId, limit: int)
    | LoseLetter(k: nat)
    | LoseReport(report: Report)

  /** The steps a coordinator takes on receiving a message are not its own. */
  predicate Unprompted(e: Event) {
    !e.ResultLookup? && !e.FailTemp? && !e.FailPerm? && !e.Heartbeat?
  }

  /** What a delivered report starts: onResult and onHeartbeat ignore an unregistered socket, onFailed does not. */
  function Prompted(e: NetEvent): Option<Event>
    requires e.Deliver?
  {
    match e.message
    case Hello(_) => None
    case Result(job, token, value) =>
      if e.registered then Some(ResultLookup(e.h, e.worker, job, token, value, e.readOk)) else None
    case Failure(job, token, temporary) =>
      var reporter := if e.registered then Some(e.worker) else None;
      Some(if temporary then FailTemp(reporter, job, token, e.at) else FailPerm(reporter, job, token, e.at))
    case Beat(job, token) => if e.registered then Some(Heartbeat(e.worker, job, token, e.expiresAt)) else None
  }

  /** The step of the coordinators' state machine behind an event. */
  function CoreOf(e: NetEvent): Option<Event> {
    match e
    case Hub(event) => Some(event)
    case Deliver(_, _, _, _, _, _, _) => Prompted(e)
    case _ => None
  }

  predicate FirstForItsWorker(down: seq<Letter>, k: nat)
    requires k < |down|
  {
    forall i :: 0 <= i < k ==> down[i].worker != down[k].worker
  }

  /** Handling a letter, as an event of the worker. */
  function Handling(m: Message): W.WorkerEvent {
    match m
    case JobDispatch(job, token) => W.JobArrives(job, token)
    case JobAck(job) => W.AckArrives(job)
  }

  predicate NetEnabled(n: Net, e: NetEvent) {
    match e
    case Hub(event) => Unprompted(event) && Enabled(n.hub, event)
    case Deliver(worker, message, _, _, _, _, _) =>
      Report(worker, message) in n.up && (Prompted(e).Some? ==> Enabled(n.hub, Prompted(e).value))
    case SendJob(letter) => letter in n.sending
    case Receive(k) =>
      && k < |n.down| && FirstForItsWorker(n.down, k)
      && n.down[k].worker in n.workers && n.workers[n.down[k].worker].connected
    case Act(worker, action) =>
      && worker in n.workers && !action.JobArrives? && !action.AckArrives?
      && W.Can(n.workers[worker], action)
    case Restart(_, _) => true
    case LoseLetter(k) => k < |n.down|
    case LoseReport(report) => report in n.up
  }

  /** The job message a committed dispatch is about to send. */
  function NewDispatches(s: State, e: Event): set<Letter> {
    if e.Dispatch? && e.job !in s.db.leases then {Letter(e.worker, JobDispatch(e.job, s.db.lastFence + 1))} else {}
  }

  function NewAcks(s: State, s': State): seq<Letter> {
    if |s'.acks| > |s.acks| then
      var ack := s'.acks[|s'.acks| - 1];
      [Letter(ack.worker, JobAck(ack.job))]
    else []
  }

  function NewReports(worker: WorkerId, w: W.Worker, w': W.Worker): multiset<Report> {
    if |w'.outbox| > |w.outbox| then multiset{Report(worker, w'.outbox[|w'.outbox| - 1])} else multiset{}
  }

  function HubStep(n: Net, e: Event): Net
    requires Enabled(n.hub, e)
  {
    var s' := Step(n.hub, e);
    n.(hub := s', sending := n.sending + NewDispatches(n.hub, e), down := n.down + NewAcks(n.hub, s'))
  }

  function WorkerActs(n: Net, worker: WorkerId, e: W.WorkerEvent): Net
    requires worker in n.workers && W.Can(n.workers[worker], e)
  {
    var w := n.workers[worker];
    var w' := W.WorkerStep(w, e);
    n.(workers := n.workers[worker := w'], up := n.up + NewReports(worker, w, w'))
  }

  function Without(down: seq<Letter>, k: nat): seq<Letter>
    requires k < |down|
  {
    down[..k] + down[k + 1..]
  }

  function NetStep(n: Net, e: NetEvent): Net
    requires NetEnabled(n, e)
  {
    match e
    case Hub(event) => HubStep(n, event)
    case Deliver(worker, message, _, _, _, _, _) =>
      var taken := n.(up := n.up - multiset{Report(worker, message)});
      if Prompted(e).Some? then HubStep(taken, Prompted(e).value) else taken
    case SendJob(letter) => n.(sending := n.sending - {letter}, down := n.down + [letter])
    case Receive(k) => WorkerActs(n.(down := Without(n.down, k)), n.down[k].worker, Handling(n.down[k].message))
    case Act(worker, action) => WorkerActs(n, worker, action)
    case Restart(worker, limit) => n.(workers := n.workers[worker := W.Started(limit)])
    case LoseLetter(k) => n.(down := Without(n.down, k))
    case LoseReport(report) => n.(up := n.up - multiset{report})
  }

  type NetRun = seq<NetEvent>

  predicate NetValid(run: NetRun)
    decreases |run|, 0
  {
    run == [] || (
      var before := run[..|run| - 1];
      NetValid(before) && NetEnabled(NetAfter(before), run[|run| - 1]))
  }

  function NetAfter(run: NetRun): Net
    requires NetValid(run)
    decreases |run|, 1
  {
    if run == [] then QUIET else NetStep(NetAfter(run[..|run| - 1]), run[|run| - 1])
  }

  lemma NetExtend(run: NetRun, e: NetEvent)
    requires NetValid(run) && NetEnabled(NetAfter(run), e)
    ensures NetValid(run + [e]) && NetAfter(run + [e]) == NetStep(NetAfter(run), e)
  {
    assert (run + [e])[..|run|] == run;
  }

  lemma {:induction false} NetValidPrefix(run: NetRun, k: nat)
    requires NetValid(run) && k <= |run|
    ensures NetValid(run[..k])
    decreases |run|
  {
    if k == |run| {
      assert run[..k] == run;
    } else {
      NetValidPrefix(run[..|run| - 1], k);
      assert run[..|run| - 1][..k] == run[..k];
    }
  }

  function NetAt(run: NetRun, k: nat): Net
    requires NetValid(run) && k <= |run|
  {
    NetValidPrefix(run, k);
    NetAfter(run[..k])
  }

  lemma NetAtStep(run: NetRun, k: nat)
    requires NetValid(run) && k < |run|
    ensures NetEnabled(NetAt(run, k), run[k])
    ensures NetAt(run, k + 1) == NetStep(NetAt(run, k), run[k])
  {
    NetValidPrefix(run, k + 1);
    assert run[..k + 1][..k] == run[..k];
  }

  /** These steps, each enabled in its turn, lead from one state to the other. */
  predicate Leads(n: Net, steps: NetRun, end: Net)
    decreases |steps|
  {
    if steps == [] then end == n
    else NetEnabled(n, steps[0]) && Leads(NetStep(n, steps[0]), steps[1..], end)
  }

  lemma LeadsCons(n: Net, e: NetEvent, steps: NetRun, end: Net)
    requires NetEnabled(n, e) && Leads(NetStep(n, e), steps, end)
    ensures Leads(n, [e] + steps, end)
  {
    assert ([e] + steps)[1..] == steps;
  }

  lemma LeadsOn(n: Net, e: NetEvent, mid: Net, steps: NetRun, end: Net)
    requires Leads(n, [e], mid) && Leads(mid, steps, end)
    ensures Leads(n, [e] + steps, end)
  {
    LeadsCons(n, e, steps, end);
  }

  // The coordinators' part

  function CoreRun(run: NetRun): Run
    requires NetValid(run)
  {
    if run == [] then []
    else
      var e := CoreOf(run[|run| - 1]);
      CoreRun(run[..|run| - 1]) + if e.Some? then [e.value] else []
  }

  lemma CoreStep(n: Net, e: NetEvent)
    requires NetEnabled(n, e)
    ensures CoreOf(e).Some? ==> Enabled(n.hub, CoreOf(e).value) && NetStep(n, e).hub == Step(n.hub, CoreOf(e).value)
    ensures CoreOf(e).None? ==> NetStep(n, e).hub == n.hub
  {
  }

  /** Whatever workers and network do, the coordinators make a run of their own state machine. */
  lemma {:induction false} NetIsARun(run: NetRun)
    requires NetValid(run)
    ensures Valid(CoreRun(run)) && After(CoreRun(run)) == NetAfter(run).hub
  {
    if run != [] {
      var before, e := run[..|run| - 1], run[|run| - 1];
      NetIsARun(before);
      CoreStep(NetAfter(before), e);
      if CoreOf(e).Some? {
        Extend(CoreRun(before), CoreOf(e).value);
      } else {
        assert CoreRun(run) == CoreRun(before);
      }
    }
  }
}
