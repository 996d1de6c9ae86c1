/** The worker process as a function of the messages and timers it handles. */
module WorkerModel {
  import opened Tables

  const MAX_RESULT_RETRIES := 5

  datatype InFlight = InFlight(
    token: nat,
    result: Option<Value>,
    retryCount: nat,
    retryTimer: Option<nat>,
    heartbeatTimer: Option<nat>)

  /** A pending setInterval or setTimeout with what its closure captured. */
  datatype Timer = HeartbeatTimer(job: JobId, token: nat) | RetryTimer(job: JobId, token: nat)

  datatype Execution = Execution(job: JobId, token: nat)

  datatype Outgoing =
    | Hello(limit: int)
    | Result(job: JobId, token: nat, value: Value)
    | Failure(job: JobId, token: nat, temporary: bool)
    | Beat(job: JobId, token: nat)

  datatype Worker = Worker(
    inFlight: map<JobId, InFlight>,
    timers: map<nat, Timer>,
    nextTimer: nat,
    executing: multiset<Execution>,
    limit: int,
    connected: bool,
    outbox: seq<Outgoing>)

  datatype WorkerEvent =
    | JobArrives(job: JobId, token: nat)
    | Executed(job: JobId, token: nat, outcome: Option<Value>)
    | AckArrives(job: JobId)
    | Fires(timer: nat)
    | Retuned(limit: int)
    | Connected
    | Disconnected

  function Started(limit: int): Worker {
    Worker(map[], map[], 0, multiset{}, limit, false, [])
  }

  predicate Can(w: Worker, e: WorkerEvent) {
    match e
    case Executed(job, token, _) => Execution(job, token) in w.executing
    case Fires(timer) => timer in w.timers
    case _ => true
  }

  /** Messages are dropped silently while the socket is down. */
  function Send(w: Worker, m: Outgoing): Worker {
    w.(outbox := w.outbox + if w.connected then [m] else [])
  }

  function Clear(w: Worker, timer: Option<nat>): Worker {
    w.(timers := w.timers - if timer.Some? then {timer.value} else {})
  }

  predicate Current(w: Worker, job: JobId, token: nat) {
    job in w.inFlight && w.inFlight[job].token == token
  }

  function Accepts(w: Worker, job: JobId): bool {
    job !in w.inFlight && |w.inFlight| < w.limit
  }

  function HandleDispatch(w: Worker, job: JobId, token: nat): Worker {
    if job in w.inFlight then w
    else if |w.inFlight| >= w.limit then Send(w, Failure(job, token, true))
    else
      w.(inFlight := w.inFlight[job := InFlight(token, None, 0, None, Some(w.nextTimer))],
         timers := w.timers[w.nextTimer := HeartbeatTimer(job, token)],
         nextTimer := w.nextTimer + 1,
         executing := w.executing + multiset{Execution(job, token)})
  }

  /** Arms the next retry, or gives up on the job after the last one. */
  function ScheduleRetry(w: Worker, job: JobId, token: nat): Worker {
    if job !in w.inFlight then w
    else if w.inFlight[job].retryCount >= MAX_RESULT_RETRIES then
      var c := Clear(w, w.inFlight[job].heartbeatTimer);
      c.(inFlight := c.inFlight - {job})
    else
      w.(inFlight := w.inFlight[job := w.inFlight[job].(retryTimer := Some(w.nextTimer))],
         timers := w.timers[w.nextTimer := RetryTimer(job, token)],
         nextTimer := w.nextTimer + 1)
  }

  function FinishExecution(w: Worker, job: JobId, token: nat, outcome: Option<Value>): Worker {
    var d := w.(executing := w.executing - multiset{Execution(job, token)});
    if !Current(w, job, token) then
      if outcome.Some? && job in w.inFlight then
        var c := Clear(d, w.inFlight[job].heartbeatTimer);
        c.(inFlight := c.inFlight - {job})
      else d
    else if outcome.Some? then
      var r := d.(inFlight := d.inFlight[job := d.inFlight[job].(result := outcome)]);
      ScheduleRetry(Send(r, Result(job, token, outcome.value)), job, token)
    else
      var c := Clear(d, w.inFlight[job].heartbeatTimer);
      Send(c.(inFlight := c.inFlight - {job}), Failure(job, token, false))
  }

  function HandleAck(w: Worker, job: JobId): Worker {
    if job !in w.inFlight then w
    else
      var c := Clear(Clear(w, w.inFlight[job].retryTimer), w.inFlight[job].heartbeatTimer);
      c.(inFlight := c.inFlight - {job})
  }

  function CountRetry(w: Worker, job: JobId): Worker
    requires job in w.inFlight
  {
    w.(inFlight := w.inFlight[job := w.inFlight[job].(retryCount := w.inFlight[job].retryCount + 1)])
  }

  function FireTimer(w: Worker, timer: nat): Worker
    requires timer in w.timers
  {
    match w.timers[timer]
    case HeartbeatTimer(job, token) => if Current(w, job, token) then Send(w, Beat(job, token)) else w
    case RetryTimer(job, token) =>
      var f := w.(timers := w.timers - {timer});
      if !Current(w, job, token) || w.inFlight[job].result.None? then f
      else
        ScheduleRetry(Send(CountRetry(f, job), Result(job, token, w.inFlight[job].result.value)), job, token)
  }

  function WorkerStep(w: Worker, e: WorkerEvent): Worker
    requires Can(w, e)
  {
    match e
    case JobArrives(job, token) => HandleDispatch(w, job, token)
    case Executed(job, token, outcome) => FinishExecution(w, job, token, outcome)
    case AckArrives(job) => HandleAck(w, job)
    case Fires(timer) => FireTimer(w, timer)
    case Retuned(limit) => w.(limit := limit)
    case Connected => Send(w.(connected := true), Hello(w.limit))
    case Disconnected => w.(connected := false)
  }
}
