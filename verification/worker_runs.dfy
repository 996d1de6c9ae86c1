/** What holds over every run of a worker. */
module WorkerRuns {
  import opened Tables
  import opened WorkerModel

  predicate Possible(limit: int, events: seq<WorkerEvent>)
    decreases |events|, 0
  {
    events == [] || (
      var before := events[..|events| - 1];
      Possible(limit, before) && Can(WorkerAfter(limit, before), events[|events| - 1]))
  }

  function WorkerAfter(limit: int, events: seq<WorkerEvent>): Worker
    requires Possible(limit, events)
    decreases |events|, 1
  {
    if events == [] then Started(limit)
    else WorkerStep(WorkerAfter(limit, events[..|events| - 1]), events[|events| - 1])
  }

  // Timers and in-flight entries

  /** An entry's heartbeat timer is armed with the entry's own job and token. */
  predicate BeatsFor(w: Worker, job: JobId)
    requires job in w.inFlight
  {
    var t := w.inFlight[job].heartbeatTimer;
    t.Some? && t.value in w.timers && w.timers[t.value] == HeartbeatTimer(job, w.inFlight[job].token)
  }

  /** An entry waits for its execution, or for the retry timer that belongs to it. */
  predicate Waiting(w: Worker, job: JobId)
    requires job in w.inFlight
  {
    var entry := w.inFlight[job];
    if entry.result.None? then Execution(job, entry.token) in w.executing
    else entry.retryTimer.Some? && entry.retryTimer.value in w.timers
         && w.timers[entry.retryTimer.value] == RetryTimer(job, entry.token)
  }

  predicate Served(w: Worker, job: JobId)
    requires job in w.inFlight
  {
    && BeatsFor(w, job) && Waiting(w, job) && w.inFlight[job].retryCount < MAX_RESULT_RETRIES
    && (w.inFlight[job].result.None? ==> w.inFlight[job].retryTimer.None?)
  }

  ghost predicate EntriesServed(w: Worker) {
    forall j :: j in w.inFlight ==> Served(w, j)
  }

  ghost predicate BeatsOwned(w: Worker) {
    forall t :: t in w.timers && w.timers[t].HeartbeatTimer? ==>
      w.timers[t].job in w.inFlight && w.inFlight[w.timers[t].job].heartbeatTimer == Some(t)
  }

  /**
   Every in-flight entry has exactly one heartbeat timer, carrying its own token, and no other
   heartbeat timer exists; every entry awaits an execution or an armed retry, so none is forgotten.
   */
  ghost predicate Orderly(w: Worker) {
    && (forall t :: t in w.timers ==> t < w.nextTimer)
    && EntriesServed(w)
    && BeatsOwned(w)
  }

  /** No two in-flight entries share a timer. */
  ghost predicate TimersUnshared(w: Worker) {
    forall j, k :: j in w.inFlight && k in w.inFlight && j != k ==>
      && w.inFlight[j].heartbeatTimer != w.inFlight[k].heartbeatTimer
      && (w.inFlight[j].result.Some? && w.inFlight[k].result.Some? ==>
        w.inFlight[j].retryTimer != w.inFlight[k].retryTimer)
  }

  lemma OneTimerEach(w: Worker)
    requires Orderly(w)
    ensures TimersUnshared(w)
  {
    assert forall j :: j in w.inFlight ==> Served(w, j);
  }

  lemma RemovalKeepsOrder(w: Worker, job: JobId, retry: bool)
    requires Orderly(w) && job in w.inFlight
    ensures var entry := w.inFlight[job];
      var c := Clear(Clear(w, if retry then entry.retryTimer else None), entry.heartbeatTimer);
      Orderly(c.(inFlight := c.inFlight - {job}))
  {
    var entry := w.inFlight[job];
    var c := Clear(Clear(w, if retry then entry.retryTimer else None), entry.heartbeatTimer);
    var d := c.(inFlight := c.inFlight - {job});
    assert Served(w, job);
    forall j | j in d.inFlight ensures Served(d, j) {
      assert Served(w, j);
    }
  }

  lemma AcceptKeepsOrder(w: Worker, job: JobId, token: nat)
    requires Orderly(w)
    ensures Orderly(HandleDispatch(w, job, token))
  {
    if Accepts(w, job) {
      var d := HandleDispatch(w, job, token);
      assert w.nextTimer !in w.timers;
      assert Served(d, job);
      forall j | j in w.inFlight ensures Served(d, j) {
        assert Served(w, j);
      }
      assert EntriesServed(d);
    }
  }

  /** Everything in order but for the retry timer of this one job. */
  ghost predicate OrderlyBut(w: Worker, job: JobId) {
    && (forall t :: t in w.timers ==> t < w.nextTimer)
    && BeatsOwned(w)
    && job in w.inFlight && BeatsFor(w, job)
    && (forall j :: j in w.inFlight && j != job ==> Served(w, j))
  }

  /** Scheduling repairs an entry whose result is known but whose retry timer is not armed. */
  lemma ScheduleKeepsOrder(w: Worker, job: JobId, token: nat)
    requires OrderlyBut(w, job) && Current(w, job, token)
    requires w.inFlight[job].result.Some? && w.inFlight[job].retryCount <= MAX_RESULT_RETRIES
    ensures Orderly(ScheduleRetry(w, job, token))
  {
    var d := ScheduleRetry(w, job, token);
    forall j | j in d.inFlight ensures BeatsFor(d, j) && Waiting(d, j) {
      assert j != job ==> Served(w, j);
    }
  }

  lemma FinishKeepsOrder(w: Worker, job: JobId, token: nat, outcome: Option<Value>)
    requires Orderly(w) && Execution(job, token) in w.executing
    ensures Orderly(FinishExecution(w, job, token, outcome))
  {
    var d := w.(executing := w.executing - multiset{Execution(job, token)});
    if Current(w, job, token) && outcome.Some? {
      var r := Send(d.(inFlight := d.inFlight[job := d.inFlight[job].(result := outcome)]),
        Result(job, token, outcome.value));
      assert Served(w, job);
      assert OrderlyBut(r, job) by {
        forall j | j in r.inFlight && j != job ensures Served(r, j) {
          assert Served(w, j);
        }
      }
      ScheduleKeepsOrder(r, job, token);
    } else if job in w.inFlight && (Current(w, job, token) || outcome.Some?) {
      RemovalKeepsOrder(w, job, false);
      ForgetExecution(w, job, token);
    } else {
      forall j | j in d.inFlight ensures Served(d, j) {
        assert Served(w, j);
      }
    }
  }

  lemma ForgetExecution(w: Worker, job: JobId, token: nat)
    requires Orderly(w) && job in w.inFlight
    ensures var c := Clear(w, w.inFlight[job].heartbeatTimer);
      Orderly(c.(inFlight := c.inFlight - {job}, executing := w.executing - multiset{Execution(job, token)}))
  {
    RemovalKeepsOrder(w, job, false);
    var c := Clear(w, w.inFlight[job].heartbeatTimer);
    var k := c.(inFlight := c.inFlight - {job});
    var d := k.(executing := w.executing - multiset{Execution(job, token)});
    forall j | j in d.inFlight ensures Served(d, j) {
      assert Served(k, j);
    }
  }

  /** The retry of this job and token is still wanted. */
  predicate Resends(w: Worker, job: JobId, token: nat) {
    Current(w, job, token) && w.inFlight[job].result.Some?
  }

  /** A retry timer that fires is gone; it was the one its job waits for, or nobody's. */
  lemma DisarmedRetry(w: Worker, timer: nat)
    requires Orderly(w) && timer in w.timers && w.timers[timer].RetryTimer?
    ensures var t := w.timers[timer];
      var f := w.(timers := w.timers - {timer});
      if Resends(w, t.job, t.token) then OrderlyBut(f, t.job) && f.inFlight[t.job].retryCount < MAX_RESULT_RETRIES
      else Orderly(f)
  {
    var t := w.timers[timer];
    var f := w.(timers := w.timers - {timer});
    forall j | j in f.inFlight
      ensures BeatsFor(f, j)
      ensures j != t.job || !Resends(w, t.job, t.token) ==> Served(f, j)
    {
      assert Served(w, j);
    }
  }

  /** One more retry, counted and sent, leaves the entry served again or given up. */
  lemma ResendKeepsOrder(f: Worker, job: JobId, token: nat, m: Outgoing)
    requires OrderlyBut(f, job) && Current(f, job, token)
    requires f.inFlight[job].result.Some? && f.inFlight[job].retryCount < MAX_RESULT_RETRIES
    ensures Orderly(ScheduleRetry(Send(CountRetry(f, job), m), job, token))
  {
    var r := Send(CountRetry(f, job), m);
    forall j | j in r.inFlight && j != job ensures Served(r, j) {
      assert Served(f, j);
    }
    ScheduleKeepsOrder(r, job, token);
  }

  lemma FireKeepsOrder(w: Worker, timer: nat)
    requires Orderly(w) && timer in w.timers
    ensures Orderly(FireTimer(w, timer))
  {
    var t := w.timers[timer];
    if t.HeartbeatTimer? {
      SendKeepsOrder(w, Beat(t.job, t.token));
    } else {
      DisarmedRetry(w, timer);
      if Resends(w, t.job, t.token) {
        var m := Result(t.job, t.token, w.inFlight[t.job].result.value);
        ResendKeepsOrder(w.(timers := w.timers - {timer}), t.job, t.token, m);
      }
    }
  }

  lemma SendKeepsOrder(w: Worker, m: Outgoing)
    requires Orderly(w)
    ensures Orderly(Send(w, m))
  {
    forall j | j in w.inFlight ensures Served(Send(w, m), j) {
      assert Served(w, j);
    }
  }

  lemma OrderlyStep(w: Worker, e: WorkerEvent)
    requires Orderly(w) && Can(w, e)
    ensures Orderly(WorkerStep(w, e))
  {
    match e
    case JobArrives(job, token) => AcceptKeepsOrder(w, job, token);
    case Executed(job, token, outcome) => FinishKeepsOrder(w, job, token, outcome);
    case AckArrives(job) =>
      if job in w.inFlight {
        RemovalKeepsOrder(w, job, true);
      }
    case Fires(timer) => FireKeepsOrder(w, timer);
    case _ =>
  }

  lemma {:induction false} WorkerStaysOrderly(limit: int, events: seq<WorkerEvent>)
    requires Possible(limit, events)
    ensures Orderly(WorkerAfter(limit, events)) && TimersUnshared(WorkerAfter(limit, events))
  {
    if events != [] {
      WorkerStaysOrderly(limit, events[..|events| - 1]);
      OrderlyStep(WorkerAfter(limit, events[..|events| - 1]), events[|events| - 1]);
    }
    OneTimerEach(WorkerAfter(limit, events));
  }

  // How often a result is sent

  function SentResults(outbox: seq<Outgoing>, x: Execution): nat {
    if outbox == [] then 0
    else
      var m := outbox[|outbox| - 1];
      SentResults(outbox[..|outbox| - 1], x) + if m.Result? && m.job == x.job && m.token == x.token then 1 else 0
  }

  /** How many dispatches of this job and token the worker has accepted. */
  function AcceptedDispatches(limit: int, events: seq<WorkerEvent>, x: Execution): nat
    requires Possible(limit, events)
  {
    if events == [] then 0
    else
      var before, e := events[..|events| - 1], events[|events| - 1];
      AcceptedDispatches(limit, before, x)
      + if e == JobArrives(x.job, x.token) && Accepts(WorkerAfter(limit, before), x.job) then 1 else 0
  }

  /** Results this worker may still send for x without accepting it again. */
  function StillToSend(w: Worker, x: Execution): int {
    w.executing[x] + if Current(w, x.job, x.token) then MAX_RESULT_RETRIES - w.inFlight[x.job].retryCount else 0
  }

  lemma SendCounts(w: Worker, m: Outgoing, x: Execution)
    ensures SentResults(Send(w, m).outbox, x) <=
      SentResults(w.outbox, x) + if m.Result? && m.job == x.job && m.token == x.token then 1 else 0
    ensures !m.Result? ==> SentResults(Send(w, m).outbox, x) == SentResults(w.outbox, x)
  {
    assert (w.outbox + [m])[..|w.outbox|] == w.outbox;
    assert w.outbox + [] == w.outbox;
  }

  /** Every result sent uses up an execution or a retry; only an accepted dispatch adds six. */
  lemma BudgetStep(w: Worker, e: WorkerEvent, x: Execution)
    requires EntriesServed(w) && Can(w, e)
    ensures var w' := WorkerStep(w, e);
      SentResults(w'.outbox, x) + StillToSend(w', x)
      <= SentResults(w.outbox, x) + StillToSend(w, x)
         + if e == JobArrives(x.job, x.token) && Accepts(w, x.job) then 1 + MAX_RESULT_RETRIES else 0
  {
    assert forall j :: j in w.inFlight ==> Served(w, j);
    match e
    case JobArrives(job, token) => SendCounts(w, Failure(job, token, true), x);
    case Executed(job, token, outcome) => BudgetFinish(w, job, token, outcome, x);
    case AckArrives(_) =>
    case Fires(timer) => BudgetFire(w, timer, x);
    case Retuned(_) =>
    case Connected => SendCounts(w.(connected := true), Hello(w.limit), x);
    case Disconnected =>
  }

  lemma ScheduleBudget(w: Worker, job: JobId, token: nat, x: Execution)
    requires job in w.inFlight && w.inFlight[job].retryCount <= MAX_RESULT_RETRIES
    ensures ScheduleRetry(w, job, token).outbox == w.outbox
    ensures StillToSend(ScheduleRetry(w, job, token), x) <= StillToSend(w, x)
  {
  }

  lemma BudgetFinish(w: Worker, job: JobId, token: nat, outcome: Option<Value>, x: Execution)
    requires Execution(job, token) in w.executing
    requires x.job in w.inFlight ==> Served(w, x.job)
    requires job in w.inFlight ==> Served(w, job)
    ensures var w' := FinishExecution(w, job, token, outcome);
      SentResults(w'.outbox, x) + StillToSend(w', x) <= SentResults(w.outbox, x) + StillToSend(w, x)
  {
    if Current(w, job, token) && outcome.Some? {
      var d := w.(executing := w.executing - multiset{Execution(job, token)});
      var r := d.(inFlight := d.inFlight[job := d.inFlight[job].(result := outcome)]);
      var m := Result(job, token, outcome.value);
      SendCounts(r, m, x);
      ScheduleBudget(Send(r, m), job, token, x);
    } else {
      SendCounts(w, Failure(job, token, false), x);
    }
  }

  lemma BudgetFire(w: Worker, timer: nat, x: Execution)
    requires timer in w.timers && (x.job in w.inFlight ==> Served(w, x.job))
    requires w.timers[timer].job in w.inFlight ==> Served(w, w.timers[timer].job)
    ensures var w' := FireTimer(w, timer);
      SentResults(w'.outbox, x) + StillToSend(w', x) <= SentResults(w.outbox, x) + StillToSend(w, x)
  {
    var t := w.timers[timer];
    if t.HeartbeatTimer? {
      SendCounts(w, Beat(t.job, t.token), x);
    } else if Current(w, t.job, t.token) && w.inFlight[t.job].result.Some? {
      var r := CountRetry(w.(timers := w.timers - {timer}), t.job);
      var m := Result(t.job, t.token, w.inFlight[t.job].result.value);
      SendCounts(r, m, x);
      ScheduleBudget(Send(r, m), t.job, t.token, x);
    }
  }

  /** Per accepted dispatch at most six job.result messages ever leave the worker. */
  lemma {:induction false} AtMostSixResults(limit: int, events: seq<WorkerEvent>, x: Execution)
    requires Possible(limit, events)
    ensures SentResults(WorkerAfter(limit, events).outbox, x) <=
      6 * AcceptedDispatches(limit, events, x)
  {
    WorkerStaysOrderly(limit, events);
    ResultBudget(limit, events, x);
    var w := WorkerAfter(limit, events);
    assert x.job in w.inFlight ==> Served(w, x.job);
  }

  lemma {:induction false} ResultBudget(limit: int, events: seq<WorkerEvent>, x: Execution)
    requires Possible(limit, events)
    ensures var w := WorkerAfter(limit, events);
      SentResults(w.outbox, x) + StillToSend(w, x) <= (1 + MAX_RESULT_RETRIES) * AcceptedDispatches(limit, events, x)
  {
    if events != [] {
      var before := events[..|events| - 1];
      ResultBudget(limit, before, x);
      WorkerStaysOrderly(limit, before);
      BudgetStep(WorkerAfter(limit, before), events[|events| - 1], x);
    }
  }

  // Concurrency limit

  /** The largest concurrency limit in force so far. */
  function LargestLimit(limit: int, events: seq<WorkerEvent>): int {
    if events == [] then limit
    else
      var before, e := LargestLimit(limit, events[..|events| - 1]), events[|events| - 1];
      if e.Retuned? && e.limit > before then e.limit else before
  }

  lemma {:induction false} InFlightWithinLargestLimit(limit: int, events: seq<WorkerEvent>)
    requires Possible(limit, events)
    ensures var w := WorkerAfter(limit, events);
      w.limit <= LargestLimit(limit, events) && (|w.inFlight| == 0 || |w.inFlight| <= LargestLimit(limit, events))
  {
    if events != [] {
      var before := events[..|events| - 1];
      InFlightWithinLargestLimit(limit, before);
      InFlightStep(WorkerAfter(limit, before), events[|events| - 1]);
    }
  }

  lemma RemovalShrinks<K, V>(m: map<K, V>, k: K)
    ensures |m - {k}| <= |m|
  {
    assert (m - {k}).Keys == m.Keys - {k};
    assert |m.Keys - {k}| <= |m.Keys|;
  }

  lemma UpdateKeepsSize<K, V>(m: map<K, V>, k: K, v: V)
    requires k in m
    ensures |m[k := v]| == |m|
  {
    assert m[k := v].Keys == m.Keys;
  }

  lemma ScheduleSize(w: Worker, job: JobId, token: nat)
    ensures |ScheduleRetry(w, job, token).inFlight| <= |w.inFlight|
  {
    if job in w.inFlight {
      RemovalShrinks(w.inFlight, job);
      UpdateKeepsSize(w.inFlight, job, w.inFlight[job].(retryTimer := Some(w.nextTimer)));
    }
  }

  lemma InFlightStep(w: Worker, e: WorkerEvent)
    requires Can(w, e)
    ensures var w' := WorkerStep(w, e);
      && |w'.inFlight| <= |w.inFlight| + (if e.JobArrives? && Accepts(w, e.job) then 1 else 0)
      && w'.limit == (if e.Retuned? then e.limit else w.limit)
      && w'.connected == if e.Connected? then true else if e.Disconnected? then false else w.connected
  {
    match e
    case Executed(job, token, outcome) => FinishSize(w, job, token, outcome);
    case AckArrives(job) => RemovalShrinks(w.inFlight, job);
    case Fires(timer) => FireSize(w, timer);
    case JobArrives(job, token) => AcceptSize(w, job, token);
    case _ =>
  }

  lemma AcceptSize(w: Worker, job: JobId, token: nat)
    ensures |HandleDispatch(w, job, token).inFlight| == |w.inFlight| + if Accepts(w, job) then 1 else 0
    ensures HandleDispatch(w, job, token).limit == w.limit
  {
    if Accepts(w, job) {
      assert HandleDispatch(w, job, token).inFlight.Keys == w.inFlight.Keys + {job};
    }
  }

  lemma FinishSize(w: Worker, job: JobId, token: nat, outcome: Option<Value>)
    ensures |FinishExecution(w, job, token, outcome).inFlight| <= |w.inFlight|
    ensures FinishExecution(w, job, token, outcome).limit == w.limit
  {
    RemovalShrinks(w.inFlight, job);
    if Current(w, job, token) && outcome.Some? {
      var d := w.(executing := w.executing - multiset{Execution(job, token)});
      UpdateKeepsSize(w.inFlight, job, w.inFlight[job].(result := outcome));
      var r := d.(inFlight := d.inFlight[job := d.inFlight[job].(result := outcome)]);
      ScheduleSize(Send(r, Result(job, token, outcome.value)), job, token);
    }
  }

  lemma FireSize(w: Worker, timer: nat)
    requires timer in w.timers
    ensures |FireTimer(w, timer).inFlight| <= |w.inFlight| && FireTimer(w, timer).limit == w.limit
  {
    var t := w.timers[timer];
    if t.RetryTimer? && Current(w, t.job, t.token) && w.inFlight[t.job].result.Some? {
      var r := CountRetry(w.(timers := w.timers - {timer}), t.job);
      UpdateKeepsSize(w.inFlight, t.job, r.inFlight[t.job]);
      ScheduleSize(Send(r, Result(t.job, t.token, w.inFlight[t.job].result.value)), t.job, t.token);
    }
  }
}
