/** What a worker says, and when: every message it ever sends is accounted for by the events of its run. */
module WorkerOutbox {
  import opened Tables
  import opened WorkerModel
  import opened WorkerRuns

  /** The message an event makes an open socket carry, if any. */
  function Says(w: Worker, e: WorkerEvent): Option<Outgoing>
    requires Can(w, e)
  {
    match e
    case JobArrives(job, token) =>
      if job !in w.inFlight && |w.inFlight| >= w.limit then Some(Failure(job, token, true)) else None
    case Executed(job, token, outcome) =>
      if job !in w.inFlight || w.inFlight[job].token != token then None
      else if outcome.Some? then Some(Result(job, token, outcome.value))
      else Some(Failure(job, token, false))
    case Fires(timer) =>
      var t := w.timers[timer];
      if t.job !in w.inFlight || w.inFlight[t.job].token != t.token then None
      else if t.HeartbeatTimer? then Some(Beat(t.job, t.token))
      else if w.inFlight[t.job].result.Some? then Some(Result(t.job, t.token, w.inFlight[t.job].result.value))
      else None
    case Connected => Some(Hello(w.limit))
    case _ => None
  }

  lemma ScheduleSaysNothing(w: Worker, job: JobId, token: nat)
    ensures ScheduleRetry(w, job, token).outbox == w.outbox
  {
  }

  lemma StepSays(w: Worker, e: WorkerEvent)
    requires Can(w, e)
    ensures WorkerStep(w, e).outbox ==
      w.outbox + if Says(w, e).Some? && (w.connected || e.Connected?) then [Says(w, e).value] else []
  {
    assert w.outbox + [] == w.outbox;
    match e
    case Executed(job, token, outcome) =>
      if Current(w, job, token) && outcome.Some? {
        var d := w.(executing := w.executing - multiset{Execution(job, token)});
        var r := d.(inFlight := d.inFlight[job := d.inFlight[job].(result := outcome)]);
        ScheduleSaysNothing(Send(r, Result(job, token, outcome.value)), job, token);
      }
    case Fires(timer) =>
      var t := w.timers[timer];
      if t.RetryTimer? && Current(w, t.job, t.token) && w.inFlight[t.job].result.Some? {
        var r := CountRetry(w.(timers := w.timers - {timer}), t.job);
        ScheduleSaysNothing(Send(r, Result(t.job, t.token, w.inFlight[t.job].result.value)), t.job, t.token);
      }
    case _ =>
  }

  // Counting over a run

  function Sent(outbox: seq<Outgoing>, m: Outgoing): nat {
    multiset(outbox)[m]
  }

  /** Executions of this dispatch that threw. */
  function Thrown(events: seq<WorkerEvent>, job: JobId, token: nat): nat {
    multiset(events)[Executed(job, token, None)]
  }

  lemma OneMoreEvent(events: seq<WorkerEvent>, e: WorkerEvent)
    requires events != []
    ensures multiset(events)[e] ==
      multiset(events[..|events| - 1])[e] + if events[|events| - 1] == e then 1 else 0
  {
    assert events == events[..|events| - 1] + [events[|events| - 1]];
  }

  lemma OneMoreMessage(w: Worker, e: WorkerEvent, m: Outgoing)
    requires Can(w, e)
    ensures Sent(WorkerStep(w, e).outbox, m) ==
      Sent(w.outbox, m) + if Says(w, e) == Some(m) && (w.connected || e.Connected?) then 1 else 0
  {
    StepSays(w, e);
  }

  /**
   A permanent failure is only ever reported for an execution that threw, at most once for each, and at
   most once per accepted dispatch.
   */
  lemma {:induction false} PermanentFailuresWereThrown(limit: int, events: seq<WorkerEvent>, job: JobId, token: nat)
    requires Possible(limit, events)
    ensures var w := WorkerAfter(limit, events);
      && Sent(w.outbox, Failure(job, token, false)) <= Thrown(events, job, token)
      && Sent(w.outbox, Failure(job, token, false)) + w.executing[Execution(job, token)]
           <= AcceptedDispatches(limit, events, Execution(job, token))
  {
    if events != [] {
      var before, e := events[..|events| - 1], events[|events| - 1];
      PermanentFailuresWereThrown(limit, before, job, token);
      OneMoreEvent(events, Executed(job, token, None));
      OneMoreMessage(WorkerAfter(limit, before), e, Failure(job, token, false));
      ExecutionsAfter(WorkerAfter(limit, before), e, Execution(job, token));
    }
  }

  lemma ExecutionsAfter(w: Worker, e: WorkerEvent, x: Execution)
    requires Can(w, e)
    ensures WorkerStep(w, e).executing[x] == w.executing[x]
      + (if e == JobArrives(x.job, x.token) && x.job !in w.inFlight && |w.inFlight| < w.limit then 1 else 0)
      - (if e.Executed? && e.job == x.job && e.token == x.token then 1 else 0)
  {
  }

  /** A dispatch is refused exactly when the worker is full and not already serving the job. */
  function Refused(limit: int, events: seq<WorkerEvent>, job: JobId, token: nat): nat
    requires Possible(limit, events)
  {
    if events == [] then 0
    else
      var before, e := events[..|events| - 1], events[|events| - 1];
      var w := WorkerAfter(limit, before);
      Refused(limit, before, job, token)
      + if e == JobArrives(job, token) && job !in w.inFlight && |w.inFlight| >= w.limit && w.connected then 1 else 0
  }

  /** Temporary failures are the refusals, one for one. */
  lemma {:induction false} TemporaryFailuresAreRefusals(limit: int, events: seq<WorkerEvent>, job: JobId, token: nat)
    requires Possible(limit, events)
    ensures Sent(WorkerAfter(limit, events).outbox, Failure(job, token, true)) == Refused(limit, events, job, token)
  {
    if events != [] {
      var before := events[..|events| - 1];
      TemporaryFailuresAreRefusals(limit, before, job, token);
      OneMoreMessage(WorkerAfter(limit, before), events[|events| - 1], Failure(job, token, true));
    }
  }

  /** Every result known or sent was computed by an execution of that very dispatch. */
  ghost predicate ResultsComputed(w: Worker, events: seq<WorkerEvent>) {
    && (forall j :: j in w.inFlight && w.inFlight[j].result.Some? ==>
          Executed(j, w.inFlight[j].token, w.inFlight[j].result) in events)
    && (forall j, t, v :: Result(j, t, v) in w.outbox ==> Executed(j, t, Some(v)) in events)
  }

  lemma EntryResultAfter(w: Worker, e: WorkerEvent, job: JobId)
    requires Can(w, e) && job in WorkerStep(w, e).inFlight && WorkerStep(w, e).inFlight[job].result.Some?
    ensures var entry := WorkerStep(w, e).inFlight[job];
      || (job in w.inFlight && w.inFlight[job].token == entry.token && w.inFlight[job].result == entry.result)
      || e == Executed(job, entry.token, entry.result)
  {
    match e
    case Executed(j, token, outcome) => EntryAfterExecution(w, j, token, outcome, job);
    case Fires(timer) => EntryAfterFiring(w, timer, job);
    case _ =>
  }

  lemma EntryAfterExecution(w: Worker, j: JobId, token: nat, outcome: Option<Value>, job: JobId)
    requires job in FinishExecution(w, j, token, outcome).inFlight
    ensures var entry := FinishExecution(w, j, token, outcome).inFlight[job];
      && job in w.inFlight && w.inFlight[job].token == entry.token
      && (w.inFlight[job].result == entry.result || (j == job && token == entry.token && outcome == entry.result))
  {
  }

  lemma EntryAfterFiring(w: Worker, timer: nat, job: JobId)
    requires timer in w.timers && job in FireTimer(w, timer).inFlight
    ensures var entry := FireTimer(w, timer).inFlight[job];
      job in w.inFlight && w.inFlight[job].token == entry.token && w.inFlight[job].result == entry.result
  {
  }

  lemma {:induction false} ResultsWereComputed(limit: int, events: seq<WorkerEvent>)
    requires Possible(limit, events)
    ensures ResultsComputed(WorkerAfter(limit, events), events)
  {
    if events != [] {
      var before, e := events[..|events| - 1], events[|events| - 1];
      ResultsWereComputed(limit, before);
      ComputedStep(WorkerAfter(limit, before), before, e);
      assert events == before + [e];
    }
  }

  lemma ComputedStep(w: Worker, before: seq<WorkerEvent>, e: WorkerEvent)
    requires Can(w, e) && ResultsComputed(w, before)
    ensures ResultsComputed(WorkerStep(w, e), before + [e])
  {
    var w' := WorkerStep(w, e);
    StepSays(w, e);
    forall j | j in w'.inFlight && w'.inFlight[j].result.Some?
      ensures Executed(j, w'.inFlight[j].token, w'.inFlight[j].result) in before + [e]
    {
      EntryResultAfter(w, e, j);
    }
  }
}
