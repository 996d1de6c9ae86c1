/** WorkerService: the worker process with its maps and timers updated in place. */
module WorkerProcess {
  import opened Tables
  import opened WorkerModel

  class WorkerService {
    var inFlight: map<JobId, InFlight>
    var timers: map<nat, Timer>
    var nextTimer: nat
    var executing: multiset<Execution>
    var concurrencyLimit: int
    var connected: bool
    var outbox: seq<Outgoing>

    function View(): Worker
      reads this
    {
      Worker(inFlight, timers, nextTimer, executing, concurrencyLimit, connected, outbox)
    }

    constructor (limit: int)
      ensures View() == Started(limit)
    {
      inFlight, timers, nextTimer, executing := map[], map[], 0, multiset{};
      concurrencyLimit, connected, outbox := limit, false, [];
    }

    method SendMessage(m: Outgoing)
      modifies this`outbox
      ensures View() == Send(old(View()), m)
    {
      if connected {
        outbox := outbox + [m];
      } else {
        assert outbox + [] == outbox;
      }
    }

    method Arm(t: Timer) returns (id: nat)
      modifies this`timers, this`nextTimer
      ensures id == old(nextTimer) && timers == old(timers)[id := t] && nextTimer == id + 1
    {
      id := nextTimer;
      timers, nextTimer := timers[id := t], nextTimer + 1;
    }

    method Disarm(id: Option<nat>)
      modifies this`timers
      ensures View() == Clear(old(View()), id)
    {
      if id.Some? {
        timers := timers - {id.value};
      } else {
        assert timers - {} == timers;
      }
    }

    /** Ignores a duplicate, refuses beyond the limit, otherwise starts heartbeat and execution. */
    method OnDispatch(job: JobId, token: nat)
      modifies this
      ensures View() == HandleDispatch(old(View()), job, token)
      ensures job in old(inFlight) ==> View() == old(View())
      ensures job !in old(inFlight) && |old(inFlight)| >= concurrencyLimit ==>
        && outbox == old(outbox) + (if connected then [Failure(job, token, true)] else [])
        && inFlight == old(inFlight) && timers == old(timers) && executing == old(executing)
      ensures job !in old(inFlight) && |old(inFlight)| < concurrencyLimit ==>
        && inFlight == old(inFlight)[job := InFlight(token, None, 0, None, Some(old(nextTimer)))]
        && timers == old(timers)[old(nextTimer) := HeartbeatTimer(job, token)]
        && executing == old(executing) + multiset{Execution(job, token)} && outbox == old(outbox)
    {
      if job in inFlight {
        return;
      }
      if |inFlight| >= concurrencyLimit {
        SendMessage(Failure(job, token, true));
        return;
      }
      inFlight := inFlight[job := InFlight(token, None, 0, None, None)];
      var beat := Arm(HeartbeatTimer(job, token));
      inFlight := inFlight[job := inFlight[job].(heartbeatTimer := Some(beat))];
      executing := executing + multiset{Execution(job, token)};
    }

    /** The continuation after executeJob; `outcome` is None when it threw. */
    method OnExecuted(job: JobId, token: nat, outcome: Option<Value>)
      requires Execution(job, token) in executing
      modifies this
      ensures View() == FinishExecution(old(View()), job, token, outcome)
      ensures executing == old(executing) - multiset{Execution(job, token)}
      ensures job in old(inFlight) && old(inFlight)[job].token == token && outcome.Some? ==>
        && outbox == old(outbox) + (if connected then [Result(job, token, outcome.value)] else [])
        && (job in inFlight ==> inFlight[job].result == outcome && inFlight[job].token == token)
      ensures job in old(inFlight) && old(inFlight)[job].token == token && outcome.None? ==>
        && outbox == old(outbox) + (if connected then [Failure(job, token, false)] else [])
        && job !in inFlight
      ensures (job !in old(inFlight) || old(inFlight)[job].token != token) ==>
        outbox == old(outbox) && inFlight == if outcome.Some? then old(inFlight) - {job} else old(inFlight)
    {
      executing := executing - multiset{Execution(job, token)};
      var current := if job in inFlight then Some(inFlight[job]) else None;
      if outcome.Some? {
        if current.None? || current.value.token != token {
          if current.Some? {
            Disarm(current.value.heartbeatTimer);
            inFlight := inFlight - {job};
          }
          return;
        }
        inFlight := inFlight[job := current.value.(result := outcome)];
        SendMessage(Result(job, token, outcome.value));
        ScheduleResultRetry(job, token);
      } else {
        if current.None? || current.value.token != token {
          return;
        }
        Disarm(current.value.heartbeatTimer);
        inFlight := inFlight - {job};
        SendMessage(Failure(job, token, false));
      }
    }

    method ScheduleResultRetry(job: JobId, token: nat)
      modifies this
      ensures View() == ScheduleRetry(old(View()), job, token)
      ensures job in old(inFlight) && old(inFlight)[job].retryCount < 5 ==>
        && inFlight == old(inFlight)[job := old(inFlight)[job].(retryTimer := Some(old(nextTimer)))]
        && timers == old(timers)[old(nextTimer) := RetryTimer(job, token)]
      ensures job in old(inFlight) && old(inFlight)[job].retryCount >= 5 ==> inFlight == old(inFlight) - {job}
      ensures job !in old(inFlight) ==> View() == old(View())
      ensures outbox == old(outbox)
    {
      if job !in inFlight {
        return;
      }
      if inFlight[job].retryCount >= MAX_RESULT_RETRIES {
        Disarm(inFlight[job].heartbeatTimer);
        inFlight := inFlight - {job};
        return;
      }
      var retry := Arm(RetryTimer(job, token));
      inFlight := inFlight[job := inFlight[job].(retryTimer := Some(retry))];
    }

    method OnAck(job: JobId)
      modifies this
      ensures View() == HandleAck(old(View()), job)
      ensures inFlight == old(inFlight) - {job} && outbox == old(outbox) && executing == old(executing)
      ensures job in old(inFlight) ==> forall t :: t in timers <==>
        t in old(timers) && old(inFlight)[job].retryTimer != Some(t) && old(inFlight)[job].heartbeatTimer != Some(t)
    {
      if job !in inFlight {
        return;
      }
      Disarm(inFlight[job].retryTimer);
      Disarm(inFlight[job].heartbeatTimer);
      inFlight := inFlight - {job};
    }

    method OnTimer(id: nat)
      requires id in timers
      modifies this
      ensures View() == FireTimer(old(View()), id)
      ensures var t := old(timers)[id];
        var current := t.job in old(inFlight) && old(inFlight)[t.job].token == t.token;
        && (t.HeartbeatTimer? ==>
              && timers == old(timers) && inFlight == old(inFlight)
              && outbox == old(outbox) + (if current && connected then [Beat(t.job, t.token)] else []))
        && (t.RetryTimer? && current && old(inFlight)[t.job].result.Some? ==>
              && (id < old(nextTimer) ==> id !in timers)
              && outbox == old(outbox)
                 + (if connected then [Result(t.job, t.token, old(inFlight)[t.job].result.value)] else [])
              && (if old(inFlight)[t.job].retryCount < 4
                  then t.job in inFlight && inFlight[t.job].retryCount == old(inFlight)[t.job].retryCount + 1
                  else old(inFlight)[t.job].retryCount == 4 ==> t.job !in inFlight))
        && (t.RetryTimer? && (!current || old(inFlight)[t.job].result.None?) ==>
              inFlight == old(inFlight) && outbox == old(outbox) && timers == old(timers) - {id})
    {
      var t := timers[id];
      if t.HeartbeatTimer? {
        if t.job in inFlight && inFlight[t.job].token == t.token {
          SendMessage(Beat(t.job, t.token));
        }
        return;
      }
      timers := timers - {id};
      if t.job !in inFlight || inFlight[t.job].token != t.token || inFlight[t.job].result.None? {
        return;
      }
      var result := inFlight[t.job].result.value;
      inFlight := inFlight[t.job := inFlight[t.job].(retryCount := inFlight[t.job].retryCount + 1)];
      SendMessage(Result(t.job, t.token, result));
      ScheduleResultRetry(t.job, t.token);
    }

    /** The socket's open event, its close event, and control.set_concurrency. */
    method OnOpen()
      modifies this`connected, this`outbox
      ensures View() == WorkerStep(old(View()), Connected)
      ensures connected && outbox == old(outbox) + [Hello(concurrencyLimit)]
    {
      connected := true;
      SendMessage(Hello(concurrencyLimit));
    }

    method OnClose()
      modifies this`connected
      ensures View() == WorkerStep(old(View()), Disconnected)
      ensures !connected
    {
      connected := false;
    }

    method OnSetConcurrency(limit: int)
      modifies this`concurrencyLimit
      ensures View() == WorkerStep(old(View()), Retuned(limit))
      ensures concurrencyLimit == limit
    {
      concurrencyLimit := limit;
    }
  }
}
