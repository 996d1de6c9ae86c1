/**
 WorkerHubService: the registry of connected workers and the handlers of their messages, cut at
 every await outside a transaction.
 */
module WorkerHub {
  import opened Tables
  import opened Transactions
  import opened Protocol
  import opened DatabaseClient
  import opened Chaos
  import opened Messages

  class Socket {
    var open: bool
    var sent: seq<Message>

    constructor ()
      ensures open && sent == []
    {
      open, sent := true, [];
    }

    method Send(m: Message)
      modifies this`sent
      ensures sent == if open then old(sent) + [m] else old(sent)
    {
      if open {
        sent := sent + [m];
      }
    }
  }

  class WorkerState {
    const ws: Socket
    const workerId: WorkerId
    var concurrencyLimit: int
    var inFlight: nat

    constructor (ws: Socket, workerId: WorkerId, concurrencyLimit: int)
      ensures this.ws == ws && this.workerId == workerId && this.concurrencyLimit == concurrencyLimit && inFlight == 0
    {
      this.ws, this.workerId, this.concurrencyLimit, inFlight := ws, workerId, concurrencyLimit, 0;
    }

    method Release()
      modifies this`inFlight
      ensures inFlight == if old(inFlight) == 0 then 0 else old(inFlight) - 1
    {
      inFlight := if inFlight - 1 < 0 then 0 else inFlight - 1;
    }
  }

  class WorkerHubService {
    const db: Database
    const chaos: ChaosService
    var workers: map<WorkerId, WorkerState>

    /** Each entry is filed under its own worker id. */
    ghost predicate Valid()
      reads this
    {
      forall id :: id in workers ==> workers[id].workerId == id
    }

    constructor (db: Database, chaos: ChaosService)
      ensures Valid() && this.db == db && this.chaos == chaos && workers == map[]
    {
      this.db, this.chaos, workers := db, chaos, map[];
    }

    /** The registry entry a message on this socket speaks for, null when there is none. */
    ghost predicate SpeaksFor(ws: Socket, state: WorkerState?)
      reads this
    {
      if state == null then forall id :: id in workers ==> workers[id].ws != ws
      else state in workers.Values && state.ws == ws
    }

    method StateByWs(ws: Socket) returns (state: WorkerState?)
      ensures SpeaksFor(ws, state)
    {
      state := null;
      if exists id | id in workers :: workers[id].ws == ws {
        var id :| id in workers && workers[id].ws == ws;
        state := workers[id];
      }
    }

    /** What a close event, or the loss of a connection noticed before it, does to the registry. */
    method LoseConnections(closed: set<Socket>, gone: set<WorkerId>)
      modifies this`workers, closed`open
      ensures workers == old(workers) - gone
      ensures forall s :: s in closed ==> !s.open
    {
      forall s | s in closed {
        s.open := false;
      }
      workers := workers - gone;
    }

    /** A reconnect replaces the entry and closes the old socket. */
    method OnHello(ws: Socket, workerId: WorkerId, limit: int)
      requires Valid()
      modifies this`workers, if workerId in workers then {workers[workerId].ws} else {}
      ensures Valid()
      ensures workerId in workers && fresh(workers[workerId])
      ensures workers == old(workers)[workerId := workers[workerId]]
      ensures workers[workerId].ws == ws && workers[workerId].concurrencyLimit == limit
      ensures workers[workerId].inFlight == 0
      ensures workerId in old(workers) && old(workers)[workerId].ws != ws ==> !old(workers)[workerId].ws.open
      ensures ws.open == old(ws.open)
    {
      if workerId in workers && workers[workerId].ws != ws && workers[workerId].ws.open {
        workers[workerId].ws.open := false;
      }
      var state := new WorkerState(ws, workerId, limit);
      workers := workers[workerId := state];
    }

    /** A close event removes the entry only if it still belongs to the closed socket. */
    method Deregister(workerId: WorkerId, ws: Socket)
      requires Valid()
      modifies this`workers
      ensures Valid()
      ensures workers ==
        if workerId in old(workers) && old(workers)[workerId].ws == ws then old(workers) - {workerId}
        else old(workers)
    {
      if workerId !in workers || workers[workerId].ws != ws {
        return;
      }
      workers := workers - {workerId};
    }

    /** The late close event of a replaced socket never removes the fresh registration. */
    method Reconnect(oldWs: Socket, newWs: Socket, workerId: WorkerId, limit: int)
      requires Valid() && oldWs != newWs
      modifies this`workers, if workerId in workers then {workers[workerId].ws} else {}
      ensures Valid() && workerId in workers && workers[workerId].ws == newWs
      ensures workers[workerId].concurrencyLimit == limit
      ensures workers.Keys == old(workers.Keys) + {workerId}
    {
      OnHello(newWs, workerId, limit);
      Deregister(workerId, oldWs);
    }

    /** onResult up to its lease lookup: nothing at all for a socket without a registry entry. */
    method OnResultLookup(ws: Socket, job: JobId, token: nat, value: Value, readOk: bool)
      returns (state: WorkerState?, next: Option<Handler>)
      ensures SpeaksFor(ws, state)
      ensures next ==
        if state == null then None else Some(LookUp(db.Contents(), state.workerId, job, token, value, readOk))
      ensures state != null ==> next == Some(
        if readOk && job in db.leases && db.leases[job].worker == state.workerId && db.leases[job].token == token
        then Committing(state.workerId, job, token, value)
        else Rereading(state.workerId, job))
    {
      state := StateByWs(ws);
      if state == null {
        return state, None;
      }
      var lease := None;
      if readOk && job in db.leases && db.leases[job].worker == state.workerId {
        lease := Some(db.leases[job]);
      }
      if lease.None? || lease.value.token != token {
        return state, Some(Rereading(state.workerId, job));
      }
      next := Some(Committing(state.workerId, job, token, value));
    }

    /** The transaction of onResult. Its second early return keeps the deletion of the lease. */
    method Commit(workerId: WorkerId, job: JobId, token: nat, value: Value, at: int) returns (accepted: bool)
      modifies db
      ensures accepted <==> JudgeResult(old(db.Contents()), job, workerId, token).Accepted?
      ensures db.Contents() == CommitResult(old(db.Contents()), job, workerId, token, value, at)
      ensures var held := job in old(db.leases)
          && old(db.leases)[job].worker == workerId && old(db.leases)[job].token == token;
        && (accepted <==> held && job in old(db.jobs) && old(db.jobs)[job].status == Dispatched)
        && db.leases == if held then old(db.leases) - {job} else old(db.leases)
      ensures !accepted ==>
        && db.jobs == old(db.jobs) && db.history == old(db.history)
        && db.commits == old(db.commits) && db.transitions == old(db.transitions)
      ensures accepted ==>
        && db.jobs == old(db.jobs)[job := old(db.jobs)[job].(status := Succeeded, result := Some(value))]
        && db.commits == old(db.commits) + [CommitRow(job, true, token, workerId, at)]
        && db.transitions == old(db.transitions) + [TransitionRow(job, Some(Dispatched), Succeeded, at)]
        && |db.history| == |old(db.history)|
        && forall i :: 0 <= i < |db.history| ==>
             db.history[i] == if old(db.history)[i].job == job && old(db.history)[i].terminatedAt == None
                              then old(db.history)[i].(terminatedAt := Some(at)) else old(db.history)[i]
    {
      accepted := false;
      var deleted := db.DeleteHeldLease(job, workerId, token);
      if deleted != 0 {
        var updated := db.Succeed(job, value);
        if updated != 0 {
          db.InsertCommit(CommitRow(job, true, token, workerId, at));
          db.TerminateHistory({job}, at);
          db.InsertTransitions([TransitionRow(job, Some(Dispatched), Succeeded, at)]);
          accepted := true;
        }
      }
    }

    /** onResult's transaction and what follows an accepted commit. */
    method OnResultCommit(state: WorkerState, job: JobId, token: nat, value: Value, at: int) returns (accepted: bool)
      modifies db, chaos`dropAcksRemaining, state`inFlight, state.ws`sent
      ensures accepted <==> JudgeResult(old(db.Contents()), job, state.workerId, token).Accepted?
      ensures var held := job in old(db.leases)
          && old(db.leases)[job].worker == state.workerId && old(db.leases)[job].token == token;
        && (accepted <==> held && job in old(db.jobs) && old(db.jobs)[job].status == Dispatched)
        && db.leases == if held then old(db.leases) - {job} else old(db.leases)
      ensures !accepted ==>
        && db.jobs == old(db.jobs) && db.history == old(db.history)
        && db.commits == old(db.commits) && db.transitions == old(db.transitions)
      ensures accepted ==>
        && db.jobs == old(db.jobs)[job := old(db.jobs)[job].(status := Succeeded, result := Some(value))]
        && db.commits == old(db.commits) + [CommitRow(job, true, token, state.workerId, at)]
        && db.transitions == old(db.transitions) + [TransitionRow(job, Some(Dispatched), Succeeded, at)]
        && |db.history| == |old(db.history)|
        && forall i :: 0 <= i < |db.history| ==>
             db.history[i] == if old(db.history)[i].job == job && old(db.history)[i].terminatedAt == None
                              then old(db.history)[i].(terminatedAt := Some(at)) else old(db.history)[i]
      ensures db.Contents() == CommitResult(old(db.Contents()), job, state.workerId, token, value, at)
      ensures state.inFlight == if old(state.inFlight) == 0 then 0 else old(state.inFlight) - 1
      ensures state.ws.sent == if accepted && old(chaos.dropAcksRemaining) <= 0 && state.ws.open
                               then old(state.ws.sent) + [JobAck(job)] else old(state.ws.sent)
      ensures chaos.dropAcksRemaining == if accepted && old(chaos.dropAcksRemaining) > 0
                                         then old(chaos.dropAcksRemaining) - 1 else old(chaos.dropAcksRemaining)
    {
      accepted := Commit(state.workerId, job, token, value, at);
      state.Release();
      if accepted {
        var drop := chaos.ConsumeDropAck();
        if !drop {
          state.ws.Send(JobAck(job));
        }
      }
    }

    /** The read that decides a re-ack, reached from a failed lookup or a refused commit. */
    method OnResultReread(state: WorkerState, job: JobId, fromLookup: bool, readOk: bool)
      modifies state`inFlight, state.ws`sent
      ensures state.ws.sent == if readOk && job in db.jobs && db.jobs[job].status == Succeeded && state.ws.open
                               then old(state.ws.sent) + [JobAck(job)] else old(state.ws.sent)
      ensures state.inFlight ==
        if fromLookup && old(state.inFlight) > 0 then old(state.inFlight) - 1 else old(state.inFlight)
    {
      if readOk && job in db.jobs && db.jobs[job].status == Succeeded {
        state.ws.Send(JobAck(job));
      }
      if fromLookup {
        state.Release();
      }
    }

    /** The two transactions of onFailed. */
    method EndLease(job: JobId, temporary: bool, at: int)
      modifies db
      ensures db.Contents() == if temporary then FailTemporarily(old(db.Contents()), job, at)
                               else FailPermanently(old(db.Contents()), job, at)
    {
      db.DeleteLeases({job});
      if temporary {
        var _ := db.UpdateStatus({job}, Dispatched, Pending);
        db.TerminateHistory({job}, at);
      } else {
        var _ := db.UpdateStatus({job}, Dispatched, Failed);
        db.TerminateHistory({job}, at);
        db.InsertTransitions([TransitionRow(job, Some(Dispatched), Failed, at)]);
      }
    }

    /** The state machine's event for a failure report on this socket. */
    ghost function FailureEvent(state: WorkerState?, job: JobId, token: nat, temporary: bool, at: int): Event {
      var reporter := if state == null then None else Some(state.workerId);
      if temporary then FailTemp(reporter, job, token, at) else FailPerm(reporter, job, token, at)
    }

    /** Takes effect for any socket, registered or not, and any token; only the load is the reporter's. */
    method OnFailed(ws: Socket, job: JobId, token: nat, temporary: bool, at: int) returns (state: WorkerState?)
      modifies db, (set id | id in workers && workers[id].ws == ws :: workers[id])`inFlight
      ensures SpeaksFor(ws, state)
      ensures db.leases == old(db.leases) - {job}
      ensures db.jobs == if job in old(db.jobs) && old(db.jobs)[job].status == Dispatched
                         then old(db.jobs)[job := old(db.jobs)[job].(status := if temporary then Pending else Failed)]
                         else old(db.jobs)
      ensures db.transitions == old(db.transitions)
        + if temporary then [] else [TransitionRow(job, Some(Dispatched), Failed, at)]
      ensures |db.history| == |old(db.history)| && forall i :: 0 <= i < |db.history| ==>
        db.history[i] == if old(db.history)[i].job == job && old(db.history)[i].terminatedAt == None
                         then old(db.history)[i].(terminatedAt := Some(at)) else old(db.history)[i]
      ensures db.commits == old(db.commits)
      ensures db.Contents() == Step(INITIAL.(db := old(db.Contents())),
        FailureEvent(state, job, token, temporary, at)).db
      ensures forall w :: w in workers.Values ==>
        w.inFlight == if w == state && old(w.inFlight) > 0 then old(w.inFlight) - 1 else old(w.inFlight)
    {
      state := StateByWs(ws);
      EndLease(job, temporary, at);
      if state != null {
        state.Release();
      }
    }

    /** Extends the lease the report names, and only that one, by the heartbeat TTL. */
    method OnHeartbeat(ws: Socket, job: JobId, token: nat, wall: int) returns (state: WorkerState?)
      modifies db`leases
      ensures SpeaksFor(ws, state)
      ensures db.Contents() ==
        if state == null then old(db.Contents())
        else RenewLease(old(db.Contents()), job, state.workerId, token,
          wall + HEARTBEAT_LEASE_TTL_MS + chaos.clockSkewMs)
      ensures db.leases ==
        if state != null && job in old(db.leases)
           && old(db.leases)[job].worker == state.workerId && old(db.leases)[job].token == token
        then old(db.leases)[job := LeaseRow(state.workerId, token, wall + 15_000 + chaos.clockSkewMs)]
        else old(db.leases)
    {
      state := StateByWs(ws);
      if state == null {
        return;
      }
      var newExpiry := wall + HEARTBEAT_LEASE_TTL_MS + chaos.clockSkewMs;
      db.UpdateExpiry(job, state.workerId, token, newExpiry);
    }

    /** Connected workers with room, in some order, each once. */
    method GetAvailableWorkers() returns (available: seq<WorkerState>)
      requires Valid()
      ensures Distinct(available)
      ensures forall w :: w in available <==> w in workers.Values && w.ws.open && w.inFlight < w.concurrencyLimit
    {
      available := [];
      var rest := workers.Keys;
      while rest != {}
        invariant rest <= workers.Keys && Distinct(available)
        invariant forall w :: w in available <==>
          w in workers.Values && w.workerId !in rest && w.ws.open && w.inFlight < w.concurrencyLimit
        decreases rest
      {
        var id :| id in rest;
        rest := rest - {id};
        var w := workers[id];
        assert w in workers.Values && w !in available;
        if w.ws.open && w.inFlight < w.concurrencyLimit {
          available := available + [w];
        }
      }
    }

    /** Sends only over a registered, open socket, and counts only what it sent. */
    method SendJob(workerId: WorkerId, m: Message) returns (sent: bool)
      modifies (if workerId in workers then {workers[workerId]} else {})`inFlight
      modifies (if workerId in workers then {workers[workerId].ws} else {})`sent
      ensures sent <==> workerId in workers && workers[workerId].ws.open
      ensures workerId in workers ==>
        var w := workers[workerId];
        && w.inFlight == (if sent then old(w.inFlight) + 1 else old(w.inFlight))
        && w.ws.sent == (if sent then old(w.ws.sent) + [m] else old(w.ws.sent))
    {
      if workerId !in workers || !workers[workerId].ws.open {
        return false;
      }
      workers[workerId].ws.Send(m);
      workers[workerId].inFlight := workers[workerId].inFlight + 1;
      sent := true;
    }
  }
}
