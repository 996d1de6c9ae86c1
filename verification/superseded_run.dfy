/**
 A run of the whole system in which the guard against a superseded token deletes a newer entry: worker 5
 has given up on a result that is then re-acked, late, while it executes the same job under a newer fence.
 No two dispatches to worker 5 overlap, as one coordinator issues them one after the other.
 */
module SupersededRun {
  import opened Tables
  import opened Protocol
  import opened Messages
  import opened Network
  import opened Wire
  import opened Supersession

  ghost predicate Reached(n: Net) {
    exists run :: NetValid(run) && NetAfter(run) == n
  }

  lemma Next(n: Net, e: NetEvent)
    requires Reached(n) && NetEnabled(n, e)
    ensures Reached(NetStep(n, e))
  {
    var run :| NetValid(run) && NetAfter(run) == n;
    NetExtend(run, e);
  }

  predicate HubIs(
    n: Net, status: Status, result: Option<Value>, leases: map<JobId, LeaseRow>, fence: nat,
    handlers: map<nat, Handler>)
  {
    && n.hub.db.jobs == map[1 := JobRow(7, 0, status, result)] && n.hub.db.leases == leases
    && n.hub.db.lastFence == fence && n.hub.db.clock == 0 && n.hub.handlers == handlers
  }

  /** Worker `id` but for what it has sent so far. */
  predicate WorkerIs(
    n: Net, id: WorkerId, inFlight: map<JobId, W.InFlight>, timers: map<nat, W.Timer>, nextTimer: nat,
    executing: multiset<W.Execution>)
  {
    id in n.workers && n.workers[id].(outbox := []) == W.Worker(inFlight, timers, nextTimer, executing, 1, true, [])
  }

  lemma Joined(n: Net, id: WorkerId) returns (n': Net)
    requires Reached(n)
    ensures Reached(n') && n'.(up := n.up, workers := n.workers) == n && WorkerIs(n', id, map[], map[], 0, multiset{})
    ensures forall o :: o in n.workers && o != id ==> o in n'.workers && n'.workers[o] == n.workers[o]
  {
    var started := Started(n, id);
    n' := Acted(started, id, W.Connected);
  }

  lemma Started(n: Net, id: WorkerId) returns (n': Net)
    requires Reached(n)
    ensures Reached(n') && n' == n.(workers := n.workers[id := W.Started(1)])
  {
    Next(n, Restart(id, 1));
    n' := NetStep(n, Restart(id, 1));
  }

  lemma Submitted() returns (n: Net)
    ensures Reached(n) && HubIs(n, Pending, None, map[], 0, map[]) && n.sending == {} && n.down == []
    ensures WorkerIs(n, 5, map[], map[], 0, multiset{}) && WorkerIs(n, 6, map[], map[], 0, multiset{})
  {
    assert NetValid([]) && NetAfter([]) == QUIET;
    var check, insert := Hub(SubmitCheck(0, 7, None)), Hub(SubmitInsert(0, 1, 0, 0));
    Next(QUIET, check);
    var checked := NetStep(QUIET, check);
    Next(checked, insert);
    n := NetStep(checked, insert);
    n := Joined(n, 5);
    n := Joined(n, 6);
  }

  /** Dispatch, send and receive in a row: the next fence goes to an idle worker. */
  lemma HandedOver(n: Net, id: WorkerId, fence: nat, handlers: map<nat, Handler>, timer: nat) returns (n': Net)
    requires Reached(n) && n.down == [] && HubIs(n, Pending, None, map[], fence, handlers)
    requires WorkerIs(n, id, map[], map[], timer, multiset{})
    requires forall l :: l in n.sending ==> !Carries(l, fence + 1)
    ensures Reached(n') && n'.sending == n.sending && n'.down == [] && n'.up == n.up
    ensures HubIs(n', Dispatched, None, map[1 := LeaseRow(id, fence + 1, 0)], fence + 1, handlers)
    ensures WorkerIs(n', id, map[1 := W.InFlight(fence + 1, None, 0, None, Some(timer))],
              map[timer := W.HeartbeatTimer(1, fence + 1)], timer + 1, multiset{W.Execution(1, fence + 1)})
    ensures forall o :: o in n.workers && o != id ==> o in n'.workers && n'.workers[o] == n.workers[o]
  {
    var letter := Letter(id, JobDispatch(1, fence + 1));
    assert letter !in n.sending by {
      assert Carries(letter, fence + 1);
    }
    var issued := Issued(n, id, fence, handlers);
    var sent := Sent(issued, letter);
    n' := Accepted(sent, id, fence + 1, timer, multiset{});
  }

  /** The idle worker has taken the dispatch that was the only letter. */
  predicate AcceptedBy(n: Net, n': Net, id: WorkerId, fence: nat)
    requires id in n.workers
  {
    n' == n.(down := [], workers := n.workers[id := W.HandleDispatch(n.workers[id], 1, fence)])
  }

  lemma Accepted(n: Net, id: WorkerId, fence: nat, timer: nat, executing: multiset<W.Execution>) returns (n': Net)
    requires Reached(n) && n.down == [Letter(id, JobDispatch(1, fence))]
    requires WorkerIs(n, id, map[], map[], timer, executing)
    ensures Reached(n') && AcceptedBy(n, n', id, fence)
    ensures WorkerIs(n', id, map[1 := W.InFlight(fence, None, 0, None, Some(timer))],
              map[timer := W.HeartbeatTimer(1, fence)], timer + 1, executing + multiset{W.Execution(1, fence)})
  {
    AcceptsIdle(n.workers[id], fence);
    n' := NetStep(n, Receive(0));
    Next(n, Receive(0));
    ReceivedDispatch(n, id, fence);
  }

  lemma AcceptsIdle(w: W.Worker, fence: nat)
    requires w.inFlight == map[] && w.timers == map[] && W.Accepts(w, 1)
    ensures W.HandleDispatch(w, 1, fence) == w.(
      inFlight := map[1 := W.InFlight(fence, None, 0, None, Some(w.nextTimer))],
      timers := map[w.nextTimer := W.HeartbeatTimer(1, fence)],
      nextTimer := w.nextTimer + 1,
      executing := w.executing + multiset{W.Execution(1, fence)})
  {
  }

  lemma ReceivedDispatch(n: Net, id: WorkerId, fence: nat)
    requires n.down == [Letter(id, JobDispatch(1, fence))] && NetEnabled(n, Receive(0))
    requires W.HandleDispatch(n.workers[id], 1, fence).outbox == n.workers[id].outbox
    ensures AcceptedBy(n, NetStep(n, Receive(0)), id, fence)
  {
  }

  lemma Issued(n: Net, id: WorkerId, fence: nat, handlers: map<nat, Handler>) returns (n': Net)
    requires Reached(n) && HubIs(n, Pending, None, map[], fence, handlers)
    ensures Reached(n') && n'.sending == n.sending + {Letter(id, JobDispatch(1, fence + 1))}
    ensures n'.down == n.down && n'.up == n.up && n'.workers == n.workers
    ensures HubIs(n', Dispatched, None, map[1 := LeaseRow(id, fence + 1, 0)], fence + 1, handlers)
  {
    IssuedFrom(n, id, fence, handlers);
    Next(n, Hub(Dispatch(id, 1, 0, 0, 0)));
    n' := NetStep(n, Hub(Dispatch(id, 1, 0, 0, 0)));
  }

  lemma IssuedFrom(n: Net, id: WorkerId, fence: nat, handlers: map<nat, Handler>)
    requires HubIs(n, Pending, None, map[], fence, handlers)
    ensures NetEnabled(n, Hub(Dispatch(id, 1, 0, 0, 0)))
    ensures var n' := NetStep(n, Hub(Dispatch(id, 1, 0, 0, 0)));
      && n'.sending == n.sending + {Letter(id, JobDispatch(1, fence + 1))}
      && n'.down == n.down && n'.up == n.up && n'.workers == n.workers
      && HubIs(n', Dispatched, None, map[1 := LeaseRow(id, fence + 1, 0)], fence + 1, handlers)
  {
  }

  lemma Sent(n: Net, letter: Letter) returns (n': Net)
    requires Reached(n) && letter in n.sending
    ensures Reached(n') && n' == n.(sending := n.sending - {letter}, down := n.down + [letter])
  {
    Next(n, SendJob(letter));
    n' := NetStep(n, SendJob(letter));
  }

  lemma Reaped(n: Net, id: WorkerId, fence: nat, handlers: map<nat, Handler>) returns (n': Net)
    requires Reached(n) && HubIs(n, Dispatched, None, map[1 := LeaseRow(id, fence, 0)], fence, handlers)
    ensures Reached(n') && n' == n.(hub := n'.hub) && HubIs(n', Pending, None, map[], fence, handlers)
  {
    n' := HubActed(n, Reap([1], 0));
    assert n'.hub.db.leases == map[];
  }

  lemma Acted(n: Net, id: WorkerId, a: W.WorkerEvent) returns (n': Net)
    requires Reached(n) && NetEnabled(n, Act(id, a))
    ensures Reached(n') && n' == WorkerActs(n, id, a)
  {
    Next(n, Act(id, a));
    n' := NetStep(n, Act(id, a));
  }

  lemma Received(n: Net) returns (n': Net)
    requires Reached(n) && |n.down| == 1 && NetEnabled(n, Receive(0))
    ensures Reached(n') && n' == WorkerActs(n.(down := []), n.down[0].worker, Handling(n.down[0].message))
  {
    Next(n, Receive(0));
    n' := NetStep(n, Receive(0));
  }

  /** A result reaches the hub, whose lookup works. */
  lemma Delivered(n: Net, id: WorkerId, token: nat, h: nat) returns (n': Net)
    requires Reached(n) && Report(id, W.Result(1, token, 9)) in n.up && h !in n.hub.handlers
    ensures Reached(n') && n'.(up := n.up) == n.(hub := Step(n.hub, ResultLookup(h, id, 1, token, 9, true)))
  {
    var arrives := Deliver(id, W.Result(1, token, 9), h, true, true, 0, 0);
    Next(n, arrives);
    n' := NetStep(n, arrives);
  }

  lemma HubActed(n: Net, e: Event) returns (n': Net)
    requires Reached(n) && NetEnabled(n, Hub(e))
    ensures Reached(n') && n' == HubStep(n, e)
  {
    Next(n, Hub(e));
    n' := NetStep(n, Hub(e));
  }

  /** One of the five retries of worker 5's first lease. */
  lemma Retried(n: Net, count: nat) returns (n': Net)
    requires Reached(n) && count < 5
    requires WorkerIs(n, 5, map[1 := W.InFlight(1, Some(9), count, Some(count + 1), Some(0))],
               map[0 := W.HeartbeatTimer(1, 1), count + 1 := W.RetryTimer(1, 1)], count + 2, multiset{})
    ensures Reached(n') && n'.hub == n.hub && n'.sending == n.sending && n'.down == n.down
    ensures 6 in n.workers ==> 6 in n'.workers && n'.workers[6] == n.workers[6]
    ensures Report(5, W.Result(1, 1, 9)) in n'.up
    ensures if count < 4 then
      WorkerIs(n', 5, map[1 := W.InFlight(1, Some(9), count + 1, Some(count + 2), Some(0))],
        map[0 := W.HeartbeatTimer(1, 1), count + 2 := W.RetryTimer(1, 1)], count + 3, multiset{})
      else WorkerIs(n', 5, map[], map[], count + 2, multiset{})
  {
    n' := Acted(n, 5, W.Fires(count + 1));
    var w, w' := n.workers[5], n'.workers[5];
    assert w'.outbox == w.outbox + [W.Result(1, 1, 9)];
    if count < 4 {
      assert w'.timers == map[0 := W.HeartbeatTimer(1, 1), count + 2 := W.RetryTimer(1, 1)];
    } else {
      assert w'.timers == map[] && w'.inFlight == map[];
    }
  }

  /** Worker 5 has executed the job under fence 1, sent its result six times and given up. */
  lemma GivenUp() returns (n: Net)
    ensures Reached(n) && HubIs(n, Dispatched, None, map[1 := LeaseRow(5, 1, 0)], 1, map[])
    ensures n.sending == {} && n.down == [] && Report(5, W.Result(1, 1, 9)) in n.up
    ensures WorkerIs(n, 5, map[], map[], 6, multiset{}) && WorkerIs(n, 6, map[], map[], 0, multiset{})
  {
    n := ResultSent();
    n := Retried(n, 0);
    n := Retried(n, 1);
    n := Retried(n, 2);
    n := Retried(n, 3);
    n := Retried(n, 4);
  }

  lemma ResultSent() returns (n: Net)
    ensures Reached(n) && HubIs(n, Dispatched, None, map[1 := LeaseRow(5, 1, 0)], 1, map[])
    ensures n.sending == {} && n.down == [] && WorkerIs(n, 6, map[], map[], 0, multiset{})
    ensures WorkerIs(n, 5, map[1 := W.InFlight(1, Some(9), 0, Some(1), Some(0))],
              map[0 := W.HeartbeatTimer(1, 1), 1 := W.RetryTimer(1, 1)], 2, multiset{})
  {
    n := ExecutingFirst();
    n := Acted(n, 5, W.Executed(1, 1, Some(9)));
  }

  lemma ExecutingFirst() returns (n: Net)
    ensures Reached(n) && HubIs(n, Dispatched, None, map[1 := LeaseRow(5, 1, 0)], 1, map[])
    ensures n.sending == {} && n.down == [] && WorkerIs(n, 6, map[], map[], 0, multiset{})
    ensures WorkerIs(n, 5, map[1 := W.InFlight(1, None, 0, None, Some(0))], map[0 := W.HeartbeatTimer(1, 1)], 1,
      multiset{W.Execution(1, 1)})
  {
    n := Submitted();
    n := HandedOver(n, 5, 0, map[], 0);
  }

  /** Its lease is reaped; then the last of the results arrives and waits for its re-read. */
  lemma WaitingToReread() returns (n: Net)
    ensures Reached(n) && HubIs(n, Pending, None, map[], 1, map[0 := Rereading(5, 1)])
    ensures n.sending == {} && n.down == []
    ensures WorkerIs(n, 5, map[], map[], 6, multiset{}) && WorkerIs(n, 6, map[], map[], 0, multiset{})
  {
    n := FirstReaped();
    n := Delivered(n, 5, 1, 0);
  }

  lemma FirstReaped() returns (n: Net)
    ensures Reached(n) && HubIs(n, Pending, None, map[], 1, map[])
    ensures n.sending == {} && n.down == [] && Report(5, W.Result(1, 1, 9)) in n.up
    ensures WorkerIs(n, 5, map[], map[], 6, multiset{}) && WorkerIs(n, 6, map[], map[], 0, multiset{})
  {
    n := GivenUp();
    n := Reaped(n, 5, 1, map[]);
  }

  const SECOND := W.InFlight(2, None, 0, None, Some(6))
  const THIRD := W.InFlight(3, None, 0, None, Some(7))

  predicate Executing(n: Net) {
    && WorkerIs(n, 5, map[1 := SECOND], map[6 := W.HeartbeatTimer(1, 2)], 7, multiset{W.Execution(1, 2)})
  }

  /** A third lease for worker 5 is issued, its message not sent yet, and reaped like the second. */
  lemma ThirdUnsent() returns (n: Net)
    ensures Reached(n) && HubIs(n, Pending, None, map[], 3, map[0 := Rereading(5, 1)])
    ensures n.sending == {Letter(5, JobDispatch(1, 3))} && n.down == []
    ensures Executing(n) && WorkerIs(n, 6, map[], map[], 0, multiset{})
  {
    n := ThirdIssued();
    n := Reaped(n, 5, 3, map[0 := Rereading(5, 1)]);
  }

  lemma ThirdIssued() returns (n: Net)
    ensures Reached(n) && HubIs(n, Dispatched, None, map[1 := LeaseRow(5, 3, 0)], 3, map[0 := Rereading(5, 1)])
    ensures n.sending == {Letter(5, JobDispatch(1, 3))} && n.down == []
    ensures Executing(n) && WorkerIs(n, 6, map[], map[], 0, multiset{})
  {
    n := SecondReaped();
    n := Issued(n, 5, 2, map[0 := Rereading(5, 1)]);
  }

  lemma SecondReaped() returns (n: Net)
    ensures Reached(n) && HubIs(n, Pending, None, map[], 2, map[0 := Rereading(5, 1)])
    ensures n.sending == {} && n.down == [] && Executing(n) && WorkerIs(n, 6, map[], map[], 0, multiset{})
  {
    n := ExecutingSecond();
    n := Reaped(n, 5, 2, map[0 := Rereading(5, 1)]);
  }

  /** Worker 5 executes under fence 2. */
  lemma ExecutingSecond() returns (n: Net)
    ensures Reached(n) && HubIs(n, Dispatched, None, map[1 := LeaseRow(5, 2, 0)], 2, map[0 := Rereading(5, 1)])
    ensures n.sending == {} && n.down == [] && Executing(n) && WorkerIs(n, 6, map[], map[], 0, multiset{})
  {
    n := WaitingToReread();
    n := HandedOver(n, 5, 1, map[0 := Rereading(5, 1)], 6);
  }

  /** Worker 6's result, under fence 4, arrives. */
  lemma ReportedBy6() returns (n: Net)
    ensures Reached(n)
    ensures HubIs(n, Dispatched, None, map[1 := LeaseRow(6, 4, 0)], 4,
      map[0 := Rereading(5, 1), 1 := Committing(6, 1, 4, 9)])
    ensures n.sending == {Letter(5, JobDispatch(1, 3))} && n.down == [] && Executing(n)
  {
    n := ExecutedBy6();
    n := Delivered(n, 6, 4, 1);
  }

  lemma ExecutedBy6() returns (n: Net)
    ensures Reached(n) && HubIs(n, Dispatched, None, map[1 := LeaseRow(6, 4, 0)], 4, map[0 := Rereading(5, 1)])
    ensures n.sending == {Letter(5, JobDispatch(1, 3))} && n.down == [] && Executing(n)
    ensures Report(6, W.Result(1, 4, 9)) in n.up
  {
    n := ExecutingBy6();
    var outbox := n.workers[6].outbox;
    n := Acted(n, 6, W.Executed(1, 4, Some(9)));
    assert n.workers[6].outbox == outbox + [W.Result(1, 4, 9)];
  }

  lemma ExecutingBy6() returns (n: Net)
    ensures Reached(n) && HubIs(n, Dispatched, None, map[1 := LeaseRow(6, 4, 0)], 4, map[0 := Rereading(5, 1)])
    ensures n.sending == {Letter(5, JobDispatch(1, 3))} && n.down == [] && Executing(n)
    ensures WorkerIs(n, 6, map[1 := W.InFlight(4, None, 0, None, Some(0))], map[0 := W.HeartbeatTimer(1, 4)], 1,
      multiset{W.Execution(1, 4)})
  {
    n := ThirdUnsent();
    n := HandedOver(n, 6, 3, map[0 := Rereading(5, 1)], 0);
  }

  /** It commits; worker 5's late result is then re-acked. */
  lemma Reacked() returns (n: Net)
    ensures Reached(n) && n.sending == {Letter(5, JobDispatch(1, 3))} && n.down == [Letter(5, JobAck(1))]
    ensures Executing(n)
  {
    n := CommittedBy6();
    n := HubActed(n, ResultReread(0, true));
  }

  lemma CommittedBy6() returns (n: Net)
    ensures Reached(n) && HubIs(n, Succeeded, Some(9), map[], 4, map[0 := Rereading(5, 1)])
    ensures n.sending == {Letter(5, JobDispatch(1, 3))} && n.down == [] && Executing(n)
  {
    n := ReportedBy6();
    n := HubActed(n, ResultWrite(1, 0, true));
    assert n.hub.db.leases == map[] && n.hub.handlers == map[0 := Rereading(5, 1)];
  }

  /** The ack clears worker 5's entry while it is still executing; then the third dispatch goes out. */
  lemma ThirdSent() returns (n: Net)
    ensures Reached(n) && n.down == [Letter(5, JobDispatch(1, 3))]
    ensures WorkerIs(n, 5, map[], map[], 7, multiset{W.Execution(1, 2)})
  {
    n := Reacked();
    n := Received(n);
    n := Sent(n, Letter(5, JobDispatch(1, 3)));
  }

  /** It is accepted while the execution under fence 2 still runs; when that returns, it deletes the new entry. */
  lemma SupersededDeletesNewerEntry() returns (n: Net, returns2: NetEvent)
    ensures Reached(n) && returns2 == Act(5, W.Executed(1, 2, Some(9))) && NetEnabled(n, returns2)
    ensures Superseded(n, 5, 1, 2) && 1 in n.workers[5].inFlight && n.workers[5].inFlight[1].token == 3
    ensures 1 !in NetStep(n, returns2).workers[5].inFlight && NetStep(n, returns2).up == n.up
  {
    n := ThirdSent();
    n := Accepted(n, 5, 3, 7, multiset{W.Execution(1, 2)});
    returns2 := Act(5, W.Executed(1, 2, Some(9)));
    ReturnDeletes(n);
  }

  lemma ReturnDeletes(n: Net)
    requires WorkerIs(n, 5, map[1 := THIRD], map[7 := W.HeartbeatTimer(1, 3)], 8,
      multiset{W.Execution(1, 2), W.Execution(1, 3)})
    ensures Superseded(n, 5, 1, 2) && NetEnabled(n, Act(5, W.Executed(1, 2, Some(9))))
    ensures var n' := NetStep(n, Act(5, W.Executed(1, 2, Some(9))));
      5 in n'.workers && 1 !in n'.workers[5].inFlight && n'.up == n.up
  {
  }
}
