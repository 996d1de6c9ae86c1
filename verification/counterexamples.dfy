/** Concrete runs on which the code does less than its documentation says. */
module Counterexamples {
  import opened Tables
  import opened Transactions
  import opened Protocol
  import opened Sequences
  import opened Interference
  import opened Audit
  import opened Harness
  import opened HarnessVerdict
  import T = Timed

  /** One job (id 1, key 7), cancelled by a client whose check has seen it PENDING. */
  lemma SubmittedAndChecked() returns (run: Run)
    ensures Valid(run)
    ensures var s := After(run);
      && s.db == InsertJob(EMPTY, 1, 7, 0, 0)
      && s.handlers == map[0 := Cancelling(1)] && s.acks == []
  {
    var e1, e2, e3 := SubmitCheck(0, 7, None), SubmitInsert(0, 1, 0, 0), CancelCheck(0, 1);
    Extend([], e1);
    Extend([e1], e2);
    Extend([e1] + [e2], e3);
    run := [e1] + [e2] + [e3];
    assert After(run).handlers == map[0 := Cancelling(1)];
  }

  /** A dispatch between a cancel's check and its write leaves a lease on a CANCELLED job. */
  lemma SplitCancelStrandsLease() returns (run: Run)
    ensures Valid(run) && HasStatus(After(run).db, 1, Cancelled) && 1 in After(run).db.leases
  {
    run := SubmittedAndChecked();
    var dispatch, write := Dispatch(5, 1, 0, 60_000, 0), CancelWrite(0, 0);
    Extend(run, dispatch);
    Extend(run + [dispatch], write);
    run := run + [dispatch] + [write];
  }

  /** A cancel that is slow enough overwrites a SUCCEEDED job; its result and commit stay. */
  lemma SplitCancelOverwritesSuccess() returns (run: Run)
    ensures Valid(run) && HasStatus(After(run).db, 1, Cancelled)
    ensures After(run).db.jobs[1].result == Some(9) && After(run).acks == [Ack(5, 1)]
  {
    run := SubmittedAndChecked();
    var dispatch := Dispatch(5, 1, 0, 60_000, 0);
    Extend(run, dispatch);
    run := run + [dispatch];
    var lookup := ResultLookup(1, 5, 1, 1, 9, true);
    Extend(run, lookup);
    run := run + [lookup];
    var commit := ResultWrite(1, 0, false);
    Extend(run, commit);
    run := run + [commit];
    Extend(run, CancelWrite(0, 0));
    run := run + [CancelWrite(0, 0)];
  }

  /** Job 1 dispatched to worker 5 under fence 1 and reaped. */
  lemma ReapedFrom5() returns (run: Run)
    ensures Valid(run) && After(run).db.jobs == map[1 := JobRow(7, 0, Pending, None)] && After(run).db.leases == map[]
    ensures After(run).db.lastFence == 1 && After(run).db.clock == 0
    ensures After(run).db.history == [HistoryRow(1, 5, 1, 0, Some(0))]
  {
    run := LeasedTo5();
    var reap := Reap([1], 0);
    Extend(run, reap);
    run := run + [reap];
  }

  lemma LeasedTo5() returns (run: Run)
    ensures Valid(run) && After(run).db.jobs == map[1 := JobRow(7, 0, Dispatched, None)]
    ensures After(run).db.leases == map[1 := LeaseRow(5, 1, 60_000)] && After(run).db.lastFence == 1
    ensures After(run).db.clock == 0
    ensures After(run).db.history == [HistoryRow(1, 5, 1, 0, None)]
  {
    run := SubmittedAndChecked();
    var dispatch := Dispatch(5, 1, 0, 60_000, 0);
    Extend(run, dispatch);
    run := run + [dispatch];
  }

  /** Then dispatched to worker 6 under fence 2. */
  lemma RedispatchedTo6() returns (run: Run)
    ensures Valid(run) && After(run).db.jobs == map[1 := JobRow(7, 0, Dispatched, None)]
    ensures After(run).db.leases == map[1 := LeaseRow(6, 2, 60_000)]
  {
    run := ReapedFrom5();
    var dispatch := Dispatch(6, 1, 0, 60_000, 0);
    Extend(run, dispatch);
    run := run + [dispatch];
  }

  /** The stale worker's failure report, under its old fence, fails the job and takes the new holder's lease. */
  lemma StaleFailureEndsNewLease() returns (run: Run, k: nat)
    ensures Valid(run) && |run| == k + 1 && Enabled(StateAt(run, k), run[k])
    ensures run[k] == FailPerm(Some(5), 1, 1, 0) && StaleFailure(StateAt(run, k), run[k], 1)
    ensures Holds(StateAt(run, k).db, 1, 6, 2) && !Holds(StateAt(run, k).db, 1, 5, 1)
    ensures HasStatus(After(run).db, 1, Failed) && 1 !in After(run).db.leases
  {
    run := RedispatchedTo6();
    k := |run|;
    var report := FailPerm(Some(5), 1, 1, 0);
    Extend(run, report);
    assert (run + [report])[..k] == run;
    run := run + [report];
  }

  /**
   A permanent failure reported for a job that is still PENDING leaves it PENDING but writes its record:
   the harness takes the job for finished.
   */
  lemma SpuriousFailureHidesLostJob() returns (run: Run, r: Reading)
    ensures Valid(run) && HasStatus(After(run).db, 1, Pending) && After(run).db.commits == []
    ensures r.ok && r.job == Some(1) && r.transitions == r.commits == r.leases == Some(|run|)
    ensures !Faulty(AuditAt(run, r), Lost(Some(1)))
  {
    run := SubmittedAndChecked();
    var report := FailPerm(None, 1, 1, 0);
    Extend(run, report);
    run := run + [report];
    assert run[..|run|] == run;
    r := Reading(Some(1), true, Some(|run|), Some(|run|), Some(|run|));
    assert TransitionRow(1, Some(Dispatched), Failed, 0) in After(run).db.transitions;
    LostExactly(run, r);
  }

  /** Two submitters race on one key; the loser's recovery read fails and it is answered with null. */
  lemma RacingSubmitters() returns (run: Run)
    ensures Valid(run) && After(run).db.jobs.Keys == {1}
    ensures After(run).replies == [Reply(7, Some(1)), Reply(7, None)]
  {
    var e1, e2 := SubmitCheck(0, 7, None), SubmitCheck(1, 7, None);
    var e3, e4, e5 := SubmitInsert(0, 1, 0, 0), SubmitInsert(1, 2, 0, 0), SubmitRecover(1, None);
    Extend([], e1);
    Extend([e1], e2);
    Extend([e1] + [e2], e3);
    run := [e1] + [e2] + [e3];
    assert After(run).db.jobs == map[1 := JobRow(7, 0, Pending, None)];
    assert 1 in After(run).db.jobs && KeyTaken(After(run).db, 7);
    assert After(run).replies == [Reply(7, Some(1))];
    Extend(run, e4);
    Extend(run + [e4], e5);
    run := run + [e4] + [e5];
  }

  /** The harness tracks both answers and takes them for a duplicate it cannot even print. */
  lemma NullReplyLooksLikeDuplicate() returns (run: Run, tracked: seq<Tracked>)
    ensures Valid(run) && TrackedFrom(run, tracked) && TwoJobs(tracked, 7) && Unsortable(tracked, 7)
    ensures After(run).db.jobs.Keys == {1}
  {
    run := RacingSubmitters();
    tracked := [Tracked(Some(1), 7), Tracked(None, 7)];
    assert After(run).replies[0] == Reply(tracked[0].key, tracked[0].job);
    assert After(run).replies[1] == Reply(tracked[1].key, tracked[1].job);
    assert tracked[0].key == 7 && tracked[1].key == 7;
    assert tracked[0] in tracked && tracked[1] in tracked;
  }

  /** Two jobs leased within one tick of the database clock. */
  lemma TwoDispatchedTogether() returns (run: Run)
    ensures Valid(run)
    ensures After(run).db.history == [HistoryRow(1, 5, 1, 0, None), HistoryRow(2, 5, 2, 0, None)]
  {
    var e1, e2 := SubmitCheck(0, 7, None), SubmitInsert(0, 1, 0, 0);
    var e3, e4 := SubmitCheck(0, 8, None), SubmitInsert(0, 2, 0, 0);
    Extend([], e1);
    Extend([e1], e2);
    Extend([e1] + [e2], e3);
    run := [e1] + [e2] + [e3];
    assert After(run).db.jobs == map[1 := JobRow(7, 0, Pending, None)];
    Extend(run, e4);
    run := run + [e4];
    assert After(run).db.jobs == map[1 := JobRow(7, 0, Pending, None), 2 := JobRow(8, 0, Pending, None)];
    var d1, d2 := Dispatch(5, 1, 0, 60_000, 0), Dispatch(5, 2, 0, 60_000, 0);
    Extend(run, d1);
    Extend(run + [d1], d2);
    run := run + [d1] + [d2];
  }

  /** Their audits, collected in the other order, make the harness report a fencing violation. */
  lemma TiedIssuesLookNonmonotonic() returns (run: Run, readings: seq<Reading>)
    ensures Valid(run) && ReadsOf(run, readings) && !GloballyMonotonic(AuditsAt(run, readings))
  {
    run := TwoDispatchedTogether();
    var n := |run|;
    readings := [Reading(Some(2), true, Some(n), Some(n), Some(n)), Reading(Some(1), true, Some(n), Some(n), Some(n))];
    assert run[..n] == run;
    var db := StateAt(run, n).db;
    var audits := AuditsAt(run, readings);
    var second, first := audits[0], audits[1];
    EveryRowIsAudited(db, 1);
    EveryRowIsAudited(db, 0);
    var i :| 0 <= i < |second.leases| && RowShown(db, 1, 2, second.leases[i]);
    var k :| 0 <= k < |first.leases| && RowShown(db, 0, 1, first.leases[k]);
    assert audits == [second, first];
    TiedFences(second, first, i, k);
    GlobalOrderReportedIffTies(run, readings);
  }

  lemma TiedFences(a: AuditRecord, b: AuditRecord, i: nat, k: nat)
    requires a.ok && b.ok && i < |a.leases| && k < |b.leases|
    requires a.leases[i].issuedAt == b.leases[k].issuedAt && a.leases[i].fence >= b.leases[k].fence
    ensures !Pairwise(AllFences([a, b]), TiesInOrder())
  {
    assert [a, b][..1] == [a] && [a][..0] == [];
    var rows := AllFences([a, b]);
    assert rows == FencedRows(a) + FencedRows(b) by {
      assert AllFences([a]) == FencedRows(a);
    }
    assert !TiesInOrder()(rows[i], rows[|a.leases| + k]);
  }

  lemma JustSubmitted() returns (run: T.TimedRun)
    ensures T.TimedValid(run)
    ensures var t := T.TimedAfter(run);
      && t.core.db == InsertJob(EMPTY, 1, 7, 0, 0)
      && t.now == 0 && t.skews == map[] && t.renewals == map[] && T.Reading(0, 0, 0) in t.readings
  {
    var e1, e2 := T.Free(SubmitCheck(0, 7, None)), T.Free(SubmitInsert(0, 1, 0, 0));
    T.TimedExtend([], e1);
    T.TimedExtend([e1], e2);
    run := [e1] + [e2];
    T.TimedExtend(run, T.ReadClock(0));
    run := run + [T.ReadClock(0)];
  }

  lemma JustDispatched() returns (run: T.TimedRun)
    ensures T.TimedValid(run)
    ensures var t := T.TimedAfter(run);
      && HasStatus(t.core.db, 1, Dispatched) && t.core.db.leases.Keys == {1} && t.core.db.leases[1].expiresAt == 60_000
      && |t.core.db.history| == 1
      && t.now == 0 && t.skews == map[] && t.renewals == map[1 := T.Renewal(T.Reading(0, 0, 0), LEASE_TTL_MS, 0)]
  {
    run := JustSubmitted();
    var dispatch := T.TimedDispatch(T.Reading(0, 0, 0), 5, 1, 0, 0);
    T.TimedExtend(run, dispatch);
    run := run + [dispatch];
  }

  /** A coordinator two minutes ahead reaps a lease the moment it is issued, its worker alive. */
  lemma SkewedReaperTakesFreshLease() returns (run: T.TimedRun)
    ensures T.TimedValid(run) && T.TimedAfter(run).now == 0
    ensures HasStatus(T.TimedAfter(run).core.db, 1, Pending) && 1 !in T.TimedAfter(run).core.db.leases
    ensures |T.TimedAfter(run).core.db.history| == 1
  {
    run := SkewedReading();
    var reap := T.TimedReap(T.Reading(1, 0, 120_000), [1], {}, 0);
    T.TimedExtend(run, reap);
    run := run + [reap];
  }

  lemma SkewedReading() returns (run: T.TimedRun)
    ensures T.TimedValid(run)
    ensures var t := T.TimedAfter(run);
      && HasStatus(t.core.db, 1, Dispatched) && t.core.db.leases.Keys == {1} && t.core.db.leases[1].expiresAt == 60_000
      && |t.core.db.history| == 1 && t.now == 0 && T.Reading(1, 0, 120_000) in t.readings
  {
    run := JustDispatched();
    T.TimedExtend(run, T.SetSkew(1, 120_000));
    run := run + [T.SetSkew(1, 120_000)];
    T.TimedExtend(run, T.ReadClock(1));
    run := run + [T.ReadClock(1)];
  }

  /** A worker that dies right after its dispatch: 20 s later no coordinator would reap its lease. */
  lemma NotRecoveredIn20Seconds() returns (run: T.TimedRun)
    ensures T.TimedValid(run)
    ensures var t := T.TimedAfter(run);
      && HasStatus(t.core.db, 1, Dispatched)
      && 1 in t.renewals && t.renewals[1].written == t.renewals[1].reading.at == t.now - 20_000
      && forall c :: !T.Expired(t, T.Glance(t, c), 1)
  {
    run := JustDispatched();
    T.TimedExtend(run, T.Elapse(20_000));
    run := run + [T.Elapse(20_000)];
  }
}
