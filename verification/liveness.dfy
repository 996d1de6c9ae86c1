/** No job is stranded: from every reachable state a finite run of ordinary steps finishes it. */
module Liveness {
  import opened Tables
  import opened Transactions
  import opened Protocol
  import opened Invariant
  import opened Timed

  lemma {:induction false} OldestOf(db: Db, s: set<JobId>) returns (job: JobId)
    requires s != {} && s <= PendingJobs(db)
    ensures job in s && forall p :: p in s ==> db.jobs[job].createdAt <= db.jobs[p].createdAt
    decreases s
  {
    job :| job in s;
    assert forall p :: p in s ==> p == job || p in s - {job};
    if s - {job} != {} {
      var other := OldestOf(db, s - {job});
      if db.jobs[other].createdAt < db.jobs[job].createdAt {
        job := other;
      }
    }
  }

  lemma OldestExists(db: Db) returns (job: JobId)
    requires PendingJobs(db) != {}
    ensures Oldest(db, job)
  {
    job := OldestOf(db, PendingJobs(db));
  }

  lemma FreshHandler(s: State) returns (h: nat)
    ensures h !in s.handlers
  {
    h := FreshIn(s.handlers.Keys);
  }

  lemma {:induction false} FreshIn(used: set<nat>) returns (h: nat)
    ensures forall x :: x in used ==> x < h
    decreases used
  {
    if used == {} {
      h := 0;
    } else {
      var x :| x in used;
      h := FreshIn(used - {x});
      assert forall y :: y in used ==> y in used - {x} || y == x;
      h := if h <= x then x + 1 else h;
    }
  }

  /**
   The steps recovery needs: time passing, looks at the clock, one full reaper tick, dispatches of the oldest job,
   and the lookup and commit of a live lease holder's result.
   */
  ghost predicate RecoveryStep(t: TimedState, te: TimedEvent) {
    match te
    case Elapse(_) => true
    case ReadClock(_) => true
    case TimedReap(_, _, locked, _) => locked == {}
    case TimedDispatch(_, _, job, _, _) => Oldest(t.core.db, job) && job !in t.core.db.leases
    case Free(e) => e.ResultLookup? || e.ResultWrite?
    case _ => false
  }

  /** Recovery steps, each enabled in its turn, after which the job has succeeded. */
  ghost predicate Finishes(run: TimedRun, steps: TimedRun, job: JobId)
    requires TimedValid(run)
    decreases |steps|
  {
    if steps == [] then HasStatus(TimedAfter(run).core.db, job, Succeeded)
    else
      && TimedEnabled(TimedAfter(run), steps[0])
      && RecoveryStep(TimedAfter(run), steps[0])
      && (TimedExtend(run, steps[0]); Finishes(run + [steps[0]], steps[1..], job))
  }

  lemma FinishesCons(run: TimedRun, te: TimedEvent, rest: TimedRun, job: JobId)
    requires TimedValid(run) && TimedEnabled(TimedAfter(run), te) && RecoveryStep(TimedAfter(run), te)
    requires TimedValid(run + [te]) && Finishes(run + [te], rest, job)
    ensures Finishes(run, [te] + rest, job)
  {
    var steps := [te] + rest;
    assert steps[0] == te && steps[1..] == rest;
  }

  /** Such steps extend the run to one of the system that ends with the job SUCCEEDED. */
  lemma {:induction false} FinishesIsARun(run: TimedRun, steps: TimedRun, job: JobId)
    requires TimedValid(run) && Finishes(run, steps, job)
    ensures TimedValid(run + steps) && HasStatus(TimedAfter(run + steps).core.db, job, Succeeded)
    decreases |steps|
  {
    if steps == [] {
      assert run + steps == run;
    } else {
      TimedExtend(run, steps[0]);
      FinishesIsARun(run + [steps[0]], steps[1..], job);
      assert run + steps == (run + [steps[0]]) + steps[1..];
    }
  }

  /** The holder of a DISPATCHED job's lease can commit it in two steps. */
  lemma CommitDispatched(run: TimedRun, job: JobId, value: Value) returns (steps: TimedRun)
    requires TimedValid(run) && HasStatus(TimedAfter(run).core.db, job, Dispatched)
    ensures Finishes(run, steps, job)
  {
    var s := TimedAfter(run).core;
    assert StatusMatchesLease(s.db) by {
      TimedReachable(run);
    }
    var h := FreshHandler(s);
    var lease := s.db.leases[job];
    var lookup := Free(ResultLookup(h, lease.worker, job, lease.token, value, true));
    TimedExtend(run, lookup);
    var write := Free(ResultWrite(h, 0, false));
    TimedExtend(run + [lookup], write);
    FinishesCons(run + [lookup], write, [], job);
    FinishesCons(run, lookup, [write] + [], job);
    steps := [lookup] + ([write] + []);
  }

  /** A PENDING job is reached by dispatching oldest first, then committed. */
  lemma {:induction false} FinishPending(run: TimedRun, job: JobId, c: Coordinator, worker: WorkerId, value: Value)
    returns (steps: TimedRun)
    requires TimedValid(run) && HasStatus(TimedAfter(run).core.db, job, Pending)
    ensures Finishes(run, steps, job)
    decreases |PendingJobs(TimedAfter(run).core.db)|
  {
    var db := TimedAfter(run).core.db;
    assert job in PendingJobs(db);
    var next := OldestExists(db);
    assert next !in db.leases by {
      TimedReachable(run);
    }
    var look := ReadClock(c);
    TimedExtend(run, look);
    var te := TimedDispatch(Glance(TimedAfter(run), c), worker, next, db.clock, 0);
    TimedExtend(run + [look], te);
    var db' := TimedAfter(run + [look] + [te]).core.db;
    assert PendingJobs(db') == PendingJobs(db) - {next};
    assert next in PendingJobs(db);
    var rest;
    if next == job {
      rest := CommitDispatched(run + [look] + [te], job, value);
    } else {
      rest := FinishPending(run + [look] + [te], job, c, worker, value);
    }
    FinishesCons(run + [look], te, rest, job);
    FinishesCons(run, look, [te] + rest, job);
    steps := [look] + ([te] + rest);
  }

  /** Waiting long enough and reaping returns a DISPATCHED job, its worker dead or alive, to PENDING. */
  lemma WaitAndReap(run: TimedRun, job: JobId, c: Coordinator) returns (wait: TimedEvent, reap: TimedEvent)
    requires TimedValid(run) && HasStatus(TimedAfter(run).core.db, job, Dispatched)
    ensures TimedEnabled(TimedAfter(run), wait) && wait.Elapse?
    ensures TimedValid(run + [wait]) && TimedValid(run + [wait] + [ReadClock(c)])
    ensures TimedEnabled(TimedAfter(run + [wait] + [ReadClock(c)]), reap)
    ensures reap.TimedReap? && reap.locked == {} && job in reap.ids
    ensures TimedValid(run + [wait] + [ReadClock(c)] + [reap])
    ensures HasStatus(TimedAfter(run + [wait] + [ReadClock(c)] + [reap]).core.db, job, Pending)
  {
    var t := TimedAfter(run);
    assert job in t.core.db.leases by {
      TimedReachable(run);
    }
    var gap := t.core.db.leases[job].expiresAt - t.now - Skew(t, c) + 1;
    wait := Elapse(if gap < 0 then 0 else gap);
    TimedExtend(run, wait);
    TimedExtend(run + [wait], ReadClock(c));
    var looked := run + [wait] + [ReadClock(c)];
    var r := Glance(TimedAfter(run + [wait]), c);
    assert Expired(TimedAfter(looked), r, job);
    reap := FullReap(TimedAfter(looked), r);
    TimedExtend(looked, reap);
    CoreEnabled(TimedAfter(looked), reap);
  }

  /** A coordinator's reaper tick that finds no row locked. */
  lemma FullReap(t: TimedState, r: Reading) returns (reap: TimedEvent)
    requires r in t.readings
    ensures reap.TimedReap? && reap.locked == {} && TimedEnabled(t, reap)
    ensures forall j :: Expired(t, r, j) ==> j in reap.ids
  {
    var ids := Enumerate(set j | j in t.core.db.leases && Expired(t, r, j));
    assert forall j :: j in ids <==> j in Elements(ids);
    reap := TimedReap(r, ids, {}, 0);
  }

  lemma FinishDispatched(run: TimedRun, job: JobId, c: Coordinator, worker: WorkerId, value: Value)
    returns (steps: TimedRun)
    requires TimedValid(run) && HasStatus(TimedAfter(run).core.db, job, Dispatched)
    ensures Finishes(run, steps, job)
    ensures exists te :: te in steps && te.TimedReap? && job in te.ids
  {
    var wait, reap := WaitAndReap(run, job, c);
    var rest := FinishPending(run + [wait] + [ReadClock(c)] + [reap], job, c, worker, value);
    FinishesCons(run + [wait] + [ReadClock(c)], reap, rest, job);
    FinishesCons(run + [wait], ReadClock(c), [reap] + rest, job);
    FinishesCons(run, wait, [ReadClock(c)] + ([reap] + rest), job);
    steps := [wait] + ([ReadClock(c)] + ([reap] + rest));
    assert steps[2] == reap;
  }

  /**
   From every reachable state every job that is not terminal can still succeed, even if the worker
   holding its lease is gone: the run waits, reaps, dispatches oldest first and commits on any
   worker of any coordinator.
   */
  lemma NoJobIsStranded(run: TimedRun, job: JobId, c: Coordinator, worker: WorkerId, value: Value)
    returns (steps: TimedRun)
    requires TimedValid(run)
    requires job in TimedAfter(run).core.db.jobs && !TimedAfter(run).core.db.jobs[job].status.Terminal()
    ensures Finishes(run, steps, job)
    ensures TimedValid(run + steps) && HasStatus(TimedAfter(run + steps).core.db, job, Succeeded)
    ensures HasStatus(TimedAfter(run).core.db, job, Dispatched) ==>
      exists te :: te in steps && te.TimedReap? && job in te.ids
  {
    if HasStatus(TimedAfter(run).core.db, job, Pending) {
      steps := FinishPending(run, job, c, worker, value);
    } else {
      steps := FinishDispatched(run, job, c, worker, value);
    }
    FinishesIsARun(run, steps, job);
  }
}
