/** Oldest first: how long a pending job can wait for its dispatch. */
module QueueOrder {
  import opened Tables
  import opened Transactions
  import opened Protocol
  import opened Invariant
  import opened Growth

  /** The pending jobs created no later than the given one, itself included. */
  function Ahead(db: Db, job: JobId): set<JobId>
    requires job in db.jobs
  {
    set p | p in db.jobs && db.jobs[p].status == Pending && db.jobs[p].createdAt <= db.jobs[job].createdAt
  }

  /** The event puts a job created no later than the given one into the queue. */
  ghost predicate CutsIn(s: State, e: Event, job: JobId)
    requires Enabled(s, e) && job in s.db.jobs
  {
    var created := s.db.jobs[job].createdAt;
    || (e.SubmitInsert? && e.createdAt <= created)
    || (e.Reap? && exists p :: p in e.ids && p in s.db.jobs && s.db.jobs[p].createdAt <= created)
    || (e.FailTemp? && HasStatus(s.db, e.job, Dispatched) && s.db.jobs[e.job].createdAt <= created)
  }

  /** An event of a period in which dispatch goes oldest first and nobody cuts in. */
  ghost predicate Orderly(s: State, e: Event, job: JobId)
    requires Enabled(s, e) && job in s.db.jobs
  {
    !CutsIn(s, e, job) && (e.Dispatch? ==> Oldest(s.db, e.job))
  }

  ghost predicate OrderlyPeriod(run: Run, a: nat, b: nat, job: JobId)
    requires Valid(run) && a <= b <= |run| && job in StateAt(run, a).db.jobs
    decreases b
  {
    a == b || (
      OrderlyPeriod(run, a, b - 1, job)
      && (StateAtStep(run, b - 1); RunGrows(run, a, b - 1); Orderly(StateAt(run, b - 1), run[b - 1], job)))
  }

  function Dispatches(run: Run, a: nat, b: nat): nat
    requires a <= b <= |run|
    decreases b
  {
    if a == b then 0 else Dispatches(run, a, b - 1) + if run[b - 1].Dispatch? then 1 else 0
  }

  lemma WaitedBefore(s: State, e: Event, job: JobId, p: JobId)
    requires Enabled(s, e) && job in s.db.jobs && !CutsIn(s, e, job)
    requires HasStatus(Step(s, e).db, p, Pending) && Step(s, e).db.jobs[p].createdAt <= s.db.jobs[job].createdAt
    ensures HasStatus(s.db, p, Pending) && s.db.jobs[p].createdAt == Step(s, e).db.jobs[p].createdAt
    ensures e.Dispatch? && p == e.job ==> p in s.db.leases
  {
  }

  lemma QueueStep(s: State, e: Event, job: JobId)
    requires Enabled(s, e) && job in s.db.jobs && Orderly(s, e, job)
    requires StatusMatchesLease(s.db) && HasStatus(Step(s, e).db, job, Pending)
    requires Step(s, e).db.jobs[job].createdAt == s.db.jobs[job].createdAt
    ensures HasStatus(s.db, job, Pending)
    ensures Ahead(Step(s, e).db, job) <= Ahead(s.db, job)
    ensures e.Dispatch? ==> Ahead(Step(s, e).db, job) <= Ahead(s.db, job) - {e.job} && e.job in Ahead(s.db, job)
  {
    forall p | p in Ahead(Step(s, e).db, job)
      ensures p in Ahead(s.db, job) && (e.Dispatch? ==> p != e.job)
    {
      WaitedBefore(s, e, job, p);
    }
    WaitedBefore(s, e, job, job);
    assert job in PendingJobs(s.db);
  }

  lemma ShorterQueue(before: set<JobId>, after: set<JobId>, e: Event)
    requires after <= before && (e.Dispatch? ==> after <= before - {e.job} && e.job in before)
    ensures |after| + (if e.Dispatch? then 1 else 0) <= |before|
  {
    Smaller(after, if e.Dispatch? then before - {e.job} else before);
  }

  lemma TurnPassed(run: Run, a: nat, k: nat, job: JobId)
    requires Valid(run) && a <= k < |run| && job in StateAt(run, a).db.jobs
    requires OrderlyPeriod(run, a, k + 1, job) && HasStatus(StateAt(run, k + 1).db, job, Pending)
    ensures HasStatus(StateAt(run, k).db, job, Pending)
    ensures |Ahead(StateAt(run, k + 1).db, job)| + (if run[k].Dispatch? then 1 else 0) <=
      |Ahead(StateAt(run, k).db, job)|
  {
    var s, e := StateAt(run, k), run[k];
    StateAtStep(run, k);
    assert job in s.db.jobs by {
      RunGrows(run, a, k);
    }
    assert Step(s, e).db.jobs[job].createdAt == s.db.jobs[job].createdAt by {
      RunGrows(run, k, k + 1);
    }
    assert StatusMatchesLease(s.db) by {
      ReachableAt(run, k);
    }
    QueueStep(s, e, job);
    ShorterQueue(Ahead(s.db, job), Ahead(Step(s, e).db, job), e);
  }

  /**
   In an orderly period every dispatch brings a waiting job one place closer, so it waits for fewer
   dispatches than there were pending jobs created no later than it.
   */
  lemma {:induction false} DispatchedInTurn(run: Run, a: nat, b: nat, job: JobId)
    requires Valid(run) && a <= b <= |run| && job in StateAt(run, a).db.jobs
    requires OrderlyPeriod(run, a, b, job) && HasStatus(StateAt(run, b).db, job, Pending)
    ensures HasStatus(StateAt(run, a).db, job, Pending)
    ensures Dispatches(run, a, b) + |Ahead(StateAt(run, b).db, job)| <= |Ahead(StateAt(run, a).db, job)|
    ensures Dispatches(run, a, b) < |Ahead(StateAt(run, a).db, job)|
    decreases b
  {
    if a == b {
      assert Dispatches(run, a, b) == 0;
    } else {
      TurnPassed(run, a, b - 1, job);
      DispatchedInTurn(run, a, b - 1, job);
    }
    assert job in Ahead(StateAt(run, b).db, job);
    Smaller({job}, Ahead(StateAt(run, b).db, job));
  }

  lemma {:induction false} Smaller<T>(a: set<T>, b: set<T>)
    requires a <= b
    ensures |a| <= |b|
  {
    if a != {} {
      var x :| x in a;
      Smaller(a - {x}, b - {x});
    }
  }
}
