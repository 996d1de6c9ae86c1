/** When a lease can and cannot be reaped, to the millisecond, in every run and under any skews. */
module LeaseBounds {
  import opened Tables
  import opened Protocol
  import opened Invariant
  import opened Timed

  lemma {:induction false} TimedValidPrefix(run: TimedRun, k: nat)
    requires TimedValid(run) && k <= |run|
    ensures TimedValid(run[..k])
    decreases |run|
  {
    if k == |run| {
      assert run[..k] == run;
    } else {
      TimedValidPrefix(run[..|run| - 1], k);
      assert run[..|run| - 1][..k] == run[..k];
    }
  }

  function TimedAt(run: TimedRun, k: nat): TimedState
    requires TimedValid(run) && k <= |run|
  {
    TimedValidPrefix(run, k);
    TimedAfter(run[..k])
  }

  lemma TimedAtStep(run: TimedRun, k: nat)
    requires TimedValid(run) && k < |run|
    ensures TimedEnabled(TimedAt(run, k), run[k])
    ensures TimedAt(run, k + 1) == TimedStep(TimedAt(run, k), run[k])
  {
    TimedValidPrefix(run, k + 1);
    assert run[..k + 1][..k] == run[..k];
  }

  /** A lease expires its TTL after the clock reading it was last written with. */
  ghost predicate ExpiriesMatch(t: TimedState) {
    forall j :: j in t.core.db.leases ==>
      && j in t.renewals
      && (t.renewals[j].ttl == 60_000 || t.renewals[j].ttl == 15_000)
      && t.core.db.leases[j].expiresAt == t.renewals[j].reading.Seen() + t.renewals[j].ttl
  }

  /** The lease rows a step leaves are old rows, except the one a dispatch or heartbeat writes. */
  lemma LeaseRowsOf(s: State, e: Event)
    requires Enabled(s, e) && !e.Dispatch? && !e.Heartbeat?
    ensures forall j :: j in Step(s, e).db.leases ==> j in s.db.leases && Step(s, e).db.leases[j] == s.db.leases[j]
  {
  }

  lemma ExpiryStep(t: TimedState, te: TimedEvent)
    requires TimedEnabled(t, te) && ExpiriesMatch(t)
    ensures ExpiriesMatch(TimedStep(t, te))
  {
    if te.Free? || te.TimedReap? {
      CoreEnabled(t, te);
      LeaseRowsOf(t.core, Core(te).value);
    }
  }

  lemma {:induction false} ExpiriesAlwaysMatch(run: TimedRun)
    requires TimedValid(run)
    ensures ExpiriesMatch(TimedAfter(run))
  {
    if run != [] {
      ExpiriesAlwaysMatch(run[..|run| - 1]);
      ExpiryStep(TimedAfter(run[..|run| - 1]), run[|run| - 1]);
    }
  }

  /**
   A lease of a DISPATCHED job is up for reaping by a reading exactly when that was made more than the TTL
   after the reading behind the lease's last writing, corrected by writer's minus reaper's skew.
   */
  lemma ReapableExactly(run: TimedRun, r: Reading, job: JobId)
    requires TimedValid(run) && HasStatus(TimedAfter(run).core.db, job, Dispatched)
    ensures var t := TimedAfter(run);
      && job in t.core.db.leases && job in t.renewals
      && var w := t.renewals[job];
         Expired(t, r, job) <==> r.at - w.reading.at > w.ttl + w.reading.skew - r.skew
  {
    TimedReachable(run);
    ExpiriesAlwaysMatch(run);
  }

  ghost predicate SkewsWithin(run: TimedRun, bound: int) {
    bound >= 0 && forall k :: 0 <= k < |run| && run[k].SetSkew? ==> -bound <= run[k].skew <= bound
  }

  /** Clock readings lie in the past and, like the skews, within the bound; so do those leases were written with. */
  ghost predicate ClocksSound(t: TimedState, bound: int) {
    && bound >= 0
    && (forall c :: c in t.skews ==> -bound <= t.skews[c] <= bound)
    && (forall r :: r in t.readings ==> r.at <= t.now && -bound <= r.skew <= bound)
    && (forall j :: j in t.renewals ==>
          && t.renewals[j].reading.at <= t.renewals[j].written <= t.now
          && -bound <= t.renewals[j].reading.skew <= bound)
  }

  lemma ClocksStep(t: TimedState, te: TimedEvent, bound: int)
    requires TimedEnabled(t, te) && ClocksSound(t, bound) && (te.SetSkew? ==> -bound <= te.skew <= bound)
    ensures ClocksSound(TimedStep(t, te), bound)
  {
  }

  lemma {:induction false} ClocksStaySound(run: TimedRun, bound: int)
    requires TimedValid(run) && SkewsWithin(run, bound)
    ensures ClocksSound(TimedAfter(run), bound)
  {
    if run != [] {
      var before := run[..|run| - 1];
      assert SkewsWithin(before, bound);
      ClocksStaySound(before, bound);
      ClocksStep(TimedAfter(before), run[|run| - 1], bound);
    }
  }

  /** At this moment the job's lease, if any, rests on a recent enough clock reading. */
  ghost predicate Fresh(t: TimedState, job: JobId, bound: int) {
    job in t.core.db.leases && job in t.renewals ==>
      t.now - t.renewals[job].reading.at <= t.renewals[job].ttl - 2 * bound
  }

  lemma FreshIsNotExpired(t: TimedState, r: Reading, job: JobId, bound: int)
    requires ClocksSound(t, bound) && ExpiriesMatch(t) && Fresh(t, job, bound) && r in t.readings
    ensures !Expired(t, r, job)
  {
  }

  /**
   Skews within `bound`: a job whose first heartbeat takes effect within 60 s - 2*bound of the clock reading
   of its dispatch, and every later one within 15 s - 2*bound of the reading of the one before, is reaped
   by no coordinator at any point of the run, however old the readings the reapers act on.
   */
  lemma TimelyHeartbeatsAreNeverReaped(run: TimedRun, job: JobId, bound: int, k: nat)
    requires TimedValid(run) && SkewsWithin(run, bound)
    requires forall i :: 0 <= i <= |run| ==> Fresh(TimedAt(run, i), job, bound)
    requires k < |run| && run[k].TimedReap?
    ensures job !in run[k].ids
  {
    TimedAtStep(run, k);
    TimedValidPrefix(run, k);
    assert SkewsWithin(run[..k], bound);
    ClocksStaySound(run[..k], bound);
    ExpiriesAlwaysMatch(run[..k]);
    FreshIsNotExpired(TimedAt(run, k), run[k].reading, job, bound);
  }

  /** A reading made more than TTL + 2*bound after a lease's own makes the reap take it unless locked. */
  lemma OverdueLeaseIsReaped(run: TimedRun, te: TimedEvent, job: JobId, bound: int)
    requires TimedValid(run) && SkewsWithin(run, bound)
    requires te.TimedReap? && TimedEnabled(TimedAfter(run), te) && job !in te.locked
    requires HasStatus(TimedAfter(run).core.db, job, Dispatched) && job in TimedAfter(run).renewals
    requires var w := TimedAfter(run).renewals[job];
      te.reading.at - w.reading.at > w.ttl + 2 * bound
    ensures HasStatus(TimedStep(TimedAfter(run), te).core.db, job, Pending)
    ensures job !in TimedStep(TimedAfter(run), te).core.db.leases
  {
    ReapableExactly(run, te.reading, job);
    ClocksStaySound(run, bound);
    assert Expired(TimedAfter(run), te.reading, job);
  }

  /** A heartbeat brings the expiry forward exactly if its reading came too soon after the lease's last one. */
  lemma EarlyHeartbeatShortensLease(run: TimedRun, te: TimedEvent)
    requires TimedValid(run) && te.TimedHeartbeat? && TimedEnabled(TimedAfter(run), te)
    requires Holds(TimedAfter(run).core.db, te.job, te.worker, te.token)
    ensures var t := TimedAfter(run);
      var t' := TimedStep(t, te);
      && te.job in t.renewals && te.job in t'.core.db.leases
      && var w := t.renewals[te.job];
         t'.core.db.leases[te.job].expiresAt < t.core.db.leases[te.job].expiresAt <==>
           te.reading.at - w.reading.at < w.ttl - 15_000 + w.reading.skew - te.reading.skew
  {
    ExpiriesAlwaysMatch(run);
  }

  // Recovery

  /** The clock reading of the last reap that found no row locked; the start of the run before the first. */
  function LastFullReap(run: TimedRun): int {
    if run == [] then 0
    else
      var te := run[|run| - 1];
      if te.TimedReap? && te.locked == {} then te.reading.at else LastFullReap(run[..|run| - 1])
  }

  /** At the last full reap a lease was not yet overdue, or it has been written since. */
  ghost predicate Swept(t: TimedState, last: int, bound: int) {
    && last <= t.now
    && forall j :: HasStatus(t.core.db, j, Dispatched) && j in t.renewals ==>
         last - t.renewals[j].reading.at <= t.renewals[j].ttl + 2 * bound || last <= t.renewals[j].written
  }

  lemma DispatchedAfter(t: TimedState, te: TimedEvent, job: JobId)
    requires TimedEnabled(t, te) && HasStatus(TimedStep(t, te).core.db, job, Dispatched)
    requires !te.TimedDispatch? || te.job != job
    ensures HasStatus(t.core.db, job, Dispatched)
  {
    if Core(te).Some? {
      CoreEnabled(t, te);
    }
  }

  lemma SweptStep(t: TimedState, te: TimedEvent, last: int, bound: int)
    requires TimedEnabled(t, te) && StatusMatchesLease(t.core.db) && ExpiriesMatch(t) && ClocksSound(t, bound)
    requires Swept(t, last, bound)
    ensures Swept(TimedStep(t, te), if te.TimedReap? && te.locked == {} then te.reading.at else last, bound)
  {
    var t' := TimedStep(t, te);
    var last' := if te.TimedReap? && te.locked == {} then te.reading.at else last;
    forall j | HasStatus(t'.core.db, j, Dispatched) && j in t'.renewals
      ensures last' - t'.renewals[j].reading.at <= t'.renewals[j].ttl + 2 * bound || last' <= t'.renewals[j].written
    {
      if !te.TimedDispatch? || te.job != j {
        DispatchedAfter(t, te, j);
        if te.TimedReap? && te.locked == {} {
          NotTakenIsNotOverdue(t, te, j, bound);
        }
      }
    }
  }

  lemma NotTakenIsNotOverdue(t: TimedState, te: TimedEvent, job: JobId, bound: int)
    requires TimedEnabled(t, te) && te.TimedReap? && te.locked == {}
    requires StatusMatchesLease(t.core.db) && ExpiriesMatch(t) && ClocksSound(t, bound)
    requires HasStatus(t.core.db, job, Dispatched) && HasStatus(TimedStep(t, te).core.db, job, Dispatched)
    ensures job in t.renewals && te.reading.at - t.renewals[job].reading.at <= t.renewals[job].ttl + 2 * bound
  {
    assert job !in te.ids;
    assert !Expired(t, te.reading, job);
  }

  lemma {:induction false} AlwaysSwept(run: TimedRun, bound: int)
    requires TimedValid(run) && SkewsWithin(run, bound)
    ensures Swept(TimedAfter(run), LastFullReap(run), bound)
  {
    if run != [] {
      var before := run[..|run| - 1];
      assert SkewsWithin(before, bound);
      AlwaysSwept(before, bound);
      ClocksStaySound(before, bound);
      ExpiriesAlwaysMatch(before);
      assert StatusMatchesLease(TimedAfter(before).core.db) by {
        TimedReachable(before);
      }
      SweptStep(TimedAfter(before), run[|run| - 1], LastFullReap(before), bound);
    }
  }

  /**
   How long a lease can outlive its last renewal: if the last full reap of any coordinator read its clock at
   most `period` ago, a lease still standing rests on a reading at most TTL + 2*bound + period old, or was
   written within that period.
   */
  lemma RecoveryBound(run: TimedRun, job: JobId, bound: int, period: int)
    requires TimedValid(run) && SkewsWithin(run, bound)
    requires HasStatus(TimedAfter(run).core.db, job, Dispatched)
    requires TimedAfter(run).now - LastFullReap(run) <= period
    ensures var t := TimedAfter(run);
      && job in t.renewals
      && var w := t.renewals[job];
         t.now - w.reading.at <= w.ttl + 2 * bound + period || t.now - w.written <= period
  {
    AlwaysSwept(run, bound);
    ReapableExactly(run, Glance(TimedAfter(run), 0), job);
  }
}
