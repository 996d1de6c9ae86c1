/**
 The harness run against the system: what its final check can and cannot report on any run,
 with audits read at arbitrary and different moments, some reads failing.
 */
module HarnessVerdict {
  import opened Tables
  import opened Sequences
  import opened Protocol
  import opened Invariant
  import opened Growth
  import opened Safety
  import opened Submission
  import opened Audit
  import opened Harness

  /** When each of an audit's three reads happened (as a prefix length of the run), or failed. */
  datatype Reading = Reading(
    job: Option<JobId>,
    ok: bool,
    transitions: Option<nat>,
    commits: Option<nat>,
    leases: Option<nat>)

  ghost predicate Within(r: Option<nat>, run: Run) {
    r.Some? ==> r.value <= |run|
  }

  ghost predicate ReadsOf(run: Run, readings: seq<Reading>) {
    && (forall i :: 0 <= i < |readings| ==>
          Within(readings[i].transitions, run) && Within(readings[i].commits, run) && Within(readings[i].leases, run))
    && (forall i, k :: 0 <= i < k < |readings| ==> readings[i].job != readings[k].job)
  }

  ghost function ReadDb(run: Run, at: Option<nat>): Option<Db>
    requires Valid(run) && Within(at, run)
  {
    if at.Some? then Some(StateAt(run, at.value).db) else None
  }

  /** A null id is no valid UUID, so all reads for it fail. */
  ghost function AuditAt(run: Run, r: Reading): AuditRecord
    requires Valid(run) && Within(r.transitions, run) && Within(r.commits, run) && Within(r.leases, run)
  {
    if !r.ok || r.job.None? then AuditRecord(r.job, r.ok, [], [], [])
    else Audited(r.job.value, ReadDb(run, r.transitions), ReadDb(run, r.commits), ReadDb(run, r.leases))
  }

  ghost function AuditsAt(run: Run, readings: seq<Reading>): (audits: seq<AuditRecord>)
    requires Valid(run) && ReadsOf(run, readings)
    ensures |audits| == |readings|
    ensures forall i :: 0 <= i < |readings| ==> audits[i] == AuditAt(run, readings[i])
  {
    seq(|readings|, i requires 0 <= i < |readings| => AuditAt(run, readings[i]))
  }

  // One audit at a time

  lemma ReadInv(run: Run, at: Option<nat>)
    requires Valid(run) && Within(at, run) && at.Some?
    ensures FencesOrdered(ReadDb(run, at).value) && CommitsFinal(ReadDb(run, at).value)
  {
    ReachableAt(run, at.value);
  }

  lemma OneCommitShown(run: Run, r: Reading, i: int, k: int)
    requires Valid(run) && Within(r.transitions, run) && Within(r.commits, run) && Within(r.leases, run)
    requires AcceptedAt(AuditAt(run, r), i) && AcceptedAt(AuditAt(run, r), k)
    ensures i == k
  {
    ReadInv(run, r.commits);
    AuditedCommitIsUnique(ReadDb(run, r.commits).value, r.job.value);
  }

  lemma FencesShownRise(run: Run, r: Reading)
    requires Valid(run) && Within(r.transitions, run) && Within(r.commits, run) && Within(r.leases, run)
    ensures FencesRise(AuditAt(run, r))
  {
    if r.ok && r.job.Some? && r.leases.Some? {
      ReadInv(run, r.leases);
      AuditedFencesIncrease(ReadDb(run, r.leases).value, r.job.value);
    }
  }

  /** Whichever of the two reads came first, no fence shown exceeds the committed one. */
  lemma NoNewerFenceShown(run: Run, r: Reading, i: int, k: int)
    requires Valid(run) && Within(r.transitions, run) && Within(r.commits, run) && Within(r.leases, run)
    requires AcceptedAt(AuditAt(run, r), i) && 0 <= k < |AuditAt(run, r).leases|
    ensures AuditAt(run, r).leases[k].fence <= AuditAt(run, r).commits[i].fence
  {
    var job, p, q := r.job.value, r.commits.value, r.leases.value;
    ReadInv(run, r.commits);
    ReadInv(run, r.leases);
    AuditedCommitIsUnique(StateAt(run, p).db, job);
    AuditedFencesIncrease(StateAt(run, q).db, job);
    var shown := AuditAt(run, r).commits[i];
    var c := CommitRow(job, true, shown.fence, shown.worker, shown.at);
    var row :| RowShown(StateAt(run, q).db, row, job, AuditAt(run, r).leases[k]);
    var later := if p <= q then q else p;
    AcceptedCommitIsFinal(run, p, later, c);
    RunGrows(run, q, later);
    assert RowGrows(StateAt(run, q).db.history[row], StateAt(run, later).db.history[row]);
  }

  /** No audit is ever blamed for anything but being unreachable or unfinished. */
  lemma AuditsAreBlameless(run: Run, r: Reading, v: Violation)
    requires Valid(run) && Within(r.transitions, run) && Within(r.commits, run) && Within(r.leases, run)
    requires Faulty(AuditAt(run, r), v)
    ensures v.AuditUnreachable? || v.Lost?
  {
    var a := AuditAt(run, r);
    match v
    case DoubleCommit(_) =>
      var i, k :| i < k && AcceptedAt(a, i) && AcceptedAt(a, k);
      OneCommitShown(run, r, i, k);
    case FencingNonmonotonicPerJob(_) => FencesShownRise(run, r);
    case StaleCommitAccepted(_, fence, newest) =>
      var i :| AcceptedAt(a, i) && a.commits[i].fence == fence;
      var k :| 0 <= k < |a.leases| && a.leases[k].fence == newest;
      NoNewerFenceShown(run, r, i, k);
    case _ =>
  }

  /** A job that was terminal when its commits and transitions were read is never `lost`. */
  lemma TerminalJobIsNotLost(run: Run, r: Reading, a: nat)
    requires Valid(run) && Within(r.transitions, run) && Within(r.commits, run) && Within(r.leases, run)
    requires r.ok && r.job.Some? && r.transitions.Some? && r.commits.Some?
    requires a <= r.transitions.value && a <= r.commits.value
    requires r.job.value in StateAt(run, a).db.jobs && StateAt(run, a).db.jobs[r.job.value].status.Terminal()
    ensures !Faulty(AuditAt(run, r), Lost(r.job))
  {
    var job, t, c := r.job.value, r.transitions.value, r.commits.value;
    var db := StateAt(run, a).db;
    assert TerminalEvidence(db) by {
      ReachableAt(run, a);
    }
    assert db.commits <= StateAt(run, c).db.commits && db.transitions <= StateAt(run, t).db.transitions by {
      RunGrows(run, a, t);
      RunGrows(run, a, c);
    }
    if db.jobs[job].status == Succeeded {
      var row :| row in db.commits && row.job == job;
      assert row in StateAt(run, c).db.commits;
      ReadInv(run, r.commits);
      AuditedCommitIsUnique(StateAt(run, c).db, job);
      assert AcceptedAt(AuditAt(run, r), 0);
    } else {
      var row :| row in db.transitions && row.job == job && row.to == db.jobs[job].status;
      assert row in StateAt(run, t).db.transitions;
      AuditedTransition(StateAt(run, t).db, row);
      assert ShowsTerminal(AuditAt(run, r));
    }
  }

  /**
   Exactly when a job is reported `lost`: the commits read hold no row of it, and the transitions read no
   record of it that says SUCCEEDED, FAILED or CANCELLED.
   */
  lemma LostExactly(run: Run, r: Reading)
    requires Valid(run) && Within(r.transitions, run) && Within(r.commits, run) && Within(r.leases, run)
    requires r.ok && r.job.Some? && r.transitions.Some? && r.commits.Some?
    ensures Faulty(AuditAt(run, r), Lost(r.job)) <==>
      && (forall c :: c in StateAt(run, r.commits.value).db.commits ==> c.job != r.job.value)
      && (forall t :: t in StateAt(run, r.transitions.value).db.transitions && t.job == r.job.value ==>
            t.to != Succeeded && t.to != Failed && t.to != Cancelled)
  {
    var a, job := AuditAt(run, r), r.job.value;
    var log := StateAt(run, r.transitions.value).db;
    ReadInv(run, r.commits);
    AuditedCommitIsUnique(StateAt(run, r.commits.value).db, job);
    TargetsShown(log, job, Succeeded);
    TargetsShown(log, job, Failed);
    TargetsShown(log, job, Cancelled);
    assert !ShowsTerminal(a) <==> forall i :: 0 <= i < |a.transitions| ==>
      a.transitions[i].to != Succeeded && a.transitions[i].to != Failed && a.transitions[i].to != Cancelled;
    assert (exists i :: AcceptedAt(a, i)) <==> |a.commits| > 0 by {
      assert |a.commits| > 0 ==> AcceptedAt(a, 0);
    }
  }

  /** The job has only ever been PENDING or DISPATCHED, and nobody has reported a permanent failure of it. */
  ghost predicate OnlyOpen(run: Run, n: nat, job: JobId)
    requires Valid(run) && n <= |run|
  {
    && (forall k :: 0 <= k <= n && job in StateAt(run, k).db.jobs ==>
          StateAt(run, k).db.jobs[job].status == Pending || StateAt(run, k).db.jobs[job].status == Dispatched)
    && (forall k :: 0 <= k < n && run[k].FailPerm? ==> run[k].job != job)
  }

  /** No trace of an ending in the tables, and whoever is cancelling a job knows it. */
  ghost predicate NoEnding(s: State, job: JobId) {
    && (forall c :: c in s.db.commits ==> c.job != job)
    && (forall t :: t in s.db.transitions && t.job == job ==> t.to == Pending || t.to == Dispatched)
    && (forall h :: h in s.handlers && s.handlers[h].Cancelling? ==> s.handlers[h].job in s.db.jobs)
  }

  lemma NoEndingStep(s: State, e: Event, job: JobId)
    requires Enabled(s, e) && NoEnding(s, job) && (e.FailPerm? ==> e.job != job)
    requires job in Step(s, e).db.jobs ==>
      Step(s, e).db.jobs[job].status == Pending || Step(s, e).db.jobs[job].status == Dispatched
    ensures NoEnding(Step(s, e), job)
  {
  }

  lemma {:induction false} OpenLeavesNoEnding(run: Run, n: nat, job: JobId)
    requires Valid(run) && n <= |run| && OnlyOpen(run, n, job)
    ensures NoEnding(StateAt(run, n), job)
    decreases n
  {
    if n > 0 {
      OpenLeavesNoEnding(run, n - 1, job);
      StateAtStep(run, n - 1);
      NoEndingStep(StateAt(run, n - 1), run[n - 1], job);
    }
  }

  /** Such a job is always reported lost. */
  lemma UnfinishedJobIsLost(run: Run, r: Reading)
    requires Valid(run) && Within(r.transitions, run) && Within(r.commits, run) && Within(r.leases, run)
    requires r.ok && r.job.Some? && r.transitions.Some? && r.commits.Some?
    requires OnlyOpen(run, r.transitions.value, r.job.value) && OnlyOpen(run, r.commits.value, r.job.value)
    ensures Faulty(AuditAt(run, r), Lost(r.job))
  {
    OpenLeavesNoEnding(run, r.transitions.value, r.job.value);
    OpenLeavesNoEnding(run, r.commits.value, r.job.value);
    LostExactly(run, r);
  }

  // Fence order across all audits

  /** The audit shows issued rows of its own job, fences strictly rising. */
  ghost predicate Sound(db: Db, a: AuditRecord) {
    && (forall i :: 0 <= i < |a.leases| ==> a.job.Some? && ShowsRow(db, a.job.value, a.leases[i]))
    && (forall i, k :: 0 <= i < k < |a.leases| ==> a.leases[i].fence < a.leases[k].fence)
  }

  lemma AuditIsSound(run: Run, r: Reading)
    requires Valid(run) && Within(r.transitions, run) && Within(r.commits, run) && Within(r.leases, run)
    ensures Sound(StateAt(run, |run|).db, AuditAt(run, r))
  {
    if r.ok && r.job.Some? && r.leases.Some? {
      var job, q := r.job.value, r.leases.value;
      var db, last := StateAt(run, q).db, StateAt(run, |run|).db;
      ReadInv(run, r.leases);
      AuditedFencesIncrease(db, job);
      assert HistoryGrows(db.history, last.history) by {
        RunGrows(run, q, |run|);
      }
      forall i | 0 <= i < |Leases(db, job)| ensures ShowsRow(last, job, Leases(db, job)[i]) {
        var k :| RowShown(db, k, job, Leases(db, job)[i]);
        assert RowGrows(db.history[k], last.history[k]);
        assert RowShown(last, k, job, Leases(db, job)[i]);
      }
    }
  }

  ghost predicate WasIssued(db: Db, f: Fenced) {
    && f.job.Some?
    && (exists k :: 0 <= k < |db.history| &&
          db.history[k].job == f.job.value && db.history[k].fence == f.fence && db.history[k].issuedAt == f.ts)
  }

  /** Fence order and time order do not contradict each other. */
  ghost function Agree(): (Fenced, Fenced) -> bool {
    (a: Fenced, b: Fenced) =>
      a.fence != b.fence && (a.ts < b.ts ==> a.fence < b.fence) && (b.ts < a.ts ==> b.fence < a.fence)
  }

  lemma IssuedRowsAgree(db: Db, a: Fenced, b: Fenced)
    requires FencesOrdered(db) && WasIssued(db, a) && WasIssued(db, b) && (a.job != b.job || a.fence != b.fence)
    ensures Agree()(a, b)
  {
    var i :| 0 <= i < |db.history|
      && db.history[i].job == a.job.value && db.history[i].fence == a.fence && db.history[i].issuedAt == a.ts;
    var k :| 0 <= k < |db.history|
      && db.history[k].job == b.job.value && db.history[k].fence == b.fence && db.history[k].issuedAt == b.ts;
    assert i != k;
  }

  /** Rows the audits of a database have shown, each under the job of one of the audits. */
  ghost predicate Collected(db: Db, audits: seq<AuditRecord>, rows: seq<Fenced>) {
    && Pairwise(rows, Agree())
    && forall f :: f in rows ==> WasIssued(db, f) && exists i :: 0 <= i < |audits| && audits[i].job == f.job
  }

  lemma {:induction false} CollectedFencesAgree(db: Db, audits: seq<AuditRecord>)
    requires FencesOrdered(db)
    requires forall i :: 0 <= i < |audits| ==> Sound(db, audits[i])
    requires forall i, k :: 0 <= i < k < |audits| ==> audits[i].job != audits[k].job
    ensures Collected(db, audits, AllFences(audits))
  {
    if audits != [] {
      var before, a := audits[..|audits| - 1], audits[|audits| - 1];
      CollectedFencesAgree(db, before);
      assert forall i :: 0 <= i < |before| ==> audits[i] == before[i];
      AuditedRowsAgree(db, a);
      CollectOneMore(db, before, a, AllFences(before), if a.ok then FencedRows(a) else []);
      assert audits == before + [a];
    }
  }

  lemma AuditedRowsAgree(db: Db, a: AuditRecord)
    requires FencesOrdered(db) && Sound(db, a)
    ensures Collected(db, [a], FencedRows(a))
  {
    var rows := FencedRows(a);
    forall i | 0 <= i < |rows| ensures WasIssued(db, rows[i]) && [a][0].job == rows[i].job {
      var l := a.leases[i];
      assert a.leases[i] == l && a.job.Some?;
      var k :| RowShown(db, k, a.job.value, l);
    }
    forall i, k | 0 <= i < k < |rows| ensures Agree()(rows[i], rows[k]) {
      IssuedRowsAgree(db, rows[i], rows[k]);
    }
  }

  lemma CollectOneMore(db: Db, before: seq<AuditRecord>, a: AuditRecord, earlier: seq<Fenced>, added: seq<Fenced>)
    requires FencesOrdered(db) && forall i :: 0 <= i < |before| ==> before[i].job != a.job
    requires Collected(db, before, earlier) && Collected(db, [a], added)
    ensures Collected(db, before + [a], earlier + added)
  {
    var audits := before + [a];
    forall f, g | f in earlier && g in added ensures Agree()(f, g) {
      IssuedRowsAgree(db, f, g);
    }
    PairwiseConcat(earlier, added, Agree());
    forall f | f in earlier + added
      ensures WasIssued(db, f) && exists i :: 0 <= i < |audits| && audits[i].job == f.job
    {
      if f in earlier {
        var i :| 0 <= i < |before| && before[i].job == f.job;
        assert audits[i].job == f.job;
      } else {
        assert audits[|before|].job == f.job;
      }
    }
  }

  lemma PairwiseConcat<T(!new)>(a: seq<T>, b: seq<T>, r: (T, T) -> bool)
    requires Pairwise(a, r) && Pairwise(b, r) && forall x, y :: x in a && y in b ==> r(x, y)
    ensures Pairwise(a + b, r)
  {
    forall i, k | 0 <= i < k < |a + b| ensures r((a + b)[i], (a + b)[k]) {
      assert i < |a| ==> a[i] in a;
      assert k >= |a| ==> b[k - |a|] in b;
    }
  }

  /** Rows issued in the same clock tick were collected in fence order. */
  ghost function TiesInOrder(): (Fenced, Fenced) -> bool {
    (a: Fenced, b: Fenced) => a.ts == b.ts ==> a.fence < b.fence
  }

  lemma RisingSnoc(s: seq<Fenced>, l: Fenced)
    ensures Rising(s + [l]) <==> Rising(s) && forall y :: y in s ==> y.fence < l.fence
  {
    var r := s + [l];
    if Rising(r) {
      forall i, k | 0 <= i < k < |s| ensures s[i].fence < s[k].fence {
        assert r[i].fence < r[k].fence;
      }
      forall i | 0 <= i < |s| ensures s[i].fence < l.fence {
        assert r[i].fence < r[|s|].fence;
      }
    } else {
      var i, k :| 0 <= i < k < |r| && r[i].fence >= r[k].fence;
      assert s[i] in s;
    }
  }

  lemma InsertedMembers(s: seq<Fenced>, x: Fenced)
    ensures forall y :: y in InsertLast(s, x, ByTime()) <==> y in s || y == x
  {
    InsertMembers(s, x, ByTime());
    var r := InsertLast(s, x, ByTime());
    assert forall y :: y in multiset(r) <==> y in multiset(s) + multiset{x};
    assert forall y :: y in r <==> y in multiset(r);
  }

  lemma {:induction false} InsertRises(s: seq<Fenced>, x: Fenced)
    requires Rising(s)
    requires forall y :: y in s ==> if y.ts <= x.ts then y.fence < x.fence else x.fence < y.fence
    ensures Rising(InsertLast(s, x, ByTime()))
  {
    if s == [] || s[|s| - 1].ts <= x.ts {
      assert forall y :: y in s ==> y.fence <= s[|s| - 1].fence;
      RisingSnoc(s, x);
    } else {
      var before, l := s[..|s| - 1], s[|s| - 1];
      assert s == before + [l];
      RisingSnoc(before, l);
      InsertRises(before, x);
      InsertedMembers(before, x);
      RisingSnoc(InsertLast(before, x, ByTime()), l);
    }
  }

  lemma {:induction false} InsertReveals(s: seq<Fenced>, x: Fenced)
    requires Rising(InsertLast(s, x, ByTime()))
    ensures Rising(s)
    ensures forall y :: y in s && y.ts <= x.ts ==> y.fence < x.fence
  {
    if s == [] || s[|s| - 1].ts <= x.ts {
      RisingSnoc(s, x);
    } else {
      var before, l := s[..|s| - 1], s[|s| - 1];
      assert s == before + [l];
      InsertedMembers(before, x);
      RisingSnoc(InsertLast(before, x, ByTime()), l);
      InsertReveals(before, x);
      RisingSnoc(before, l);
    }
  }

  /** When time and fences agree, the time-sorted fences rise exactly when ties came in fence order. */
  lemma {:induction false} RisesIffTiesInOrder(rows: seq<Fenced>)
    requires Pairwise(rows, Agree())
    ensures Rising(StableSort(rows, ByTime())) <==> Pairwise(rows, TiesInOrder())
  {
    if rows != [] {
      var before, x := rows[..|rows| - 1], rows[|rows| - 1];
      assert rows == before + [x];
      PairwiseSnoc(before, x, Agree());
      RisesIffTiesInOrder(before);
      PairwiseSnoc(before, x, TiesInOrder());
      SortMembers(before, ByTime());
      InsertRisesIff(StableSort(before, ByTime()), x);
    }
  }

  lemma InsertRisesIff(s: seq<Fenced>, x: Fenced)
    requires forall y :: y in s ==> Agree()(y, x)
    ensures Rising(InsertLast(s, x, ByTime())) <==> Rising(s) && forall y :: y in s ==> TiesInOrder()(y, x)
  {
    if Rising(InsertLast(s, x, ByTime())) {
      InsertReveals(s, x);
    } else if Rising(s) && forall y :: y in s ==> TiesInOrder()(y, x) {
      InsertRises(s, x);
    }
  }

  /**
   The global fence report appears exactly when two rows stamped in the same database clock tick
   were collected against fence order; a clock that advances between issues rules it out.
   */
  lemma GlobalOrderReportedIffTies(run: Run, readings: seq<Reading>)
    requires Valid(run) && ReadsOf(run, readings)
    ensures GloballyMonotonic(AuditsAt(run, readings)) <==> Pairwise(AllFences(AuditsAt(run, readings)), TiesInOrder())
    ensures StrictClock(After(run).db) ==> GloballyMonotonic(AuditsAt(run, readings))
  {
    var audits := AuditsAt(run, readings);
    var db := StateAt(run, |run|).db;
    assert run[..|run|] == run;
    assert FencesOrdered(db) by {
      ReachableAt(run, |run|);
    }
    forall i | 0 <= i < |audits| ensures Sound(db, audits[i]) {
      AuditIsSound(run, readings[i]);
    }
    CollectedFencesAgree(db, audits);
    RisesIffTiesInOrder(AllFences(audits));
    if StrictClock(db) {
      var rows := AllFences(audits);
      forall i, k | 0 <= i < k < |rows| ensures TiesInOrder()(rows[i], rows[k]) {
        assert rows[i] in rows && rows[k] in rows;
        StrictIssuesNeverTie(db, rows[i], rows[k]);
      }
    }
  }

  /** The database clock advanced between any two issues. */
  ghost predicate StrictClock(db: Db) {
    forall i, k :: 0 <= i < k < |db.history| ==> db.history[i].issuedAt < db.history[k].issuedAt
  }

  lemma StrictIssuesNeverTie(db: Db, a: Fenced, b: Fenced)
    requires StrictClock(db) && WasIssued(db, a) && WasIssued(db, b) && a.fence != b.fence
    ensures a.ts != b.ts
  {
    var i :| 0 <= i < |db.history|
      && db.history[i].job == a.job.value && db.history[i].fence == a.fence && db.history[i].issuedAt == a.ts;
    var k :| 0 <= k < |db.history|
      && db.history[k].job == b.job.value && db.history[k].fence == b.fence && db.history[k].issuedAt == b.ts;
    assert i < k || k < i;
  }

  // Deduplication

  /** The harness tracks ids out of submit replies of the run. */
  ghost predicate TrackedFrom(run: Run, tracked: seq<Tracked>)
    requires Valid(run)
  {
    IsDict(tracked) && forall i :: 0 <= i < |tracked| ==> Reply(tracked[i].key, tracked[i].job) in After(run).replies
  }

  /** A key is tracked twice only when one of its answers was null and another was its job. */
  lemma TrackedTwiceIffNullId(run: Run, tracked: seq<Tracked>, key: Key)
    requires Valid(run) && TrackedFrom(run, tracked)
    ensures TwoJobs(tracked, key) <==> Unsortable(tracked, key)
  {
    if TwoJobs(tracked, key) {
      var i, k :| 0 <= i < k < |tracked| && tracked[i].key == key && tracked[k].key == key;
      if tracked[i].job.Some? && tracked[k].job.Some? {
        assert run[..|run|] == run;
        SubmitIsIdempotent(run, |run|, |run|, Reply(key, tracked[i].job), Reply(key, tracked[k].job));
      }
      assert tracked[i] in tracked && tracked[k] in tracked;
    }
    if Unsortable(tracked, key) {
      var t :| t in tracked && t.key == key && t.job.Some?;
      var i :| 0 <= i < |tracked| && tracked[i] == Tracked(None, key);
      var k :| 0 <= k < |tracked| && tracked[k] == t;
      assert tracked[if i < k then i else k].key == key && tracked[if i < k then k else i].key == key;
    }
  }

  /** Where every recovery read of a submit succeeded, no key is tracked twice. */
  lemma ReliableReadsTrackOnce(run: Run, tracked: seq<Tracked>, key: Key)
    requires Valid(run) && TrackedFrom(run, tracked) && forall k :: !RecoveryReadFailed(run, k, key)
    ensures !TwoJobs(tracked, key)
  {
    TrackedTwiceIffNullId(run, tracked, key);
    NullReplyIffReadFailed(run, key);
  }

  /**
   The harness check itself, run on audits of any run: it raises exactly when a key was answered both
   with null and with its job; otherwise it reports unreachable or unfinished jobs, and fence order for
   tied timestamps, and nothing else.
   */
  method VerifyRun(ghost run: Run, ghost readings: seq<Reading>, tracked: seq<Tracked>, audits: seq<AuditRecord>)
    returns (violations: Option<seq<Violation>>)
    requires Valid(run) && ReadsOf(run, readings) && TrackedFrom(run, tracked)
    requires audits == AuditsAt(run, readings)
    ensures violations.None? <==> exists key :: Unsortable(tracked, key)
    ensures violations.Some? ==>
      && (forall v :: v in violations.value ==> v.AuditUnreachable? || v.Lost? || v.FencingGlobalNonmonotonic?)
      && (StrictClock(After(run).db) ==> forall v :: v in violations.value ==> !v.FencingGlobalNonmonotonic?)
  {
    violations := Verify(tracked, audits);
    if violations.None? {
      return;
    }
    forall v | v in violations.value && !v.FencingGlobalNonmonotonic?
      ensures v.AuditUnreachable? || v.Lost?
    {
      if v.Dedup? {
        TrackedTwiceIffNullId(run, tracked, v.key);
      } else {
        var i :| 0 <= i < |audits| && Faulty(audits[i], v);
        AuditsAreBlameless(run, readings[i], v);
      }
    }
    GlobalOrderReportedIffTies(run, readings);
  }
}
