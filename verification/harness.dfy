/** The chaos harness's final check, against a declarative reading of what it reports. */
module Harness {
  import opened Tables
  import opened Sequences
  import opened Audit

  /** One entry of the harness's job table: the id of a submit reply (possibly null) and its key. */
  datatype Tracked = Tracked(job: Option<JobId>, key: Key)

  datatype Violation =
    | Dedup(key: Key)
    | AuditUnreachable(job: Option<JobId>)
    | Lost(job: Option<JobId>)
    | DoubleCommit(job: Option<JobId>)
    | FencingNonmonotonicPerJob(job: Option<JobId>)
    | StaleCommitAccepted(job: Option<JobId>, fence: nat, newest: nat)
    | FencingGlobalNonmonotonic(job: Option<JobId>, fence: nat, previous: nat)

  datatype Fenced = Fenced(ts: int, fence: nat, job: Option<JobId>)

  // What a report means

  predicate TwoJobs(tracked: seq<Tracked>, key: Key) {
    exists i, k | 0 <= i < k < |tracked| :: tracked[i].key == key && tracked[k].key == key
  }

  /** The key is tracked under null and under a real id, which Python's sorted cannot compare. */
  predicate Unsortable(tracked: seq<Tracked>, key: Key) {
    Tracked(None, key) in tracked && exists t | t in tracked :: t.key == key && t.job.Some?
  }

  predicate ShowsTerminal(a: AuditRecord) {
    exists i | 0 <= i < |a.transitions| :: a.transitions[i].to.Terminal()
  }

  predicate AcceptedAt(a: AuditRecord, i: int) {
    0 <= i < |a.commits| && a.commits[i].accepted
  }

  predicate IsNewest(a: AuditRecord, fence: nat) {
    && (exists i | 0 <= i < |a.leases| :: a.leases[i].fence == fence)
    && (forall i | 0 <= i < |a.leases| :: a.leases[i].fence <= fence)
  }

  ghost predicate FencesRise(a: AuditRecord) {
    forall i, k :: 0 <= i < k < |a.leases| ==> a.leases[i].fence <= a.leases[k].fence
  }

  /** What a single audit is blamed for. */
  ghost predicate Faulty(a: AuditRecord, v: Violation) {
    match v
    case AuditUnreachable(job) => job == a.job && !a.ok
    case Lost(job) => job == a.job && a.ok && !ShowsTerminal(a) && forall i :: !AcceptedAt(a, i)
    case DoubleCommit(job) => job == a.job && a.ok && exists i, k :: i < k && AcceptedAt(a, i) && AcceptedAt(a, k)
    case FencingNonmonotonicPerJob(job) => job == a.job && a.ok && !FencesRise(a)
    case StaleCommitAccepted(job, fence, newest) =>
      job == a.job && a.ok && fence < newest && IsNewest(a, newest)
      && exists i :: AcceptedAt(a, i) && a.commits[i].fence == fence
    case _ => false
  }

  function FencedRows(a: AuditRecord): seq<Fenced> {
    Map(a.leases, (l: LeaseRecord) => Fenced(l.issuedAt, l.fence, a.job))
  }

  /** The fences of all reachable audits, in the order the audits came in. */
  function AllFences(audits: seq<AuditRecord>): seq<Fenced> {
    if audits == [] then []
    else
      var a := audits[|audits| - 1];
      AllFences(audits[..|audits| - 1]) + if a.ok then FencedRows(a) else []
  }

  function ByTime(): (Fenced, Fenced) -> bool {
    (a: Fenced, b: Fenced) => a.ts <= b.ts
  }

  predicate Rising(rows: seq<Fenced>) {
    forall i, k | 0 <= i < k < |rows| :: rows[i].fence < rows[k].fence
  }

  /** Sorted by issue time, the fences of all jobs strictly rise. */
  ghost predicate GloballyMonotonic(audits: seq<AuditRecord>) {
    Rising(StableSort(AllFences(audits), ByTime()))
  }

  // The check itself

  lemma MoreThanOne<T>(s: set<T>)
    ensures |s| > 1 <==> exists a, b :: a in s && b in s && a != b
  {
    if s != {} {
      var a :| a in s;
      if s - {a} == {} {
        assert s == {a};
      } else {
        var b :| b in s - {a};
        assert |s| == |s - {a} - {b}| + 2;
      }
    }
  }

  /** `tracked` is a dict: no id occurs twice. */
  ghost predicate IsDict(tracked: seq<Tracked>) {
    forall i, k :: 0 <= i < k < |tracked| ==> tracked[i].job != tracked[k].job
  }

  function JobsUnder(tracked: seq<Tracked>, key: Key): set<Option<JobId>> {
    set t | t in tracked && t.key == key :: t.job
  }

  lemma SeveralJobsAreTwo(tracked: seq<Tracked>, key: Key)
    requires IsDict(tracked)
    ensures |JobsUnder(tracked, key)| > 1 <==> TwoJobs(tracked, key)
  {
    var ids := JobsUnder(tracked, key);
    MoreThanOne(ids);
    if TwoJobs(tracked, key) {
      var i, k :| 0 <= i < k < |tracked| && tracked[i].key == key && tracked[k].key == key;
      assert tracked[i].job in ids && tracked[k].job in ids;
    }
    if |ids| > 1 {
      var a, b :| a in ids && b in ids && a != b;
      var i :| 0 <= i < |tracked| && tracked[i] == Tracked(a, key);
      var k :| 0 <= k < |tracked| && tracked[k] == Tracked(b, key);
      assert tracked[if i < k then i else k].key == key && tracked[if i < k then k else i].key == key;
    }
  }

  method CollectKeys(tracked: seq<Tracked>) returns (seenKeys: map<Key, set<Option<JobId>>>)
    ensures forall k :: k in seenKeys <==> JobsUnder(tracked, k) != {}
    ensures forall k :: k in seenKeys ==> seenKeys[k] == JobsUnder(tracked, k)
  {
    seenKeys := map[];
    for n := 0 to |tracked|
      invariant forall k :: k in seenKeys <==> JobsUnder(tracked[..n], k) != {}
      invariant forall k :: k in seenKeys ==> seenKeys[k] == JobsUnder(tracked[..n], k)
    {
      var t := tracked[n];
      assert tracked[..n + 1] == tracked[..n] + [t];
      forall k
        ensures JobsUnder(tracked[..n + 1], k) == JobsUnder(tracked[..n], k) + if k == t.key then {t.job} else {}
      {
        assert t in tracked[..n + 1];
      }
      seenKeys := seenKeys[t.key := (if t.key in seenKeys then seenKeys[t.key] else {}) + {t.job}];
    }
    assert tracked[..|tracked|] == tracked;
  }

  lemma UnsortableExactly(tracked: seq<Tracked>)
    ensures (exists key :: Unsortable(tracked, key)) <==>
      exists i, k :: 0 <= i < |tracked| && 0 <= k < |tracked|
        && tracked[i].key == tracked[k].key && tracked[i].job == None && tracked[k].job != None
  {
    if key :| Unsortable(tracked, key) {
      var i :| 0 <= i < |tracked| && tracked[i] == Tracked(None, key);
      var k :| 0 <= k < |tracked| && tracked[k].key == key && tracked[k].job.Some?;
      assert tracked[i].job == None;
    }
    forall i, k | 0 <= i < |tracked| && 0 <= k < |tracked|
      && tracked[i].key == tracked[k].key && tracked[i].job == None && tracked[k].job != None
      ensures Unsortable(tracked, tracked[k].key)
    {
      assert tracked[i] == Tracked(None, tracked[k].key) && tracked[k] in tracked;
    }
  }

  lemma NullAmongSeveral(tracked: seq<Tracked>, key: Key)
    ensures |JobsUnder(tracked, key)| > 1 && None in JobsUnder(tracked, key) <==> Unsortable(tracked, key)
  {
    var ids := JobsUnder(tracked, key);
    MoreThanOne(ids);
    if Unsortable(tracked, key) {
      var t :| t in tracked && t.key == key && t.job.Some?;
      assert Tracked(None, key).job in ids && t.job in ids;
    }
    if |ids| > 1 && None in ids {
      var id :| id in ids && id != None;
      assert Tracked(None, key) in tracked && Tracked(id, key) in tracked;
    }
  }

  /** The report prints the sorted ids of the key: with a null among them that is a TypeError, here None. */
  method CheckDedup(tracked: seq<Tracked>) returns (violations: Option<seq<Violation>>)
    requires IsDict(tracked)
    ensures violations.None? <==> exists key :: Unsortable(tracked, key)
    ensures violations.Some? ==> forall v :: v in violations.value <==> v.Dedup? && TwoJobs(tracked, v.key)
  {
    var seenKeys := CollectKeys(tracked);
    forall k
      ensures k in seenKeys && |seenKeys[k]| > 1 <==> TwoJobs(tracked, k)
      ensures k in seenKeys && |seenKeys[k]| > 1 && None in seenKeys[k] <==> Unsortable(tracked, k)
    {
      SeveralJobsAreTwo(tracked, k);
      NullAmongSeveral(tracked, k);
    }
    var found: seq<Violation> := [];
    var keys := seenKeys.Keys;
    while keys != {}
      invariant keys <= seenKeys.Keys
      invariant forall k :: Unsortable(tracked, k) ==> k in keys
      invariant forall v :: v in found <==> v.Dedup? && v.key !in keys && TwoJobs(tracked, v.key)
      decreases keys
    {
      var k :| k in keys;
      if |seenKeys[k]| > 1 {
        if None in seenKeys[k] {
          return None;
        }
        found := found + [Dedup(k)];
      }
      keys := keys - {k};
    }
    violations := Some(found);
  }

  method MaxFence(leases: seq<LeaseRecord>) returns (newest: nat)
    requires leases != []
    ensures exists i :: 0 <= i < |leases| && leases[i].fence == newest
    ensures forall i :: 0 <= i < |leases| ==> leases[i].fence <= newest
  {
    newest := leases[0].fence;
    for n := 1 to |leases|
      invariant exists i :: 0 <= i < n && leases[i].fence == newest
      invariant forall i :: 0 <= i < n ==> leases[i].fence <= newest
    {
      if leases[n].fence > newest {
        newest := leases[n].fence;
      }
    }
  }

  method CheckCommits(a: AuditRecord) returns (violations: seq<Violation>)
    requires a.ok
    ensures forall v :: v in violations <==> (v.Lost? || v.DoubleCommit?) && Faulty(a, v)
    ensures Lost(a.job) in violations <==>
      && (forall i :: 0 <= i < |a.commits| ==> !a.commits[i].accepted)
      && (forall i :: 0 <= i < |a.transitions| ==> a.transitions[i].to == Pending || a.transitions[i].to == Dispatched)
    ensures DoubleCommit(a.job) in violations <==>
      exists i, k :: 0 <= i < k < |a.commits| && a.commits[i].accepted && a.commits[k].accepted
    ensures forall v :: v in violations ==> v == Lost(a.job) || v == DoubleCommit(a.job)
  {
    var successful := 0;
    ghost var first, second := -1, -1;
    for n := 0 to |a.commits|
      invariant successful == 0 ==> forall i :: 0 <= i < n ==> !AcceptedAt(a, i)
      invariant successful >= 1 ==> AcceptedAt(a, first) && first < n
      invariant successful == 1 ==> forall i :: 0 <= i < n && AcceptedAt(a, i) ==> i == first
      invariant successful > 1 ==> first < second && AcceptedAt(a, second)
    {
      if a.commits[n].accepted {
        if successful == 0 {
          first := n;
        } else {
          second := n;
        }
        successful := successful + 1;
      }
    }
    violations := [];
    if successful == 0 && !ShowsTerminal(a) {
      violations := violations + [Lost(a.job)];
    }
    if successful > 1 {
      violations := violations + [DoubleCommit(a.job)];
    }
    assert forall i :: 0 <= i < |a.commits| ==> (AcceptedAt(a, i) <==> a.commits[i].accepted);
    assert successful > 1 ==> a.commits[first].accepted && a.commits[second].accepted;
  }

  /** The fault reports spelt out on the rows of the audit. */
  lemma FenceFaults(a: AuditRecord)
    requires a.ok
    ensures Faulty(a, FencingNonmonotonicPerJob(a.job)) <==>
      exists i, k :: 0 <= i < k < |a.leases| && a.leases[i].fence > a.leases[k].fence
    ensures forall fence, newest :: Faulty(a, StaleCommitAccepted(a.job, fence, newest)) <==>
      && (exists c :: c in a.commits && c.accepted && c.fence == fence) && fence < newest
      && (exists l :: l in a.leases && l.fence == newest) && (forall l :: l in a.leases ==> l.fence <= newest)
  {
    assert forall i :: 0 <= i < |a.commits| ==> (AcceptedAt(a, i) <==> a.commits[i].accepted);
    forall newest ensures IsNewest(a, newest) <==>
      (exists l :: l in a.leases && l.fence == newest) && (forall l :: l in a.leases ==> l.fence <= newest)
    {
      assert forall i :: 0 <= i < |a.leases| ==> a.leases[i] in a.leases;
    }
  }

  method CheckFences(a: AuditRecord) returns (violations: seq<Violation>)
    requires a.ok
    ensures forall v :: v in violations <==> (v.FencingNonmonotonicPerJob? || v.StaleCommitAccepted?) && Faulty(a, v)
    ensures FencingNonmonotonicPerJob(a.job) in violations <==>
      exists i, k :: 0 <= i < k < |a.leases| && a.leases[i].fence > a.leases[k].fence
    ensures forall fence, newest :: StaleCommitAccepted(a.job, fence, newest) in violations <==>
      && (exists c :: c in a.commits && c.accepted && c.fence == fence) && fence < newest
      && (exists l :: l in a.leases && l.fence == newest) && (forall l :: l in a.leases ==> l.fence <= newest)
  {
    FenceFaults(a);
    var falls := CheckTokens(a);
    var stale := CheckStale(a);
    violations := falls + stale;
  }

  method CheckTokens(a: AuditRecord) returns (violations: seq<Violation>)
    requires a.ok
    ensures forall v :: v in violations <==> v.FencingNonmonotonicPerJob? && Faulty(a, v)
  {
    violations := [];
    var tokens := Map(a.leases, (l: LeaseRecord) => l.fence);
    var upward := (x: nat, y: nat) => x <= y;
    SortedIffFixed(tokens, upward);
    assert FencesRise(a) <==> Pairwise(tokens, upward);
    if tokens != StableSort(tokens, upward) {
      violations := [FencingNonmonotonicPerJob(a.job)];
    }
  }

  method CheckStale(a: AuditRecord) returns (violations: seq<Violation>)
    requires a.ok
    ensures forall v :: v in violations <==> v.StaleCommitAccepted? && Faulty(a, v)
  {
    violations := [];
    if a.leases == [] {
      return;
    }
    var newest := MaxFence(a.leases);
    for n := 0 to |a.commits|
      invariant forall v :: v in violations <==>
        v.StaleCommitAccepted? && v.job == a.job && v.newest == newest && v.fence < newest
        && exists i :: 0 <= i < n && AcceptedAt(a, i) && a.commits[i].fence == v.fence
    {
      var c := a.commits[n];
      assert AcceptedAt(a, n) <==> c.accepted;
      if c.accepted && c.fence < newest {
        violations := violations + [StaleCommitAccepted(a.job, c.fence, newest)];
      }
    }
  }

  /** Row n is the first whose fence is not above its predecessor's. */
  predicate FirstFall(rows: seq<Fenced>, n: int) {
    && 0 < n < |rows| && rows[n].fence <= rows[n - 1].fence
    && forall i | 0 < i < n :: rows[i - 1].fence < rows[i].fence
  }

  predicate ReportsFall(rows: seq<Fenced>, n: int, violations: seq<Violation>) {
    && FirstFall(rows, n)
    && violations == [FencingGlobalNonmonotonic(rows[n].job, rows[n].fence, rows[n - 1].fence)]
  }

  /** The rows collected are those shown by the reachable audits. */
  lemma {:induction false} FencesCollected(audits: seq<AuditRecord>)
    ensures forall f :: f in AllFences(audits) <==>
      exists i, k :: 0 <= i < |audits| && audits[i].ok && 0 <= k < |audits[i].leases| &&
        f == Fenced(audits[i].leases[k].issuedAt, audits[i].leases[k].fence, audits[i].job)
  {
    if audits != [] {
      var before, a := audits[..|audits| - 1], audits[|audits| - 1];
      FencesCollected(before);
      assert forall i :: 0 <= i < |before| ==> audits[i] == before[i];
      forall f ensures f in AllFences(audits) <==>
        exists i, k :: 0 <= i < |audits| && audits[i].ok && 0 <= k < |audits[i].leases| &&
          f == Fenced(audits[i].leases[k].issuedAt, audits[i].leases[k].fence, audits[i].job)
      {
        if f in AllFences(before) {
          var i, k :| 0 <= i < |before| && before[i].ok && 0 <= k < |before[i].leases| &&
            f == Fenced(before[i].leases[k].issuedAt, before[i].leases[k].fence, before[i].job);
          assert audits[i].leases[k] == before[i].leases[k];
        }
        if a.ok && f in FencedRows(a) {
          var k :| 0 <= k < |a.leases| && FencedRows(a)[k] == f;
          assert audits[|before|].leases[k] == a.leases[k];
        }
        forall i, k | 0 <= i < |audits| && audits[i].ok && 0 <= k < |audits[i].leases| &&
          f == Fenced(audits[i].leases[k].issuedAt, audits[i].leases[k].fence, audits[i].job)
          ensures f in AllFences(audits)
        {
          if i < |before| {
            assert before[i].leases[k] == audits[i].leases[k];
          } else {
            assert FencedRows(a)[k] == f;
          }
        }
      }
    }
  }

  /** The last loop: one report at the first fence that does not rise, then stop. */
  method CheckOrder(audits: seq<AuditRecord>) returns (violations: seq<Violation>)
    ensures violations == [] <==> GloballyMonotonic(audits)
    ensures forall v :: v in violations ==> v.FencingGlobalNonmonotonic?
    ensures violations != [] ==>
      exists n :: ReportsFall(StableSort(AllFences(audits), ByTime()), n, violations)
  {
    var rows: seq<Fenced> := [];
    for n := 0 to |audits|
      invariant rows == AllFences(audits[..n])
    {
      assert audits[..n + 1][..n] == audits[..n];
      if audits[n].ok {
        rows := rows + FencedRows(audits[n]);
      }
    }
    assert audits[..|audits|] == audits;
    rows := StableSort(rows, ByTime());
    var last: int := -1;
    for n := 0 to |rows|
      invariant last == if n == 0 then -1 else rows[n - 1].fence
      invariant Rising(rows[..n])
    {
      if rows[n].fence <= last {
        assert !Rising(rows) by {
          assert rows[n - 1].fence >= rows[n].fence;
        }
        assert FirstFall(rows, n) by {
          assert forall i :: 0 < i < n ==> rows[..n][i - 1].fence < rows[..n][i].fence;
        }
        violations := [FencingGlobalNonmonotonic(rows[n].job, rows[n].fence, last)];
        assert ReportsFall(rows, n, violations);
        return;
      }
      assert forall i :: 0 <= i < n ==> rows[..n][i].fence <= last;
      last := rows[n].fence;
    }
    assert rows[..|rows|] == rows;
    violations := [];
  }

  /** _verify: every report it makes, and no other; None when it raises instead. */
  method Verify(tracked: seq<Tracked>, audits: seq<AuditRecord>) returns (violations: Option<seq<Violation>>)
    requires IsDict(tracked)
    ensures violations.None? <==> exists key :: Unsortable(tracked, key)
    ensures violations.Some? ==>
      && (forall v :: v in violations.value && v.Dedup? <==> v.Dedup? && TwoJobs(tracked, v.key))
      && (forall v :: v in violations.value && !v.Dedup? && !v.FencingGlobalNonmonotonic? <==>
            exists i :: 0 <= i < |audits| && Faulty(audits[i], v))
      && ((exists v :: v in violations.value && v.FencingGlobalNonmonotonic?) <==> !GloballyMonotonic(audits))
    ensures violations.Some? ==>
      forall job :: AuditUnreachable(job) in violations.value <==> exists a :: a in audits && !a.ok && a.job == job
    ensures violations.Some? ==>
      forall key :: Dedup(key) in violations.value <==>
        exists i, k :: 0 <= i < k < |tracked| && tracked[i].key == key && tracked[k].key == key
    ensures violations.None? <==>
      exists i, k :: 0 <= i < |tracked| && 0 <= k < |tracked|
        && tracked[i].key == tracked[k].key && tracked[i].job == None && tracked[k].job != None
  {
    UnsortableExactly(tracked);
    var dedups := CheckDedup(tracked);
    if dedups.None? {
      return None;
    }
    var reports := dedups.value;
    for n := 0 to |audits|
      invariant forall v :: v in reports <==> v in dedups.value || exists i :: 0 <= i < n && Faulty(audits[i], v)
    {
      var found;
      if !audits[n].ok {
        found := [AuditUnreachable(audits[n].job)];
      } else {
        var commits := CheckCommits(audits[n]);
        var fences := CheckFences(audits[n]);
        found := commits + fences;
      }
      assert forall v :: v in found <==> Faulty(audits[n], v);
      reports := reports + found;
    }
    var order := CheckOrder(audits);
    assert order != [] ==> order[0] in order;
    forall job ensures AuditUnreachable(job) in reports <==> exists a :: a in audits && !a.ok && a.job == job {
      if i :| 0 <= i < |audits| && !audits[i].ok && audits[i].job == job {
        assert Faulty(audits[i], AuditUnreachable(job));
      }
    }
    violations := Some(reports + order);
  }
}
