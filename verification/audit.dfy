/** GET /audit: the ordered projection of the audit tables that the harness reads. */
module Audit {
  import opened Tables
  import opened Sequences
  import opened Invariant

  datatype TransitionRecord = TransitionRecord(from: Option<Status>, to: Status, at: int)
  datatype CommitRecord = CommitRecord(accepted: bool, fence: nat, worker: WorkerId, at: int)
  datatype LeaseRecord = LeaseRecord(fence: nat, worker: WorkerId, issuedAt: int, expiredAt: Option<int>)

  /** `ok` is false when the endpoint could not be reached; the id is null if the submit reply was. */
  datatype AuditRecord = AuditRecord(
    job: Option<JobId>,
    ok: bool,
    transitions: seq<TransitionRecord>,
    commits: seq<CommitRecord>,
    leases: seq<LeaseRecord>)

  function TransitionOf(job: JobId): TransitionRow -> bool {
    (t: TransitionRow) => t.job == job
  }

  function CommitOf(job: JobId): CommitRow -> bool {
    (c: CommitRow) => c.job == job
  }

  function LeaseOf(job: JobId): HistoryRow -> bool {
    (r: HistoryRow) => r.job == job
  }

  function TransitionOrder(): (TransitionRow, TransitionRow) -> bool {
    (a: TransitionRow, b: TransitionRow) => a.at <= b.at
  }

  function CommitOrder(): (CommitRow, CommitRow) -> bool {
    (a: CommitRow, b: CommitRow) => a.at <= b.at
  }

  /** ORDER BY IssuedAtMs, Fence. */
  function IssueOrder(): (HistoryRow, HistoryRow) -> bool {
    (a: HistoryRow, b: HistoryRow) => a.issuedAt < b.issuedAt || (a.issuedAt == b.issuedAt && a.fence <= b.fence)
  }

  function Transitions(db: Db, job: JobId): seq<TransitionRecord> {
    Map(StableSort(Filter(db.transitions, TransitionOf(job)), TransitionOrder()),
        (t: TransitionRow) => TransitionRecord(t.from, t.to, t.at))
  }

  function Commits(db: Db, job: JobId): seq<CommitRecord> {
    Map(StableSort(Filter(db.commits, CommitOf(job)), CommitOrder()),
        (c: CommitRow) => CommitRecord(c.accepted, c.fence, c.worker, c.at))
  }

  function Leases(db: Db, job: JobId): seq<LeaseRecord> {
    Map(StableSort(Filter(db.history, LeaseOf(job)), IssueOrder()),
        (r: HistoryRow) => LeaseRecord(r.fence, r.worker, r.issuedAt, r.terminatedAt))
  }

  /** The three reads are separate, each of some state of the tables; a failed one reads as empty. */
  function Audited(job: JobId, t: Option<Db>, c: Option<Db>, l: Option<Db>): AuditRecord {
    AuditRecord(
      Some(job),
      true,
      if t.Some? then Transitions(t.value, job) else [],
      if c.Some? then Commits(c.value, job) else [],
      if l.Some? then Leases(l.value, job) else [])
  }

  /** Sorted by (IssuedAtMs, Fence), a job's history is its issue order: the sort moves nothing. */
  lemma HistorySortIsIssueOrder(db: Db, job: JobId)
    requires FencesOrdered(db)
    ensures StableSort(Filter(db.history, LeaseOf(job)), IssueOrder()) == Filter(db.history, LeaseOf(job))
  {
    assert Pairwise(db.history, IssueOrder());
    FilterPairwise(db.history, LeaseOf(job), IssueOrder());
    SortFixesSorted(Filter(db.history, LeaseOf(job)), IssueOrder());
  }

  /** The fences an audit shows for a job strictly increase, and each is a row of that job. */
  lemma AuditedFencesIncrease(db: Db, job: JobId)
    requires FencesOrdered(db)
    ensures forall i, k :: 0 <= i < k < |Leases(db, job)| ==> Leases(db, job)[i].fence < Leases(db, job)[k].fence
    ensures forall i :: 0 <= i < |Leases(db, job)| ==> ShowsRow(db, job, Leases(db, job)[i])
  {
    var rising := (a: HistoryRow, b: HistoryRow) => a.fence < b.fence;
    assert Pairwise(db.history, rising);
    FilterPairwise(db.history, LeaseOf(job), rising);
    FilterMembers(db.history, LeaseOf(job));
    HistorySortIsIssueOrder(db, job);
    var rows := Filter(db.history, LeaseOf(job));
    forall i | 0 <= i < |rows| ensures ShowsRow(db, job, Leases(db, job)[i]) {
      assert rows[i] in rows;
      var k :| 0 <= k < |db.history| && db.history[k] == rows[i];
      assert RowShown(db, k, job, Leases(db, job)[i]);
    }
  }

  ghost predicate RowShown(db: Db, k: int, job: JobId, l: LeaseRecord) {
    && 0 <= k < |db.history|
    && db.history[k].job == job && db.history[k].fence == l.fence
    && db.history[k].issuedAt == l.issuedAt && db.history[k].worker == l.worker
  }

  ghost predicate ShowsRow(db: Db, job: JobId, l: LeaseRecord) {
    exists k :: RowShown(db, k, job, l)
  }

  /** Conversely every history row of the job is shown. */
  lemma EveryRowIsAudited(db: Db, k: nat)
    requires k < |db.history|
    ensures var job := db.history[k].job;
      exists i :: 0 <= i < |Leases(db, job)| && RowShown(db, k, job, Leases(db, job)[i])
  {
    var job := db.history[k].job;
    FilterMembers(db.history, LeaseOf(job));
    SortMembers(Filter(db.history, LeaseOf(job)), IssueOrder());
    var rows := StableSort(Filter(db.history, LeaseOf(job)), IssueOrder());
    assert db.history[k] in rows;
    var i :| 0 <= i < |rows| && rows[i] == db.history[k];
    assert RowShown(db, k, job, Leases(db, job)[i]);
  }

  /** An audit shows at most one accepted commit; it is the job's row. */
  lemma AuditedCommitIsUnique(db: Db, job: JobId)
    requires CommitsFinal(db)
    ensures |Commits(db, job)| == if HasCommit(db, job) then 1 else 0
    ensures forall i :: 0 <= i < |Commits(db, job)| ==>
      var r := Commits(db, job)[i];
      r.accepted && CommitRow(job, true, r.fence, r.worker, r.at) in db.commits
  {
    var distinct := (a: CommitRow, b: CommitRow) => a.job != b.job;
    var rows := Filter(db.commits, CommitOf(job));
    assert Pairwise(db.commits, distinct);
    FilterPairwise(db.commits, CommitOf(job), distinct);
    FilterMembers(db.commits, CommitOf(job));
    SortMembers(rows, CommitOrder());
    var sorted := StableSort(rows, CommitOrder());
    if rows != [] {
      assert rows[0] in rows && rows[|rows| - 1] in rows;
      assert |rows| == 1;
    }
    if HasCommit(db, job) {
      var c :| c in db.commits && c.job == job;
      assert c in rows;
    }
    forall i | 0 <= i < |sorted| ensures sorted[i] in db.commits && sorted[i].job == job && sorted[i].accepted {
      assert sorted[i] in rows;
      assert CommitFinal(db, sorted[i]);
    }
    if |sorted| == 1 {
      assert sorted[0] in db.commits;
    }
  }

  // What an audit shows, row by row

  lemma {:induction false} FilterCounts<T>(s: seq<T>, p: T -> bool, x: T)
    ensures multiset(Filter(s, p))[x] == if p(x) then multiset(s)[x] else 0
  {
    if s != [] {
      FilterCounts(s[..|s| - 1], p, x);
      assert s == s[..|s| - 1] + [s[|s| - 1]];
    }
  }

  /** Sorting what was filtered: exactly the rows wanted, each as often as it was there. */
  lemma SelectedRows<T>(s: seq<T>, p: T -> bool, leq: (T, T) -> bool)
    ensures forall x :: multiset(StableSort(Filter(s, p), leq))[x] == if p(x) then multiset(s)[x] else 0
    ensures forall i :: 0 <= i < |StableSort(Filter(s, p), leq)| ==> p(StableSort(Filter(s, p), leq)[i])
  {
    var rows := Filter(s, p);
    var sorted := StableSort(rows, leq);
    SortPermutes(rows, leq);
    forall x ensures multiset(sorted)[x] == if p(x) then multiset(s)[x] else 0 {
      FilterCounts(s, p, x);
    }
    forall i | 0 <= i < |sorted| ensures p(sorted[i]) {
      assert sorted[i] in multiset(sorted);
    }
  }

  function TransitionRowOf(job: JobId, r: TransitionRecord): TransitionRow {
    TransitionRow(job, r.from, r.to, r.at)
  }

  function CommitRowOf(job: JobId, r: CommitRecord): CommitRow {
    CommitRow(job, r.accepted, r.fence, r.worker, r.at)
  }

  function HistoryRowOf(job: JobId, l: LeaseRecord): HistoryRow {
    HistoryRow(job, l.worker, l.fence, l.issuedAt, l.expiredAt)
  }

  /** Each record of the job is shown as often as it was written, with its own fields, in order of time. */
  lemma TransitionsShown(db: Db, job: JobId)
    ensures forall i, k :: 0 <= i < k < |Transitions(db, job)| ==>
      Transitions(db, job)[i].at <= Transitions(db, job)[k].at
    ensures forall t: TransitionRow ::
      multiset(Map(Transitions(db, job), (r: TransitionRecord) => TransitionRowOf(job, r)))[t]
      == if t.job == job then multiset(db.transitions)[t] else 0
  {
    var sorted := StableSort(Filter(db.transitions, TransitionOf(job)), TransitionOrder());
    SortSorts(Filter(db.transitions, TransitionOf(job)), TransitionOrder());
    SelectedRows(db.transitions, TransitionOf(job), TransitionOrder());
    forall i, k | 0 <= i < k < |sorted| ensures sorted[i].at <= sorted[k].at {
      assert TransitionOrder()(sorted[i], sorted[k]);
    }
    assert Map(Transitions(db, job), (r: TransitionRecord) => TransitionRowOf(job, r)) == sorted;
  }

  lemma CommitsShown(db: Db, job: JobId)
    ensures forall i, k :: 0 <= i < k < |Commits(db, job)| ==> Commits(db, job)[i].at <= Commits(db, job)[k].at
    ensures forall c: CommitRow ::
      multiset(Map(Commits(db, job), (r: CommitRecord) => CommitRowOf(job, r)))[c]
      == if c.job == job then multiset(db.commits)[c] else 0
  {
    var sorted := StableSort(Filter(db.commits, CommitOf(job)), CommitOrder());
    SortSorts(Filter(db.commits, CommitOf(job)), CommitOrder());
    SelectedRows(db.commits, CommitOf(job), CommitOrder());
    forall i, k | 0 <= i < k < |sorted| ensures sorted[i].at <= sorted[k].at {
      assert CommitOrder()(sorted[i], sorted[k]);
    }
    assert Map(Commits(db, job), (r: CommitRecord) => CommitRowOf(job, r)) == sorted;
  }

  /** The rows of the lease history too; their order is that of `HistorySortIsIssueOrder`. */
  lemma LeasesShown(db: Db, job: JobId)
    ensures forall h: HistoryRow ::
      multiset(Map(Leases(db, job), (l: LeaseRecord) => HistoryRowOf(job, l)))[h]
      == if h.job == job then multiset(db.history)[h] else 0
  {
    var sorted := StableSort(Filter(db.history, LeaseOf(job)), IssueOrder());
    SelectedRows(db.history, LeaseOf(job), IssueOrder());
    assert Map(Leases(db, job), (l: LeaseRecord) => HistoryRowOf(job, l)) == sorted;
  }

  /** What is shown as a target status was written, and the other way round. */
  lemma TargetsShown(db: Db, job: JobId, to: Status)
    ensures (exists i :: 0 <= i < |Transitions(db, job)| && Transitions(db, job)[i].to == to) <==>
      exists t :: t in db.transitions && t.job == job && t.to == to
  {
    var rows := Filter(db.transitions, TransitionOf(job));
    FilterMembers(db.transitions, TransitionOf(job));
    SortMembers(rows, TransitionOrder());
    var sorted := StableSort(rows, TransitionOrder());
    forall i | 0 <= i < |sorted| && Transitions(db, job)[i].to == to
      ensures exists t :: t in db.transitions && t.job == job && t.to == to
    {
      assert sorted[i] in sorted;
    }
    forall t | t in db.transitions && t.job == job && t.to == to
      ensures exists i :: 0 <= i < |sorted| && Transitions(db, job)[i].to == to
    {
      assert t in sorted;
      var i :| 0 <= i < |sorted| && sorted[i] == t;
      assert Transitions(db, job)[i].to == to;
    }
  }

  lemma AuditedTransition(db: Db, t: TransitionRow)
    requires t in db.transitions
    ensures exists r :: r in Transitions(db, t.job) && r.to == t.to
  {
    var rows := Filter(db.transitions, TransitionOf(t.job));
    FilterMembers(db.transitions, TransitionOf(t.job));
    SortMembers(rows, TransitionOrder());
    var sorted := StableSort(rows, TransitionOrder());
    assert t in sorted;
    var i :| 0 <= i < |sorted| && sorted[i] == t;
    assert Transitions(db, t.job)[i].to == t.to;
  }
}
