/**
 The Postgres tables shared by all coordinators, as one immutable value.
 Identifiers (UUIDs, worker names, idempotency keys, result payloads) are opaque; only
 equality on them matters, so they are natural numbers here.
 */
module Tables {
  datatype Option<+T> = None | Some(value: T)

  type JobId = nat
  type WorkerId = nat
  type Key = nat
  type Value = nat

  datatype Status = Pending | Dispatched | Succeeded | Failed | Cancelled {
    predicate Terminal() {
      Succeeded? || Failed? || Cancelled?
    }
  }

  datatype JobRow = JobRow(key: Key, createdAt: int, status: Status, result: Option<Value>)

  datatype LeaseRow = LeaseRow(worker: WorkerId, token: nat, expiresAt: int)

  /** `terminatedAt` is null while the lease is open. */
  datatype HistoryRow = HistoryRow(job: JobId, worker: WorkerId, fence: nat, issuedAt: int, terminatedAt: Option<int>) {
    predicate Open() {
      terminatedAt.None?
    }
  }

  datatype CommitRow = CommitRow(job: JobId, accepted: bool, fence: nat, worker: WorkerId, at: int)

  /** `from` is None for the empty string written at submission. */
  datatype TransitionRow = TransitionRow(job: JobId, from: Option<Status>, to: Status, at: int)

  /**
   `lastFence` is the value last handed out by fencing_seq and `clock` the database clock
   reading taken with it under the advisory lock. The three sequences are in insertion order.
   */
  datatype Db = Db(
    jobs: map<JobId, JobRow>,
    leases: map<JobId, LeaseRow>,
    history: seq<HistoryRow>,
    commits: seq<CommitRow>,
    transitions: seq<TransitionRow>,
    lastFence: nat,
    clock: int)

  const EMPTY := Db(map[], map[], [], [], [], 0, 0)

  predicate HasStatus(db: Db, job: JobId, status: Status) {
    job in db.jobs && db.jobs[job].status == status
  }

  /** The `(JobID, WorkerID, Token)` condition of the result and heartbeat statements. */
  predicate Holds(db: Db, job: JobId, worker: WorkerId, token: nat) {
    job in db.leases && db.leases[job].worker == worker && db.leases[job].token == token
  }

  /** The unique index on IdempotencyKey rejects another row with this key. */
  predicate KeyTaken(db: Db, key: Key) {
    exists j | j in db.jobs :: db.jobs[j].key == key
  }

  ghost predicate HasCommit(db: Db, job: JobId) {
    exists c :: c in db.commits && c.job == job
  }

  function Elements<T>(s: seq<T>): set<T> {
    set x | x in s
  }

  predicate Distinct<T(==)>(s: seq<T>) {
    forall i, k :: 0 <= i < k < |s| ==> s[i] != s[k]
  }

  function SetStatus(jobs: map<JobId, JobRow>, ids: set<JobId>, from: Status, to: Status): map<JobId, JobRow> {
    map j | j in jobs :: if j in ids && jobs[j].status == from then jobs[j].(status := to) else jobs[j]
  }

  function Closed(row: HistoryRow, ids: set<JobId>, at: int): HistoryRow {
    if row.job in ids && row.Open() then row.(terminatedAt := Some(at)) else row
  }

  /** Sets TerminatedAtMs on the open rows of the given jobs. */
  function Terminate(history: seq<HistoryRow>, ids: set<JobId>, at: int): seq<HistoryRow> {
    seq(|history|, i requires 0 <= i < |history| => Closed(history[i], ids, at))
  }

  /** Position of the row last issued for a job, or -1 when the job was never leased. */
  function Newest(history: seq<HistoryRow>, job: JobId): (n: int)
    ensures -1 <= n < |history|
  {
    if history == [] then -1
    else if history[|history| - 1].job == job then |history| - 1
    else Newest(history[..|history| - 1], job)
  }

  lemma {:induction false} NewestSpec(history: seq<HistoryRow>, job: JobId)
    ensures var n := Newest(history, job);
      && (n >= 0 ==> history[n].job == job)
      && (forall k :: n < k < |history| ==> history[k].job != job)
  {
    if history != [] && history[|history| - 1].job != job {
      NewestSpec(history[..|history| - 1], job);
    }
  }

  lemma NewestIs(history: seq<HistoryRow>, job: JobId, n: int)
    requires -1 <= n < |history|
    requires n >= 0 ==> history[n].job == job
    requires forall k :: n < k < |history| ==> history[k].job != job
    ensures Newest(history, job) == n
  {
    NewestSpec(history, job);
  }

  lemma NewestAppend(history: seq<HistoryRow>, row: HistoryRow, job: JobId)
    ensures Newest(history + [row], job) == if row.job == job then |history| else Newest(history, job)
  {
    assert (history + [row])[..|history|] == history;
  }

  lemma NewestTerminate(history: seq<HistoryRow>, ids: set<JobId>, at: int, job: JobId)
    ensures Newest(Terminate(history, ids, at), job) == Newest(history, job)
  {
    NewestSpec(history, job);
    NewestIs(Terminate(history, ids, at), job, Newest(history, job));
  }

  /** Every finite set can be enumerated without repetition. */
  lemma Enumerate<T>(s: set<T>) returns (order: seq<T>)
    ensures Distinct(order) && Elements(order) == s
  {
    order := [];
    var rest := s;
    while rest != {}
      invariant Distinct(order) && Elements(order) !! rest && Elements(order) + rest == s
      decreases rest
    {
      var x :| x in rest;
      assert Elements(order + [x]) == Elements(order) + {x};
      order, rest := order + [x], rest - {x};
    }
  }
}
