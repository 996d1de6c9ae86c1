/** LeaseReaperService: one tick of the periodic scan for expired leases. */
module LeaseReaper {
  import opened Tables
  import opened Transactions
  import opened DatabaseClient
  import opened Chaos

  class LeaseReaperService {
    const db: Database
    const chaos: ChaosService

    constructor (db: Database, chaos: ChaosService)
      ensures this.db == db && this.chaos == chaos
    {
      this.db, this.chaos := db, chaos;
    }

    /** SELECT ... WHERE ExpiresAt < now AND Job.Status = dispatched FOR UPDATE SKIP LOCKED. */
    method FindExpired(now: int, locked: set<JobId>) returns (ids: seq<JobId>)
      ensures Distinct(ids)
      ensures forall j :: j in ids <==> ExpiredBefore(db.Contents(), j, now) && j !in locked
    {
      ids := [];
      var rest := db.leases.Keys;
      while rest != {}
        invariant rest <= db.leases.Keys && Distinct(ids) && Elements(ids) !! rest
        invariant forall j :: j in ids <==> j !in rest && ExpiredBefore(db.Contents(), j, now) && j !in locked
        decreases rest
      {
        var j :| j in rest;
        rest := rest - {j};
        if db.leases[j].expiresAt < now && j in db.jobs && db.jobs[j].status == Dispatched && j !in locked {
          assert j !in Elements(ids);
          ids := ids + [j];
          assert Elements(ids) == Elements(ids[..|ids| - 1]) + {j};
        }
      }
    }

    /**
     One tick at wall time `wall`: exactly the unlocked leases of DISPATCHED jobs that have expired by
     this coordinator's skewed clock go back to PENDING; a partitioned coordinator does nothing.
     */
    method Tick(wall: int, partitioned: bool, locked: set<JobId>, at: int) returns (ids: seq<JobId>)
      modifies db
      ensures Distinct(ids)
      ensures forall j :: j in ids <==>
        !partitioned && ExpiredBefore(old(db.Contents()), j, wall + chaos.clockSkewMs) && j !in locked
      ensures db.Contents() == ReapLeases(old(db.Contents()), ids, at)
      ensures forall j :: j in ids <==>
        && !partitioned && j !in locked && j in old(db.leases) && j in old(db.jobs)
        && old(db.leases)[j].expiresAt < wall + chaos.clockSkewMs && old(db.jobs)[j].status == Dispatched
      ensures db.jobs.Keys == old(db.jobs.Keys) && forall j :: j in db.jobs ==>
        db.jobs[j] == if j in ids then old(db.jobs)[j].(status := Pending) else old(db.jobs)[j]
      ensures db.leases == map j | j in old(db.leases) && j !in ids :: old(db.leases)[j]
      ensures |db.history| == |old(db.history)| && forall i :: 0 <= i < |db.history| ==>
        db.history[i] == if old(db.history)[i].job in ids && old(db.history)[i].terminatedAt == None
                         then old(db.history)[i].(terminatedAt := Some(at)) else old(db.history)[i]
      ensures |db.transitions| == |old(db.transitions)| + |ids| && old(db.transitions) <= db.transitions
      ensures forall i :: 0 <= i < |ids| ==>
        db.transitions[|old(db.transitions)| + i] == TransitionRow(ids[i], Some(Dispatched), Pending, at)
      ensures db.commits == old(db.commits)
    {
      ids := [];
      if !partitioned {
        var now := chaos.Now(wall);
        ids := FindExpired(now, locked);
      }
      if ids == [] {
        NothingReaped(db.Contents(), at);
        return;
      }
      db.DeleteLeases(Elements(ids));
      var _ := db.UpdateStatus(Elements(ids), Dispatched, Pending);
      db.TerminateHistory(Elements(ids), at);
      db.InsertTransitions(RequeueRecords(ids, at));
    }

    lemma NothingReaped(d: Db, at: int)
      ensures ReapLeases(d, [], at) == d
    {
      assert ReapLeases(d, [], at).leases == d.leases;
      assert ReapLeases(d, [], at).jobs == d.jobs;
      assert ReapLeases(d, [], at).history == d.history;
    }
  }
}
