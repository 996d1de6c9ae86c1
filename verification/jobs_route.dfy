/** POST /jobs and DELETE /jobs/:id, cut at every await outside a transaction. */
module JobsRoute {
  import opened Tables
  import opened Transactions
  import opened Protocol
  import opened DatabaseClient

  datatype CancelReply = NotFound | CannotCancel(status: Status) | MayCancel

  class JobsRouter {
    const db: Database

    constructor (db: Database)
      ensures this.db == db
    {
      this.db := db;
    }

    /** jobRepo.get by key: null when there is none and also when the read failed. */
    method FindByKey(key: Key, readOk: bool) returns (found: Option<JobId>)
      ensures ReadsKey(db.Contents(), key, found)
      ensures readOk ==> (found.Some? <==> KeyTaken(db.Contents(), key))
    {
      found := None;
      if readOk && exists j | j in db.jobs :: db.jobs[j].key == key {
        var j :| j in db.jobs && db.jobs[j].key == key;
        found := Some(j);
      }
    }

    /** The insert transaction; on a unique violation it leaves nothing behind. */
    method Insert(key: Key, id: JobId, createdAt: int, at: int) returns (inserted: bool)
      requires id !in db.jobs
      modifies db
      ensures inserted <==> !KeyTaken(old(db.Contents()), key)
      ensures inserted ==>
        && db.jobs == old(db.jobs)[id := JobRow(key, createdAt, Pending, None)]
        && db.transitions == old(db.transitions) + [TransitionRow(id, None, Pending, at)]
        && db.leases == old(db.leases) && db.history == old(db.history) && db.commits == old(db.commits)
      ensures db.Contents() == if inserted then InsertJob(old(db.Contents()), id, key, createdAt, at)
        else old(db.Contents())
    {
      inserted := db.InsertJobRow(id, key, createdAt);
      if inserted {
        db.InsertTransitions([TransitionRow(id, None, Pending, at)]);
      }
    }

    /** A whole submit run without interference: the reply names the key's only job. */
    method Submit(key: Key, id: JobId, createdAt: int, at: int, readOk: bool, rereadOk: bool)
      returns (reply: Option<JobId>)
      requires id !in db.jobs
      modifies db
      ensures db.Contents() == if KeyTaken(old(db.Contents()), key) then old(db.Contents())
                               else InsertJob(old(db.Contents()), id, key, createdAt, at)
      ensures reply.Some? ==> reply.value in db.jobs && db.jobs[reply.value].key == key
      ensures reply.None? ==> KeyTaken(old(db.Contents()), key) && !readOk && !rereadOk
      ensures (forall j :: j in old(db.jobs) ==> old(db.jobs)[j].key != key) ==>
        reply == Some(id) && db.jobs == old(db.jobs)[id := JobRow(key, createdAt, Pending, None)]
      ensures (exists j :: j in old(db.jobs) && old(db.jobs)[j].key == key) ==> db.jobs == old(db.jobs)
    {
      reply := FindByKey(key, readOk);
      if reply.Some? {
        return;
      }
      var inserted := Insert(key, id, createdAt, at);
      if inserted {
        return Some(id);
      }
      reply := FindByKey(key, rereadOk);
    }

    /** The status check of a cancel; the job it saw PENDING may have moved on by the write. */
    method CancelCheck(job: JobId, readOk: bool) returns (reply: CancelReply)
      ensures reply.MayCancel? <==> readOk && job in db.jobs && db.jobs[job].status == Pending
      ensures reply.NotFound? <==> !readOk || job !in db.jobs
      ensures reply.CannotCancel? ==> db.jobs[job].status == reply.status
    {
      if !readOk || job !in db.jobs {
        return NotFound;
      }
      if db.jobs[job].status != Pending {
        return CannotCancel(db.jobs[job].status);
      }
      reply := MayCancel;
    }

    method CancelWrite(job: JobId, at: int)
      modifies db
      ensures job in old(db.jobs) ==> db.jobs == old(db.jobs)[job := old(db.jobs)[job].(status := Cancelled)]
      ensures job !in old(db.jobs) ==> db.jobs == old(db.jobs)
      ensures db.transitions == old(db.transitions) + [TransitionRow(job, Some(Pending), Cancelled, at)]
      ensures db.leases == old(db.leases) && db.history == old(db.history) && db.commits == old(db.commits)
      ensures db.Contents() == CancelJob(old(db.Contents()), job, at)
    {
      db.OverwriteStatus(job, Cancelled);
      db.InsertTransitions([TransitionRow(job, Some(Pending), Cancelled, at)]);
    }
  }
}
