/** The messages a coordinator sends to a worker. */
module Messages {
  import opened Tables

  datatype Message = JobDispatch(job: JobId, token: nat) | JobAck(job: JobId)
}
