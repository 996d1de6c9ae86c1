/** ChaosService: the faults the harness injects into one coordinator. */
module Chaos {
  class ChaosService {
    var dispatchPausedUntil: int
    var dropAcksRemaining: int
    var dbPartitionedUntil: int
    var clockSkewMs: int

    constructor ()
      ensures dispatchPausedUntil == dropAcksRemaining == dbPartitionedUntil == clockSkewMs == 0
    {
      dispatchPausedUntil, dropAcksRemaining, dbPartitionedUntil, clockSkewMs := 0, 0, 0, 0;
    }

    /** The coordinator's skewed view of the wall clock. */
    function Now(wall: int): int
      reads this
    {
      wall + clockSkewMs
    }

    /** True for as many calls as acks are left to drop. */
    method ConsumeDropAck() returns (drop: bool)
      modifies this`dropAcksRemaining
      ensures drop <==> old(dropAcksRemaining) > 0
      ensures dropAcksRemaining == if drop then old(dropAcksRemaining) - 1 else old(dropAcksRemaining)
    {
      drop := dropAcksRemaining > 0;
      if drop {
        dropAcksRemaining := dropAcksRemaining - 1;
      }
    }
  }
}
