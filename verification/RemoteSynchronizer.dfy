/** `ZCodeBuiltinRemoteSynchronizer`: acquiring and finishing the lease, on the shared control file. */
module RemoteSynchronizers {
  import opened LeaseControl
  import opened Prelude

  /** What the shared file reads as; a missing or unreadable one reads as `EMPTY`. */
  class ControlFile {
    var control: Control

    constructor ()
      ensures control == EMPTY
    {
      control := EMPTY;
    }
  }

  class RemoteSynchronizer {
    const file: ControlFile
    const timing: Timing

    constructor (file: ControlFile, timing: Timing)
      ensures this.file == file && this.timing == timing
    {
      this.file, this.timing := file, timing;
    }

    method AcquireLease(now: nat, endpointKey: string, force: bool, leaseId: nat) returns (acquired: Acquired)
      modifies file
      ensures (file.control, acquired) == Acquire(timing, old(file.control), now, endpointKey, force, leaseId)
    {
      var current := file.control;
      var sameEndpoint := current.endpointKey == endpointKey;
      if sameEndpoint && current.leaseUntil > now {
        return LeaseHeld;
      }
      if !force && sameEndpoint && current.nextEligibleAt > now {
        return NotDue;
      }
      var nextEligibleAt, failureCount := 0, 0;
      if sameEndpoint {
        nextEligibleAt, failureCount := current.nextEligibleAt, current.failureCount;
      }
      file.control := Control(endpointKey, Some(leaseId), now + timing.leaseDuration, nextEligibleAt, failureCount);
      return Granted;
    }

    method FinishLease(now: nat, endpointKey: string, leaseId: nat, result: Result)
      modifies file
      ensures file.control == Finish(timing, old(file.control), now, endpointKey, leaseId, result)
    {
      var current := file.control;
      if current.endpointKey != endpointKey || current.leaseId != Some(leaseId) {
        return;
      }
      var failureCount, delay := current.failureCount, 0;
      if result.Success? {
        failureCount, delay := 0, timing.successInterval;
      } else if result.Failure? {
        failureCount := failureCount + 1;
        delay := FailureDelay(timing, failureCount);
      }
      file.control := Control(endpointKey, None, 0, now + delay, failureCount);
    }

    /** Another process acquires before a slow one finishes: the slow one's finish leaves its lease alone. */
    method SlowHolderIsFenced(other: RemoteSynchronizer, now: nat, later: nat, endpointKey: string, first: nat, second: nat, result: Result)
      requires other.file == file && other.timing == timing && first != second
      requires file.control.leaseId == Some(first)
      modifies file
      ensures old(file.control).endpointKey == endpointKey && old(file.control).leaseUntil > now ==> file.control.leaseId == None
      ensures old(file.control).endpointKey == endpointKey && old(file.control).leaseUntil <= now ==>
        file.control.leaseId == Some(second) && file.control.leaseUntil == now + timing.leaseDuration
    {
      var acquired := other.AcquireLease(now, endpointKey, true, second);
      FinishLease(later, endpointKey, first, result);
    }
  }
}
