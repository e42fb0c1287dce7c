/** The batch pod of the older `simulate` package: the same work counter,
    with float memory, reporting its state instead of setting a pod phase. */
module SimulateBatchPod {
  import opened Common
  import opened BatchWork

  /** The states a simulated pod reports (the type's declaration is not part
      of this model; these are the two values the batch pod uses). */
  datatype PodState = RunningState | TerminateState

  class BatchPod {
    /** The limits the embedded base pod holds. */
    var cpuLimit: int
    var memLimit: real
    var memUsage: real
    var totalTick: real

    constructor (cpuLimit: int, memLimit: real, memUsage: real, totalTick: real)
      ensures this.cpuLimit == cpuLimit && this.memLimit == memLimit
      ensures this.memUsage == memUsage && this.totalTick == totalTick
    {
      this.cpuLimit := cpuLimit;
      this.memLimit := memLimit;
      this.memUsage := memUsage;
      this.totalTick := totalTick;
    }

    /** ResourceRequest: the base pod's limits, unchanged. */
    function ResourceRequest(): (r: (int, real))
      reads this
      ensures r.0 == cpuLimit && r.1 == memLimit
    {
      (cpuLimit, memLimit)
    }

    /** GetState: terminated exactly when the work counter is below zero. */
    function GetState(): (s: PodState)
      reads this
      ensures s == TerminateState <==> totalTick < 0.0
      ensures s == RunningState <==> totalTick >= 0.0
    {
      if totalTick < 0.0 then TerminateState else RunningState
    }

    /** Tick. Go divides by the memory use when it exceeds the memory given;
        a zero divisor is excluded. */
    method Tick(slot: seq<real>, mem: real) returns (load: real, used: real)
      requires memUsage > mem ==> memUsage != 0.0
      modifies this
      ensures memUsage == old(memUsage) && cpuLimit == old(cpuLimit) && memLimit == old(memLimit)
      ensures old(totalTick) < 0.0 ==> load == 0.0 && used == 0.0 && totalTick == old(totalTick)
      ensures old(totalTick) >= 0.0 ==>
        && load == 1.0 && used == (if memUsage > mem then mem else memUsage)
        && totalTick == old(totalTick) - Progress(Sum(slot), memUsage, mem)
    {
      if totalTick < 0.0 {
        return 0.0, 0.0;
      }
      var slotSum := SumSlots(slot);
      used := memUsage;
      if used > mem {
        used := mem;
        slotSum := slotSum * (mem / memUsage);
      }
      totalTick := totalTick - slotSum;
      return 1.0, used;
    }
  }

  /** A terminated pod stays terminated: its Tick changes nothing. */
  method TickTerminated(pod: BatchPod, slot: seq<real>, mem: real) returns (load: real, used: real)
    requires pod.GetState() == TerminateState
    requires pod.memUsage > mem ==> pod.memUsage != 0.0
    modifies pod
    ensures load == 0.0 && used == 0.0 && pod.GetState() == TerminateState
    ensures pod.totalTick == old(pod.totalTick)
  {
    load, used := pod.Tick(slot, mem);
  }
}
