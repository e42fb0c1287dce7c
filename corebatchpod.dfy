/** The batch workload of the `core` package: a work counter that each tick
    decreases by the time it was given, the pod it drives marked Succeeded once
    the counter has gone below zero. */
module CoreBatchPod {
  import opened Common
  import opened BatchWork

  class BatchPodAlgorithm {
    /** The driven pod's phase and CPU limit, reached through the `*Pod` it holds. */
    var podPhase: PodPhase
    var podCpuLimit: real
    var memUsage: int
    var totalTick: real

    constructor (phase: PodPhase, cpuLimit: real, memUsage: int, totalTick: real)
      ensures podPhase == phase && podCpuLimit == cpuLimit
      ensures this.memUsage == memUsage && this.totalTick == totalTick
    {
      podPhase := phase;
      podCpuLimit := cpuLimit;
      this.memUsage := memUsage;
      this.totalTick := totalTick;
    }

    /** ResourceRequest: the pod's CPU limit and the memory the workload
        uses, unchanged. */
    function ResourceRequest(): (r: (real, int))
      reads this
      ensures r.0 == podCpuLimit && r.1 == memUsage
    {
      Request(podCpuLimit, memUsage)
    }

    /** Tick. Go divides by the memory use when it exceeds the memory given;
        a zero divisor is excluded. */
    method Tick(slot: seq<real>, mem: int) returns (load: real, used: int)
      requires memUsage > mem ==> memUsage != 0
      modifies this
      ensures ResourceRequest() == old(ResourceRequest())
      ensures memUsage == old(memUsage) && podCpuLimit == old(podCpuLimit)
      ensures old(totalTick) < 0.0 ==>
        && podPhase == Succeeded && load == 0.0 && used == 0 && totalTick == old(totalTick)
      ensures old(totalTick) >= 0.0 ==>
        && podPhase == old(podPhase) && load == 1.0 && used == Min(memUsage, mem)
        && totalTick == old(totalTick) - Progress(Sum(slot), memUsage as real, mem as real)
    {
      if totalTick < 0.0 {
        podPhase := Succeeded;
        return 0.0, 0;
      }
      var slotSum := SumSlots(slot);
      used := memUsage;
      if used > mem {
        used := mem;
        slotSum := slotSum * (mem as real / memUsage as real);
      }
      totalTick := totalTick - slotSum;
      return 1.0, used;
    }
  }
}
