/** The batch workload of the `pods` package: the `core` batch workload plus
    a terminate mark that makes the next tick finish the pod. */
module PodsBatchPod {
  import opened Common
  import opened BatchWork

  class BatchPodAlgorithm {
    /** The driven pod's phase and CPU limit, reached through the `*Pod` it holds. */
    var podPhase: PodPhase
    var podCpuLimit: real
    var markTerminate: bool
    var memUsage: int
    var totalTick: real

    constructor (phase: PodPhase, cpuLimit: real, memUsage: int, totalTick: real)
      ensures podPhase == phase && podCpuLimit == cpuLimit && !markTerminate
      ensures this.memUsage == memUsage && this.totalTick == totalTick
    {
      podPhase := phase;
      podCpuLimit := cpuLimit;
      markTerminate := false;
      this.memUsage := memUsage;
      this.totalTick := totalTick;
    }

    /** Terminate: only sets the mark; the next Tick acts on it. */
    method Terminate()
      modifies this
      ensures markTerminate
      ensures podPhase == old(podPhase) && memUsage == old(memUsage) && totalTick == old(totalTick)
      ensures podCpuLimit == old(podCpuLimit)
    {
      markTerminate := true;
    }

    /** ResourceRequest: the pod's CPU limit and the memory the workload
        uses, unchanged. */
    function ResourceRequest(): (r: (real, int))
      reads this
      ensures r.0 == podCpuLimit && r.1 == memUsage
    {
      Request(podCpuLimit, memUsage)
    }

    /** Whether the next Tick finishes the pod. */
    predicate Finishing()
      reads this
    {
      totalTick < 0.0 || markTerminate
    }

    /** Tick. Go divides by the memory use when it exceeds the memory given;
        a zero divisor is excluded. */
    method Tick(slot: seq<real>, mem: int) returns (load: real, used: int)
      requires memUsage > mem ==> memUsage != 0
      modifies this
      ensures ResourceRequest() == old(ResourceRequest())
      ensures memUsage == old(memUsage) && markTerminate == old(markTerminate)
      ensures podCpuLimit == old(podCpuLimit)
      ensures old(Finishing()) ==>
        && podPhase == Succeeded && load == 0.0 && used == 0 && totalTick == old(totalTick)
      ensures !old(Finishing()) ==>
        && podPhase == old(podPhase) && load == 1.0 && used == Min(memUsage, mem)
        && totalTick == old(totalTick) - Progress(Sum(slot), memUsage as real, mem as real)
    {
      if totalTick < 0.0 || markTerminate {
        podPhase := Succeeded;
        return 0.0, 0;
      }
      var slotSum := SumSlots(slot);
      used := memUsage;
      if used > mem {
        used := mem;
        slotSum := slotSum * (mem as real / memUsage as real);
      }
      totalTick := totalTick - slotSum;
      return 1.0, used;
    }
  }

  /** After Terminate, the next Tick finishes the pod whatever work is left,
      and the tick after that does too. */
  method TerminateThenTick(alg: BatchPodAlgorithm, slot: seq<real>, mem: int) returns (load: real, used: int)
    requires alg.memUsage > mem ==> alg.memUsage != 0
    modifies alg
    ensures alg.podPhase == Succeeded && load == 0.0 && used == 0
    ensures alg.totalTick == old(alg.totalTick) && alg.Finishing()
  {
    alg.Terminate();
    load, used := alg.Tick(slot, mem);
  }
}
