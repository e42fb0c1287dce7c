/** The part of a node's tick that follows the choice of ready pods, the same
    in the `core` node and the older `simulate` node: ask each ready pod for
    its memory, schedule the ready pods onto the CPUs, hand each pod its
    throttled slices, run its workload, and charge CPU time with the
    unthrottled slices. Workloads are reached through the pod algorithm
    interface, so `request` (ResourceRequest) and `run` (Tick) are
    parameters keyed by the pod's name. */
module NodeRun {
  import opened Common
  import opened CoreScheduler
  import opened NodeAccounting

  /** A pod on a node: the fields the node reads and writes. */
  datatype Pod = Pod(name: string, nodeName: string, phase: PodPhase, cpuLimit: real)

  /** What a workload's Tick gives back: its load and memory use, and the
      phase it leaves its pod in. */
  datatype Outcome = Outcome(load: real, memUsage: int, phase: PodPhase)

  /** Every ready pod is on the node. */
  ghost predicate OnNode(ready: seq<string>, pods: map<string, Pod>)
  {
    forall i :: 0 <= i < |ready| ==> ready[i] in pods
  }

  /** A pod map keyed by pod name. */
  ghost predicate KeyedByName(pods: map<string, Pod>)
  {
    forall k :: k in pods ==> pods[k].name == k
  }

  /** `order` lists every key of `pods` once: a Go map iteration order. */
  ghost predicate IterationOrder(order: seq<string>, pods: map<string, Pod>)
  {
    && (forall i, j :: 0 <= i < j < |order| ==> order[i] != order[j])
    && (forall k :: k in pods <==> k in order)
  }

  /** What the scheduler is given for each ready pod: the CPU its workload
      requests and the pod's CPU limit. */
  function DemandsOf(ready: seq<string>, pods: map<string, Pod>, request: string -> (real, int)): (ds: seq<Demand>)
    requires OnNode(ready, pods)
    ensures |ds| == |ready|
    ensures forall i :: 0 <= i < |ready| ==> ds[i] == Demand(request(ready[i]).0, pods[ready[i]].cpuLimit)
  {
    seq(|ready|, i requires 0 <= i < |ready| => Demand(request(ready[i]).0, pods[ready[i]].cpuLimit))
  }

  /** The memory each ready pod's workload requests. */
  function MemsOf(ready: seq<string>, request: string -> (real, int)): (ms: seq<int>)
    ensures |ms| == |ready|
    ensures forall i :: 0 <= i < |ready| ==> ms[i] == request(ready[i]).1
  {
    seq(|ready|, i requires 0 <= i < |ready| => request(ready[i]).1)
  }

  /** What each ready pod's workload does with its throttled slices of the
      schedule `state` and its memory. */
  function OutcomesOf(ready: seq<string>, state: seq<seq<RunEntity>>, mems: seq<int>, lastCpuUsage: real,
    run: (string, seq<real>, int) -> Outcome): (outs: seq<Outcome>)
    requires |mems| == |ready|
    ensures |outs| == |ready|
    ensures forall i :: 0 <= i < |ready| ==> outs[i] == run(ready[i], Reduced(SlotsOf(state, i), lastCpuUsage), mems[i])
  {
    seq(|ready|, i requires 0 <= i < |ready| => run(ready[i], Reduced(SlotsOf(state, i), lastCpuUsage), mems[i]))
  }

  function LoadsOf(outs: seq<Outcome>): (loads: seq<real>)
    ensures |loads| == |outs|
    ensures forall i :: 0 <= i < |outs| ==> loads[i] == outs[i].load
  {
    seq(|outs|, i requires 0 <= i < |outs| => outs[i].load)
  }

  /** Memory used by the workloads, summed from the front. */
  function MemUsed(outs: seq<Outcome>): int
  {
    if |outs| == 0 then 0 else MemUsed(outs[..|outs| - 1]) + outs[|outs| - 1].memUsage
  }

  /** The result of the steps after classification. */
  datatype Run = Run(outcomes: seq<Outcome>, cpuUsed: real, memUsed: int, load: real)

  /** The steps after classification, as a value: the schedule of the ready
      pods on `coreCount` CPUs, the workloads' outcomes on it, the CPU time
      charged with the unthrottled slices, and the summed memory and load. */
  function RunOf(ready: seq<string>, pods: map<string, Pod>, coreCount: nat, lastCpuUsage: real,
    request: string -> (real, int), run: (string, seq<real>, int) -> Outcome): (r: Run)
    requires OnNode(ready, pods)
    ensures |r.outcomes| == |ready|
  {
    var state := Scheduled(DemandsOf(ready, pods, request), coreCount);
    ScheduledPods(DemandsOf(ready, pods, request), coreCount);
    var outs := OutcomesOf(ready, state, MemsOf(ready, request), lastCpuUsage, run);
    Run(outs, CpuUsed(state, LoadsOf(outs)), MemUsed(outs), Sum(LoadsOf(outs)))
  }

  /** The request loop: each ready pod's memory request, and its demand for
      the scheduler. */
  method Requests(ready: seq<string>, pods: map<string, Pod>, request: string -> (real, int))
    returns (demands: seq<Demand>, mems: seq<int>)
    requires OnNode(ready, pods)
    ensures demands == DemandsOf(ready, pods, request) && mems == MemsOf(ready, request)
  {
    mems, demands := [], [];
    var i := 0;
    while i < |ready|
      invariant 0 <= i <= |ready|
      invariant mems == MemsOf(ready[..i], request)
      invariant demands == DemandsOf(ready[..i], pods, request)
    {
      var req := request(ready[i]);
      mems := mems + [req.1];
      demands := demands + [Demand(req.0, pods[ready[i]].cpuLimit)];
      i := i + 1;
    }
    assert ready[..i] == ready;
  }

  /** One pass of the workload loop: the pod's slices are throttled in place
      and its workload ticks on them. */
  method RunOne(name: string, slots: seq<real>, mem: int, lastCpuUsage: real,
    run: (string, seq<real>, int) -> Outcome) returns (o: Outcome)
    ensures o == run(name, Reduced(slots, lastCpuUsage), mem)
  {
    var slot := new real[|slots|](k requires 0 <= k < |slots| => slots[k]);
    assert slot[..] == slots;
    CpuPressureReduction(slot, lastCpuUsage);
    o := run(name, slot[..], mem);
  }

  /** The outcomes of one more ready pod extend the outcomes by its own. */
  lemma OutcomesSnoc(ready: seq<string>, state: seq<seq<RunEntity>>, mems: seq<int>, lastCpuUsage: real,
    run: (string, seq<real>, int) -> Outcome, i: nat)
    requires i < |ready| == |mems|
    ensures OutcomesOf(ready[..i + 1], state, mems[..i + 1], lastCpuUsage, run)
      == OutcomesOf(ready[..i], state, mems[..i], lastCpuUsage, run) + [run(ready[i], Reduced(SlotsOf(state, i), lastCpuUsage), mems[i])]
  {
  }

  /** Extending the outcomes by one keeps the running memory and load sums. */
  lemma OutcomeStep(outs: seq<Outcome>, o: Outcome)
    ensures MemUsed(outs + [o]) == MemUsed(outs) + o.memUsage
    ensures Sum(LoadsOf(outs + [o])) == Sum(LoadsOf(outs)) + o.load
  {
    assert (outs + [o])[..|outs|] == outs;
    assert LoadsOf(outs + [o])[..|outs|] == LoadsOf(outs);
  }

  /** The workload loop: throttle each ready pod's slices in place, tick its
      workload, and sum memory use and load. */
  method RunWorkloads(ready: seq<string>, state: seq<seq<RunEntity>>, slots: seq<seq<real>>, mems: seq<int>,
    lastCpuUsage: real, run: (string, seq<real>, int) -> Outcome)
    returns (outs: seq<Outcome>, memUsed: int, load: real)
    requires |slots| == |ready| && |mems| == |ready|
    requires forall p :: 0 <= p < |ready| ==> slots[p] == SlotsOf(state, p)
    ensures outs == OutcomesOf(ready, state, mems, lastCpuUsage, run)
    ensures memUsed == MemUsed(outs) && load == Sum(LoadsOf(outs))
  {
    outs, memUsed, load := [], 0, 0.0;
    var i := 0;
    while i < |ready|
      invariant 0 <= i <= |ready|
      invariant outs == OutcomesOf(ready[..i], state, mems[..i], lastCpuUsage, run)
      invariant memUsed == MemUsed(outs) && load == Sum(LoadsOf(outs))
    {
      var o := RunOne(ready[i], slots[i], mems[i], lastCpuUsage, run);
      OutcomesSnoc(ready, state, mems, lastCpuUsage, run, i);
      OutcomeStep(outs, o);
      outs := outs + [o];
      memUsed := memUsed + o.memUsage;
      load := load + o.load;
      i := i + 1;
    }
    assert ready[..i] == ready && mems[..i] == mems;
  }

  /** The tick's steps after classification, as the source runs them:
      requests, scheduling over the node's CPU queues, slice gathering, the
      workload loop and CPU charging over the first `coreCount` queues. */
  method RunReady(ready: seq<string>, pods: map<string, Pod>, cpuState: seq<seq<RunEntity>>, coreCount: nat,
    lastCpuUsage: real, request: string -> (real, int), run: (string, seq<real>, int) -> Outcome)
    returns (r: Run)
    requires OnNode(ready, pods) && coreCount == |cpuState|
    ensures r == RunOf(ready, pods, coreCount, lastCpuUsage, request, run)
  {
    var demands, mems := Requests(ready, pods, request);
    var state := Schedule(demands, cpuState);
    ScheduledPods(demands, coreCount);
    var slots := GatherSlots(state, |ready|);
    var outs, memUsed, load := RunWorkloads(ready, state, slots, mems, lastCpuUsage, run);
    var cpuUsed := AccountCpu(state, LoadsOf(outs), coreCount);
    assert state[..coreCount] == state;
    r := Run(outs, cpuUsed, memUsed, load);
  }

  /** The tick's figures: CPU usage is the charged CPU time per core, memory
      usage the used memory per byte of the node and load the summed load;
      the allocatable CPU is the core count less the truncated CPU time and
      the allocatable memory the node's memory less the used memory. */
  datatype Figures = Figures(cpuUsage: real, memUsage: real, load: real, allocatableCpu: int, allocatableMem: int)

  function FiguresOf(r: Run, coreCount: nat, memSize: int): (f: Figures)
    requires coreCount > 0 && memSize > 0
    ensures f.cpuUsage * coreCount as real == r.cpuUsed
    ensures f.memUsage * memSize as real == r.memUsed as real
    ensures f.load == r.load
    ensures f.allocatableCpu + Trunc(r.cpuUsed) == coreCount && f.allocatableMem + r.memUsed == memSize
  {
    Figures(r.cpuUsed / coreCount as real, r.memUsed as real / memSize as real, r.load,
      coreCount - Trunc(r.cpuUsed), memSize - r.memUsed)
  }

  /** When every workload reports a load between 0 and 1, the tick's CPU
      usage lies between 0 and 1 and the allocatable CPU between 0 and the
      core count. */
  lemma RunWithinNode(ready: seq<string>, pods: map<string, Pod>, coreCount: nat, memSize: int, lastCpuUsage: real,
    request: string -> (real, int), run: (string, seq<real>, int) -> Outcome)
    requires OnNode(ready, pods) && coreCount > 0 && memSize > 0
    requires forall k, s, m :: 0.0 <= run(k, s, m).load <= 1.0
    ensures var f := FiguresOf(RunOf(ready, pods, coreCount, lastCpuUsage, request, run), coreCount, memSize);
      0.0 <= f.cpuUsage <= 1.0 && 0 <= f.allocatableCpu <= coreCount
  {
    var r := RunOf(ready, pods, coreCount, lastCpuUsage, request, run);
    var ds := DemandsOf(ready, pods, request);
    CpuUsageInUnit(ds, coreCount, LoadsOf(r.outcomes));
  }

  /** Each ready pod's workload sees exactly its own slices of the schedule,
      one per CPU it was given, throttled by the previous tick's usage. */
  lemma WorkloadSlices(ready: seq<string>, pods: map<string, Pod>, coreCount: nat, lastCpuUsage: real,
    request: string -> (real, int), run: (string, seq<real>, int) -> Outcome, i: nat)
    requires OnNode(ready, pods) && i < |ready|
    ensures var ds := DemandsOf(ready, pods, request);
      var slot := SlotsOf(Scheduled(ds, coreCount), i);
      && |slot| == Cores(ds[i], coreCount)
      && RunOf(ready, pods, coreCount, lastCpuUsage, request, run).outcomes[i]
        == run(ready[i], Reduced(slot, lastCpuUsage), request(ready[i]).1)
  {
    SlicesPerPod(DemandsOf(ready, pods, request), coreCount, i);
  }
}
