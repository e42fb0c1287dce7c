/** The older `simulate` package's node: binding overwrites, and a tick
    that drops every pod that is not running, runs the running ones and
    reports the node's usage. It keeps no deletion entries and makes no
    client calls. */
module SimulateNode {
  import opened Common
  import opened CoreScheduler
  import opened NodeRun
  import Metrics

  /** The running pods in the order `order` meets them. */
  function Ready(order: seq<string>, pods: map<string, Pod>): seq<string>
    requires forall i :: 0 <= i < |order| ==> order[i] in pods
  {
    if |order| == 0 then []
    else
      var k := order[|order| - 1];
      Ready(order[..|order| - 1], pods) + if pods[k].phase == Running then [k] else []
  }

  /** The names of the pods that are not running, in the order met. */
  function Terminated(order: seq<string>, pods: map<string, Pod>): seq<string>
    requires forall i :: 0 <= i < |order| ==> order[i] in pods
  {
    if |order| == 0 then []
    else
      var k := order[|order| - 1];
      Terminated(order[..|order| - 1], pods) + if pods[k].phase != Running then [pods[k].name] else []
  }

  /** The classification loop: each pod of the map is ready when running
      and terminated otherwise. */
  method Classify(order: seq<string>, pods: map<string, Pod>) returns (ready: seq<string>, terminated: seq<string>)
    requires forall i :: 0 <= i < |order| ==> order[i] in pods
    ensures ready == Ready(order, pods) && terminated == Terminated(order, pods)
  {
    ready, terminated := [], [];
    var i := 0;
    while i < |order|
      invariant 0 <= i <= |order|
      invariant ready == Ready(order[..i], pods) && terminated == Terminated(order[..i], pods)
    {
      assert order[..i + 1][..i] == order[..i];
      var pod := pods[order[i]];
      if pod.phase == Running {
        ready := ready + [order[i]];
      } else {
        terminated := terminated + [pod.name];
      }
      i := i + 1;
    }
    assert order[..i] == order;
  }

  /** The map less every listed name. */
  function Without(pods: map<string, Pod>, names: seq<string>): (r: map<string, Pod>)
    ensures forall k :: k in r <==> k in pods && k !in names
    ensures forall k :: k in r ==> r[k] == pods[k]
  {
    pods - set i | 0 <= i < |names| :: names[i]
  }

  /** The deletion loop: every listed name leaves the map. */
  method DeleteAll(pods: map<string, Pod>, names: seq<string>) returns (r: map<string, Pod>)
    ensures r == Without(pods, names)
  {
    r := pods;
    var i := 0;
    while i < |names|
      invariant 0 <= i <= |names|
      invariant r == pods - set j | 0 <= j < i :: names[j]
    {
      assert (set j | 0 <= j < i + 1 :: names[j]) == (set j | 0 <= j < i :: names[j]) + {names[i]};
      r := r - {names[i]};
      i := i + 1;
    }
  }

  /** Classification sorts each pod by its phase alone: it is ready exactly
      when it is running, and terminated exactly when it is not. */
  lemma {:induction false} Classified(order: seq<string>, pods: map<string, Pod>, k: string)
    requires (forall i :: 0 <= i < |order| ==> order[i] in pods) && KeyedByName(pods)
    ensures k in Ready(order, pods) <==> k in order && pods[k].phase == Running
    ensures k in Terminated(order, pods) <==> k in order && pods[k].phase != Running
    decreases |order|
  {
    if |order| > 0 {
      Classified(order[..|order| - 1], pods, k);
      var x := order[|order| - 1];
      assert order == order[..|order| - 1] + [x];
    }
  }

  /** The ready list names no pod twice. */
  lemma {:induction false} ReadyDistinct(order: seq<string>, pods: map<string, Pod>)
    requires (forall i :: 0 <= i < |order| ==> order[i] in pods) && KeyedByName(pods)
    requires forall i, j :: 0 <= i < j < |order| ==> order[i] != order[j]
    ensures var r := Ready(order, pods); forall i, j :: 0 <= i < j < |r| ==> r[i] != r[j]
    decreases |order|
  {
    if |order| > 0 {
      var front := order[..|order| - 1];
      ReadyDistinct(front, pods);
      Classified(front, pods, order[|order| - 1]);
    }
  }

  /** The mutable part of the node as one value. */
  datatype SimState = SimState(pods: map<string, Pod>, lastCpuUsage: real, allocatableCpu: int, allocatableMem: int)

  /** A whole tick on the node's state: drop the pods that are not running,
      run the running ones in the order `order` and record the usage. The
      workloads are handed the pods as they were when the tick began. The
      tick reports the figures of that run, and the node keeps its CPU
      usage for the next tick's throttling. The allocatable resources stay
      as they were: the source sets the two figures on copies of the status
      entries (`ResourceList.Cpu()` and `Memory()` hand back the address of a
      copy). */
  function TickOf(st: SimState, coreCount: nat, memSize: int, order: seq<string>,
    request: string -> (real, int), run: (string, seq<real>, int) -> Outcome): (r: (SimState, Metrics.TickMetrics))
    requires coreCount > 0 && memSize > 0 && KeyedByName(st.pods) && IterationOrder(order, st.pods)
    ensures var u := ReadyRun(st, coreCount, order, request, run);
      && r.0.lastCpuUsage == r.1.cpuUsage
      && var f := FiguresOf(u, coreCount, memSize);
      && r.1 == Metrics.TickMetrics(f.cpuUsage, f.memUsage, f.load)
      && r.0.allocatableCpu == st.allocatableCpu && r.0.allocatableMem == st.allocatableMem
  {
    var terminated := Terminated(order, st.pods);
    var run_ := ReadyRun(st, coreCount, order, request, run);
    var f := FiguresOf(run_, coreCount, memSize);
    (SimState(Without(st.pods, terminated), f.cpuUsage, st.allocatableCpu, st.allocatableMem),
     Metrics.TickMetrics(f.cpuUsage, f.memUsage, f.load))
  }

  /** The run of the tick: the running pods in the order met, read from
      the map as the tick found it. */
  function ReadyRun(st: SimState, coreCount: nat, order: seq<string>,
    request: string -> (real, int), run: (string, seq<real>, int) -> Outcome): (r: Run)
    requires KeyedByName(st.pods) && forall i :: 0 <= i < |order| ==> order[i] in st.pods
    ensures |r.outcomes| == |Ready(order, st.pods)|
  {
    ReadyOnNode(order, st.pods);
    RunOf(Ready(order, st.pods), st.pods, coreCount, st.lastCpuUsage, request, run)
  }

  lemma ReadyOnNode(order: seq<string>, pods: map<string, Pod>)
    requires (forall i :: 0 <= i < |order| ==> order[i] in pods) && KeyedByName(pods)
    ensures OnNode(Ready(order, pods), pods)
  {
    var r := Ready(order, pods);
    forall i | 0 <= i < |r| ensures r[i] in pods {
      Classified(order, pods, r[i]);
    }
  }

  /** After a tick exactly the running pods are left, unchanged, and the
      workloads ran on exactly the running pods, none twice. */
  lemma TickKeepsRunning(st: SimState, coreCount: nat, memSize: int, order: seq<string>,
    request: string -> (real, int), run: (string, seq<real>, int) -> Outcome, k: string)
    requires coreCount > 0 && memSize > 0 && KeyedByName(st.pods) && IterationOrder(order, st.pods)
    ensures var after := TickOf(st, coreCount, memSize, order, request, run).0.pods;
      && (k in after <==> k in st.pods && st.pods[k].phase == Running)
      && (k in after ==> after[k] == st.pods[k])
      && (k in Ready(order, st.pods) <==> k in st.pods && st.pods[k].phase == Running)
    ensures var r := Ready(order, st.pods); forall i, j :: 0 <= i < j < |r| ==> r[i] != r[j]
  {
    var terminated := Terminated(order, st.pods);
    Classified(order, st.pods, k);
    ReadyDistinct(order, st.pods);
  }

  /** When every workload reports a load between 0 and 1, the CPU usage
      the tick reports and keeps lies between 0 and 1, and the allocatable
      CPU figure it computes lies between 0 and the core count. */
  lemma TickWithinNode(st: SimState, coreCount: nat, memSize: int, order: seq<string>,
    request: string -> (real, int), run: (string, seq<real>, int) -> Outcome)
    requires coreCount > 0 && memSize > 0 && KeyedByName(st.pods) && IterationOrder(order, st.pods)
    requires forall k, s, m :: 0.0 <= run(k, s, m).load <= 1.0
    ensures var t := TickOf(st, coreCount, memSize, order, request, run);
      && 0.0 <= t.1.cpuUsage <= 1.0 && 0.0 <= t.0.lastCpuUsage <= 1.0
      && var f := FiguresOf(ReadyRun(st, coreCount, order, request, run), coreCount, memSize);
      0 <= f.allocatableCpu <= coreCount
  {
    ReadyOnNode(order, st.pods);
    RunWithinNode(Ready(order, st.pods), st.pods, coreCount, memSize, st.lastCpuUsage, request, run);
  }

  class Node {
    const name: string
    const coreCount: nat
    const memSize: int
    /** The CPU queues the scheduler is handed; the node never changes them. */
    var cpuState: seq<seq<RunEntity>>
    var pods: map<string, Pod>
    var lastCpuUsage: real
    var allocatableCpu: int
    var allocatableMem: int

    ghost predicate Valid()
      reads this
    {
      coreCount > 0 && memSize > 0 && |cpuState| == coreCount && KeyedByName(pods)
    }

    function State(): SimState
      reads this
    {
      SimState(pods, lastCpuUsage, allocatableCpu, allocatableMem)
    }

    constructor(name: string, coreCount: nat, memSize: int)
      requires coreCount > 0 && memSize > 0
      ensures Valid() && this.name == name && this.coreCount == coreCount && this.memSize == memSize
      ensures pods == map[] && lastCpuUsage == 0.0 && cpuState == Repeat([], coreCount)
      ensures allocatableCpu == coreCount && allocatableMem == memSize
    {
      this.name, this.coreCount, this.memSize := name, coreCount, memSize;
      cpuState := Repeat([], coreCount);
      pods := map[];
      lastCpuUsage := 0.0;
      allocatableCpu, allocatableMem := coreCount, memSize;
    }

    /** BindPod: store the pod under its name, replacing any pod of that
        name; it never fails. */
    method BindPod(pod: Pod) returns (r: Result<()>)
      requires Valid()
      modifies this
      ensures Valid() && r.Ok? && pods == old(pods)[pod.name := pod]
      ensures lastCpuUsage == old(lastCpuUsage) && cpuState == old(cpuState)
      ensures allocatableCpu == old(allocatableCpu) && allocatableMem == old(allocatableMem)
    {
      pods := pods[pod.name := pod];
      r := Ok(());
    }

    /** EvictPod: forget the pod. */
    method EvictPod(pod: Pod) returns (r: Result<()>)
      requires Valid()
      modifies this
      ensures Valid() && r.Ok? && pods == old(pods) - {pod.name}
      ensures lastCpuUsage == old(lastCpuUsage) && cpuState == old(cpuState)
      ensures allocatableCpu == old(allocatableCpu) && allocatableMem == old(allocatableMem)
    {
      pods := pods - {pod.name};
      r := Ok(());
    }

    /** Tick: classify the pods in the map iteration order `order`, delete
        the ones not running, run the others and report the node's usage. */
    method Tick(order: seq<string>, request: string -> (real, int), run: (string, seq<real>, int) -> Outcome)
      returns (m: Metrics.TickMetrics)
      requires Valid() && IterationOrder(order, pods)
      modifies this
      ensures Valid() && cpuState == old(cpuState)
      ensures (State(), m) == TickOf(old(State()), coreCount, memSize, order, request, run)
    {
      var ready, terminated := Classify(order, pods);
      var remaining := DeleteAll(pods, terminated);
      ReadyOnNode(order, pods);
      var r := RunReady(ready, pods, cpuState, coreCount, lastCpuUsage, request, run);
      var f := FiguresOf(r, coreCount, memSize);
      pods := remaining;
      lastCpuUsage := f.cpuUsage;
      m := Metrics.TickMetrics(f.cpuUsage, f.memUsage, f.load);
    }
  }
}
