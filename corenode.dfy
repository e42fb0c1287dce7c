/** The `core` package's simulated node: the pods bound to it, the pods
    being deleted gracefully with their remaining ticks, and the tick that
    sorts the pods, runs the ready ones and reports the node's usage. The
    calls the node makes on the cluster client (pod and node status
    updates, pod deletions) and on a pod's algorithm (Terminate) are
    recorded, in order, in an effect log. */
module CoreNode {
  import opened Common
  import opened CoreScheduler
  import opened NodeAccounting
  import opened NodeRun
  import Metrics

  /** A call the node makes on the client or on a pod's algorithm. */
  datatype Effect =
    | PodStatusUpdate(pod: Pod)
    | PodDelete(name: string)
    | PodTerminate(name: string)
    | NodeStatusUpdate(allocatableCpu: int, allocatableMem: int)

  // ---------------------------------------------------------------------
  // Sorting the pods at the start of a tick

  /** The state the sorting loop builds: the ready pods in the order met,
      the pod map, the deletion entries and the effects so far. */
  datatype Sorting = Sorting(ready: seq<string>, pods: map<string, Pod>, deleting: map<string, int>, effects: seq<Effect>)

  /** One iteration of the sorting loop, on the pod `pod` met in the map.
      A running pod is ready unless a deletion entry whose remaining ticks
      drop to 0 or below sends it to deletion; a pod that is not running is
      removed from the node when it stopped on its own (with a status
      update), and is deleted on the client when its deletion was asked. */
  function SortPod(s: Sorting, pod: Pod): (r: Sorting)
  {
    var k := pod.name;
    if pod.phase == Running then
      if k in s.deleting then
        var left := s.deleting[k] - 1;
        if left <= 0 then s.(deleting := s.deleting[k := left], effects := s.effects + [PodDelete(k)])
        else s.(deleting := s.deleting[k := left], ready := s.ready + [k])
      else s.(ready := s.ready + [k])
    else if k !in s.deleting then
      s.(pods := s.pods - {k}, effects := s.effects + [PodStatusUpdate(pod)])
    else s.(effects := s.effects + [PodDelete(k)])
  }

  /** The sorting loop over the pods in the order `order`, each pod read
      from the map as it was when the loop started. */
  function Sorted(order: seq<string>, pods: map<string, Pod>, deleting: map<string, int>): Sorting
    requires forall i :: 0 <= i < |order| ==> order[i] in pods
  {
    if |order| == 0 then Sorting([], pods, deleting, [])
    else SortPod(Sorted(order[..|order| - 1], pods, deleting), pods[order[|order| - 1]])
  }

  /** Sorting pod `x` changes nothing about any other pod. */
  lemma SortPodOther(s: Sorting, pod: Pod, k: string)
    requires pod.name != k
    ensures var r := SortPod(s, pod);
      && (k in r.ready <==> k in s.ready)
      && (k in r.pods <==> k in s.pods) && (k in s.pods ==> r.pods[k] == s.pods[k])
      && (k in r.deleting <==> k in s.deleting) && (k in s.deleting ==> r.deleting[k] == s.deleting[k])
      && (PodDelete(k) in r.effects <==> PodDelete(k) in s.effects)
      && (forall p: Pod :: p.name == k ==> (PodStatusUpdate(p) in r.effects <==> PodStatusUpdate(p) in s.effects))
  {
  }

  /** What sorting does to one pod `k` of the map, whatever the order of the
      other pods: whether it is ready, whether it stays on the node, what
      becomes of its deletion entry and which client calls it causes. */
  lemma {:induction false} SortedPod(order: seq<string>, pods: map<string, Pod>, deleting: map<string, int>, k: string)
    requires (forall i :: 0 <= i < |order| ==> order[i] in pods) && KeyedByName(pods)
    requires forall i, j :: 0 <= i < j < |order| ==> order[i] != order[j]
    requires k in pods
    ensures var s, p := Sorted(order, pods, deleting), pods[k];
      && (k in s.ready <==> k in order && p.phase == Running && (k in deleting ==> deleting[k] - 1 > 0))
      && (k in s.pods <==> k !in order || p.phase == Running || k in deleting)
      && (k in s.pods ==> s.pods[k] == p)
      && (k in s.deleting <==> k in deleting)
      && (k in deleting ==> s.deleting[k] == if k in order && p.phase == Running then deleting[k] - 1 else deleting[k])
      && (PodDelete(k) in s.effects <==>
           k in order && k in deleting && (p.phase == Running ==> deleting[k] - 1 <= 0))
      && (forall q: Pod :: q.name == k ==>
           (PodStatusUpdate(q) in s.effects <==> k in order && q == p && p.phase != Running && k !in deleting))
    decreases |order|
  {
    if |order| > 0 {
      var front, x := order[..|order| - 1], order[|order| - 1];
      SortedPod(front, pods, deleting, k);
      if x != k {
        SortPodOther(Sorted(front, pods, deleting), pods[x], k);
      } else {
        assert k !in front;
      }
    }
  }

  /** The ready list has no pod twice and lists only pods of the order. */
  lemma {:induction false} SortedReadyDistinct(order: seq<string>, pods: map<string, Pod>, deleting: map<string, int>)
    requires (forall i :: 0 <= i < |order| ==> order[i] in pods) && KeyedByName(pods)
    requires forall i, j :: 0 <= i < j < |order| ==> order[i] != order[j]
    ensures var r := Sorted(order, pods, deleting).ready;
      && (forall i, j :: 0 <= i < j < |r| ==> r[i] != r[j])
      && (forall i :: 0 <= i < |r| ==> r[i] in order)
    ensures Sorted(order, pods, deleting).pods.Keys <= pods.Keys
    decreases |order|
  {
    if |order| > 0 {
      var front, x := order[..|order| - 1], order[|order| - 1];
      SortedReadyDistinct(front, pods, deleting);
      var r := Sorted(front, pods, deleting).ready;
      assert x !in r;
    }
  }

  /** The sorting loop as the node runs it. */
  method SortPods(order: seq<string>, pods: map<string, Pod>, deleting: map<string, int>) returns (s: Sorting)
    requires forall i :: 0 <= i < |order| ==> order[i] in pods
    ensures s == Sorted(order, pods, deleting)
  {
    s := Sorting([], pods, deleting, []);
    var i := 0;
    while i < |order|
      invariant 0 <= i <= |order|
      invariant s == Sorted(order[..i], pods, deleting)
    {
      var pod := pods[order[i]];
      assert order[..i + 1][..i] == order[..i];
      if pod.phase == Running {
        if pod.name in s.deleting {
          var left := s.deleting[pod.name] - 1;
          s := s.(deleting := s.deleting[pod.name := left]);
          if left <= 0 {
            s := s.(effects := s.effects + [PodDelete(pod.name)]);
            i := i + 1;
            continue;
          }
        }
        s := s.(ready := s.ready + [pod.name]);
      } else if pod.name !in s.deleting {
        s := s.(effects := s.effects + [PodStatusUpdate(pod)]);
        s := s.(pods := s.pods - {pod.name});
      } else {
        s := s.(effects := s.effects + [PodDelete(pod.name)]);
      }
      i := i + 1;
    }
    assert order[..i] == order;
  }

  // ---------------------------------------------------------------------
  // The node

  /** The mutable part of a node as one value. */
  datatype NodeState = NodeState(
    pods: map<string, Pod>,
    deletingPods: map<string, int>,
    lastCpuUsage: real,
    allocatableCpu: int,
    allocatableMem: int,
    effects: seq<Effect>)

  /** Every ready pod's phase as its workload left it. */
  function WithPhases(pods: map<string, Pod>, ready: seq<string>, outs: seq<Outcome>): (r: map<string, Pod>)
    requires |outs| == |ready| && OnNode(ready, pods)
    ensures r.Keys == pods.Keys
  {
    if |ready| == 0 then pods
    else
      var k := ready[|ready| - 1];
      var before := WithPhases(pods, ready[..|ready| - 1], outs[..|ready| - 1]);
      before[k := before[k].(phase := outs[|ready| - 1].phase)]
  }

  /** The run of the tick: the ready pods in the order sorting met them,
      on the map sorting left. */
  function ReadyRun(st: NodeState, coreCount: nat, order: seq<string>,
    request: string -> (real, int), run: (string, seq<real>, int) -> Outcome): (r: Run)
    requires KeyedByName(st.pods) && IterationOrder(order, st.pods)
    ensures var s := Sorted(order, st.pods, st.deletingPods); |r.outcomes| == |s.ready| && OnNode(s.ready, s.pods)
  {
    var s := Sorted(order, st.pods, st.deletingPods);
    SortedOnNode(order, st.pods, st.deletingPods);
    RunOf(s.ready, s.pods, coreCount, st.lastCpuUsage, request, run)
  }

  /** A whole tick on the node's state: sort the pods in the order `order`,
      run the ready ones, write back the phases their workloads leave,
      record the usage, and report the tick's metrics. The tick reports the
      figures of the run, the node keeps its CPU usage for the next tick's
      throttling, and the effect log grows by the sorting's client calls
      and then the node's status update. The allocatable resources stay as
      they were: the source sets the two figures on copies of the status
      entries (`ResourceList.Cpu()` and `Memory()` hand back the address of a
      copy), so the status it sends carries the old values. */
  function TickOf(st: NodeState, coreCount: nat, memSize: int, order: seq<string>,
    request: string -> (real, int), run: (string, seq<real>, int) -> Outcome): (r: (NodeState, Metrics.TickMetrics))
    requires coreCount > 0 && memSize > 0 && KeyedByName(st.pods) && IterationOrder(order, st.pods)
    ensures var s, u := Sorted(order, st.pods, st.deletingPods), ReadyRun(st, coreCount, order, request, run);
      && r.0.lastCpuUsage == r.1.cpuUsage
      && var f := FiguresOf(u, coreCount, memSize);
      && r.1 == Metrics.TickMetrics(f.cpuUsage, f.memUsage, f.load)
      && r.0.allocatableCpu == st.allocatableCpu && r.0.allocatableMem == st.allocatableMem
      && r.0.pods == WithPhases(s.pods, s.ready, u.outcomes) && r.0.deletingPods == s.deleting
      && r.0.effects == st.effects + s.effects + [NodeStatusUpdate(st.allocatableCpu, st.allocatableMem)]
  {
    var s := Sorted(order, st.pods, st.deletingPods);
    var run_ := ReadyRun(st, coreCount, order, request, run);
    var f := FiguresOf(run_, coreCount, memSize);
    SortedOnNode(order, st.pods, st.deletingPods);
    (NodeState(WithPhases(s.pods, s.ready, run_.outcomes), s.deleting, f.cpuUsage, st.allocatableCpu,
       st.allocatableMem, st.effects + s.effects + [NodeStatusUpdate(st.allocatableCpu, st.allocatableMem)]),
     Metrics.TickMetrics(f.cpuUsage, f.memUsage, f.load))
  }

  /** When every workload reports a load between 0 and 1, the CPU usage
      the tick reports and keeps lies between 0 and 1, and the allocatable
      CPU figure it computes lies between 0 and the core count. */
  lemma TickWithinNode(st: NodeState, coreCount: nat, memSize: int, order: seq<string>,
    request: string -> (real, int), run: (string, seq<real>, int) -> Outcome)
    requires coreCount > 0 && memSize > 0 && KeyedByName(st.pods) && IterationOrder(order, st.pods)
    requires forall k, s, m :: 0.0 <= run(k, s, m).load <= 1.0
    ensures var t := TickOf(st, coreCount, memSize, order, request, run);
      && 0.0 <= t.1.cpuUsage <= 1.0 && 0.0 <= t.0.lastCpuUsage <= 1.0
      && var f := FiguresOf(ReadyRun(st, coreCount, order, request, run), coreCount, memSize);
      0 <= f.allocatableCpu <= coreCount
  {
    var s := Sorted(order, st.pods, st.deletingPods);
    SortedOnNode(order, st.pods, st.deletingPods);
    RunWithinNode(s.ready, s.pods, coreCount, memSize, st.lastCpuUsage, request, run);
  }

  /** What a tick does to one pod `k` of the node. It stays exactly when it
      is running or being deleted; it is run exactly when it is running and
      not at the end of a graceful deletion; a pod that ran takes the phase
      its workload left it in, any other pod that stays is unchanged; its
      deletion entry is kept, counted down when the pod is running. */
  lemma TickPod(st: NodeState, coreCount: nat, memSize: int, order: seq<string>,
    request: string -> (real, int), run: (string, seq<real>, int) -> Outcome, k: string)
    requires coreCount > 0 && memSize > 0 && KeyedByName(st.pods) && IterationOrder(order, st.pods)
    requires k in st.pods
    ensures var after, p := TickOf(st, coreCount, memSize, order, request, run).0, st.pods[k];
      var s, u := Sorted(order, st.pods, st.deletingPods), ReadyRun(st, coreCount, order, request, run);
      && (k in after.pods <==> p.phase == Running || k in st.deletingPods)
      && (k in s.ready <==> p.phase == Running && (k in st.deletingPods ==> st.deletingPods[k] - 1 > 0))
      && (forall i :: 0 <= i < |s.ready| && s.ready[i] == k ==> after.pods[k] == p.(phase := u.outcomes[i].phase))
      && (k in after.pods && k !in s.ready ==> after.pods[k] == p)
      && (k in after.deletingPods <==> k in st.deletingPods)
      && (k in st.deletingPods ==>
           after.deletingPods[k] == if p.phase == Running then st.deletingPods[k] - 1 else st.deletingPods[k])
  {
    SortedOnNode(order, st.pods, st.deletingPods);
    SortedPhases(order, st.pods, st.deletingPods, ReadyRun(st, coreCount, order, request, run).outcomes, k);
  }

  /** What sorting and the phase write-back do to one pod, whatever the
      outcomes. */
  lemma SortedPhases(order: seq<string>, pods: map<string, Pod>, deleting: map<string, int>, outs: seq<Outcome>, k: string)
    requires KeyedByName(pods) && IterationOrder(order, pods) && k in pods
    requires var s := Sorted(order, pods, deleting); |outs| == |s.ready| && OnNode(s.ready, s.pods)
    ensures var s, p := Sorted(order, pods, deleting), pods[k];
      var after := WithPhases(s.pods, s.ready, outs);
      && (k in after <==> p.phase == Running || k in deleting)
      && (k in s.ready <==> p.phase == Running && (k in deleting ==> deleting[k] - 1 > 0))
      && (forall i :: 0 <= i < |s.ready| && s.ready[i] == k ==> after[k] == p.(phase := outs[i].phase))
      && (k in after && k !in s.ready ==> after[k] == p)
      && (k in s.deleting <==> k in deleting)
      && (k in deleting ==> s.deleting[k] == if p.phase == Running then deleting[k] - 1 else deleting[k])
  {
    var s := Sorted(order, pods, deleting);
    SortedPod(order, pods, deleting, k);
    SortedReadyDistinct(order, pods, deleting);
    if k in s.pods {
      WithPhasesAt(s.pods, s.ready, outs, k);
    }
  }

  /** The write-back gives a pod of the ready list the phase of its own
      outcome, and leaves every other pod unchanged. */
  lemma {:induction false} WithPhasesAt(pods: map<string, Pod>, ready: seq<string>, outs: seq<Outcome>, k: string)
    requires |outs| == |ready| && OnNode(ready, pods) && k in pods
    requires forall i, j :: 0 <= i < j < |ready| ==> ready[i] != ready[j]
    ensures var r := WithPhases(pods, ready, outs);
      && (forall i :: 0 <= i < |ready| && ready[i] == k ==> r[k] == pods[k].(phase := outs[i].phase))
      && (k !in ready ==> r[k] == pods[k])
    decreases |ready|
  {
    if |ready| > 0 {
      var n := |ready| - 1;
      var front, before := ready[..n], WithPhases(pods, ready[..n], outs[..n]);
      WithPhasesAt(pods, front, outs[..n], k);
      var r := WithPhases(pods, ready, outs);
      forall i | 0 <= i < |ready| && ready[i] == k
        ensures r[k] == pods[k].(phase := outs[i].phase)
      {
        if i < n {
          assert front[i] == k && outs[..n][i] == outs[i];
        } else {
          assert k !in front;
        }
      }
    }
  }

  /** Every ready pod is still on the node when the workloads run. */
  lemma SortedOnNode(order: seq<string>, pods: map<string, Pod>, deleting: map<string, int>)
    requires KeyedByName(pods) && IterationOrder(order, pods)
    ensures var s := Sorted(order, pods, deleting); OnNode(s.ready, s.pods)
  {
    var s := Sorted(order, pods, deleting);
    SortedReadyDistinct(order, pods, deleting);
    forall i | 0 <= i < |s.ready| ensures s.ready[i] in s.pods {
      SortedPod(order, pods, deleting, s.ready[i]);
    }
  }

  class Node {
    const name: string
    /** The CPU and memory capacity of the node. */
    const coreCount: nat
    const memSize: int
    /** The CPU queues the scheduler is handed; the node never changes them. */
    var cpuState: seq<seq<RunEntity>>
    var pods: map<string, Pod>
    /** Remaining ticks of the pods being deleted gracefully. */
    var deletingPods: map<string, int>
    var lastCpuUsage: real
    var allocatableCpu: int
    var allocatableMem: int
    /** The calls made on the client and on the pods' algorithms, oldest first. */
    var effects: seq<Effect>

    ghost predicate Valid()
      reads this
    {
      coreCount > 0 && memSize > 0 && |cpuState| == coreCount && KeyedByName(pods)
    }

    function State(): NodeState
      reads this
    {
      NodeState(pods, deletingPods, lastCpuUsage, allocatableCpu, allocatableMem, effects)
    }

    /** A node as the client creates it: no pods, one empty queue per CPU,
        and all of its capacity allocatable. */
    constructor(name: string, coreCount: nat, memSize: int)
      requires coreCount > 0 && memSize > 0
      ensures Valid() && this.name == name && this.coreCount == coreCount && this.memSize == memSize
      ensures pods == map[] && deletingPods == map[] && lastCpuUsage == 0.0 && effects == []
      ensures cpuState == Repeat([], coreCount)
      ensures allocatableCpu == coreCount && allocatableMem == memSize
    {
      this.name, this.coreCount, this.memSize := name, coreCount, memSize;
      cpuState := Repeat([], coreCount);
      pods, deletingPods := map[], map[];
      lastCpuUsage := 0.0;
      allocatableCpu, allocatableMem := coreCount, memSize;
      effects := [];
    }

    /** BindPod: refuse a pod whose name is already bound; otherwise bind it
        here as running and send its status, whose failure `updated` says. */
    method BindPod(pod: Pod, updated: bool) returns (r: Result<()>)
      requires Valid()
      modifies this
      ensures Valid()
      ensures pod.name in old(pods) ==> r.Err? && pods == old(pods) && effects == old(effects)
      ensures pod.name !in old(pods) ==>
        var bound := pod.(nodeName := name, phase := Running);
        && pods == old(pods)[pod.name := bound]
        && effects == old(effects) + [PodStatusUpdate(bound)]
        && (r.Ok? <==> updated)
      ensures deletingPods == old(deletingPods) && lastCpuUsage == old(lastCpuUsage) && cpuState == old(cpuState)
      ensures allocatableCpu == old(allocatableCpu) && allocatableMem == old(allocatableMem)
    {
      if pod.name in pods {
        return Err("pod already bound");
      }
      var bound := pod.(nodeName := name, phase := Running);
      pods := pods[pod.name := bound];
      effects := effects + [PodStatusUpdate(bound)];
      if !updated {
        return Err("error updating pod status");
      }
      r := Ok(());
    }

    /** EvictPod: forget the pod. */
    method EvictPod(pod: Pod) returns (r: Result<()>)
      requires Valid()
      modifies this
      ensures Valid() && r.Ok?
      ensures pods == old(pods) - {pod.name}
      ensures deletingPods == old(deletingPods) && effects == old(effects) && lastCpuUsage == old(lastCpuUsage)
      ensures cpuState == old(cpuState) && allocatableCpu == old(allocatableCpu) && allocatableMem == old(allocatableMem)
    {
      pods := pods - {pod.name};
      r := Ok(());
    }

    /** DeletePod: an unknown pod is an error; a graceful tick count of 0
        removes the pod at once, any other count starts a graceful deletion
        and tells the pod's algorithm to terminate. */
    method DeletePod(podName: string, gracefulTick: int) returns (r: Result<()>)
      requires Valid()
      modifies this
      ensures Valid()
      ensures r.Err? <==> podName !in old(pods)
      ensures podName !in old(pods) ==> pods == old(pods) && deletingPods == old(deletingPods) && effects == old(effects)
      ensures podName in old(pods) && gracefulTick == 0 ==>
        pods == old(pods) - {podName} && deletingPods == old(deletingPods) - {podName} && effects == old(effects)
      ensures podName in old(pods) && gracefulTick != 0 ==>
        && pods == old(pods) && deletingPods == old(deletingPods)[podName := gracefulTick]
        && effects == old(effects) + [PodTerminate(podName)]
      ensures lastCpuUsage == old(lastCpuUsage) && cpuState == old(cpuState)
      ensures allocatableCpu == old(allocatableCpu) && allocatableMem == old(allocatableMem)
    {
      if podName !in pods {
        return Err("no pod");
      }
      if gracefulTick == 0 {
        pods := pods - {podName};
        deletingPods := deletingPods - {podName};
      } else {
        deletingPods := deletingPods[podName := gracefulTick];
        effects := effects + [PodTerminate(podName)];
      }
      r := Ok(());
    }

    /** Tick: sort the pods in the map iteration order `order`, run the
        ready ones and report the node's usage. */
    method Tick(order: seq<string>, request: string -> (real, int), run: (string, seq<real>, int) -> Outcome)
      returns (m: Metrics.TickMetrics)
      requires Valid() && IterationOrder(order, pods)
      modifies this
      ensures Valid() && cpuState == old(cpuState)
      ensures (State(), m) == TickOf(old(State()), coreCount, memSize, order, request, run)
    {
      var s := SortPods(order, pods, deletingPods);
      SortedOnNode(order, pods, deletingPods);
      var r := RunReady(s.ready, s.pods, cpuState, coreCount, lastCpuUsage, request, run);
      var newPods := SetPhases(s.pods, s.ready, r.outcomes);
      var f := FiguresOf(r, coreCount, memSize);
      PhasesKeepNames(s.pods, s.ready, r.outcomes);
      SortedKeepsNames(order, pods, deletingPods);
      pods, deletingPods := newPods, s.deleting;
      lastCpuUsage := f.cpuUsage;
      effects := effects + s.effects + [NodeStatusUpdate(allocatableCpu, allocatableMem)];
      m := Metrics.TickMetrics(f.cpuUsage, f.memUsage, f.load);
    }
  }

  /** The workloads' phase write-back, through the pods the ready list
      points at. */
  method SetPhases(pods: map<string, Pod>, ready: seq<string>, outs: seq<Outcome>) returns (r: map<string, Pod>)
    requires |outs| == |ready| && OnNode(ready, pods)
    ensures r == WithPhases(pods, ready, outs)
  {
    r := pods;
    var i := 0;
    while i < |ready|
      invariant 0 <= i <= |ready|
      invariant r == WithPhases(pods, ready[..i], outs[..i])
    {
      assert ready[..i + 1][..i] == ready[..i] && outs[..i + 1][..i] == outs[..i];
      r := r[ready[i] := r[ready[i]].(phase := outs[i].phase)];
      i := i + 1;
    }
    assert ready[..i] == ready && outs[..i] == outs;
  }

  /** The write-back changes phases only: every pod keeps its name and CPU
      limit. */
  lemma {:induction false} PhasesKeepNames(pods: map<string, Pod>, ready: seq<string>, outs: seq<Outcome>)
    requires |outs| == |ready| && OnNode(ready, pods)
    ensures var r := WithPhases(pods, ready, outs);
      forall k :: k in r ==>
        r[k].name == pods[k].name && r[k].cpuLimit == pods[k].cpuLimit && r[k].nodeName == pods[k].nodeName
    decreases |ready|
  {
    if |ready| > 0 {
      PhasesKeepNames(pods, ready[..|ready| - 1], outs[..|ready| - 1]);
    }
  }

  /** Sorting only removes pods: the map stays keyed by name. */
  lemma SortedKeepsNames(order: seq<string>, pods: map<string, Pod>, deleting: map<string, int>)
    requires KeyedByName(pods) && IterationOrder(order, pods)
    ensures KeyedByName(Sorted(order, pods, deleting).pods)
  {
    var s := Sorted(order, pods, deleting);
    SortedReadyDistinct(order, pods, deleting);
    forall k | k in s.pods ensures s.pods[k].name == k {
      SortedPod(order, pods, deleting, k);
    }
  }
}
