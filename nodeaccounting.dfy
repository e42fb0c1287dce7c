/** The steps a node's tick takes after scheduling, identical in the `core`
    and the older `simulate` node: collecting each ready pod's time slices,
    throttling them under CPU pressure, and charging CPU time. A run entity's
    `pod` is the index of its pod in the tick's ready list. */
module NodeAccounting {
  import opened Common
  import opened CoreScheduler

  // ---------------------------------------------------------------------
  // CPU pressure

  /** How much of each slice a workload keeps at the given CPU usage of the
      previous tick: all of it below 0.7, and 0.7 points less per point of
      usage above 0.7. */
  function PressureFactor(cpuUsage: real): real
  {
    if cpuUsage >= 0.7 then 1.0 - (cpuUsage - 0.7) else 1.0
  }

  function Reduced(slot: seq<real>, cpuUsage: real): (r: seq<real>)
    ensures |r| == |slot|
  {
    if cpuUsage >= 0.7 then Scale(slot, 1.0 - (cpuUsage - 0.7)) else slot
  }

  /** cpuPressureReduction: scales the slices in place. */
  method CpuPressureReduction(slot: array<real>, cpuUsage: real)
    modifies slot
    ensures slot[..] == Reduced(old(slot[..]), cpuUsage)
  {
    if cpuUsage >= 0.7 {
      var reduction := 1.0 - (cpuUsage - 0.7);
      var i := 0;
      while i < slot.Length
        invariant 0 <= i <= slot.Length
        invariant forall k :: 0 <= k < i ==> slot[k] == old(slot[k]) * reduction
        invariant forall k :: i <= k < slot.Length ==> slot[k] == old(slot[k])
      {
        slot[i] := slot[i] * reduction;
        i := i + 1;
      }
      assert forall k :: 0 <= k < slot.Length ==> slot[..][k] == Scale(old(slot[..]), reduction)[k];
    }
  }

  /** Throttling keeps the number of slices, leaves them alone below 0.7,
      scales each by the pressure factor otherwise, and so scales their
      total by that factor. */
  lemma ReductionScales(slot: seq<real>, cpuUsage: real)
    ensures |Reduced(slot, cpuUsage)| == |slot|
    ensures cpuUsage < 0.7 ==> Reduced(slot, cpuUsage) == slot
    ensures forall i :: 0 <= i < |slot| ==> Reduced(slot, cpuUsage)[i] == slot[i] * PressureFactor(cpuUsage)
    ensures Sum(Reduced(slot, cpuUsage)) == Sum(slot) * PressureFactor(cpuUsage)
  {
    if cpuUsage >= 0.7 {
      SumScale(slot, PressureFactor(cpuUsage));
    }
  }

  /** For a usage between 0 and 1.7 throttling never grows a slice and never
      makes a non-negative one negative. */
  lemma ReductionBounded(slot: seq<real>, cpuUsage: real, i: nat)
    requires 0.0 <= cpuUsage <= 1.7 && i < |slot| && slot[i] >= 0.0
    ensures 0.0 <= Reduced(slot, cpuUsage)[i] <= slot[i]
  {
    if cpuUsage >= 0.7 {
      var f := 1.0 - (cpuUsage - 0.7);
      ScaleWithin(slot[i], f);
      assert Reduced(slot, cpuUsage)[i] == slot[i] * f;
    }
  }

  lemma ScaleWithin(x: real, f: real)
    requires x >= 0.0 && 0.0 <= f <= 1.0
    ensures 0.0 <= x * f <= x
  {
    assert x * f <= x * 1.0;
  }

  lemma FractionWithin(used: real, total: real)
    requires 0.0 <= used <= total && total > 0.0
    ensures 0.0 <= used / total <= 1.0
  {
    var q := used / total;
    assert q * total == used;

  }

  // ---------------------------------------------------------------------
  // Collecting slices

  /** The slices of pod `p`'s entries in one queue, in queue order. */
  function EntrySlots(q: seq<RunEntity>, p: nat): seq<real>
  {
    if |q| == 0 then []
    else EntrySlots(q[..|q| - 1], p) + (if q[|q| - 1].pod == p then [q[|q| - 1].slot] else [])
  }

  /** Pod `p`'s slices over all CPUs, in CPU order. */
  function SlotsOf(state: seq<seq<RunEntity>>, p: nat): seq<real>
  {
    if |state| == 0 then []
    else SlotsOf(state[..|state| - 1], p) + EntrySlots(state[|state| - 1], p)
  }

  ghost predicate PodsBelow(state: seq<seq<RunEntity>>, n: nat)
  {
    forall c, j :: 0 <= c < |state| && 0 <= j < |state[c]| ==> state[c][j].pod < n
  }

  /** The slice-collecting loop of the node's tick. */
  method GatherSlots(state: seq<seq<RunEntity>>, n: nat) returns (slots: seq<seq<real>>)
    requires PodsBelow(state, n)
    ensures |slots| == n
    ensures forall p :: 0 <= p < n ==> slots[p] == SlotsOf(state, p)
  {
    slots := seq(n, _ => []);
    var i := 0;
    while i < |state|
      invariant 0 <= i <= |state| && |slots| == n
      invariant forall p :: 0 <= p < n ==> slots[p] == SlotsOf(state[..i], p)
    {
      var j := 0;
      assert state[..i + 1][..i] == state[..i];
      while j < |state[i]|
        invariant 0 <= j <= |state[i]| && |slots| == n
        invariant forall p :: 0 <= p < n ==> slots[p] == SlotsOf(state[..i], p) + EntrySlots(state[i][..j], p)
      {
        var entity := state[i][j];
        assert state[i][..j + 1][..j] == state[i][..j];
        slots := slots[entity.pod := slots[entity.pod] + [entity.slot]];
        j := j + 1;
      }
      assert state[i][..j] == state[i];
      i := i + 1;
    }
    assert state[..i] == state;
  }

  lemma {:induction false} EntrySlotsCount(q: seq<RunEntity>, p: nat)
    ensures |EntrySlots(q, p)| == Count(Pods(q), p)
    decreases |q|
  {
    if |q| > 0 {
      var t := |q| - 1;
      EntrySlotsCount(q[..t], p);
      assert Pods(q) == Pods(q[..t]) + [q[t].pod];
      CountAppend(Pods(q[..t]), q[t].pod, p);
    }
  }

  lemma {:induction false} SlotsOfCount(state: seq<seq<RunEntity>>, p: nat)
    ensures |SlotsOf(state, p)| == Occupancy(state, p)
    decreases |state|
  {
    if |state| > 0 {
      SlotsOfCount(state[..|state| - 1], p);
      EntrySlotsCount(state[|state| - 1], p);
    }
  }

  /** A ready pod receives one slice per core the scheduler gave it. */
  lemma SlicesPerPod(pods: seq<Demand>, totalCpu: nat, p: nat)
    requires p < |pods|
    ensures |SlotsOf(Scheduled(pods, totalCpu), p)| == Cores(pods[p], totalCpu)
  {
    SlotsOfCount(Scheduled(pods, totalCpu), p);
    ScheduleCount(pods, totalCpu, p);
  }

  // ---------------------------------------------------------------------
  // Charging CPU time

  /** The CPU time a queue used: each entry's unthrottled slice times its
      pod's load. */
  function QueueUsed(q: seq<RunEntity>, loads: seq<real>): real
    requires forall j :: 0 <= j < |q| ==> q[j].pod < |loads|
  {
    if |q| == 0 then 0.0
    else QueueUsed(q[..|q| - 1], loads) + q[|q| - 1].slot * loads[q[|q| - 1].pod]
  }

  function CpuUsed(state: seq<seq<RunEntity>>, loads: seq<real>): real
    requires PodsBelow(state, |loads|)
  {
    if |state| == 0 then 0.0
    else CpuUsed(state[..|state| - 1], loads) + QueueUsed(state[|state| - 1], loads)
  }

  /** The CPU-charging loop of the node's tick over the first `coreCount`
      queues. */
  method AccountCpu(state: seq<seq<RunEntity>>, loads: seq<real>, coreCount: nat) returns (cpuUsed: real)
    requires coreCount <= |state| && PodsBelow(state, |loads|)
    ensures cpuUsed == CpuUsed(state[..coreCount], loads)
  {
    cpuUsed := 0.0;
    var i := 0;
    while i < coreCount
      invariant 0 <= i <= coreCount
      invariant cpuUsed == CpuUsed(state[..i], loads)
    {
      var j := 0;
      ghost var before := cpuUsed;
      assert state[..i + 1][..i] == state[..i];
      while j < |state[i]|
        invariant 0 <= j <= |state[i]|
        invariant cpuUsed == before + QueueUsed(state[i][..j], loads)
      {
        var entity := state[i][j];
        assert state[i][..j + 1][..j] == state[i][..j];
        cpuUsed := cpuUsed + entity.slot * loads[entity.pod];
        j := j + 1;
      }
      assert state[i][..j] == state[i];
      i := i + 1;
    }
  }

  ghost predicate LoadsInUnit(loads: seq<real>)
  {
    forall p :: 0 <= p < |loads| ==> 0.0 <= loads[p] <= 1.0
  }

  /** A queue whose slices are non-negative uses no more CPU time than its
      slices add up to, when loads lie between 0 and 1. */
  lemma {:induction false} QueueUsedBounded(q: seq<RunEntity>, loads: seq<real>)
    requires forall j :: 0 <= j < |q| ==> q[j].pod < |loads| && q[j].slot >= 0.0
    requires LoadsInUnit(loads)
    ensures 0.0 <= QueueUsed(q, loads) <= Sum(Slots(q))
    decreases |q|
  {
    if |q| > 0 {
      var t := |q| - 1;
      QueueUsedBounded(q[..t], loads);
      assert Slots(q)[..t] == Slots(q[..t]);
      var e := q[t];
      assert Sum(Slots(q)) == Sum(Slots(q[..t])) + e.slot;
      assert QueueUsed(q, loads) == QueueUsed(q[..t], loads) + e.slot * loads[e.pod];
      assert 0.0 <= loads[e.pod] <= 1.0;
      ScaledWithin(e.slot, loads[e.pod]);
      assert 0.0 <= QueueUsed(q[..t], loads) <= Sum(Slots(q[..t]));
      assert 0.0 <= e.slot * loads[e.pod] <= e.slot;
      AddWithin(QueueUsed(q[..t], loads), e.slot * loads[e.pod], Sum(Slots(q[..t])), e.slot);
    }
  }

  /** The time a schedule charges lies between 0 and the number of busy
      CPUs, so the node's CPU usage lies between 0 and 1, when the workloads'
      loads lie between 0 and 1. */
  lemma {:induction false} ScheduleUsedBounded(pods: seq<Demand>, totalCpu: nat, loads: seq<real>, m: nat)
    requires m <= totalCpu && |loads| == |pods| && LoadsInUnit(loads)
    ensures PodsBelow(Scheduled(pods, totalCpu)[..m], |loads|)
    ensures 0.0 <= CpuUsed(Scheduled(pods, totalCpu)[..m], loads) <= m as real
    decreases m
  {
    var st := Scheduled(pods, totalCpu);
    ScheduledPods(pods, totalCpu);
    if m > 0 {
      assert st[..m][..m - 1] == st[..m - 1];
      ScheduleUsedBounded(pods, totalCpu, loads, m - 1);
      SlotsOfACpu(pods, totalCpu, m - 1);
      var q := st[m - 1];
      if |q| > 0 {
        assert 1.0 / |q| as real > 0.0;
      }
      QueueUsedBounded(q, loads);
    }
  }

  /** Every entry of a schedule names a ready pod. */
  lemma ScheduledPods(pods: seq<Demand>, totalCpu: nat)
    ensures PodsBelow(Scheduled(pods, totalCpu), |pods|)
  {
    var st: seq<seq<RunEntity>> := Scheduled(pods, totalCpu);
    forall c: int, j: int | 0 <= c < |st| && 0 <= j < |st[c]| ensures st[c][j].pod < |pods| {
      var s := Expand(pods, totalCpu);
      var col := Column(s, totalCpu, c);
      assert st[c] == Slotted(col);
      ColumnAt(s, totalCpu, c, j);
      var k := c + j * totalCpu;
      assert st[c][j].pod == col[j] == s[k];
    }
  }

  /** For a node with `coreCount` CPUs whose workloads report loads between
      0 and 1, the CPU usage lies between 0 and 1 and the allocatable CPU
      count between 0 and the core count. */
  lemma CpuUsageInUnit(pods: seq<Demand>, coreCount: nat, loads: seq<real>)
    requires coreCount > 0 && |loads| == |pods| && LoadsInUnit(loads)
    ensures PodsBelow(Scheduled(pods, coreCount), |loads|)
    ensures var used := CpuUsed(Scheduled(pods, coreCount), loads);
      && 0.0 <= used / coreCount as real <= 1.0
      && 0 <= coreCount - Trunc(used) <= coreCount
  {
    var st := Scheduled(pods, coreCount);
    ScheduleUsedBounded(pods, coreCount, loads, coreCount);
    assert st[..coreCount] == st;
    var used := CpuUsed(st, loads);
    TruncMonotone(used, coreCount as real);
    FractionWithin(used, coreCount as real);
  }
}
