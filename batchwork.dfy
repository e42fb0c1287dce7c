/** The work a batch workload gets done in one tick, shared by the three
    batch variants: the sum of its time slices, scaled down by the fraction
    of its memory it was given when it was given less than it uses. */
module BatchWork {
  import opened Common

  /** What a batch workload asks the node for, in every variant: its pod's
      CPU limit and the memory it declared, whatever work is left. */
  function Request(cpuLimit: real, memUsage: int): (real, int)
  {
    (cpuLimit, memUsage)
  }

  /** `sum` is the slot sum, `need` the memory the workload uses, `avail`
      the memory the node gives it. */
  function Progress(sum: real, need: real, avail: real): real
    requires need > avail ==> need != 0.0
  {
    if need > avail then sum * (avail / need) else sum
  }

  /** With enough memory the whole slot sum is progress. */
  lemma FullProgress(slot: seq<real>, need: real, avail: real)
    requires need <= avail
    ensures Progress(Sum(slot), need, avail) == Sum(slot)
    ensures slot == [] ==> Progress(Sum(slot), need, avail) == 0.0
  {
  }

  /** Progress never exceeds the slot sum and is never negative, for
      non-negative slices and memory; it is the slot sum scaled by
      `avail/need` exactly when memory is short. */
  lemma ProgressBounds(slot: seq<real>, need: real, avail: real)
    requires forall i :: 0 <= i < |slot| ==> slot[i] >= 0.0
    requires avail >= 0.0
    ensures need > avail ==> Progress(Sum(slot), need, avail) == Sum(slot) * (avail / need)
    ensures 0.0 <= Progress(Sum(slot), need, avail) <= Sum(slot)
  {
    SumNonNegative(slot);
    if need > avail {
      var f := avail / need;
      assert 0.0 <= f <= 1.0;
      assert Sum(slot) * f <= Sum(slot) * 1.0;
    }
  }

  /** The remaining work never grows. */
  lemma RemainingNeverGrows(totalTick: real, slot: seq<real>, need: real, avail: real)
    requires forall i :: 0 <= i < |slot| ==> slot[i] >= 0.0
    requires avail >= 0.0
    ensures totalTick - Progress(Sum(slot), need, avail) <= totalTick
    ensures totalTick - Progress(Sum(slot), need, avail) >= totalTick - Sum(slot)
  {
    ProgressBounds(slot, need, avail);
  }
}
