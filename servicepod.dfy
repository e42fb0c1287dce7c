/** The simulated online-service workload: a first-come first-served queue
    of requests, admitted while the memory left at the last tick can store
    them, and a tick that serves queued requests on the CPU slices it is
    given, each on the free CPU that became free earliest, and then reports
    the CPU load and the memory footprint. */
module ServicePod {
  import opened Common
  import opened Heap

  /** The share of a request's memory a queued request occupies. */
  const StoreRatio: real := 0.2
  /** The most queued requests probed in a row without finding a CPU. */
  const MaxProbe: nat := 10

  const ErrDenial := "Cannot Provide Service"
  const ErrInitializing := "Pod is currently initializing, cannot provide service"

  /** A service request; `hasOnDone` says whether it carries a completion
      callback. */
  datatype Request = Request(requestId: int, slotRequired: real, memRequired: int, hasOnDone: bool)

  /** A CPU during a tick: when it is next free within the tick and how
      much of its slice is left. */
  datatype FreeCpu = FreeCpu(cpuIdx: nat, startTime: real, timeRemain: real)

  /** A request served during a tick, and the CPU that served it. */
  datatype Served = Served(req: Request, cpuIdx: nat)

  /** The free-CPU heap's order: earliest start time first. */
  function StartTime(c: FreeCpu): real { c.startTime }
  function Remain(c: FreeCpu): real { c.timeRemain }
  function SlotOf(r: Request): real { r.slotRequired }

  /** The CPU time a request takes under the time multiplier `mult`. */
  function Cost(mult: real, r: Request): real { mult * r.slotRequired }

  /** The CPU time the requests take under the multiplier `mult`. */
  function CostSum(mult: real, q: seq<Request>): real
  {
    if |q| == 0 then 0.0 else CostSum(mult, q[..|q| - 1]) + Cost(mult, q[|q| - 1])
  }

  /** The total is the requests' CPU time scaled by the multiplier. */
  lemma {:induction false} CostSumScale(mult: real, q: seq<Request>)
    ensures CostSum(mult, q) == mult * SumOf(q, SlotOf)
    decreases |q|
  {
    if |q| > 0 {
      CostSumScale(mult, q[..|q| - 1]);
      assert mult * SumOf(q, SlotOf) == mult * SumOf(q[..|q| - 1], SlotOf) + mult * q[|q| - 1].slotRequired;
    }
  }

  /** The slice of a CPU record's CPU. */
  function AvailOf(slot: seq<real>): FreeCpu -> real
  {
    (c: FreeCpu) => if c.cpuIdx < |slot| then slot[c.cpuIdx] else 0.0
  }

  /** The memory a request occupies while it waits in the queue. */
  function StoreMem(r: Request): int
  {
    Trunc(StoreRatio * r.memRequired as real)
  }

  /** The memory the queued requests occupy while they wait. */
  function StoreTotal(q: seq<Request>): int
  {
    if |q| == 0 then 0 else StoreTotal(q[..|q| - 1]) + StoreMem(q[|q| - 1])
  }

  /** The memory the queued requests need once served. */
  function MemTotal(q: seq<Request>): int
  {
    if |q| == 0 then 0 else MemTotal(q[..|q| - 1]) + q[|q| - 1].memRequired
  }

  function Reqs(served: seq<Served>): (r: seq<Request>)
    ensures |r| == |served| && forall i :: 0 <= i < |served| ==> r[i] == served[i].req
  {
    seq(|served|, i requires 0 <= i < |served| => served[i].req)
  }

  /** The ids of the served requests whose callback is called, in order. */
  function Notified(served: seq<Served>): seq<int>
  {
    if |served| == 0 then []
    else
      var s := served[|served| - 1];
      Notified(served[..|served| - 1]) + if s.req.hasOnDone then [s.req.requestId] else []
  }

  /** The time penalty when memory is short: 1 with enough memory, and
      grown by the missing share of the available memory otherwise. */
  function Penalty(memAvailable: int, memNeeded: int): (r: real)
    requires memNeeded <= memAvailable || memAvailable > 0
    ensures r >= 1.0
    ensures r == 1.0 <==> memNeeded <= memAvailable
  {
    if memNeeded <= memAvailable then 1.0
    else 1.0 + (memNeeded - memAvailable) as real / memAvailable as real
  }

  /** As the tick calls it, on a share of the memory it is given, the
      penalty is always 1. */
  lemma PenaltyAsCalled(mem: int)
    requires mem >= 0
    ensures Penalty(mem, Trunc(StoreRatio * mem as real)) == 1.0
  {
    assert Trunc(StoreRatio * mem as real) as real <= StoreRatio * mem as real;
  }

  // ---------------------------------------------------------------------
  // Which queued requests a tick serves

  /** The requests of `p` left in the queue, by the marks of the ones
      served. */
  function Kept(p: seq<Request>, marks: seq<bool>): seq<Request>
    requires |marks| == |p|
  {
    if |p| == 0 then []
    else Kept(p[..|p| - 1], marks[..|p| - 1]) + if marks[|p| - 1] then [] else [p[|p| - 1]]
  }

  /** The requests of `p` served, by their marks. */
  function Taken(p: seq<Request>, marks: seq<bool>): seq<Request>
    requires |marks| == |p|
  {
    if |p| == 0 then []
    else Taken(p[..|p| - 1], marks[..|p| - 1]) + if marks[|p| - 1] then [p[|p| - 1]] else []
  }

  /** Serving splits the scanned requests: every one is either left in the
      queue or served, and none is lost or added. */
  lemma {:induction false} KeptTaken(p: seq<Request>, marks: seq<bool>)
    requires |marks| == |p|
    ensures multiset(p) == multiset(Kept(p, marks)) + multiset(Taken(p, marks))
    decreases |p|
  {
    if |p| > 0 {
      KeptTaken(p[..|p| - 1], marks[..|p| - 1]);
      LastOut(p);
    }
  }

  /** A sequence holds its prefix and its last element. */
  lemma LastOut(p: seq<Request>)
    requires |p| > 0
    ensures multiset(p) == multiset(p[..|p| - 1]) + multiset{p[|p| - 1]}
  {
    assert p == p[..|p| - 1] + [p[|p| - 1]];
  }

  /** The largest memory need of a request served on CPU `c`, or 0: the
      per-CPU maximum the tick keeps. */
  function MaxMemOn(served: seq<Served>, c: nat): int
  {
    if |served| == 0 then 0
    else
      var m, s := MaxMemOn(served[..|served| - 1], c), served[|served| - 1];
      if s.cpuIdx == c && s.req.memRequired > m then s.req.memRequired else m
  }

  /** The per-CPU figure is the peak: no served request on the CPU needs
      more, and it is 0 or the need of one of them. */
  lemma {:induction false} MaxMemIsPeak(served: seq<Served>, c: nat)
    ensures var m := MaxMemOn(served, c);
      && m >= 0
      && (forall i :: 0 <= i < |served| && served[i].cpuIdx == c ==> served[i].req.memRequired <= m)
      && (m == 0 || exists i :: 0 <= i < |served| && served[i].cpuIdx == c && served[i].req.memRequired == m)
    decreases |served|
  {
    if |served| > 0 {
      var n := |served| - 1;
      MaxMemIsPeak(served[..n], c);
      var m := MaxMemOn(served[..n], c);
      if m != 0 && MaxMemOn(served, c) == m {
        var i :| 0 <= i < n && served[..n][i].cpuIdx == c && served[..n][i].req.memRequired == m;
        assert served[i] == served[..n][i];
      }
      assert forall i :: 0 <= i < n ==> served[i] == served[..n][i];
    }
  }

  /** The per-CPU peaks of the first `n` CPUs, summed. */
  function PeakTotal(served: seq<Served>, n: nat): int
  {
    if n == 0 then 0 else PeakTotal(served, n - 1) + MaxMemOn(served, n - 1)
  }

  // ---------------------------------------------------------------------
  // The free-CPU heap

  /** `a` holds what `b` holds and `x`. */
  lemma Members<T>(a: seq<T>, b: seq<T>, x: T)
    requires multiset(a) == multiset(b) + multiset{x}
    ensures x in a && (forall c :: c in b ==> c in a) && (forall c :: c in a ==> c in b || c == x)
  {
    assert x in multiset(a);
    forall c | c in b ensures c in a {
      assert c in multiset(b);
      assert c in multiset(a);
    }
    forall c | c in a ensures c in b || c == x {
      assert c in multiset(a);
    }
  }

  /** container/heap's Push on the free-CPU heap. */
  method PushCpu(h: seq<FreeCpu>, x: FreeCpu) returns (h': seq<FreeCpu>)
    requires IsHeap(h, StartTime)
    ensures IsHeap(h', StartTime) && |h'| == |h| + 1 && multiset(h') == multiset(h) + multiset{x}
    ensures x in h' && (forall c :: c in h ==> c in h') && (forall c :: c in h' ==> c in h || c == x)
  {
    PushKeepsHeap(h, x, StartTime);
    h' := Push(h, x, StartTime);
    Members(h', h, x);
  }

  /** container/heap's Pop on the free-CPU heap: a CPU that became free
      earliest. */
  method PopCpu(h: seq<FreeCpu>) returns (x: FreeCpu, rest: seq<FreeCpu>)
    requires |h| > 0 && IsHeap(h, StartTime)
    ensures IsHeap(rest, StartTime) && |rest| == |h| - 1 && multiset(h) == multiset(rest) + multiset{x}
    ensures x in h && (forall c :: c in rest ==> c in h) && (forall c :: c in h ==> c in rest || c == x)
    ensures forall c :: c in h ==> x.startTime <= c.startTime
  {
    PopKeepsHeap(h, StartTime);
    x, rest := Pop(h, StartTime).0, Pop(h, StartTime).1;
    Members(h, rest, x);
  }

  /** One record per CPU, free from the start with its whole slice. */
  function Idle(slot: seq<real>): (r: seq<FreeCpu>)
    ensures |r| == |slot| && forall i :: 0 <= i < |slot| ==> r[i] == FreeCpu(i, 0.0, slot[i])
  {
    seq(|slot|, i requires 0 <= i < |slot| => FreeCpu(i, 0.0, slot[i]))
  }

  /** The heap as the tick builds it: one record per CPU, free from the
      start with its whole slice. */
  method InitCpus(slot: seq<real>) returns (h: seq<FreeCpu>)
    ensures IsHeap(h, StartTime) && |h| == |slot| && multiset(h) == multiset(Idle(slot))
    ensures forall c :: c in h ==> c.cpuIdx < |slot|
    ensures SumOf(h, Remain) == Sum(slot) && SumOf(h, AvailOf(slot)) == Sum(slot)
    ensures (forall i :: 0 <= i < |slot| ==> slot[i] >= 0.0) ==> forall c :: c in h ==> c.timeRemain >= 0.0
  {
    h := [];
    var i := 0;
    while i < |slot|
      invariant 0 <= i <= |slot| && IsHeap(h, StartTime) && |h| == i
      invariant forall c :: c in h ==> c.cpuIdx < i && c.timeRemain == slot[c.cpuIdx]
      invariant SumOf(h, Remain) == Sum(slot[..i]) && SumOf(h, AvailOf(slot)) == Sum(slot[..i])
      invariant multiset(h) == multiset(Idle(slot)[..i])
    {
      var c := FreeCpu(i, 0.0, slot[i]);
      var h' := PushCpu(h, c);
      assert Idle(slot)[..i + 1] == Idle(slot)[..i] + [c];
      SumOfRemove(h', h, c, Remain);
      SumOfRemove(h', h, c, AvailOf(slot));
      SumPrefixStep(slot, i);
      h := h';
      i := i + 1;
    }
    assert slot[..i] == slot && Idle(slot)[..i] == Idle(slot);
  }

  /** The first half of the search: pop CPUs in start-time order until one
      has `cost` left or the heap runs out; the ones passed over are in
      `cannot`. */
  method PassOver(h: seq<FreeCpu>, cost: real) returns (found: Option<FreeCpu>, rest: seq<FreeCpu>, cannot: seq<FreeCpu>)
    requires |h| > 0 && IsHeap(h, StartTime)
    ensures IsHeap(rest, StartTime)
    ensures forall c :: c in cannot ==> c.timeRemain < cost
    ensures found.None? ==> multiset(h) == multiset(cannot) && rest == []
    ensures found.Some? ==>
      && multiset(h) == multiset(rest) + multiset(cannot) + multiset{found.value}
      && found.value.timeRemain >= cost
      && forall c :: c in rest ==> found.value.startTime <= c.startTime
  {
    cannot := [];
    var x;
    x, rest := PopCpu(h);
    var none := false;
    while !none && x.timeRemain < cost
      invariant IsHeap(rest, StartTime)
      invariant !none ==> multiset(h) == multiset(rest) + multiset(cannot) + multiset{x}
      invariant !none ==> forall c :: c in rest ==> x.startTime <= c.startTime
      invariant none ==> multiset(h) == multiset(cannot) && rest == []
      invariant forall c :: c in cannot ==> c.timeRemain < cost
      decreases |rest| + if none then 0 else 1
    {
      cannot := cannot + [x];
      if |rest| == 0 {
        none := true;
      } else {
        x, rest := PopCpu(rest);
      }
    }
    found := if none then None else Some(x);
  }

  /** The second half of the search: push back the CPUs passed over. */
  method PushAll(h: seq<FreeCpu>, cs: seq<FreeCpu>) returns (h': seq<FreeCpu>)
    requires IsHeap(h, StartTime)
    ensures IsHeap(h', StartTime) && multiset(h') == multiset(h) + multiset(cs)
  {
    h' := h;
    var i := 0;
    while i < |cs|
      invariant 0 <= i <= |cs| && IsHeap(h', StartTime)
      invariant multiset(h') == multiset(h) + multiset(cs[..i])
    {
      assert cs[..i + 1] == cs[..i] + [cs[i]];
      h' := PushCpu(h', cs[i]);
      i := i + 1;
    }
    assert cs[..i] == cs;
  }

  /** The search for a CPU: pop CPUs in start-time order until one has
      `cost` left, then push back the ones passed over. It fails when no
      CPU has `cost` left; otherwise it finds, among the CPUs with `cost`
      left, one that became free earliest, and holds it out of the heap. */
  method FindCpu(h: seq<FreeCpu>, cost: real) returns (found: Option<FreeCpu>, rest: seq<FreeCpu>)
    requires |h| > 0 && IsHeap(h, StartTime)
    ensures IsHeap(rest, StartTime)
    ensures found.None? ==> multiset(rest) == multiset(h) && forall c :: c in h ==> c.timeRemain < cost
    ensures found.Some? ==>
      && multiset(h) == multiset(rest) + multiset{found.value}
      && found.value.timeRemain >= cost
      && forall c :: c in h && c.timeRemain >= cost ==> found.value.startTime <= c.startTime
  {
    var cannot, rest0;
    found, rest0, cannot := PassOver(h, cost);
    rest := PushAll(rest0, cannot);
    if found.None? {
      forall c | c in h ensures c.timeRemain < cost {
        assert c in multiset(h);
        assert c in multiset(cannot);
      }
    } else {
      var x := found.value;
      forall c | c in h && c.timeRemain >= cost ensures x.startTime <= c.startTime {
        assert c in multiset(h);
        assert c !in multiset(cannot);
        assert c == x || c in multiset(rest0);
      }
    }
  }

  // ---------------------------------------------------------------------
  // The serving scan

  /** The scan's state: the queue with the served requests removed, the
      cursor into it, the failed probes in a row, the CPU heap, the
      per-CPU peak memory, the requests served and, per scanned request of
      the original queue, whether it was served. */
  datatype Scan = Scan(remaining: seq<Request>, cur: nat, failed: nat, h: seq<FreeCpu>, maxMem: seq<int>,
    served: seq<Served>, marks: seq<bool>)

  /** What the scan keeps true of the queue, for the original queue
      `queue`: the scanned prefix is split by the marks into the requests
      left, which come first in the queue, and the requests served; the
      cursor is just past the requests left. */
  ghost predicate QueuePart(queue: seq<Request>, remaining: seq<Request>, cur: nat, served: seq<Served>, marks: seq<bool>)
  {
    var j := |marks|;
    && j <= |queue|
    && remaining == Kept(queue[..j], marks) + queue[j..]
    && cur == |Kept(queue[..j], marks)|
    && Reqs(served) == Taken(queue[..j], marks)
  }

  /** What the scan keeps true of the CPUs: one record per CPU on the heap,
      and the per-CPU peaks of the requests served. */
  ghost predicate CpuPart(n: nat, slot: seq<real>, h: seq<FreeCpu>, maxMem: seq<int>, served: seq<Served>)
  {
    && IsHeap(h, StartTime) && |h| == n
    && (forall c :: c in h ==> c.cpuIdx < |slot|)
    && (forall i :: 0 <= i < |served| ==> served[i].cpuIdx < |slot|)
    && |maxMem| == |slot| && (forall c :: 0 <= c < |slot| ==> maxMem[c] == MaxMemOn(served, c))
  }

  /** What the scan keeps true of the CPU time: the time left and the time
      the served requests took add up to the time given, and the slices
      stay where they were. */
  ghost predicate SumPart(h0: seq<FreeCpu>, slot: seq<real>, mult: real, h: seq<FreeCpu>, served: seq<Served>)
  {
    && SumOf(h, Remain) + CostSum(mult, Reqs(served)) == SumOf(h0, Remain)
    && SumOf(h, AvailOf(slot)) == SumOf(h0, AvailOf(slot))
    && ((forall c :: c in h0 ==> c.timeRemain >= 0.0) ==> forall c :: c in h ==> c.timeRemain >= 0.0)
  }

  /** The probes in a row that failed at the end of `marks` (a mark is
      true for a served request): the scan's failure count after them. */
  function Streak(marks: seq<bool>): (n: nat)
    ensures n <= |marks|
    ensures forall k :: |marks| - n <= k < |marks| ==> !marks[k]
    ensures n < |marks| ==> marks[|marks| - 1 - n]
  {
    if |marks| == 0 || marks[|marks| - 1] then 0
    else Streak(marks[..|marks| - 1]) + 1
  }

  /** Every probe was made while fewer than `MaxProbe` probes in a row had
      failed: the scan never goes on past such a run. */
  ghost predicate ProbedBelowMax(marks: seq<bool>)
  {
    forall k :: 0 <= k < |marks| ==> Streak(marks[..k]) < MaxProbe
  }

  /** One more probe, made while the run of failures is short enough. */
  lemma ProbedBelowMaxStep(marks: seq<bool>, b: bool)
    requires ProbedBelowMax(marks) && Streak(marks) < MaxProbe
    ensures ProbedBelowMax(marks + [b])
  {
    var m := marks + [b];
    forall k | 0 <= k < |m| ensures Streak(m[..k]) < MaxProbe {
      if k < |marks| {
        assert m[..k] == marks[..k];
      } else {
        assert m[..k] == marks;
      }
    }
  }

  /** What the scan keeps true of the failed probes in a row: `failed`
      counts exactly them, and none of those requests fit the time left on
      any CPU. */
  ghost predicate FailPart(queue: seq<Request>, mult: real, h: seq<FreeCpu>, failed: nat, marks: seq<bool>)
  {
    && failed == Streak(marks) && |marks| <= |queue|
    && forall k :: |marks| - failed <= k < |marks| ==>
         !marks[k] && forall c :: c in h ==> c.timeRemain < Cost(mult, queue[k])
  }

  /** What the scan keeps true, for the original queue `queue`, the heap
      `h0` it started from, the slices and the time multiplier. */
  ghost predicate ScanInv(queue: seq<Request>, h0: seq<FreeCpu>, slot: seq<real>, mult: real, s: Scan)
  {
    && QueuePart(queue, s.remaining, s.cur, s.served, s.marks)
    && CpuPart(|h0|, slot, s.h, s.maxMem, s.served)
    && SumPart(h0, slot, mult, s.h, s.served)
    && FailPart(queue, mult, s.h, s.failed, s.marks)
  }

  /** A CPU after it served a request taking `cost`: free that much later,
      with that much less time left. */
  function Debited(x: FreeCpu, cost: real): (r: FreeCpu)
    ensures r.cpuIdx == x.cpuIdx && r.startTime - x.startTime == cost && x.timeRemain - r.timeRemain == cost
  {
    FreeCpu(x.cpuIdx, x.startTime + cost, x.timeRemain - cost)
  }

  /** The probes of a scan as it saw them: the heap before each probe and
      at the end, and the CPU each probe served its request on, if any. */
  datatype Trace = Trace(heaps: seq<seq<FreeCpu>>, chosen: seq<Option<FreeCpu>>)

  /** A probe of request `ctx` on heap `before`, leaving heap `after`: it
      fails exactly when no CPU has the time for the request, and the heap
      stays as it was; otherwise the request runs on a CPU with the time
      for it that became free no later than any other such CPU, and that
      CPU goes back debited. */
  ghost predicate Probed(ctx: Request, mult: real, before: seq<FreeCpu>, chosen: Option<FreeCpu>, after: seq<FreeCpu>)
  {
    var cost := Cost(mult, ctx);
    match chosen
    case None =>
      && (forall c :: c in before ==> c.timeRemain < cost)
      && multiset(after) == multiset(before)
    case Some(x) =>
      && x in before && x.timeRemain >= cost
      && (forall c :: c in before && c.timeRemain >= cost ==> x.startTime <= c.startTime)
      && multiset(after) == multiset(before) - multiset{x} + multiset{Debited(x, cost)}
  }

  /** The requests the probes served, with the CPUs they ran on. */
  ghost function ServedBy(queue: seq<Request>, chosen: seq<Option<FreeCpu>>): seq<Served>
    requires |chosen| <= |queue|
  {
    if |chosen| == 0 then []
    else
      var n := |chosen| - 1;
      ServedBy(queue, chosen[..n]) + match chosen[n] { case Some(x) => [Served(queue[n], x.cpuIdx)] case None => [] }
  }

  /** What the scan keeps true of its probes, one per scanned request:
      they chain from a heap holding `start` to the heap `h` now, each is
      a probe as `Probed` says, is marked served exactly when it chose a
      CPU, and the requests served are the ones the probes chose CPUs for. */
  ghost predicate TracePart(queue: seq<Request>, mult: real, start: multiset<FreeCpu>, h: seq<FreeCpu>,
    t: Trace, served: seq<Served>, marks: seq<bool>)
  {
    && |t.chosen| == |marks| <= |queue| && |t.heaps| == |marks| + 1
    && multiset(t.heaps[0]) == start && t.heaps[|marks|] == h
    && (forall k :: 0 <= k < |t.chosen| ==> t.chosen[k].Some? == marks[k])
    && (forall k {:trigger t.chosen[k]} :: 0 <= k < |t.chosen| ==> Probed(queue[k], mult, t.heaps[k], t.chosen[k], t.heaps[k + 1]))
    && served == ServedBy(queue, t.chosen)
  }

  /** A probe extends the trace by one step. */
  lemma TraceStep(queue: seq<Request>, mult: real, start: multiset<FreeCpu>, h: seq<FreeCpu>,
    t: Trace, served: seq<Served>, marks: seq<bool>, chosen: Option<FreeCpu>, h': seq<FreeCpu>)
    requires TracePart(queue, mult, start, h, t, served, marks) && |marks| < |queue|
    requires Probed(queue[|marks|], mult, h, chosen, h')
    ensures var served' := served + match chosen { case Some(x) => [Served(queue[|marks|], x.cpuIdx)] case None => [] };
      TracePart(queue, mult, start, h', Trace(t.heaps + [h'], t.chosen + [chosen]), served', marks + [chosen.Some?])
  {
    assert (t.chosen + [chosen])[..|marks|] == t.chosen;
  }

  /** The requests after the cursor are exactly the ones not scanned. */
  lemma QueueLeft(queue: seq<Request>, remaining: seq<Request>, cur: nat, served: seq<Served>, marks: seq<bool>)
    requires QueuePart(queue, remaining, cur, served, marks)
    ensures |remaining| - cur == |queue| - |marks|
  {
  }

  lemma QueueSkip(queue: seq<Request>, remaining: seq<Request>, cur: nat, served: seq<Served>, marks: seq<bool>)
    requires QueuePart(queue, remaining, cur, served, marks) && cur < |remaining|
    ensures |marks| < |queue| && remaining[cur] == queue[|marks|]
    ensures QueuePart(queue, remaining, cur + 1, served, marks + [false])
  {
    var j := |marks|;
    var marks' := marks + [false];
    assert queue[..j + 1][..j] == queue[..j] && marks'[..j] == marks;
    assert queue[j..] == [queue[j]] + queue[j + 1..];
  }

  lemma QueueServe(queue: seq<Request>, remaining: seq<Request>, cur: nat, served: seq<Served>, marks: seq<bool>, cpu: nat)
    requires QueuePart(queue, remaining, cur, served, marks) && cur < |remaining|
    ensures |marks| < |queue| && remaining[cur] == queue[|marks|]
    ensures QueuePart(queue, remaining[..cur] + remaining[cur + 1..], cur, served + [Served(remaining[cur], cpu)], marks + [true])
  {
    var j := |marks|;
    var marks' := marks + [true];
    var served' := served + [Served(remaining[cur], cpu)];
    assert queue[..j + 1][..j] == queue[..j] && marks'[..j] == marks;
    assert queue[j..] == [queue[j]] + queue[j + 1..];
    assert Reqs(served') == Reqs(served) + [remaining[cur]];
  }

  lemma CpuServe(n: nat, slot: seq<real>, h: seq<FreeCpu>, maxMem: seq<int>, served: seq<Served>,
    rest: seq<FreeCpu>, x: FreeCpu, h': seq<FreeCpu>, x': FreeCpu, ctx: Request)
    requires CpuPart(n, slot, h, maxMem, served)
    requires multiset(h) == multiset(rest) + multiset{x}
    requires IsHeap(h', StartTime) && multiset(h') == multiset(rest) + multiset{x'} && x'.cpuIdx == x.cpuIdx
    ensures x.cpuIdx < |slot|
    ensures var maxMem' := if ctx.memRequired > maxMem[x.cpuIdx] then maxMem[x.cpuIdx := ctx.memRequired] else maxMem;
      CpuPart(n, slot, h', maxMem', served + [Served(ctx, x.cpuIdx)])
  {
    Members(h, rest, x);
    Members(h', rest, x');
    assert |h| == |rest| + 1 == |h'| by {
      assert |multiset(h)| == |multiset(rest)| + 1 == |multiset(h')|;
    }
    var served' := served + [Served(ctx, x.cpuIdx)];
    assert served'[..|served|] == served;
  }

  lemma SumServe(h0: seq<FreeCpu>, slot: seq<real>, mult: real, h: seq<FreeCpu>, served: seq<Served>,
    rest: seq<FreeCpu>, x: FreeCpu, h': seq<FreeCpu>, ctx: Request)
    requires SumPart(h0, slot, mult, h, served)
    requires multiset(h) == multiset(rest) + multiset{x} && x.timeRemain >= Cost(mult, ctx)
    requires multiset(h') == multiset(rest) + multiset{Debited(x, Cost(mult, ctx))}
    ensures SumPart(h0, slot, mult, h', served + [Served(ctx, x.cpuIdx)])
  {
    var x' := Debited(x, Cost(mult, ctx));
    RemainServe(mult, h, served, rest, x, h', ctx);
    SumOfRemove(h, rest, x, AvailOf(slot));
    SumOfRemove(h', rest, x', AvailOf(slot));
    if forall c :: c in h0 ==> c.timeRemain >= 0.0 {
      Members(h, rest, x);
      Members(h', rest, x');
    }
  }

  /** Serving moves the request's CPU time from the time left to the time
      used. */
  lemma RemainServe(mult: real, h: seq<FreeCpu>, served: seq<Served>, rest: seq<FreeCpu>, x: FreeCpu, h': seq<FreeCpu>, ctx: Request)
    requires multiset(h) == multiset(rest) + multiset{x}
    requires multiset(h') == multiset(rest) + multiset{Debited(x, Cost(mult, ctx))}
    ensures SumOf(h', Remain) + CostSum(mult, Reqs(served + [Served(ctx, x.cpuIdx)])) == SumOf(h, Remain) + CostSum(mult, Reqs(served))
  {
    var x' := Debited(x, Cost(mult, ctx));
    var rs := Reqs(served + [Served(ctx, x.cpuIdx)]);
    assert rs[..|served|] == Reqs(served) && rs[|served|] == ctx;
    assert CostSum(mult, rs) == CostSum(mult, Reqs(served)) + Cost(mult, ctx);
    SumOfRemove(h, rest, x, Remain);
    SumOfRemove(h', rest, x', Remain);
  }

  lemma FailSkip(queue: seq<Request>, mult: real, h: seq<FreeCpu>, failed: nat, marks: seq<bool>, h': seq<FreeCpu>)
    requires FailPart(queue, mult, h, failed, marks) && |marks| < |queue|
    requires forall c :: c in h' <==> c in h
    requires forall c :: c in h ==> c.timeRemain < Cost(mult, queue[|marks|])
    ensures FailPart(queue, mult, h', failed + 1, marks + [false])
  {
    assert (marks + [false])[..|marks|] == marks;
  }

  lemma FailServe(queue: seq<Request>, mult: real, h: seq<FreeCpu>, marks: seq<bool>)
    requires |marks| < |queue|
    ensures FailPart(queue, mult, h, 0, marks + [true])
  {
  }

  lemma SkipHeap(h0: seq<FreeCpu>, slot: seq<real>, mult: real, n: nat, s: Scan, h: seq<FreeCpu>)
    requires CpuPart(n, slot, s.h, s.maxMem, s.served) && SumPart(h0, slot, mult, s.h, s.served)
    requires IsHeap(h, StartTime) && multiset(h) == multiset(s.h)
    ensures CpuPart(n, slot, h, s.maxMem, s.served) && SumPart(h0, slot, mult, h, s.served)
    ensures forall c :: c in h <==> c in s.h
  {
    assert |h| == |s.h| by {
      assert |multiset(h)| == |multiset(s.h)|;
    }
    forall c ensures c in h <==> c in s.h {
      assert c in h <==> c in multiset(h);
      assert c in s.h <==> c in multiset(s.h);
    }
    SumOfPermutation(h, s.h, Remain);
    SumOfPermutation(h, s.h, AvailOf(slot));
  }

  /** A probe that found CPU `x` and put it back debited is a probe as
      `Probed` says. */
  lemma ProbedServe(ctx: Request, mult: real, h: seq<FreeCpu>, x: FreeCpu, rest: seq<FreeCpu>, h': seq<FreeCpu>)
    requires multiset(h) == multiset(rest) + multiset{x} && x.timeRemain >= Cost(mult, ctx)
    requires forall c :: c in h && c.timeRemain >= Cost(mult, ctx) ==> x.startTime <= c.startTime
    requires multiset(h') == multiset(rest) + multiset{Debited(x, Cost(mult, ctx))}
    ensures Probed(ctx, mult, h, Some(x), h')
  {
    assert x in multiset(h);
    assert multiset(h) - multiset{x} == multiset(rest);
  }

  /** One probe of the scan, as a step on its state; `chosen` is the CPU
      it served the request on, if any. */
  method Probe(queue: seq<Request>, ghost h0: seq<FreeCpu>, slot: seq<real>, mult: real, s: Scan)
    returns (s': Scan, ghost chosen: Option<FreeCpu>)
    requires ScanInv(queue, h0, slot, mult, s) && s.cur < |s.remaining| && |h0| > 0
    ensures ScanInv(queue, h0, slot, mult, s')
    ensures |s.marks| < |queue| && Probed(queue[|s.marks|], mult, s.h, chosen, s'.h)
    ensures s'.marks == s.marks + [chosen.Some?]
    ensures s'.served == s.served + match chosen { case Some(x) => [Served(queue[|s.marks|], x.cpuIdx)] case None => [] }
    ensures |s'.remaining| - s'.cur < |s.remaining| - s.cur && s'.failed <= s.failed + 1
  {
    var ctx := s.remaining[s.cur];
    var cost := Cost(mult, ctx);
    var found, rest := FindCpu(s.h, cost);
    chosen := found;
    if found.None? {
      s' := SkipOver(queue, h0, slot, mult, s, rest);
    } else {
      s' := ServeOn(queue, h0, slot, mult, s, found.value, rest);
    }
  }

  /** A failed probe: no CPU has the time left, so the request stays in
      the queue and the scan moves past it. */
  method SkipOver(queue: seq<Request>, ghost h0: seq<FreeCpu>, slot: seq<real>, mult: real, s: Scan,
    rest: seq<FreeCpu>) returns (s': Scan)
    requires ScanInv(queue, h0, slot, mult, s) && s.cur < |s.remaining| && |h0| > 0
    requires IsHeap(rest, StartTime) && multiset(rest) == multiset(s.h)
    requires forall c :: c in s.h ==> c.timeRemain < Cost(mult, s.remaining[s.cur])
    ensures ScanInv(queue, h0, slot, mult, s') && s'.h == rest
    ensures |s.marks| < |queue| && Probed(queue[|s.marks|], mult, s.h, None, rest)
    ensures s'.served == s.served && s'.marks == s.marks + [false]
    ensures |s'.remaining| - s'.cur < |s.remaining| - s.cur && s'.failed == s.failed + 1
  {
    QueueSkip(queue, s.remaining, s.cur, s.served, s.marks);
    SkipHeap(h0, slot, mult, |h0|, s, rest);
    FailSkip(queue, mult, s.h, s.failed, s.marks, rest);
    s' := Scan(s.remaining, s.cur + 1, s.failed + 1, rest, s.maxMem, s.served, s.marks + [false]);
  }

  /** A successful probe: the request runs on CPU `x`, which goes back on
      the heap later and with less time left, and leaves the queue. */
  method ServeOn(queue: seq<Request>, ghost h0: seq<FreeCpu>, slot: seq<real>, mult: real, s: Scan,
    x: FreeCpu, rest: seq<FreeCpu>) returns (s': Scan)
    requires ScanInv(queue, h0, slot, mult, s) && s.cur < |s.remaining|
    requires IsHeap(rest, StartTime) && multiset(s.h) == multiset(rest) + multiset{x}
    requires x.timeRemain >= Cost(mult, s.remaining[s.cur])
    requires forall c :: c in s.h && c.timeRemain >= Cost(mult, s.remaining[s.cur]) ==> x.startTime <= c.startTime
    ensures ScanInv(queue, h0, slot, mult, s')
    ensures |s.marks| < |queue| && s.remaining[s.cur] == queue[|s.marks|]
    ensures Probed(queue[|s.marks|], mult, s.h, Some(x), s'.h)
    ensures s'.served == s.served + [Served(s.remaining[s.cur], x.cpuIdx)] && s'.marks == s.marks + [true]
    ensures |s'.remaining| - s'.cur < |s.remaining| - s.cur && s'.failed == 0
  {
    var ctx := s.remaining[s.cur];
    var cost := Cost(mult, ctx);
    var x' := Debited(x, cost);
    var h := PushCpu(rest, x');
    CpuServe(|h0|, slot, s.h, s.maxMem, s.served, rest, x, h, x', ctx);
    var maxMem := s.maxMem;
    if ctx.memRequired > maxMem[x.cpuIdx] {
      maxMem := maxMem[x.cpuIdx := ctx.memRequired];
    }
    s' := Scan(s.remaining[..s.cur] + s.remaining[s.cur + 1..], s.cur, 0, h, maxMem,
      s.served + [Served(ctx, x.cpuIdx)], s.marks + [true]);
    ServeKeeps(queue, h0, slot, mult, s, x, rest, s');
    ProbedServe(ctx, mult, s.h, x, rest, h);
  }

  /** The state after a successful probe keeps the scan invariant. */
  lemma ServeKeeps(queue: seq<Request>, h0: seq<FreeCpu>, slot: seq<real>, mult: real, s: Scan,
    x: FreeCpu, rest: seq<FreeCpu>, s': Scan)
    requires ScanInv(queue, h0, slot, mult, s) && s.cur < |s.remaining|
    requires multiset(s.h) == multiset(rest) + multiset{x} && x.timeRemain >= Cost(mult, s.remaining[s.cur])
    requires IsHeap(s'.h, StartTime) && multiset(s'.h) == multiset(rest) + multiset{Debited(x, Cost(mult, s.remaining[s.cur]))}
    requires s'.remaining == s.remaining[..s.cur] + s.remaining[s.cur + 1..] && s'.cur == s.cur && s'.failed == 0
    requires s'.served == s.served + [Served(s.remaining[s.cur], x.cpuIdx)] && s'.marks == s.marks + [true]
    requires x.cpuIdx < |s.maxMem| && s'.maxMem ==
      if s.remaining[s.cur].memRequired > s.maxMem[x.cpuIdx] then s.maxMem[x.cpuIdx := s.remaining[s.cur].memRequired] else s.maxMem
    ensures ScanInv(queue, h0, slot, mult, s')
  {
    var ctx := s.remaining[s.cur];
    var x' := Debited(x, Cost(mult, ctx));
    QueueServe(queue, s.remaining, s.cur, s.served, s.marks, x.cpuIdx);
    CpuServe(|h0|, slot, s.h, s.maxMem, s.served, rest, x, s'.h, x', ctx);
    SumServe(h0, slot, mult, s.h, s.served, rest, x, s'.h, ctx);
    FailServe(queue, mult, s'.h, s.marks);
  }

  /** The serving scan: walk the queue from the front, serving what can be
      served, until the queue ends or `MaxProbe` probes in a row fail. The
      ghost trace `t` records its probes, one per scanned request. */
  method ScanQueue(queue: seq<Request>, h0: seq<FreeCpu>, slot: seq<real>, mult: real) returns (s: Scan, ghost t: Trace)
    requires IsHeap(h0, StartTime) && (|queue| > 0 ==> |h0| > 0)
    requires forall c :: c in h0 ==> c.cpuIdx < |slot|
    ensures ScanInv(queue, h0, slot, mult, s)
    ensures TracePart(queue, mult, multiset(h0), s.h, t, s.served, s.marks)
    ensures ProbedBelowMax(s.marks) && s.failed == Streak(s.marks)
    ensures |s.marks| == |queue| || s.failed == MaxProbe
  {
    s := Scan(queue, 0, 0, h0, Repeat(0, |slot|), [], []);
    t := Trace([h0], []);
    assert queue[..0] == [];
    while s.failed < MaxProbe && s.cur < |s.remaining|
      invariant ScanInv(queue, h0, slot, mult, s) && s.failed <= MaxProbe
      invariant TracePart(queue, mult, multiset(h0), s.h, t, s.served, s.marks)
      invariant ProbedBelowMax(s.marks)
      decreases |s.remaining| - s.cur
    {
      var s', chosen := Probe(queue, h0, slot, mult, s);
      ProbedBelowMaxStep(s.marks, chosen.Some?);
      TraceStep(queue, mult, multiset(h0), s.h, t, s.served, s.marks, chosen, s'.h);
      s, t := s', Trace(t.heaps + [s'.h], t.chosen + [chosen]);
    }
    QueueLeft(queue, s.remaining, s.cur, s.served, s.marks);
  }

  /** The load loop: the slices of the CPUs on the heap, and their time
      left. */
  method Totals(h: seq<FreeCpu>, slot: seq<real>) returns (avail: real, unused: real)
    requires forall c :: c in h ==> c.cpuIdx < |slot|
    ensures avail == SumOf(h, AvailOf(slot)) && unused == SumOf(h, Remain)
  {
    avail, unused := 0.0, 0.0;
    var i := 0;
    while i < |h|
      invariant 0 <= i <= |h|
      invariant avail == SumOf(h[..i], AvailOf(slot)) && unused == SumOf(h[..i], Remain)
    {
      assert h[..i + 1][..i] == h[..i];
      assert h[i] in h;
      avail := avail + slot[h[i].cpuIdx];
      unused := unused + h[i].timeRemain;
      i := i + 1;
    }
    assert h[..i] == h;
  }

  /** The memory footprint of a tick: the per-CPU peaks of the first `n`
      CPUs, the queued requests' stored share and the base memory, capped
      by the memory given. */
  function Footprint(served: seq<Served>, n: nat, remaining: seq<Request>, baseMem: int, mem: int): int
  {
    Min(PeakTotal(served, n) + StoreTotal(remaining) + baseMem, mem)
  }

  /** The memory loops: the per-CPU peaks, the queued requests' stored
      share and the base memory, capped by the memory given. */
  method MemoryUsage(maxMem: seq<int>, remaining: seq<Request>, baseMem: int, mem: int, ghost served: seq<Served>)
    returns (m: int)
    requires forall c :: 0 <= c < |maxMem| ==> maxMem[c] == MaxMemOn(served, c)
    ensures m == Footprint(served, |maxMem|, remaining, baseMem, mem)
  {
    m := 0;
    var i := 0;
    while i < |maxMem|
      invariant 0 <= i <= |maxMem| && m == PeakTotal(served, i)
    {
      m := m + maxMem[i];
      i := i + 1;
    }
    var peaks := m;
    i := 0;
    while i < |remaining|
      invariant 0 <= i <= |remaining| && m == peaks + StoreTotal(remaining[..i])
    {
      assert remaining[..i + 1][..i] == remaining[..i];
      m := m + StoreMem(remaining[i]);
      i := i + 1;
    }
    assert remaining[..i] == remaining;
    m := m + baseMem;
    if m > mem {
      m := mem;
    }
  }

  /** What a tick of an initialised pod yields: the load, the memory
      footprint, the queue left, the requests served, the marks of the
      scanned requests and the CPU records at the end. */
  datatype Outcome = Outcome(load: real, memUsage: int, remaining: seq<Request>, served: seq<Served>,
    marks: seq<bool>, cpus: seq<FreeCpu>)

  /** The contract of a tick of an initialised pod on queue `queue`, slices
      `slot` and memory `mem`:
      - the scanned requests are a prefix of the queue, each served or left
        in place, and the rest are not looked at;
      - every request served ran on one of the CPUs;
      - the load is the CPU time the served requests took, over all the
        time given, and at most 1 for non-negative slices;
      - the footprint is the per-CPU peaks, the queued requests' share and
        the base memory, capped at `mem`;
      - every request was probed while fewer than `MaxProbe` probes in a
        row had failed, and a scan that stops early does so right after
        `MaxProbe` requests in a row that no CPU had time left for;
      - the trace `t` holds the probes, one per scanned request, in order: they
        start from the idle CPUs and end at the CPU records left, each
        request is served exactly when some CPU on the heap it was probed
        on had the time for it, on such a CPU that became free earliest,
        which goes back debited, and the requests served are the ones the
        probes chose CPUs for. */
  ghost predicate TickSpec(queue: seq<Request>, slot: seq<real>, mem: int, baseMem: int, r: Outcome, t: Trace)
    requires mem > 0 && Sum(slot) > 0.0
  {
    var mult := Penalty(mem, Trunc(StoreRatio * mem as real));
    var j := |r.marks|;
    && j <= |queue|
    && TracePart(queue, mult, multiset(Idle(slot)), r.cpus, t, r.served, r.marks)
    && r.remaining == Kept(queue[..j], r.marks) + queue[j..]
    && Reqs(r.served) == Taken(queue[..j], r.marks)
    && (forall i :: 0 <= i < |r.served| ==> r.served[i].cpuIdx < |slot|)
    && r.load == CostSum(mult, Reqs(r.served)) / Sum(slot)
    && ((forall i :: 0 <= i < |slot| ==> slot[i] >= 0.0) ==> r.load <= 1.0)
    && r.memUsage == Footprint(r.served, |slot|, r.remaining, baseMem, mem)
    && |r.cpus| == |slot| && (forall c :: c in r.cpus ==> c.cpuIdx < |slot|)
    && ProbedBelowMax(r.marks)
    && (j < |queue| ==>
         Streak(r.marks) == MaxProbe && forall k :: j - MaxProbe <= k < j ==>
           !r.marks[k] && forall c :: c in r.cpus ==> c.timeRemain < Cost(mult, queue[k]))
  }

  /** Until a tick serves its first request, every probe sees the idle
      CPUs. */
  lemma {:induction false} IdleUntilServed(queue: seq<Request>, slot: seq<real>, mem: int, baseMem: int, r: Outcome, t: Trace, k: nat)
    requires mem > 0 && Sum(slot) > 0.0 && TickSpec(queue, slot, mem, baseMem, r, t)
    requires k <= |r.marks| && forall i :: 0 <= i < k ==> !r.marks[i]
    ensures multiset(t.heaps[k]) == multiset(Idle(slot))
  {
    if k > 0 {
      IdleUntilServed(queue, slot, mem, baseMem, r, t, k - 1);
      var mult := Penalty(mem, Trunc(StoreRatio * mem as real));
      assert Probed(queue[k - 1], mult, t.heaps[k - 1], t.chosen[k - 1], t.heaps[k]);
    }
  }

  /** A tick serves the request at the front of the queue whenever some
      CPU's slice has the time for it. */
  lemma FrontServedWhenItFits(queue: seq<Request>, slot: seq<real>, mem: int, baseMem: int, r: Outcome, t: Trace, i: nat)
    requires mem > 0 && Sum(slot) > 0.0 && TickSpec(queue, slot, mem, baseMem, r, t)
    requires |queue| > 0 && i < |slot| && slot[i] >= queue[0].slotRequired
    ensures |r.marks| > 0 && r.marks[0]
  {
    var mult := Penalty(mem, Trunc(StoreRatio * mem as real));
    PenaltyAsCalled(mem);
    assert |r.marks| > 0 by {
      assert |r.marks| < |queue| ==> |r.marks| >= MaxProbe;
    }
    var c := Idle(slot)[i];
    assert c in multiset(Idle(slot));
    assert c in t.heaps[0] by {
      assert c in multiset(t.heaps[0]);
    }
    assert c.timeRemain >= Cost(mult, queue[0]);
    assert Probed(queue[0], mult, t.heaps[0], t.chosen[0], t.heaps[1]);
  }

  /** A tick that serves nothing scanned only requests longer than every
      CPU's slice, and leaves every CPU idle. */
  lemma NothingServedNothingFits(queue: seq<Request>, slot: seq<real>, mem: int, baseMem: int, r: Outcome, t: Trace)
    requires mem > 0 && Sum(slot) > 0.0 && TickSpec(queue, slot, mem, baseMem, r, t)
    requires forall k :: 0 <= k < |r.marks| ==> !r.marks[k]
    ensures multiset(r.cpus) == multiset(Idle(slot))
    ensures forall k, i :: 0 <= k < |r.marks| && 0 <= i < |slot| ==> slot[i] < queue[k].slotRequired
  {
    PenaltyAsCalled(mem);
    IdleUntilServed(queue, slot, mem, baseMem, r, t, |r.marks|);
    forall k, i | 0 <= k < |r.marks| && 0 <= i < |slot| ensures slot[i] < queue[k].slotRequired {
      IdleUntilServed(queue, slot, mem, baseMem, r, t, k);
      var c := Idle(slot)[i];
      assert c in multiset(Idle(slot));
      assert c in t.heaps[k] by {
        assert c in multiset(t.heaps[k]);
      }
      assert Probed(queue[k], 1.0, t.heaps[k], t.chosen[k], t.heaps[k + 1]);
      assert Cost(1.0, queue[k]) == queue[k].slotRequired;
    }
  }

  /** Probe `k` of a tick, as the tick's contract gives it. */
  lemma ProbeAt(queue: seq<Request>, slot: seq<real>, mem: int, baseMem: int, r: Outcome, t: Trace, k: nat)
    requires mem > 0 && Sum(slot) > 0.0 && TickSpec(queue, slot, mem, baseMem, r, t) && k < |r.marks|
    ensures k < |queue| && k + 1 < |t.heaps| && |t.chosen| == |r.marks|
    ensures Probed(queue[k], 1.0, t.heaps[k], t.chosen[k], t.heaps[k + 1])
    ensures t.chosen[k].Some? == r.marks[k]
  {
    PenaltyAsCalled(mem);
  }

  /** A probe on the idle single CPU of a request longer than its slice
      fails and leaves the CPU idle. */
  lemma ProbeOnIdleFails(ctx: Request, c: real, before: seq<FreeCpu>, chosen: Option<FreeCpu>, after: seq<FreeCpu>)
    requires multiset(before) == multiset(Idle([c])) && ctx.slotRequired > c
    requires Probed(ctx, 1.0, before, chosen, after)
    ensures chosen.None? && multiset(after) == multiset(Idle([c]))
  {
    forall x | x in before ensures x == FreeCpu(0, 0.0, c) {
      assert x in multiset(before);
      assert x in Idle([c]);
    }
  }

  /** Probes from an idle heap of one CPU, of requests each longer than
      its slice, all fail and leave the heap idle. */
  lemma {:induction false} SkippedFromIdle(queue: seq<Request>, c: real, heaps: seq<seq<FreeCpu>>,
    chosen: seq<Option<FreeCpu>>, k: nat)
    requires k < |heaps| && k <= |chosen| <= |queue| && multiset(heaps[0]) == multiset(Idle([c]))
    requires forall i :: 0 <= i < k ==> queue[i].slotRequired > c && Probed(queue[i], 1.0, heaps[i], chosen[i], heaps[i + 1])
    ensures forall i :: 0 <= i < k ==> chosen[i].None?
    ensures multiset(heaps[k]) == multiset(Idle([c]))
  {
    if k > 0 {
      SkippedFromIdle(queue, c, heaps, chosen, k - 1);
      ProbeOnIdleFails(queue[k - 1], c, heaps[k - 1], chosen[k - 1], heaps[k]);
    }
  }

  /** Probes that all failed serve nothing. */
  lemma {:induction false} NoneServed(queue: seq<Request>, chosen: seq<Option<FreeCpu>>)
    requires |chosen| <= |queue| && forall i :: 0 <= i < |chosen| ==> chosen[i].None?
    ensures ServedBy(queue, chosen) == []
  {
    if |chosen| > 0 {
      var n := |chosen| - 1;
      NoneServed(queue, chosen[..n]);
    }
  }

  /** A pod with one CPU of slice `c` skips every request at the front of
      its queue that is longer than `c`: none is served, and the heap is
      still idle when the scan reaches the next. */
  lemma TooLongSkipped(queue: seq<Request>, c: real, mem: int, r: Outcome, t: Trace, k: nat)
    requires mem > 0 && c > 0.0 && TickSpec(queue, [c], mem, 0, r, t)
    requires k <= |r.marks| && forall i :: 0 <= i < k ==> queue[i].slotRequired > c
    ensures forall i :: 0 <= i < k ==> !r.marks[i] && t.chosen[i].None?
    ensures multiset(t.heaps[k]) == multiset(Idle([c]))
    ensures ServedBy(queue, t.chosen[..k]) == []
  {
    assert Sum([c]) == c by {
      assert [c][..0] == [];
    }
    PenaltyAsCalled(mem);
    if k > 0 {
      ProbeAt(queue, [c], mem, 0, r, t, k - 1);
    }
    forall i | 0 <= i < k
      ensures t.chosen[i].Some? == r.marks[i]
      ensures Probed(queue[i], 1.0, t.heaps[i], t.chosen[i], t.heaps[i + 1])
    {
      ProbeAt(queue, [c], mem, 0, r, t, i);
    }
    SkippedFromIdle(queue, c, t.heaps, t.chosen, k);
    NoneServed(queue, t.chosen[..k]);
  }

  /** Requests all left unmarked keep their order in the queue, and none
      of them is served. */
  lemma {:induction false} KeptAllUnmarked(p: seq<Request>, marks: seq<bool>)
    requires |marks| == |p| && forall i :: 0 <= i < |marks| ==> !marks[i]
    ensures Kept(p, marks) == p && Taken(p, marks) == []
  {
    if |p| > 0 {
      var n := |p| - 1;
      KeptAllUnmarked(p[..n], marks[..n]);
      assert p == p[..n] + [p[n]];
    }
  }

  /** Probes that all failed are one run of failures. */
  lemma {:induction false} StreakAllFailed(marks: seq<bool>)
    requires forall i :: 0 <= i < |marks| ==> !marks[i]
    ensures Streak(marks) == |marks|
  {
    if |marks| > 0 {
      StreakAllFailed(marks[..|marks| - 1]);
    }
  }

  /** On one CPU of slice `c`, when the first `MaxProbe` requests each
      need more than `c`, the scan probes exactly those and all fail. */
  lemma FirstRunProbed(queue: seq<Request>, c: real, mem: int, r: Outcome, t: Trace)
    requires mem > 0 && c > 0.0 && TickSpec(queue, [c], mem, 0, r, t)
    requires MaxProbe <= |queue| && forall i :: 0 <= i < MaxProbe ==> queue[i].slotRequired > c
    ensures |r.marks| == MaxProbe && forall i :: 0 <= i < MaxProbe ==> !r.marks[i]
  {
    PenaltyAsCalled(mem);
    assert Sum([c]) == c by {
      assert [c][..0] == [];
    }
    assert MaxProbe <= |r.marks|;
    TooLongSkipped(queue, c, mem, r, t, MaxProbe);
    var m := r.marks[..MaxProbe];
    StreakAllFailed(m);
    assert Streak(m) == MaxProbe;
  }

  /** The scan stops at the first `MaxProbe` failures in a row: on one CPU
      of slice `c`, when the first `MaxProbe` requests each need more than
      `c`, exactly those are probed, nothing is served, the queue is left
      as it was and the load is 0, whatever follows them in the queue. */
  lemma StopsAtFirstRun(queue: seq<Request>, c: real, mem: int, r: Outcome, t: Trace)
    requires mem > 0 && c > 0.0 && TickSpec(queue, [c], mem, 0, r, t)
    requires MaxProbe <= |queue| && forall i :: 0 <= i < MaxProbe ==> queue[i].slotRequired > c
    ensures |r.marks| == MaxProbe && r.served == [] && r.remaining == queue && r.load == 0.0
  {
    FirstRunProbed(queue, c, mem, r, t);
    var p := queue[..MaxProbe];
    KeptAllUnmarked(p, r.marks);
    assert queue == p + queue[MaxProbe..];
    assert Reqs(r.served) == [];
    assert Sum([c]) == c by {
      assert [c][..0] == [];
    }
  }

  /** The maximal-probing case of the pod's tests: nine requests of 0.5
      and then one of 0.2 on a single slice of 0.3. The first nine fit no
      CPU, the tenth is still probed, since only nine probes in a row
      failed, and it is the only request served; the load is 0.2/0.3. */
  lemma MaxProbingCase(queue: seq<Request>, r: Outcome, t: Trace)
    requires |queue| == 10 && (forall i :: 0 <= i < 9 ==> queue[i].slotRequired == 0.5)
    requires queue[9].slotRequired == 0.2 && queue[9].hasOnDone
    requires TickSpec(queue, [0.3], 1024, 0, r, t)
    ensures |r.marks| == 10 && (forall i :: 0 <= i < 9 ==> !r.marks[i]) && r.marks[9]
    ensures r.served == [Served(queue[9], 0)] && Notified(r.served) == [queue[9].requestId]
    ensures r.load == 0.2 / 0.3
  {
    PenaltyAsCalled(1024);
    assert |r.marks| == 10 by {
      assert |r.marks| < |queue| ==> |r.marks| >= MaxProbe;
    }
    TooLongSkipped(queue, 0.3, 1024, r, t, 9);
    FirstFitServed(queue, r, t);
    assert t.chosen[..10] == t.chosen;
    assert r.served == [Served(queue[9], 0)];
    assert Reqs(r.served) == [queue[9]];
    assert CostSum(1.0, [queue[9]]) == 0.2 by {
      assert [queue[9]][..0] == [];
    }
    assert Sum([0.3]) == 0.3 by {
      assert [0.3][..0] == [];
    }
    assert Notified(r.served) == [queue[9].requestId] by {
      assert r.served[..0] == [];
    }
  }

  /** In the maximal-probing case the tenth probe sees the idle CPU, which
      has the time for the request, and serves it there. */
  lemma FirstFitServed(queue: seq<Request>, r: Outcome, t: Trace)
    requires |queue| == 10 && queue[9].slotRequired == 0.2 && |r.marks| == 10
    requires TickSpec(queue, [0.3], 1024, 0, r, t)
    requires multiset(t.heaps[9]) == multiset(Idle([0.3]))
    ensures t.chosen[9] == Some(FreeCpu(0, 0.0, 0.3))
  {
    PenaltyAsCalled(1024);
    var idle := FreeCpu(0, 0.0, 0.3);
    assert idle in multiset(Idle([0.3]));
    assert idle in t.heaps[9] by {
      assert idle in multiset(t.heaps[9]);
    }
    assert Probed(queue[9], 1.0, t.heaps[9], t.chosen[9], t.heaps[10]);
    var x := t.chosen[9].value;
    assert x in multiset(Idle([0.3])) by {
      assert x in multiset(t.heaps[9]);
    }
  }

  lemma DivAtMostOne(x: real, y: real)
    requires y > 0.0 && x <= y
    ensures x / y <= 1.0
  {
  }

  /** The load as the tick computes it is the share of the time given that
      the served requests took, and at most 1 when no CPU's time left is
      negative. */
  lemma LoadIsShare(slot: seq<real>, avail: real, unused: real, used: real, h: seq<FreeCpu>)
    requires Sum(slot) > 0.0 && avail == Sum(slot) && unused + used == Sum(slot) && unused == SumOf(h, Remain)
    requires (forall i :: 0 <= i < |slot| ==> slot[i] >= 0.0) ==> forall c :: c in h ==> c.timeRemain >= 0.0
    ensures (avail - unused) / avail == used / Sum(slot)
    ensures (forall i :: 0 <= i < |slot| ==> slot[i] >= 0.0) ==> (avail - unused) / avail <= 1.0
  {
    if forall i :: 0 <= i < |slot| ==> slot[i] >= 0.0 {
      assert forall c :: c in h ==> Remain(c) >= 0.0;
      SumOfNonNegative(h, Remain);
      DivAtMostOne(avail - unused, avail);
    }
  }

  /** The tick of an initialised pod, on its queue. */
  method Serve(queue: seq<Request>, slot: seq<real>, mem: int, baseMem: int) returns (r: Outcome, ghost t: Trace)
    requires mem > 0 && Sum(slot) > 0.0
    ensures TickSpec(queue, slot, mem, baseMem, r, t)
  {
    var mult := Penalty(mem, Trunc(StoreRatio * mem as real));
    var h0 := InitCpus(slot);
    assert |slot| > 0;
    var s;
    s, t := ScanQueue(queue, h0, slot, mult);
    var avail, unused := Totals(s.h, slot);
    var memUsage := MemoryUsage(s.maxMem, s.remaining, baseMem, mem, s.served);
    var load := (avail - unused) / avail;
    LoadIsShare(slot, avail, unused, CostSum(mult, Reqs(s.served)), s.h);
    r := Outcome(load, memUsage, s.remaining, s.served, s.marks, s.h);
  }

  /** The service pod's algorithm: the cached figures of the last tick,
      the queue, and the ids the completion callbacks were called with. */
  class ServicePod {
    var initialized: bool
    const baseMem: int
    var lastUsedMem: int
    var lastAvailableMem: int
    var lastLoad: real
    var lastMemUsage: real
    var queue: seq<Request>
    /** The request ids passed to completion callbacks, oldest first. */
    var notified: seq<int>

    constructor(baseMem: int)
      ensures !initialized && this.baseMem == baseMem && queue == [] && notified == []
      ensures lastUsedMem == 0 && lastAvailableMem == 0 && lastLoad == 0.0 && lastMemUsage == 0.0
    {
      this.baseMem := baseMem;
      initialized := false;
      lastUsedMem, lastAvailableMem := 0, 0;
      lastLoad, lastMemUsage := 0.0, 0.0;
      queue, notified := [], [];
    }

    /** GetLoad: 0 before the first tick, then the larger of the last CPU
        load and the last memory use. */
    function GetLoad(): (r: real)
      reads this
      ensures !initialized ==> r == 0.0
      ensures initialized ==> r >= lastLoad && r >= lastMemUsage && (r == lastLoad || r == lastMemUsage)
    {
      if !initialized then 0.0 else MaxReal(lastLoad, lastMemUsage)
    }

    /** DeliverRequest: refused while initialising, denied when the memory
        left at the last tick cannot store the request, and queued at the
        back otherwise. */
    method DeliverRequest(ctx: Request) returns (r: Result<()>)
      modifies this
      ensures !initialized ==> r == Err(ErrInitializing)
      ensures initialized ==> (r.Err? <==> lastAvailableMem - lastUsedMem < StoreMem(ctx))
      ensures initialized && r.Err? ==> r.msg == ErrDenial
      ensures queue == if r.Ok? then old(queue) + [ctx] else old(queue)
      ensures initialized == old(initialized) && notified == old(notified)
      ensures lastUsedMem == old(lastUsedMem) && lastAvailableMem == old(lastAvailableMem)
      ensures lastLoad == old(lastLoad) && lastMemUsage == old(lastMemUsage)
    {
      if !initialized {
        return Err(ErrInitializing);
      }
      if lastAvailableMem - lastUsedMem < StoreMem(ctx) {
        return Err(ErrDenial);
      }
      queue := queue + [ctx];
      r := Ok(());
    }

    /** ReturnUnhandledRequests: hand back the whole queue, front first,
        and empty it. */
    method ReturnUnhandledRequests() returns (res: seq<Request>)
      modifies this
      ensures res == old(queue) && queue == []
      ensures initialized == old(initialized) && notified == old(notified)
      ensures lastUsedMem == old(lastUsedMem) && lastAvailableMem == old(lastAvailableMem)
      ensures lastLoad == old(lastLoad) && lastMemUsage == old(lastMemUsage)
    {
      res := [];
      while |queue| > 0
        invariant res + queue == old(queue)
        invariant initialized == old(initialized) && notified == old(notified)
        invariant lastUsedMem == old(lastUsedMem) && lastAvailableMem == old(lastAvailableMem)
        invariant lastLoad == old(lastLoad) && lastMemUsage == old(lastMemUsage)
      {
        res := res + [queue[0]];
        queue := queue[1..];
      }
    }

    /** ResourceRequest: the CPU time and the memory the queued requests
        need, plus the base memory. */
    method ResourceRequest() returns (cpu: real, mem: int)
      ensures cpu == SumOf(queue, SlotOf) && mem == MemTotal(queue) + baseMem
    {
      cpu, mem := 0.0, 0;
      var i := 0;
      while i < |queue|
        invariant 0 <= i <= |queue|
        invariant cpu == SumOf(queue[..i], SlotOf) && mem == MemTotal(queue[..i])
      {
        assert queue[..i + 1][..i] == queue[..i];
        mem := mem + queue[i].memRequired;
        cpu := cpu + queue[i].slotRequired;
        i := i + 1;
      }
      assert queue[..i] == queue;
      mem := mem + baseMem;
    }

    /** Tick: the first tick only records the memory given and reports half
        load and the base memory; later ticks serve the queue and cache the
        figures for GetLoad and DeliverRequest. */
    method Tick(slot: seq<real>, mem: int) returns (load: real, memUsage: int, ghost r: Outcome, ghost t: Trace)
      requires mem > 0 && (initialized ==> Sum(slot) > 0.0)
      modifies this
      ensures initialized
      ensures !old(initialized) ==>
        && load == 0.5 && memUsage == baseMem && queue == old(queue) && notified == old(notified)
        && lastUsedMem == baseMem && lastMemUsage == baseMem as real / mem as real
      ensures old(initialized) ==>
        && TickSpec(old(queue), slot, mem, baseMem, r, t)
        && load == r.load && memUsage == r.memUsage && queue == r.remaining
        && notified == old(notified) + Notified(r.served)
        && lastUsedMem == memUsage && lastMemUsage == memUsage as real / mem as real
      ensures lastLoad == load && lastAvailableMem == mem
    {
      if !initialized {
        lastUsedMem, lastAvailableMem := baseMem, mem;
        lastLoad := 0.5;
        lastMemUsage := baseMem as real / mem as real;
        initialized := true;
        r := Outcome(0.5, baseMem, queue, [], [], []);
        return 0.5, baseMem, r, Trace([], []);
      }
      load, memUsage, r, t := ServeTick(slot, mem);
    }

    /** A tick after the first: serve the queue and record the figures. */
    method ServeTick(slot: seq<real>, mem: int) returns (load: real, memUsage: int, ghost r: Outcome, ghost t: Trace)
      requires initialized && mem > 0 && Sum(slot) > 0.0
      modifies this
      ensures initialized && TickSpec(old(queue), slot, mem, baseMem, r, t)
      ensures load == r.load && memUsage == r.memUsage && queue == r.remaining
      ensures notified == old(notified) + Notified(r.served)
      ensures lastUsedMem == memUsage && lastMemUsage == memUsage as real / mem as real
      ensures lastLoad == load && lastAvailableMem == mem
    {
      var out;
      out, t := Serve(queue, slot, mem, baseMem);
      r, load, memUsage := out, out.load, out.memUsage;
      Record(out, mem);
    }

    /** Keep the unserved requests, notify the served ones and cache the figures. */
    method Record(out: Outcome, mem: int)
      requires mem > 0
      modifies this
      ensures queue == out.remaining && notified == old(notified) + Notified(out.served)
      ensures initialized == old(initialized)
      ensures lastUsedMem == out.memUsage && lastMemUsage == out.memUsage as real / mem as real
      ensures lastLoad == out.load && lastAvailableMem == mem
    {
      queue := out.remaining;
      notified := notified + Notified(out.served);
      lastMemUsage := out.memUsage as real / mem as real;
      lastLoad := out.load;
      lastAvailableMem := mem;
      lastUsedMem := out.memUsage;
    }
  }

  /** Delivering a request grows the pod's resource request by exactly the
      request's CPU time and memory. */
  lemma DemandGrows(q: seq<Request>, r: Request)
    ensures SumOf(q + [r], SlotOf) == SumOf(q, SlotOf) + r.slotRequired
    ensures MemTotal(q + [r]) == MemTotal(q) + r.memRequired
  {
    assert (q + [r])[..|q|] == q;
  }
}
