/** The node kernel's fair CPU scheduler: ready pods are dealt round-robin
    onto one run queue per CPU with a single cursor that carries over from pod
    to pod, and every entry on a CPU with `n` entries gets the time slice
    `1/n`. A run entity names its pod by the pod's position in the ready list
    (the node maps each `*Pod` back to that position). */
module CoreScheduler {
  import opened Common

  /** What the scheduler reads of a ready pod: the CPU count its algorithm's
      ResourceRequest asks for, and the pod's CPU limit. */
  datatype Demand = Demand(cpu: real, cpuLimit: real)

  datatype RunEntity = RunEntity(pod: nat, slot: real)

  /** The number of entries a pod gets: the request, first lowered to the
      CPU count when its integer part exceeds it, then to the CPU limit, and
      truncated; the entry loop runs no times for a count below one. */
  function Cores(d: Demand, totalCpu: nat): (k: nat)
    ensures k <= totalCpu
  {
    var cpu1 := if Trunc(d.cpu) > totalCpu then totalCpu as real else d.cpu;
    var cpu2 := if cpu1 > d.cpuLimit then d.cpuLimit else cpu1;
    TruncMonotone(cpu2, cpu1);
    if Trunc(cpu2) > 0 then Trunc(cpu2) else 0
  }

  /** For a non-negative request and limit the clamping is a minimum of
      floors. */
  lemma CoresIsMinOfFloors(d: Demand, totalCpu: nat)
    requires d.cpu >= 0.0 && d.cpuLimit >= 0.0
    ensures Cores(d, totalCpu) == Min(Min(d.cpu.Floor, totalCpu), d.cpuLimit.Floor)
  {
    var cpu1 := if Trunc(d.cpu) > totalCpu then totalCpu as real else d.cpu;
    assert Trunc(cpu1) == Min(d.cpu.Floor, totalCpu);
    if cpu1 > d.cpuLimit {
      TruncMonotone(d.cpuLimit, cpu1);
    } else {
      TruncMonotone(cpu1, d.cpuLimit);
    }
  }

  /** The pods' entries in the order the cursor deals them: pod `i` appears
      `Cores` times, pods in ready-list order. */
  function Expand(pods: seq<Demand>, totalCpu: nat): (s: seq<nat>)
    ensures forall k :: 0 <= k < |s| ==> s[k] < |pods|
  {
    if |pods| == 0 then []
    else
      var n: nat := |pods| - 1;
      Expand(pods[..n], totalCpu) + Repeat(n, Cores(pods[n], totalCpu))
  }

  lemma ExpandStep(pods: seq<Demand>, totalCpu: nat, i: nat)
    requires i < |pods|
    ensures Expand(pods[..i + 1], totalCpu) == Expand(pods[..i], totalCpu) + Repeat(i, Cores(pods[i], totalCpu))
  {
    assert pods[..i + 1][..i] == pods[..i];
  }

  /** The CPU the cursor points at after `t` entries: it starts at 0 and
      goes back to 0 when it reaches the CPU count. */
  function Cursor(t: nat, totalCpu: nat): (c: nat)
    requires totalCpu > 0
    ensures c < totalCpu
  {
    if t == 0 then 0
    else if Cursor(t - 1, totalCpu) + 1 >= totalCpu then 0
    else Cursor(t - 1, totalCpu) + 1
  }

  /** The cursor is the entry count modulo the CPU count. */
  lemma {:induction false} CursorIsMod(t: nat, totalCpu: nat)
    requires totalCpu > 0
    ensures Cursor(t, totalCpu) == t % totalCpu
    decreases t
  {
    if t > 0 {
      CursorIsMod(t - 1, totalCpu);
      DivModStep(t - 1, totalCpu);
    }
  }

  /** The entries the cursor puts on CPU `c`, in dealing order. */
  function Column<T>(s: seq<T>, totalCpu: nat, c: nat): seq<T>
    requires totalCpu > 0
  {
    if |s| == 0 then []
    else Column(s[..|s| - 1], totalCpu, c) + (if Cursor(|s| - 1, totalCpu) == c then [s[|s| - 1]] else [])
  }

  lemma ColumnAppend<T>(s: seq<T>, x: T, totalCpu: nat, c: nat)
    requires totalCpu > 0
    ensures Column(s + [x], totalCpu, c) == Column(s, totalCpu, c) + (if Cursor(|s|, totalCpu) == c then [x] else [])
  {
    assert (s + [x])[..|s|] == s;
  }

  /** Run entities for a queue of pods, before slices are assigned. */
  function Pending(q: seq<nat>): (r: seq<RunEntity>)
    ensures |r| == |q|
  {
    seq(|q|, k requires 0 <= k < |q| => RunEntity(q[k], 0.0))
  }

  /** A queue of pods with the fair slice `1/n` on each of its `n` entries. */
  function Slotted(q: seq<nat>): (r: seq<RunEntity>)
    ensures |r| == |q|
  {
    seq(|q|, k requires 0 <= k < |q| => RunEntity(q[k], 1.0 / |q| as real))
  }

  /** What the fair scheduler produces for `totalCpu` CPUs. */
  function Scheduled(pods: seq<Demand>, totalCpu: nat): (r: seq<seq<RunEntity>>)
    ensures |r| == totalCpu
  {
    seq(totalCpu, c requires 0 <= c < totalCpu => Slotted(Column(Expand(pods, totalCpu), totalCpu, c)))
  }

  /** The queues after dealing `dealt`, before slices are assigned. */
  function Dealt(dealt: seq<nat>, totalCpu: nat): (r: seq<seq<RunEntity>>)
    ensures |r| == totalCpu
  {
    seq(totalCpu, c requires 0 <= c < totalCpu => Pending(Column(dealt, totalCpu, c)))
  }

  /** fairScheduler.Schedule. The previous CPU state only supplies the CPU
      count. */
  method Schedule(pods: seq<Demand>, cpuState: seq<seq<RunEntity>>) returns (newState: seq<seq<RunEntity>>)
    ensures newState == Scheduled(pods, |cpuState|)
  {
    var totalCpu := |cpuState|;
    var st := new seq<RunEntity>[totalCpu](_ => []);
    if |pods| == 0 {
      newState := st[..];
      assert forall c :: 0 <= c < totalCpu ==> Column(Expand(pods, totalCpu), totalCpu, c) == [];
      return;
    }
    ghost var dealt := Expand(pods, totalCpu);
    assert st[..] == Dealt([], totalCpu);
    Deal(st, pods);
    ShareCpus(st, seq(totalCpu, c requires 0 <= c < totalCpu => Column(dealt, totalCpu, c)));
    newState := st[..];
  }

  /** The first loop of Schedule: deal every pod's entries, with zero slices,
      onto the CPU queues with one cursor. */
  method Deal(st: array<seq<RunEntity>>, pods: seq<Demand>)
    requires st[..] == Dealt([], st.Length)
    modifies st
    ensures st[..] == Dealt(Expand(pods, st.Length), st.Length)
  {
    var cpuIdx := 0;
    var i: nat := 0;
    while i < |pods|
      invariant 0 <= i <= |pods|
      invariant st.Length > 0 ==> cpuIdx == Cursor(|Expand(pods[..i], st.Length)|, st.Length)
      invariant st[..] == Dealt(Expand(pods[..i], st.Length), st.Length)
    {
      ExpandStep(pods, st.Length, i);
      cpuIdx := DealPod(st, i, Cores(pods[i], st.Length), cpuIdx, Expand(pods[..i], st.Length));
      i := i + 1;
    }
    assert pods[..i] == pods;
  }

  /** The inner loop of the first loop: `k` entries of pod `i`, each on the
      CPU under the cursor, which then moves on and wraps to 0. */
  method DealPod(st: array<seq<RunEntity>>, i: nat, k: nat, cpuIdx: nat, ghost dealt: seq<nat>)
    returns (next: nat)
    requires k <= st.Length
    requires st.Length > 0 ==> cpuIdx == Cursor(|dealt|, st.Length)
    requires st[..] == Dealt(dealt, st.Length)
    modifies st
    ensures st.Length > 0 ==> next == Cursor(|dealt + Repeat(i, k)|, st.Length)
    ensures st[..] == Dealt(dealt + Repeat(i, k), st.Length)
  {
    next := cpuIdx;
    var j := 0;
    ghost var d := dealt;
    assert dealt + Repeat(i, 0) == dealt;
    while j < k
      invariant 0 <= j <= k
      invariant d == dealt + Repeat(i, j)
      invariant st.Length > 0 ==> next == Cursor(|d|, st.Length)
      invariant st[..] == Dealt(d, st.Length)
    {
      AppendEntry(d, i, st.Length);
      st[next] := st[next] + [RunEntity(i, 0.0)];
      d := d + [i];
      next := next + 1;
      if next >= st.Length {
        next := 0;
      }
      j := j + 1;
    }
  }

  /** One step of dealing: entry `x` joins the queue under the cursor. */
  lemma AppendEntry(dealt: seq<nat>, x: nat, totalCpu: nat)
    requires totalCpu > 0
    ensures var cur := Cursor(|dealt|, totalCpu); var before := Dealt(dealt, totalCpu);
      Dealt(dealt + [x], totalCpu) == before[cur := before[cur] + [RunEntity(x, 0.0)]]
  {
    var cur := Cursor(|dealt|, totalCpu);
    var before := Dealt(dealt, totalCpu);
    var after := Dealt(dealt + [x], totalCpu);
    var expected := before[cur := before[cur] + [RunEntity(x, 0.0)]];
    forall c | 0 <= c < totalCpu
      ensures after[c] == expected[c]
    {
      ColumnAppend<nat>(dealt, x, totalCpu, c);
      if c == cur {
        var col := Column(dealt, totalCpu, c);
        assert Pending(col + [x]) == Pending(col) + [RunEntity(x, 0.0)];
      }
    }
  }

  /** The second loop of Schedule: every entry of a CPU with `n` entries gets
      the slice `1/n`. */
  method ShareCpus(st: array<seq<RunEntity>>, ghost queues: seq<seq<nat>>)
    requires |queues| == st.Length
    requires forall c :: 0 <= c < st.Length ==> st[c] == Pending(queues[c])
    modifies st
    ensures forall c :: 0 <= c < st.Length ==> st[c] == Slotted(queues[c])
  {
    var c := 0;
    while c < st.Length
      invariant 0 <= c <= st.Length
      invariant forall c' :: 0 <= c' < c ==> st[c'] == Slotted(queues[c'])
      invariant forall c' :: c <= c' < st.Length ==> st[c'] == Pending(queues[c'])
    {
      var podCount := |st[c]|;
      if podCount == 0 {
        c := c + 1;
        continue;
      }
      var slot := 1.0 / podCount as real;
      var row := st[c];
      var j := 0;
      while j < podCount
        invariant 0 <= j <= podCount && |row| == podCount == |queues[c]|
        invariant forall k :: 0 <= k < j ==> row[k] == RunEntity(queues[c][k], slot)
        invariant forall k :: j <= k < podCount ==> row[k] == RunEntity(queues[c][k], 0.0)
      {
        row := row[j := row[j].(slot := slot)];
        j := j + 1;
      }
      st[c] := row;
      c := c + 1;
    }
  }

  // ---------------------------------------------------------------------
  // Properties of the schedule

  /** The cursor deals the first `|s| mod C` CPUs one entry more than the
      others, so queue lengths differ by at most one. */
  lemma {:induction false} ColumnLength<T>(s: seq<T>, totalCpu: nat, c: nat)
    requires c < totalCpu
    ensures |Column(s, totalCpu, c)| == |s| / totalCpu + (if c < |s| % totalCpu then 1 else 0)
    decreases |s|
  {
    if |s| > 0 {
      var t: nat := |s| - 1;
      ColumnLength(s[..t], totalCpu, c);
      CursorIsMod(t, totalCpu);
      DivModStep(t, totalCpu);
    }
  }

  lemma DivModParts(t: nat, totalCpu: nat, j: nat)
    requires totalCpu > 0 && j == t / totalCpu
    ensures t % totalCpu + j * totalCpu == t
  {
  }

  /** Entry `j` of CPU `c`'s queue is the entry dealt at position `c + j*C`. */
  lemma {:induction false} ColumnAt<T>(s: seq<T>, totalCpu: nat, c: nat, j: nat)
    requires c < totalCpu && j < |Column(s, totalCpu, c)|
    ensures c + j * totalCpu < |s| && Column(s, totalCpu, c)[j] == s[c + j * totalCpu]
    decreases |s|
  {
    var t: nat := |s| - 1;
    var front := Column(s[..t], totalCpu, c);
    if j < |front| {
      ColumnAt(s[..t], totalCpu, c, j);
    } else {
      ColumnLength(s[..t], totalCpu, c);
      CursorIsMod(t, totalCpu);
      DivModParts(t, totalCpu, j);
    }
  }

  /** Where pod `i`'s entries start in dealing order. */
  function Start(pods: seq<Demand>, totalCpu: nat, i: nat): nat
    requires i <= |pods|
  {
    |Expand(pods[..i], totalCpu)|
  }

  /** Each pod's entries occupy one run of consecutive positions of length
      `Cores`. */
  lemma {:induction false} ExpandRuns(pods: seq<Demand>, totalCpu: nat, k: nat)
    requires k < |Expand(pods, totalCpu)|
    ensures var i := Expand(pods, totalCpu)[k];
      Start(pods, totalCpu, i) <= k < Start(pods, totalCpu, i) + Cores(pods[i], totalCpu)
    decreases |pods|
  {
    var n: nat := |pods| - 1;
    var front := pods[..n];
    assert pods[..n + 1] == pods;
    ExpandStep(pods, totalCpu, n);
    var s := Expand(pods, totalCpu);
    if k < |Expand(front, totalCpu)| {
      ExpandRuns(front, totalCpu, k);
      var i := s[k];
      assert front[..i] == pods[..i];
    }
  }

  /** The number of entries of pod `i`. */
  function Count(s: seq<nat>, i: nat): nat
  {
    if |s| == 0 then 0 else Count(s[..|s| - 1], i) + (if s[|s| - 1] == i then 1 else 0)
  }

  lemma CountAppend(s: seq<nat>, x: nat, i: nat)
    ensures Count(s + [x], i) == Count(s, i) + (if x == i then 1 else 0)
  {
    assert (s + [x])[..|s|] == s;
  }

  lemma {:induction false} CountConcat(a: seq<nat>, b: seq<nat>, i: nat)
    ensures Count(a + b, i) == Count(a, i) + Count(b, i)
    decreases |b|
  {
    if |b| == 0 {
      assert a + b == a;
    } else {
      var t: nat := |b| - 1;
      assert a + b == (a + b[..t]) + [b[t]];
      assert b == b[..t] + [b[t]];
      CountAppend(a + b[..t], b[t], i);
      CountAppend(b[..t], b[t], i);
      CountConcat(a, b[..t], i);
    }
  }

  lemma {:induction false} RepeatCount(x: nat, n: nat, y: nat)
    ensures Count(Repeat(x, n), y) == if x == y then n else 0
    decreases n
  {
    if n > 0 {
      RepeatCount(x, n - 1, y);
      CountAppend(Repeat(x, n - 1), x, y);
    }
  }

  lemma {:induction false} CountAbsent(s: seq<nat>, i: nat)
    requires forall k :: 0 <= k < |s| ==> s[k] != i
    ensures Count(s, i) == 0
    decreases |s|
  {
    if |s| > 0 {
      CountAbsent(s[..|s| - 1], i);
    }
  }

  /** Pod `i` has exactly `Cores` entries in dealing order. */
  lemma {:induction false} ExpandCount(pods: seq<Demand>, totalCpu: nat, i: nat)
    requires i < |pods|
    ensures Count(Expand(pods, totalCpu), i) == Cores(pods[i], totalCpu)
    decreases |pods|
  {
    var n: nat := |pods| - 1;
    assert pods[..n + 1] == pods;
    ExpandStep(pods, totalCpu, n);
    var front := Expand(pods[..n], totalCpu);
    CountConcat(front, Repeat<nat>(n, Cores(pods[n], totalCpu)), i);
    RepeatCount(n, Cores(pods[n], totalCpu), i);
    if i < n {
      ExpandCount(pods[..n], totalCpu, i);
      assert pods[..n][i] == pods[i];
    } else {
      CountAbsent(front, i);
    }
  }

  function Pods(q: seq<RunEntity>): (r: seq<nat>)
    ensures |r| == |q|
  {
    seq(|q|, k requires 0 <= k < |q| => q[k].pod)
  }

  /** The number of entries of pod `i` over all queues. */
  function Occupancy(state: seq<seq<RunEntity>>, i: nat): nat
  {
    if |state| == 0 then 0
    else Occupancy(state[..|state| - 1], i) + Count(Pods(state[|state| - 1]), i)
  }

  /** The number of entries of pod `i` on the first `m` CPUs. */
  ghost function CountUpTo(s: seq<nat>, totalCpu: nat, m: nat, i: nat): nat
    requires totalCpu > 0
  {
    if m == 0 then 0 else CountUpTo(s, totalCpu, m - 1, i) + Count(Column(s, totalCpu, m - 1), i)
  }

  lemma {:induction false} ColumnsAppendOne(s: seq<nat>, x: nat, totalCpu: nat, m: nat, i: nat)
    requires 0 < totalCpu && m <= totalCpu
    ensures CountUpTo(s + [x], totalCpu, m, i)
         == CountUpTo(s, totalCpu, m, i) + (if Cursor(|s|, totalCpu) < m && x == i then 1 else 0)
    decreases m
  {
    if m > 0 {
      ColumnsAppendOne(s, x, totalCpu, m - 1, i);
      ColumnAppend<nat>(s, x, totalCpu, m - 1);
      var col := Column(s, totalCpu, m - 1);
      assert CountUpTo(s + [x], totalCpu, m, i)
          == CountUpTo(s + [x], totalCpu, m - 1, i) + Count(Column(s + [x], totalCpu, m - 1), i);
      assert CountUpTo(s, totalCpu, m, i) == CountUpTo(s, totalCpu, m - 1, i) + Count(col, i);
      if Cursor(|s|, totalCpu) == m - 1 {
        CountAppend(col, x, i);
        assert Column(s + [x], totalCpu, m - 1) == col + [x];
        assert CountUpTo(s + [x], totalCpu, m - 1, i) == CountUpTo(s, totalCpu, m - 1, i);
      } else {
        assert Column(s + [x], totalCpu, m - 1) == col;
        assert CountUpTo(s + [x], totalCpu, m - 1, i)
            == CountUpTo(s, totalCpu, m - 1, i) + (if Cursor(|s|, totalCpu) < m && x == i then 1 else 0);
      }
    }
  }

  /** Dealing onto all CPUs loses and invents no entry. */
  lemma {:induction false} AllColumns(s: seq<nat>, totalCpu: nat, i: nat)
    requires 0 < totalCpu
    ensures CountUpTo(s, totalCpu, totalCpu, i) == Count(s, i)
    decreases |s|
  {
    if |s| > 0 {
      var t: nat := |s| - 1;
      assert s == s[..t] + [s[t]];
      AllColumns(s[..t], totalCpu, i);
      ColumnsAppendOne(s[..t], s[t], totalCpu, totalCpu, i);
      CountAppend(s[..t], s[t], i);
    } else {
      ColumnsEmpty(totalCpu, totalCpu, i);
    }
  }

  lemma {:induction false} ColumnsEmpty(totalCpu: nat, m: nat, i: nat)
    requires 0 < totalCpu
    ensures CountUpTo([], totalCpu, m, i) == 0
    decreases m
  {
    if m > 0 {
      ColumnsEmpty(totalCpu, m - 1, i);
    }
  }

  lemma {:induction false} OccupancyScheduled(pods: seq<Demand>, totalCpu: nat, m: nat, i: nat)
    requires 0 < totalCpu && m <= totalCpu
    ensures Occupancy(Scheduled(pods, totalCpu)[..m], i) == CountUpTo(Expand(pods, totalCpu), totalCpu, m, i)
    decreases m
  {
    if m > 0 {
      var st := Scheduled(pods, totalCpu);
      assert st[..m][..m - 1] == st[..m - 1];
      OccupancyScheduled(pods, totalCpu, m - 1, i);
      var q := Column(Expand(pods, totalCpu), totalCpu, m - 1);
      assert Pods(st[m - 1]) == q;
    }
  }

  lemma {:induction false} ExpandEmpty(pods: seq<Demand>)
    ensures Expand(pods, 0) == []
    decreases |pods|
  {
    if |pods| > 0 {
      ExpandEmpty(pods[..|pods| - 1]);
    }
  }

  /** Each pod has exactly `Cores` entries over all queues, so never more than
      there are CPUs. */
  lemma ScheduleCount(pods: seq<Demand>, totalCpu: nat, i: nat)
    requires i < |pods|
    ensures Occupancy(Scheduled(pods, totalCpu), i) == Cores(pods[i], totalCpu) <= totalCpu
  {
    ExpandCount(pods, totalCpu, i);
    if totalCpu == 0 {
      ExpandEmpty(pods);
    } else {
      var st := Scheduled(pods, totalCpu);
      OccupancyScheduled(pods, totalCpu, totalCpu, i);
      assert st[..totalCpu] == st;
      AllColumns(Expand(pods, totalCpu), totalCpu, i);
    }
  }

  /** No pod appears twice in the same CPU queue: its at most C entries
      occupy consecutive positions, and a queue's entries are C apart. */
  lemma NoPodTwiceOnACpu(pods: seq<Demand>, totalCpu: nat, c: nat, j1: nat, j2: nat)
    requires c < totalCpu
    requires j1 < j2 < |Scheduled(pods, totalCpu)[c]|
    ensures Scheduled(pods, totalCpu)[c][j1].pod != Scheduled(pods, totalCpu)[c][j2].pod
  {
    var s := Expand(pods, totalCpu);
    ColumnAt(s, totalCpu, c, j1);
    ColumnAt(s, totalCpu, c, j2);
    Apart(c, j1, j2, totalCpu);
    RunsApart(pods, totalCpu, c + j1 * totalCpu, c + j2 * totalCpu);
  }

  lemma Apart(c: nat, j1: nat, j2: nat, totalCpu: nat)
    requires j1 < j2 && totalCpu > 0
    ensures c + j1 * totalCpu + totalCpu <= c + j2 * totalCpu
  {
    MulAtLeast(j2 - j1, totalCpu);
    assert j2 * totalCpu - j1 * totalCpu == (j2 - j1) * totalCpu;
  }

  /** Two dealt positions at least C apart never hold the same pod. */
  lemma RunsApart(pods: seq<Demand>, totalCpu: nat, k1: nat, k2: nat)
    requires k1 + totalCpu <= k2 < |Expand(pods, totalCpu)|
    ensures Expand(pods, totalCpu)[k1] != Expand(pods, totalCpu)[k2]
  {
    ExpandRuns(pods, totalCpu, k1);
    ExpandRuns(pods, totalCpu, k2);
  }

  /** The slices of one slotted queue each get an equal share of the tick,
      and the shares of a non-empty queue make the whole tick. */
  lemma SlottedShares(col: seq<nat>)
    ensures var q := Slotted(col);
      && (forall k :: 0 <= k < |q| ==> q[k].slot == 1.0 / |q| as real)
      && (|q| > 0 ==> Sum(Slots(q)) == 1.0)
  {
    var q := Slotted(col);
    var n := |q|;
    if n > 0 {
      assert Slots(q) == Repeat(1.0 / n as real, n);
      SumRepeat(1.0 / n as real, n);
    }
  }

  /** The slices on a busy CPU add up to one whole tick; an idle CPU's queue
      is empty. */
  lemma SlotsOfACpu(pods: seq<Demand>, totalCpu: nat, c: nat)
    requires c < totalCpu
    ensures var q := Scheduled(pods, totalCpu)[c];
      && (forall k :: 0 <= k < |q| ==> q[k].slot == 1.0 / |q| as real)
      && (|q| > 0 ==> Sum(Slots(q)) == 1.0)
  {
    SlottedShares(Column(Expand(pods, totalCpu), totalCpu, c));
  }

  function Slots(q: seq<RunEntity>): (r: seq<real>)
    ensures |r| == |q|
  {
    seq(|q|, k requires 0 <= k < |q| => q[k].slot)
  }

  lemma {:induction false} SumRepeat(x: real, n: nat)
    ensures Sum(Repeat(x, n)) == n as real * x
    decreases n
  {
    if n > 0 {
      assert Repeat(x, n)[..n - 1] == Repeat(x, n - 1);
      SumRepeat(x, n - 1);
    }
  }

  /** Without ready pods every queue is empty; the previous state's contents
      never matter. */
  lemma NoPodsNoEntries(totalCpu: nat, c: nat)
    requires c < totalCpu
    ensures Scheduled([], totalCpu)[c] == []
  {
  }

  /** The queue lengths of a schedule: the first `T mod C` CPUs carry one
      entry more, where `T` is the total number of entries. */
  lemma QueueLengths(pods: seq<Demand>, totalCpu: nat, c: nat)
    requires c < totalCpu
    ensures var t := |Expand(pods, totalCpu)|;
      |Scheduled(pods, totalCpu)[c]| == t / totalCpu + (if c < t % totalCpu then 1 else 0)
  {
    ColumnLength(Expand(pods, totalCpu), totalCpu, c);
  }

  // ---------------------------------------------------------------------
  // The scheduler registry

  /** The scheduler implementations a node can name; the repository has only
      the fair one, others stand for whatever a caller registers. */
  datatype Scheduler = FairScheduler | Registered(id: nat)

  const FairSchedulerName: string := "fairScheduler"

  function Lookup(m: map<string, Scheduler>, name: string): (r: Option<Scheduler>)
    ensures r.Some? <==> name in m
    ensures r.Some? ==> r.value == m[name]
  {
    if name in m then Some(m[name]) else None
  }

  /** Registering a name makes a lookup of it return what was stored, and
      leaves every other name's lookup as it was. */
  lemma LookupAfterRegister(m: map<string, Scheduler>, name: string, s: Scheduler, other: string)
    ensures Lookup(m[name := s], name) == Some(s)
    ensures other != name ==> Lookup(m[name := s], other) == Lookup(m, other)
  {
  }

  /** The package's scheduler map. */
  class SchedulerMap {
    var entries: map<string, Scheduler>

    constructor ()
      ensures entries == map[FairSchedulerName := FairScheduler]
    {
      entries := map[FairSchedulerName := FairScheduler];
    }

    /** GetCoreScheduler: `None` plays `exist == false`. */
    method Get(name: string) returns (scheduler: Option<Scheduler>)
      ensures scheduler.Some? <==> name in entries
      ensures scheduler.Some? ==> scheduler.value == entries[name]
    {
      scheduler := Lookup(entries, name);
    }

    /** RegisterNewCoreScheduler: inserts or replaces. */
    method Register(name: string, scheduler: Scheduler)
      modifies this
      ensures entries == old(entries)[name := scheduler]
    {
      entries := entries[name := scheduler];
    }
  }
}
