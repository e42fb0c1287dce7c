/** Tick metrics of a node and their aggregation over time: a cumulative
    average and moving averages over the last 60, 300 and 1500 ticks, each
    window kept in a fixed-capacity ring of samples with a running sum. */
module Metrics {
  import opened Common

  /** What one node tick reports. */
  datatype TickMetrics = TickMetrics(cpuUsage: real, memUsage: real, load: real)

  /** The aggregate after a tick. The three `...LastTick` fields are set by
      the aggregator but missing from the record type; they are included
      here. */
  datatype PeriodMetrics = PeriodMetrics(
    cpuUsageLastTick: real,
    cpuUsageAverage: real,
    cpuUsageAverageIn60Ticks: real,
    cpuUsageAverageIn300Ticks: real,
    cpuUsageAverageIn1500Ticks: real,
    memUsageLastTick: real,
    memUsageAverage: real,
    memUsageAverageIn60Ticks: real,
    memUsageAverageIn300Ticks: real,
    memUsageAverageIn1500Ticks: real,
    loadLastTick: real,
    loadAverage: real,
    loadAverageIn60Ticks: real,
    loadAverageIn300Ticks: real,
    loadAverageIn1500Ticks: real)

  /** The last `capacity` values of a history, or all of it while shorter. */
  function Window(history: seq<real>, capacity: nat): (w: seq<real>)
    ensures |w| == Min(|history|, capacity)
  {
    if |history| <= capacity then history else history[|history| - capacity..]
  }

  /** The window is the newest part of the history, in order. */
  lemma WindowIsSuffix(history: seq<real>, capacity: nat, k: nat)
    requires k < |Window(history, capacity)|
    ensures Window(history, capacity)[k] == history[|history| - |Window(history, capacity)| + k]
  {
  }

  function Mean(s: seq<real>): real
    requires |s| > 0
  {
    Sum(s) / |s| as real
  }

  /** Adding a value slides the window by one once it is full. */
  lemma WindowStep(history: seq<real>, x: real, capacity: nat)
    requires capacity > 0
    ensures Window(history + [x], capacity) ==
      (if |history| < capacity then Window(history, capacity) + [x]
       else Window(history, capacity)[1..] + [x])
  {
    var h := history + [x];
    if |history| >= capacity {
      assert h[|h| - capacity..] == history[|history| - capacity..][1..] + [x];
    }
  }

  lemma {:induction false} SumUpdate(s: seq<real>, i: nat, x: real)
    requires i < |s|
    ensures Sum(s[i := x]) == Sum(s) - s[i] + x
  {
    var t := s[i := x];
    assert s == s[..i] + [s[i]] + s[i + 1..];
    assert t == s[..i] + [x] + s[i + 1..];
    SumAppend(s[..i] + [s[i]], s[i + 1..]);
    SumAppend(s[..i], [s[i]]);
    SumAppend(s[..i] + [x], s[i + 1..]);
    SumAppend(s[..i], [x]);
    assert Sum([x]) == x by { assert [x][..0] == []; }
    assert Sum([s[i]]) == s[i] by { assert [s[i]][..0] == []; }
  }

  /** Writing the next free cell extends the filled prefix by the value. */
  lemma FillStep(a: seq<real>, size: nat, x: real)
    requires size < |a|
    ensures a[size := x][..size + 1] == a[..size] + [x]
    ensures Sum(a[size := x][..size + 1]) == Sum(a[..size]) + x
  {
    var b := a[size := x];
    assert b[..size + 1] == a[..size] + [x];
    assert b[..size + 1][..size] == a[..size];
  }

  /** Overwriting the oldest cell of a full ring and moving `head` on drops
      the oldest sample and appends the new one. */
  lemma OverwriteStep(a: seq<real>, head: nat, x: real)
    requires head < |a|
    ensures var b, h := a[head := x], (head + 1) % |a|;
      b[h..] + b[..h] == (a[head..] + a[..head])[1..] + [x]
  {
    var b := a[head := x];
    if head + 1 < |a| {
      DivModUnique(head + 1, |a|, 0, head + 1);
      assert b[head + 1..] == a[head + 1..];
      assert b[..head + 1] == a[..head] + [x];
    } else {
      DivModUnique(head + 1, |a|, 1, 0);
      assert b == a[..head] + [x];
    }
  }

  /** ringQueue: storage for at most `|arr|` recent samples and their
      running sum. While filling up, sample k sits at index k and `head`
      stays 0; once full, the oldest sample sits at `head`. */
  datatype RingQueue = RingQueue(arr: seq<real>, size: nat, head: nat, sum: real)

  /** The samples held, from oldest to newest. */
  function RingOf(q: RingQueue): seq<real>
    requires q.head <= q.size <= |q.arr|
  {
    q.arr[q.head..q.size] + q.arr[..q.head]
  }

  /** The ring invariant: the cells hold the window of `history`, read from
      `head` round to `head - 1`, and `sum` is the sum of the filled cells. */
  ghost predicate RingHolds(q: RingQueue, history: seq<real>)
  {
    && |q.arr| > 0
    && q.size <= |q.arr|
    && q.head < |q.arr|
    && q.head <= q.size
    && (q.size < |q.arr| ==> q.head == 0)
    && q.sum == Sum(q.arr[..q.size])
    && RingOf(q) == Window(history, |q.arr|)
  }

  /** newRingQueue */
  function NewRingQueue(capacity: nat): (q: RingQueue)
    requires capacity > 0
    ensures RingHolds(q, []) && |q.arr| == capacity
  {
    RingQueue(seq(capacity, _ => 0.0), 0, 0, 0.0)
  }

  /** add: store a sample, overwriting the oldest one once the ring is full,
      and return the new ring with the mean of the samples it holds. */
  function Add(q: RingQueue, num: real): (r: (RingQueue, real))
    requires |q.arr| > 0 && q.size <= |q.arr| && q.head < |q.arr|
    ensures |r.0.arr| == |q.arr| && 0 < r.0.size <= |q.arr| && r.0.head < |q.arr|
  {
    if q.size < |q.arr| then
      var next := q.(arr := q.arr[q.size := num], sum := q.sum + num, size := q.size + 1);
      (next, next.sum / next.size as real)
    else
      var sum := q.sum - q.arr[q.head] + num;
      var next := q.(arr := q.arr[q.head := num], sum := sum, head := (q.head + 1) % q.size);
      (next, next.sum / next.size as real)
  }

  /** While filling, `add` writes the next free cell; once full, it
      overwrites the oldest cell and moves `head` on, the size staying at
      the capacity. */
  lemma AddCells(q: RingQueue, num: real)
    requires |q.arr| > 0 && q.size <= |q.arr| && q.head < |q.arr|
    ensures var next := Add(q, num).0;
      && (q.size < |q.arr| ==> next.arr == q.arr[q.size := num] && next.size == q.size + 1 && next.head == q.head)
      && (q.size == |q.arr| ==>
            next.arr == q.arr[q.head := num] && next.size == q.size && next.head == (q.head + 1) % |q.arr|)
  {
  }

  /** `add` keeps the ring invariant for the history extended by the sample,
      and returns the mean of the last `capacity` samples. */
  lemma AddKeepsRing(q: RingQueue, history: seq<real>, num: real)
    requires RingHolds(q, history)
    ensures RingHolds(Add(q, num).0, history + [num])
    ensures Add(q, num).1 == Mean(Window(history + [num], |q.arr|))
  {
    WindowStep(history, num, |q.arr|);
    if q.size < |q.arr| {
      FillKeepsRing(q, history, num);
    } else {
      OverwriteKeepsRing(q, history, num);
    }
    RingSum(Add(q, num).0);
  }

  lemma FillKeepsRing(q: RingQueue, history: seq<real>, num: real)
    requires RingHolds(q, history) && q.size < |q.arr|
    ensures RingHolds(Add(q, num).0, history + [num])
  {
    var next := Add(q, num).0;
    WindowStep(history, num, |q.arr|);
    FillStep(q.arr, q.size, num);
    assert RingOf(q) == q.arr[..q.size] by { assert q.arr[..0] == []; }
    assert RingOf(next) == next.arr[..next.size] by { assert next.arr[..0] == []; }
  }

  lemma OverwriteKeepsRing(q: RingQueue, history: seq<real>, num: real)
    requires RingHolds(q, history) && q.size == |q.arr|
    ensures RingHolds(Add(q, num).0, history + [num])
  {
    var next := Add(q, num).0;
    WindowStep(history, num, |q.arr|);
    assert q.arr == q.arr[..q.size];
    SumUpdate(q.arr, q.head, num);
    OverwriteStep(q.arr, q.head, num);
    assert next.arr == next.arr[..next.size];
  }

  /** The running sum is the sum of the ring read from its oldest sample. */
  lemma RingSum(q: RingQueue)
    requires q.head <= q.size <= |q.arr|
    ensures Sum(q.arr[..q.size]) == Sum(RingOf(q))
  {
    assert q.arr[..q.size] == q.arr[..q.head] + q.arr[q.head..q.size];
    SumAppend(q.arr[..q.head], q.arr[q.head..q.size]);
    SumAppend(q.arr[q.head..q.size], q.arr[..q.head]);
  }

  /** A mean of samples within bounds is within the same bounds. */
  lemma {:induction false} SumWithin(s: seq<real>, lo: real, hi: real)
    requires forall i :: 0 <= i < |s| ==> lo <= s[i] <= hi
    ensures |s| as real * lo <= Sum(s) <= |s| as real * hi
    decreases |s|
  {
    if |s| > 0 {
      var front := s[..|s| - 1];
      var n := |front| as real;
      SumWithin(front, lo, hi);
      assert Sum(s) == Sum(front) + s[|s| - 1];
      assert |s| as real == n + 1.0;
      assert (n + 1.0) * lo == n * lo + lo && (n + 1.0) * hi == n * hi + hi;
    }
  }

  lemma MeanWithin(s: seq<real>, lo: real, hi: real)
    requires |s| > 0
    requires forall i :: 0 <= i < |s| ==> lo <= s[i] <= hi
    ensures lo <= Mean(s) <= hi
  {
    SumWithin(s, lo, hi);
    QuotientWithin(Sum(s), |s| as real, lo, hi);
  }

  /** A total between `n` times two bounds, divided by `n`, lies between
      the bounds. */
  lemma QuotientWithin(sum: real, n: real, lo: real, hi: real)
    requires n > 0.0 && n * lo <= sum <= n * hi
    ensures lo <= sum / n <= hi
  {
    var m := sum / n;
    assert m * n == sum;
    ProductOrder(m, lo, n);
    ProductOrder(hi, m, n);
  }

  lemma ProductOrder(a: real, b: real, n: real)
    requires n > 0.0 && a * n >= b * n
    ensures a >= b
  {
    assert (a - b) * n >= 0.0;
  }

  function Cpus(ticks: seq<TickMetrics>): (r: seq<real>)
    ensures |r| == |ticks| && forall i :: 0 <= i < |ticks| ==> r[i] == ticks[i].cpuUsage
  {
    seq(|ticks|, i requires 0 <= i < |ticks| => ticks[i].cpuUsage)
  }

  function Mems(ticks: seq<TickMetrics>): (r: seq<real>)
    ensures |r| == |ticks| && forall i :: 0 <= i < |ticks| ==> r[i] == ticks[i].memUsage
  {
    seq(|ticks|, i requires 0 <= i < |ticks| => ticks[i].memUsage)
  }

  function Loads(ticks: seq<TickMetrics>): (r: seq<real>)
    ensures |r| == |ticks| && forall i :: 0 <= i < |ticks| ==> r[i] == ticks[i].load
  {
    seq(|ticks|, i requires 0 <= i < |ticks| => ticks[i].load)
  }

  /** The five figures the report gives for one quantity: the last sample,
      the mean of all samples and the means of the last 60, 300 and 1500. */
  datatype Figures = Figures(last: real, average: real, in60: real, in300: real, in1500: real)

  function SamplesFigures(samples: seq<real>): (f: Figures)
    requires |samples| > 0
    ensures f.last == samples[|samples| - 1]
  {
    Figures(samples[|samples| - 1], Mean(samples),
      Mean(Window(samples, 60)), Mean(Window(samples, 300)), Mean(Window(samples, 1500)))
  }

  function Assemble(cpu: Figures, mem: Figures, load: Figures): PeriodMetrics
  {
    PeriodMetrics(
      cpu.last, cpu.average, cpu.in60, cpu.in300, cpu.in1500,
      mem.last, mem.average, mem.in60, mem.in300, mem.in1500,
      load.last, load.average, load.in60, load.in300, load.in1500)
  }

  /** What the aggregator reports after the ticks `ticks`, the last one
      being the sample just added. */
  function Report(ticks: seq<TickMetrics>): (p: PeriodMetrics)
    requires |ticks| > 0
    ensures p.cpuUsageLastTick == ticks[|ticks| - 1].cpuUsage
    ensures p.memUsageLastTick == ticks[|ticks| - 1].memUsage
    ensures p.loadLastTick == ticks[|ticks| - 1].load
  {
    Assemble(SamplesFigures(Cpus(ticks)), SamplesFigures(Mems(ticks)), SamplesFigures(Loads(ticks)))
  }

  /** Samples between 0 and 1 give figures between 0 and 1. */
  lemma FiguresWithin(samples: seq<real>)
    requires |samples| > 0
    requires forall i :: 0 <= i < |samples| ==> 0.0 <= samples[i] <= 1.0
    ensures var f := SamplesFigures(samples);
      && 0.0 <= f.last <= 1.0 && 0.0 <= f.average <= 1.0
      && 0.0 <= f.in60 <= 1.0 && 0.0 <= f.in300 <= 1.0 && 0.0 <= f.in1500 <= 1.0
  {
    MeanWithin(samples, 0.0, 1.0);
    WindowWithin(samples, 60);
    WindowWithin(samples, 300);
    WindowWithin(samples, 1500);
  }

  lemma WindowWithin(samples: seq<real>, capacity: nat)
    requires |samples| > 0 && capacity > 0
    requires forall i :: 0 <= i < |samples| ==> 0.0 <= samples[i] <= 1.0
    ensures 0.0 <= Mean(Window(samples, capacity)) <= 1.0
  {
    var w := Window(samples, capacity);
    forall k | 0 <= k < |w| ensures 0.0 <= w[k] <= 1.0 {
      WindowIsSuffix(samples, capacity, k);
    }
    MeanWithin(w, 0.0, 1.0);
  }

  /** When every tick's CPU and memory usage lies between 0 and 1, so does
      every CPU and memory figure of the report. */
  lemma ReportWithin(ticks: seq<TickMetrics>)
    requires |ticks| > 0
    requires forall i :: 0 <= i < |ticks| ==> 0.0 <= ticks[i].cpuUsage <= 1.0 && 0.0 <= ticks[i].memUsage <= 1.0
    ensures var p := Report(ticks);
      && 0.0 <= p.cpuUsageAverage <= 1.0 && 0.0 <= p.cpuUsageAverageIn60Ticks <= 1.0
      && 0.0 <= p.cpuUsageAverageIn300Ticks <= 1.0 && 0.0 <= p.cpuUsageAverageIn1500Ticks <= 1.0
      && 0.0 <= p.memUsageAverage <= 1.0 && 0.0 <= p.memUsageAverageIn60Ticks <= 1.0
      && 0.0 <= p.memUsageAverageIn300Ticks <= 1.0 && 0.0 <= p.memUsageAverageIn1500Ticks <= 1.0
  {
    FiguresWithin(Cpus(ticks));
    FiguresWithin(Mems(ticks));
  }

  /** One quantity's running sum and its 60, 300 and 1500 tick rings. */
  datatype Series = Series(sum: real, q60: RingQueue, q300: RingQueue, q1500: RingQueue)

  /** The series holds the sum of `samples` and their three windows. */
  ghost predicate SeriesHolds(s: Series, samples: seq<real>)
  {
    && s.sum == Sum(samples)
    && |s.q60.arr| == 60 && |s.q300.arr| == 300 && |s.q1500.arr| == 1500
    && RingHolds(s.q60, samples) && RingHolds(s.q300, samples) && RingHolds(s.q1500, samples)
  }

  function NewSeries(): (s: Series)
    ensures SeriesHolds(s, [])
  {
    Series(0.0, NewRingQueue(60), NewRingQueue(300), NewRingQueue(1500))
  }

  predicate Shaped(q: RingQueue)
  {
    |q.arr| > 0 && q.size <= |q.arr| && q.head < |q.arr|
  }

  predicate SeriesShaped(s: Series)
  {
    Shaped(s.q60) && Shaped(s.q300) && Shaped(s.q1500)
  }

  /** Add a sample to the sum and the three rings; `count` is the number of
      samples including it. Returns the new series and its figures. */
  function SeriesAdd(s: Series, x: real, count: nat): (r: (Series, Figures))
    requires SeriesShaped(s) && count > 0
    ensures SeriesShaped(r.0)
  {
    var a60, a300, a1500 := Add(s.q60, x), Add(s.q300, x), Add(s.q1500, x);
    var sum := s.sum + x;
    (Series(sum, a60.0, a300.0, a1500.0), Figures(x, sum / count as real, a60.1, a300.1, a1500.1))
  }

  /** The figure `add` returns for a ring: the mean of its window of the
      history extended by the sample. */
  lemma AddMean(q: RingQueue, history: seq<real>, num: real)
    requires RingHolds(q, history)
    ensures Add(q, num).1 == Mean(Window(history + [num], |q.arr|))
  {
    AddKeepsRing(q, history, num);
  }

  /** Adding a sample keeps the series tracking the samples. */
  lemma SeriesAddHolds(s: Series, samples: seq<real>, x: real)
    requires SeriesHolds(s, samples)
    ensures SeriesShaped(s)
    ensures SeriesHolds(SeriesAdd(s, x, |samples| + 1).0, samples + [x])
  {
    AddSample(samples, x);
    AddKeepsRing(s.q60, samples, x);
    AddKeepsRing(s.q300, samples, x);
    AddKeepsRing(s.q1500, samples, x);
    var r := SeriesAdd(s, x, |samples| + 1).0;
    assert r.sum == s.sum + x;
    assert r.q60 == Add(s.q60, x).0 && r.q300 == Add(s.q300, x).0 && r.q1500 == Add(s.q1500, x).0;
  }

  /** The figures of a series after adding a sample are those of the
      samples. */
  lemma SeriesAddFigures(s: Series, samples: seq<real>, x: real)
    requires SeriesHolds(s, samples)
    ensures SeriesShaped(s)
    ensures SeriesAdd(s, x, |samples| + 1).1 == SamplesFigures(samples + [x])
  {
    var all := samples + [x];
    AddSample(samples, x);
    AddMean(s.q60, samples, x);
    AddMean(s.q300, samples, x);
    AddMean(s.q1500, samples, x);
    var r := SeriesAdd(s, x, |samples| + 1);
    assert r.1.average == Mean(all);
    assert r.1 == Figures(x, Mean(all), Mean(Window(all, 60)), Mean(Window(all, 300)), Mean(Window(all, 1500)));
  }

  /** Adding a sample keeps the series tracking the samples, and its figures
      are those of the samples. */
  lemma SeriesAddKeeps(s: Series, samples: seq<real>, x: real)
    requires SeriesHolds(s, samples)
    ensures SeriesShaped(s)
    ensures SeriesHolds(SeriesAdd(s, x, |samples| + 1).0, samples + [x])
    ensures SeriesAdd(s, x, |samples| + 1).1 == SamplesFigures(samples + [x])
  {
    SeriesAddHolds(s, samples, x);
    SeriesAddFigures(s, samples, x);
  }

  /** The aggregator's fields as one value. */
  datatype AggState = AggState(count: nat, cpu: Series, mem: Series, load: Series, latestMetric: Option<PeriodMetrics>)

  /** The aggregator invariant after the ticks `ticks`. */
  ghost predicate AggHolds(st: AggState, ticks: seq<TickMetrics>)
  {
    && st.count == |ticks|
    && SeriesHolds(st.cpu, Cpus(ticks)) && SeriesHolds(st.mem, Mems(ticks)) && SeriesHolds(st.load, Loads(ticks))
    && st.latestMetric == (if |ticks| == 0 then None else Some(Report(ticks)))
  }

  /** The samples of one more tick. */
  lemma TickSamples(ticks: seq<TickMetrics>, tick: TickMetrics)
    ensures Cpus(ticks + [tick]) == Cpus(ticks) + [tick.cpuUsage]
    ensures Mems(ticks + [tick]) == Mems(ticks) + [tick.memUsage]
    ensures Loads(ticks + [tick]) == Loads(ticks) + [tick.load]
  {
  }

  function NewAggState(): (st: AggState)
    ensures AggHolds(st, [])
  {
    AggState(0, NewSeries(), NewSeries(), NewSeries(), None)
  }

  /** Aggregate on the aggregator's state: count the tick, add its three
      figures to their series, and record the report. */
  method AggregateState(st: AggState, ghost ticks: seq<TickMetrics>, tick: TickMetrics) returns (r: AggState)
    requires AggHolds(st, ticks)
    ensures AggHolds(r, ticks + [tick])
    ensures r.latestMetric == Some(Report(ticks + [tick]))
  {
    TickSamples(ticks, tick);
    var count := st.count + 1;
    SeriesAddKeeps(st.cpu, Cpus(ticks), tick.cpuUsage);
    var c := SeriesAdd(st.cpu, tick.cpuUsage, count);
    SeriesAddKeeps(st.mem, Mems(ticks), tick.memUsage);
    var m := SeriesAdd(st.mem, tick.memUsage, count);
    SeriesAddKeeps(st.load, Loads(ticks), tick.load);
    var l := SeriesAdd(st.load, tick.load, count);
    r := AggState(count, c.0, m.0, l.0, Some(Assemble(c.1, m.1, l.1)));
  }

  /** aggregator: the running count, the sum and the three rings of each
      quantity, and the latest report, held as one state value. */
  class Aggregator {
    var state: AggState
    /** Every tick aggregated, oldest first. */
    ghost var ticks: seq<TickMetrics>

    ghost predicate Valid()
      reads this
    {
      AggHolds(state, ticks)
    }

    /** NewAggregator: empty rings of 60, 300 and 1500 cells. */
    constructor()
      ensures Valid() && ticks == []
    {
      state := NewAggState();
      ticks := [];
    }

    /** Get: the latest report, none before the first tick. */
    method Get() returns (m: Option<PeriodMetrics>)
      requires Valid()
      ensures m.None? <==> |ticks| == 0
      ensures m.Some? ==> m.value == Report(ticks)
    {
      m := state.latestMetric;
    }

    /** Aggregate: fold one tick in and return the report of all ticks. */
    method Aggregate(tick: TickMetrics) returns (m: PeriodMetrics)
      requires Valid()
      modifies this
      ensures Valid() && ticks == old(ticks) + [tick]
      ensures m == Report(ticks) && state.latestMetric == Some(m)
    {
      var st := AggregateState(state, ticks, tick);
      state, ticks := st, ticks + [tick];
      m := st.latestMetric.value;
    }
  }

  /** The running sum after one more sample. */
  lemma AddSample(s: seq<real>, x: real)
    ensures Sum(s + [x]) == Sum(s) + x
  {
    assert (s + [x])[..|s|] == s;
  }
}
