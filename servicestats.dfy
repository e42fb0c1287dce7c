/** The service controller's latency statistics: quickselect over the
    recorded latencies (an in-place partition and the percentile search
    built on it), the accumulator of latencies, and the test for a pod that
    was bound to a node. */
module ServiceStats {
  import opened Common

  /** A latency in ticks as the controller records it: an unsigned byte. */
  type Byte = x: int | 0 <= x < 256

  // ---------------------------------------------------------------------
  // Counting and ranks

  /** How many elements of `s` satisfy `p`. */
  function Count<T>(s: seq<T>, p: T -> bool): nat
  {
    if |s| == 0 then 0 else Count(s[..|s| - 1], p) + if p(s[|s| - 1]) then 1 else 0
  }

  lemma {:induction false} CountAppend<T>(a: seq<T>, b: seq<T>, p: T -> bool)
    ensures Count(a + b, p) == Count(a, p) + Count(b, p)
    decreases |b|
  {
    if |b| == 0 {
      assert a + b == a;
    } else {
      assert (a + b)[..|a + b| - 1] == a + b[..|b| - 1];
      CountAppend(a, b[..|b| - 1], p);
    }
  }

  /** A count lies between the elements known to satisfy and the length. */
  lemma {:induction false} CountBounds<T>(s: seq<T>, p: T -> bool)
    ensures Count(s, p) <= |s|
    ensures (forall i :: 0 <= i < |s| ==> p(s[i])) ==> Count(s, p) == |s|
    ensures (forall i :: 0 <= i < |s| ==> !p(s[i])) ==> Count(s, p) == 0
    decreases |s|
  {
    if |s| > 0 {
      CountBounds(s[..|s| - 1], p);
    }
  }

  /** Counting what satisfies a weaker test counts at least as many. */
  lemma {:induction false} CountMonotone<T>(s: seq<T>, p: T -> bool, q: T -> bool)
    requires forall i :: 0 <= i < |s| && p(s[i]) ==> q(s[i])
    ensures Count(s, p) <= Count(s, q)
    decreases |s|
  {
    if |s| > 0 {
      CountMonotone(s[..|s| - 1], p, q);
    }
  }

  /** A count does not depend on the order of the elements. */
  lemma {:induction false} CountPermutation<T>(a: seq<T>, b: seq<T>, p: T -> bool)
    requires multiset(a) == multiset(b)
    ensures Count(a, p) == Count(b, p)
    decreases |a|
  {
    if |a| > 0 {
      var x := a[|a| - 1];
      assert x in multiset(b);
      var k :| 0 <= k < |b| && b[k] == x;
      var a' := a[..|a| - 1];
      var front, back := b[..k], b[k + 1..];
      var b' := front + back;
      assert a == a' + [x];
      assert b == front + [x] + back;
      assert multiset(a') == multiset(a) - multiset{x};
      assert multiset(b) == multiset(front) + multiset{x} + multiset(back);
      assert multiset(b') == multiset(b) - multiset{x};
      CountPermutation(a', b', p);
      assert Count(a, p) == Count(a', p) + if p(x) then 1 else 0;
      CountAppend(front, [x], p);
      CountAppend(front + [x], back, p);
      CountAppend(front, back, p);
      assert Count([x], p) == if p(x) then 1 else 0 by {
        assert [x][..0] == [];
      }
    }
  }

  function Less(x: int): int -> bool { (v: int) => v < x }
  function AtMost(x: int): int -> bool { (v: int) => v <= x }

  /** `x` is a `p`-th smallest element of `s` (counting from 0): fewer than
      `p + 1` elements lie below it and more than `p` lie at or below it. */
  ghost predicate IsRank(s: seq<int>, p: nat, x: int)
  {
    Count(s, Less(x)) <= p < Count(s, AtMost(x))
  }

  /** The `p`-th smallest element is unique. */
  lemma RankUnique(s: seq<int>, p: nat, x: int, y: int)
    requires IsRank(s, p, x) && IsRank(s, p, y)
    ensures x == y
  {
    if x < y {
      CountMonotone(s, AtMost(x), Less(y));
    } else if y < x {
      CountMonotone(s, AtMost(y), Less(x));
    }
  }

  /** Everything before position `c` is at most everything from `c` on. */
  ghost predicate SplitAt(s: seq<int>, c: int)
  {
    forall k, m :: 0 <= k < c <= m < |s| ==> s[k] <= s[m]
  }

  /** An arrangement split just before and just after position `p` holds
      at `p` the `p`-th smallest element of any of its permutations. */
  lemma SplitIsRank(s: seq<int>, t: seq<int>, p: nat)
    requires p < |s| && multiset(s) == multiset(t) && SplitAt(s, p) && SplitAt(s, p + 1)
    ensures IsRank(t, p, s[p])
  {
    var x := s[p];
    assert s == s[..p] + s[p..];
    assert s == s[..p + 1] + s[p + 1..];
    assert forall i :: 0 <= i < |s[p..]| ==> !Less(x)(s[p..][i]) by {
      forall i | 0 <= i < |s[p..]| ensures !Less(x)(s[p..][i]) {
        assert s[p..][i] == s[p + i];
      }
    }
    var upTo := s[..p + 1];
    assert forall i :: 0 <= i < |upTo| ==> AtMost(x)(upTo[i]) by {
      forall i | 0 <= i < |upTo| ensures AtMost(x)(upTo[i]) {
        assert upTo[i] == s[i];
      }
    }
    CountAppend(s[..p], s[p..], Less(x));
    CountBounds(s[..p], Less(x));
    CountBounds(s[p..], Less(x));
    assert Count(s, Less(x)) <= p;
    CountAppend(s[..p + 1], s[p + 1..], AtMost(x));
    CountBounds(s[..p + 1], AtMost(x));
    assert Count(s, AtMost(x)) >= p + 1;
    CountPermutation(s, t, Less(x));
    CountPermutation(s, t, AtMost(x));
  }

  // ---------------------------------------------------------------------
  // Quickselect

  /** The least integer at or above `x`. */
  function Ceil(x: real): (r: int)
    ensures x <= r as real < x + 1.0
  {
    -((-x).Floor)
  }

  /** The position of the `percentile`-th percentile in a sorted array of
      `n` elements: the ceiling of `(n - 1) / 100 * percentile`. */
  function PercentileIndex(n: nat, percentile: real): (p: nat)
    requires n > 0 && 0.0 <= percentile <= 100.0
    ensures p < n
    ensures (n - 1) as real / 100.0 * percentile <= p as real < (n - 1) as real / 100.0 * percentile + 1.0
  {
    var c := (n - 1) as real / 100.0;
    MulWithin(c, percentile, 100.0);
    assert c * 100.0 == (n - 1) as real;
    assert Ceil(c * percentile) as real < n as real;
    Ceil(c * percentile)
  }

  /** A mean times the count is the total. */
  lemma MeanTimesCount(total: int, n: nat)
    requires n > 0
    ensures total as real / n as real * n as real == total as real
  {
  }

  /** `s` is partitioned at `i` on the range `[start, end]`: smaller
      values before position `i`, and none smaller after it. */
  ghost predicate Partitioned(s: seq<int>, start: int, end: int, i: int)
  {
    && 0 <= start <= i <= end < |s|
    && (forall k :: start <= k < i ==> s[k] < s[i])
    && (forall k :: i < k <= end ==> s[k] >= s[i])
  }

  /** `t` differs from `s` only within the range `[start, end]`, where it
      holds a permutation of what `s` holds there. */
  ghost predicate PermutedWithin(s: seq<int>, t: seq<int>, start: int, end: int)
  {
    && 0 <= start <= end < |s| == |t|
    && multiset(s[start..end + 1]) == multiset(t[start..end + 1])
    && forall k :: 0 <= k < |s| && !(start <= k <= end) ==> s[k] == t[k]
  }

  /** The scan from the back: the last position at or after `i`, and at
      or before `j`, that is `i` or holds a value below the pivot. */
  method ScanDown(a: array<Byte>, i: int, j: int, pivotVal: int) returns (j': int)
    requires 0 <= i <= j < a.Length
    ensures i <= j' <= j && (forall k :: j' < k <= j ==> a[k] >= pivotVal) && (i < j' ==> a[j'] < pivotVal)
  {
    j' := j;
    while i < j' && a[j'] >= pivotVal
      invariant i <= j' <= j && forall k :: j' < k <= j ==> a[k] >= pivotVal
    {
      j' := j' - 1;
    }
  }

  /** The scan from the front: the first position at or after `i`, and at
      or before `j`, that is `j` or holds a value at or above the pivot. */
  method ScanUp(a: array<Byte>, i: int, j: int, pivotVal: int) returns (i': int)
    requires 0 <= i <= j < a.Length
    ensures i <= i' <= j && (forall k :: i <= k < i' ==> a[k] < pivotVal) && (i' < j ==> a[i'] >= pivotVal)
  {
    i' := i;
    while i' < j && a[i'] < pivotVal
      invariant i <= i' <= j && forall k :: i <= k < i' ==> a[k] < pivotVal
    {
      i' := i' + 1;
    }
  }

  /** Moving the value at `j` into the hole at `i` moves the hole to `j`. */
  lemma HoleMoves(s: seq<Byte>, i: nat, j: nat, v: Byte)
    requires i < |s| && j < |s|
    ensures multiset(s[i := s[j]][j := v]) == multiset(s[i := v])
  {
    if i != j {
      var t := s[i := v];
      assert s[i := s[j]][j := v] == t[i := t[j]][j := t[i]];
    }
  }

  /** The partition loop's state on the arrangement `s`: the cell at `i`
      is the hole, whose value has a copy elsewhere and where the pivot
      value `v` missing from the arrangement goes in the end; the values
      before `i` are below the pivot and those after `j` are not. */
  ghost predicate HoleInv(s: seq<int>, i: int, j: int, v: int, start: int, end: int, m: multiset<int>)
  {
    && 0 <= start <= i <= j <= end < |s|
    && multiset(s[i := v]) == m
    && (forall k :: start <= k < i ==> s[k] < v)
    && (forall k :: j < k <= end ==> s[k] >= v)
  }

  /** The partition loop's state halfway through a round: as `HoleInv`,
      with the hole at `j`. */
  ghost predicate HoleAtBack(s: seq<int>, i: int, j: int, v: int, start: int, end: int, m: multiset<int>)
  {
    && 0 <= start <= i <= j <= end < |s|
    && multiset(s[j := v]) == m
    && (forall k :: start <= k < i ==> s[k] < v)
    && (forall k :: j < k <= end ==> s[k] >= v)
  }

  /** The first half of a round: the value the back scan stops at fills
      the hole, and the hole moves there. */
  lemma FillFromBack(s: seq<Byte>, i: int, j: int, j': int, v: Byte, start: int, end: int, m: multiset<int>)
    requires HoleInv(s, i, j, v, start, end, m) && i <= j' <= j
    requires (forall k :: j' < k <= j ==> s[k] >= v) && (i < j' ==> s[j'] < v)
    ensures HoleAtBack(s[i := s[j']], i, j', v, start, end, m)
    ensures i < j' ==> s[i := s[j']][i] < v
  {
    HoleMoves(s, i, j', v);
  }

  /** The second half of a round: the value the front scan stops at fills
      the hole, and the hole moves there. */
  lemma FillFromFront(t: seq<Byte>, i: int, i': int, j: int, v: Byte, start: int, end: int, m: multiset<int>)
    requires HoleAtBack(t, i, j, v, start, end, m) && i <= i' <= j
    requires (forall k :: i <= k < i' ==> t[k] < v) && (i' < j ==> t[i'] >= v)
    ensures HoleInv(t[j := t[i']], i', j, v, start, end, m)
  {
    HoleMoves(t, j, i', v);
  }

  /** One round of the partition loop: scan from the back for a value below
      the pivot and move it into the hole, then scan from the front for a
      value not below the pivot and move it into the new hole. */
  method Exchange(a: array<Byte>, i: int, j: int, pivotVal: Byte, ghost start: int, ghost end: int, ghost m: multiset<int>)
    returns (i': int, j': int)
    requires i < j && HoleInv(a[..], i, j, pivotVal, start, end, m)
    modifies a
    ensures i <= i' <= j' <= j && j' - i' < j - i
    ensures HoleInv(a[..], i', j', pivotVal, start, end, m)
    ensures forall k :: 0 <= k < a.Length && !(i <= k <= j) ==> a[k] == old(a[k])
  {
    j' := ScanDown(a, i, j, pivotVal);
    ghost var s := a[..];
    FillFromBack(s, i, j, j', pivotVal, start, end, m);
    a[i] := a[j'];
    assert a[..] == s[i := s[j']];
    i' := ScanUp(a, i, j', pivotVal);
    ghost var t := a[..];
    FillFromFront(t, i, i', j', pivotVal, start, end, m);
    a[j'] := a[i'];
    assert a[..] == t[j' := t[i']];
  }

  /** On a range of at least two cells holding position `pivotPos`,
      partition moves the pivot value to the returned position, smaller
      values before it and the others after it; a shorter range is left
      alone. Only cells of the range move. */
  method Partition(a: array<Byte>, pivotPos: int, start: int, end: int) returns (i: int)
    requires start < end ==> 0 <= start <= pivotPos <= end < a.Length
    modifies a
    ensures start >= end ==> i == start && a[..] == old(a[..])
    ensures start < end ==>
      && Partitioned(a[..], start, end, i) && a[i] == old(a[pivotPos])
      && PermutedWithin(old(a[..]), a[..], start, end)
  {
    if start >= end {
      return start;
    }
    ghost var a0 := a[..];
    i := start;
    var j := end;
    var pivotVal := a[pivotPos];
    a[pivotPos] := a[start];
    HoleMoves(a0, pivotPos, start, pivotVal);
    assert a0[pivotPos := pivotVal] == a0;
    while i < j
      invariant HoleInv(a[..], i, j, pivotVal, start, end, multiset(a0))
      invariant forall k :: 0 <= k < a.Length && !(start <= k <= end) ==> a[k] == a0[k]
      decreases j - i
    {
      i, j := Exchange(a, i, j, pivotVal, start, end, multiset(a0));
    }
    a[i] := pivotVal;
    RangePermuted(a0, a[..], start, end);
  }

  /** A sequence's multiset is that of the parts before, in and after a range. */
  lemma ThreeParts(s: seq<Byte>, start: nat, end: nat)
    requires start <= end < |s|
    ensures multiset(s) == multiset(s[..start]) + multiset(s[start..end + 1]) + multiset(s[end + 1..])
  {
    assert s == s[..start] + s[start..end + 1] + s[end + 1..];
  }

  /** Two arrangements that agree outside a range and are permutations of
      each other hold a permutation of each other on the range. */
  lemma RangePermuted(s: seq<Byte>, t: seq<Byte>, start: nat, end: nat)
    requires start <= end < |s| == |t| && multiset(s) == multiset(t)
    requires forall k :: 0 <= k < |s| && !(start <= k <= end) ==> s[k] == t[k]
    ensures PermutedWithin(s, t, start, end)
  {
    ThreeParts(s, start, end);
    ThreeParts(t, start, end);
    assert s[..start] == t[..start] && s[end + 1..] == t[end + 1..];
    var ms, mt := multiset(s[start..end + 1]), multiset(t[start..end + 1]);
    var a, b := multiset(s[..start]), multiset(s[end + 1..]);
    forall v ensures ms[v] == mt[v] {
      assert multiset(s)[v] == a[v] + ms[v] + b[v];
      assert multiset(t)[v] == a[v] + mt[v] + b[v];
    }
  }

  /** A permutation within a range keeps the permutation of the whole. */
  lemma WithinIsPermutation(s: seq<int>, t: seq<int>, start: nat, end: nat)
    requires PermutedWithin(s, t, start, end)
    ensures multiset(s) == multiset(t)
  {
    assert s == s[..start] + s[start..end + 1] + s[end + 1..];
    assert t == t[..start] + t[start..end + 1] + t[end + 1..];
    assert s[..start] == t[..start] && s[end + 1..] == t[end + 1..];
    assert multiset(s) == multiset(s[..start]) + multiset(s[start..end + 1]) + multiset(s[end + 1..]);
    assert multiset(t) == multiset(t[..start]) + multiset(t[start..end + 1]) + multiset(t[end + 1..]);
  }

  /** A permutation within a range keeps the splits outside it: a split
      point at the range's start or just past its end. */
  lemma SplitKept(s: seq<int>, t: seq<int>, start: nat, end: nat, c: nat)
    requires PermutedWithin(s, t, start, end) && (c == start || c == end + 1)
    requires SplitAt(s, c)
    ensures SplitAt(t, c)
  {
    forall k, m | 0 <= k < c <= m < |t| ensures t[k] <= t[m] {
      if start <= k <= end {
        assert t[k] == t[start..end + 1][k - start];
        assert t[k] in multiset(s[start..end + 1]);
        var k' :| 0 <= k' < end + 1 - start && s[start..end + 1][k'] == t[k];
        assert s[start + k'] == t[k];
      }
      if start <= m <= end {
        assert t[m] == t[start..end + 1][m - start];
        assert t[m] in multiset(s[start..end + 1]);
        var m' :| 0 <= m' < end + 1 - start && s[start..end + 1][m'] == t[m];
        assert s[start + m'] == t[m];
      }
    }
  }

  /** A partition of the range `[start, end]` at `mid` splits the whole
      arrangement at `mid` and just after it. */
  lemma SplitAround(s: seq<int>, start: nat, end: nat, mid: nat)
    requires Partitioned(s, start, end, mid) && SplitAt(s, start) && SplitAt(s, end + 1)
    ensures SplitAt(s, mid) && SplitAt(s, mid + 1)
  {
  }

  /** The search's state on the arrangement `s`: the range `[start, end]`
      holds position `p`, the arrangement is split at both ends of the
      range, and the last partition of the range put its pivot at `mid`. */
  ghost predicate SearchInv(s: seq<int>, p: int, start: int, end: int, mid: int)
  {
    && 0 <= start <= p <= end < |s|
    && SplitAt(s, start) && SplitAt(s, end + 1) && Partitioned(s, start, end, mid)
  }

  /** Keeping the side of the pivot that holds `p` keeps the splits at
      both ends of the range. */
  lemma Narrowed(s: seq<int>, p: int, start: int, end: int, mid: int, start': int, end': int)
    requires SearchInv(s, p, start, end, mid) && mid != p
    requires mid > p ==> start' == start && end' == mid - 1
    requires mid < p ==> start' == mid + 1 && end' == end
    ensures 0 <= start' <= p <= end' < |s| && SplitAt(s, start') && SplitAt(s, end' + 1)
  {
    SplitAround(s, start, end, mid);
  }

  /** Partitioning the narrowed range gives the search's state back. */
  lemma Repartitioned(s: seq<int>, t: seq<int>, p: int, start: int, end: int, mid: int)
    requires 0 <= start <= p <= end < |s| && SplitAt(s, start) && SplitAt(s, end + 1)
    requires PermutedWithin(s, t, start, end) && Partitioned(t, start, end, mid)
    ensures SearchInv(t, p, start, end, mid) && multiset(s) == multiset(t)
  {
    SplitKept(s, t, start, end, start);
    SplitKept(s, t, start, end, end + 1);
    WithinIsPermutation(s, t, start, end);
  }

  /** One round of the search: keep the side of the last pivot that holds
      position `p`, and partition it around its middle. */
  method Narrow(a: array<Byte>, p: int, start: int, end: int, mid: int) returns (start': int, end': int, mid': int)
    requires SearchInv(a[..], p, start, end, mid) && mid != p
    modifies a
    ensures SearchInv(a[..], p, start', end', mid') && end' - start' < end - start
    ensures multiset(a[..]) == multiset(old(a[..]))
  {
    ghost var before := a[..];
    start', end' := start, end;
    if mid > p {
      end' := mid - 1;
    }
    if mid < p {
      start' := mid + 1;
    }
    Narrowed(before, p, start, end, mid, start', end');
    mid' := Partition(a, start' + (end' - start') / 2, start', end');
    if start' < end' {
      Repartitioned(before, a[..], p, start', end', mid');
    } else {
      assert Partitioned(a[..], start', end', mid');
    }
  }

  /** findPercentile: quickselect the position of the percentile, narrowing
      the range around it until a partition puts its pivot there. The
      array ends up a permutation of what it was, with the returned
      element at that position, none larger before it and none smaller
      after it. */
  method FindPercentile(a: array<Byte>, percentile: real) returns (x: Byte)
    requires a.Length > 0 && 0.0 <= percentile <= 100.0
    modifies a
    ensures multiset(a[..]) == multiset(old(a[..]))
    ensures var p := PercentileIndex(a.Length, percentile);
      x == a[p] && SplitAt(a[..], p) && SplitAt(a[..], p + 1) && IsRank(old(a[..]), p, x)
  {
    ghost var a0 := a[..];
    var p := PercentileIndex(a.Length, percentile);
    var start, end := 0, a.Length - 1;
    var mid := Partition(a, start + (end - start) / 2, start, end);
    if start < end {
      WithinIsPermutation(a0, a[..], start, end);
    }
    while mid != p
      invariant SearchInv(a[..], p, start, end, mid)
      invariant multiset(a[..]) == multiset(a0)
      decreases end - start
    {
      start, end, mid := Narrow(a, p, start, end, mid);
    }
    SplitAround(a[..], start, end, mid);
    x := a[p];
    SplitIsRank(a[..], a0, p);
  }

  // ---------------------------------------------------------------------
  // The latency accumulator

  function SumInts(s: seq<Byte>): int
  {
    if |s| == 0 then 0 else SumInts(s[..|s| - 1]) + s[|s| - 1]
  }

  lemma {:induction false} SumIntsPermutation(a: seq<Byte>, b: seq<Byte>)
    requires multiset(a) == multiset(b)
    ensures SumInts(a) == SumInts(b)
    decreases |a|
  {
    if |a| > 0 {
      var x := a[|a| - 1];
      assert x in multiset(b);
      var k :| 0 <= k < |b| && b[k] == x;
      var a' := a[..|a| - 1];
      var b' := b[..k] + b[k + 1..];
      assert a == a' + [x];
      assert b == b[..k] + [x] + b[k + 1..];
      assert multiset(a') == multiset(a) - multiset{x};
      assert multiset(b') == multiset(b) - multiset{x};
      SumIntsPermutation(a', b');
      SumIntsAppend(b[..k], [x]);
      SumIntsAppend(b[..k] + [x], b[k + 1..]);
      SumIntsAppend(b[..k], b[k + 1..]);
    }
  }

  lemma {:induction false} SumIntsAppend(a: seq<Byte>, b: seq<Byte>)
    ensures SumInts(a + b) == SumInts(a) + SumInts(b)
    decreases |b|
  {
    if |b| == 0 {
      assert a + b == a;
    } else {
      assert (a + b)[..|a + b| - 1] == a + b[..|b| - 1];
      SumIntsAppend(a, b[..|b| - 1]);
    }
  }

  /** The recorded latencies, in the order quickselect last left them, and
      their sum. */
  class ServiceMetrics {
    var arr: seq<Byte>
    var sum: int

    ghost predicate Valid()
      reads this
    {
      sum == SumInts(arr)
    }

    constructor()
      ensures Valid() && arr == []
    {
      arr, sum := [], 0;
    }

    /** add: record one latency. */
    method Add(data: Byte)
      requires Valid()
      modifies this
      ensures Valid() && arr == old(arr) + [data]
    {
      assert (arr + [data])[..|arr|] == arr;
      arr := arr + [data];
      sum := sum + data;
    }

    /** getMetrics: zeros with no latency; otherwise the mean and the 50th,
        90th and 99th percentiles of the latencies recorded. Quickselect
        reorders the recorded latencies in place. */
    method GetMetrics() returns (avgTicks: real, p50: Byte, p90: Byte, p99: Byte)
      requires Valid()
      modifies this
      ensures Valid() && multiset(arr) == multiset(old(arr))
      ensures |arr| == 0 ==> avgTicks == 0.0 && p50 == 0 && p90 == 0 && p99 == 0
      ensures |arr| > 0 ==>
        && avgTicks * |arr| as real == sum as real
        && IsRank(old(arr), PercentileIndex(|arr|, 50.0), p50)
        && IsRank(old(arr), PercentileIndex(|arr|, 90.0), p90)
        && IsRank(old(arr), PercentileIndex(|arr|, 99.0), p99)
    {
      if |arr| == 0 {
        return 0.0, 0, 0, 0;
      }
      avgTicks := sum as real / |arr| as real;
      MeanTimesCount(sum, |arr|);
      ghost var s0 := arr;
      p50, p90, p99, arr := Percentiles(arr);
      SumIntsPermutation(s0, arr);
    }
  }

  /** The three percentiles of `s`, each selected in place in turn on a
      copy of `s`, and the arrangement the copy is left in. */
  method Percentiles(s: seq<Byte>) returns (p50: Byte, p90: Byte, p99: Byte, t: seq<Byte>)
    requires |s| > 0
    ensures multiset(t) == multiset(s)
    ensures IsRank(s, PercentileIndex(|s|, 50.0), p50)
    ensures IsRank(s, PercentileIndex(|s|, 90.0), p90)
    ensures IsRank(s, PercentileIndex(|s|, 99.0), p99)
  {
    var a := new Byte[|s|](i requires 0 <= i < |s| => s[i]);
    assert a[..] == s;
    p50 := FindPercentile(a, 50.0);
    ghost var s1 := a[..];
    p90 := FindPercentile(a, 90.0);
    ghost var s2 := a[..];
    p99 := FindPercentile(a, 99.0);
    CountsAgree(s, s1, PercentileIndex(|s|, 90.0), p90);
    CountsAgree(s, s2, PercentileIndex(|s|, 99.0), p99);
    t := a[..];
  }

  /** A rank in one arrangement is the same rank in any permutation. */
  lemma CountsAgree(s: seq<int>, t: seq<int>, p: nat, x: int)
    requires multiset(s) == multiset(t) && IsRank(t, p, x)
    ensures IsRank(s, p, x)
  {
    CountPermutation(s, t, Less(x));
    CountPermutation(s, t, AtMost(x));
  }

  // ---------------------------------------------------------------------
  // Binding

  /** The condition fields the test reads. */
  datatype PodCondition = PodCondition(condType: string, status: string, reason: string)

  const PodReasonUnschedulable := "Unschedulable"
  const PodScheduled := "PodScheduled"
  const ConditionFalse := "False"

  /** A condition that reports a failed scheduling. */
  predicate Unschedulable(c: PodCondition)
  {
    c.reason == PodReasonUnschedulable || (c.condType == PodScheduled && c.status == ConditionFalse)
  }

  /** isPodBindSuccess: a pod is bound exactly when it names a node and no
      condition reports a failed scheduling. */
  method IsPodBindSuccess(nodeName: string, conditions: seq<PodCondition>) returns (r: bool)
    ensures r <==> nodeName != "" && forall i :: 0 <= i < |conditions| ==> !Unschedulable(conditions[i])
  {
    if nodeName == "" {
      return false;
    }
    var i := 0;
    while i < |conditions|
      invariant 0 <= i <= |conditions|
      invariant forall k :: 0 <= k < i ==> !Unschedulable(conditions[k])
    {
      if Unschedulable(conditions[i]) {
        return false;
      }
      i := i + 1;
    }
    return true;
  }
}
