/** The unbounded FIFO queue on a growable ring of cells. The ring is held
    as the sequence of its cells in ring order, the `head` and `tail`
    ring references as positions in it; growing the ring splices a run of empty
    cells in just before `head`. */
module Queue {
  import opened Common

  /** The position `k` cells after position `t` on a ring of `m` cells. */
  function Pos(t: nat, k: nat, m: nat): (r: nat)
    requires t < m && k <= m
    ensures r < m && (r == t + k || r == t + k - m)
  {
    if t + k < m then t + k else t + k - m
  }

  /** Distinct offsets under a whole turn lead to distinct positions. */
  lemma PosDistinct(t: nat, k: nat, k': nat, m: nat)
    requires t < m && k < m && k' < m && k != k'
    ensures Pos(t, k, m) != Pos(t, k', m)
  {
  }

  /** The ring `cells` holds the values `contents` in the `|contents|` cells
      from `tail` on and nil in every other cell. */
  ghost predicate Holds<V>(cells: seq<Option<V>>, tail: nat, contents: seq<V>)
  {
    && |cells| > 0 && tail < |cells| && |contents| <= |cells|
    && (forall k :: 0 <= k < |contents| ==> cells[Pos(tail, k, |cells|)] == Some(contents[k]))
    && (forall k :: |contents| <= k < |cells| ==> cells[Pos(tail, k, |cells|)] == None)
  }

  /** On a ring that holds values, the free position `|contents|` cells
      after `tail` is `tail` itself only when the ring is full. */
  lemma FullWhenMeet<V>(cells: seq<Option<V>>, tail: nat, contents: seq<V>)
    requires Holds(cells, tail, contents) && |contents| > 0
    requires Pos(tail, |contents|, |cells|) == tail
    ensures |contents| == |cells|
  {
    if |contents| < |cells| {
      PosDistinct(tail, |contents|, 0, |cells|);
    }
  }

  /** Splicing `|cells|` nil cells in before position `h` of a full ring
      leaves the values in order from the old `tail`, now `|cells|` further
      on, and leaves `h` free. */
  lemma GrowHolds<V>(cells: seq<Option<V>>, h: nat, contents: seq<V>)
    requires Holds(cells, h, contents) && |contents| == |cells|
    ensures var m := |cells|;
      && Holds(cells[..h] + Repeat(None, m) + cells[h..], h + m, contents)
      && Pos(h + m, |contents|, 2 * m) == h
  {
    var m := |cells|;
    var c := cells[..h] + Repeat(None, m) + cells[h..];
    forall k | 0 <= k < |contents| ensures c[Pos(h + m, k, 2 * m)] == Some(contents[k]) {
      assert cells[Pos(h, k, m)] == Some(contents[k]);
    }
  }

  /** Writing a value into the free cell after the values appends it. */
  lemma PushHolds<V>(cells: seq<Option<V>>, tail: nat, contents: seq<V>, val: V)
    requires Holds(cells, tail, contents) && |contents| < |cells|
    ensures Holds(cells[Pos(tail, |contents|, |cells|) := Some(val)], tail, contents + [val])
  {
    var m, n := |cells|, |contents|;
    var c := cells[Pos(tail, n, m) := Some(val)];
    forall k | 0 <= k < n + 1 ensures c[Pos(tail, k, m)] == Some((contents + [val])[k]) {
      if k < n {
        PosDistinct(tail, k, n, m);
      }
    }
    forall k | n + 1 <= k < m ensures c[Pos(tail, k, m)] == None {
      PosDistinct(tail, k, n, m);
    }
  }

  /** Clearing the cell at `tail` drops the oldest value; the values then
      start at the next position. */
  lemma PopHolds<V>(cells: seq<Option<V>>, tail: nat, contents: seq<V>)
    requires Holds(cells, tail, contents) && |contents| > 0
    ensures Holds(cells[tail := None], Pos(tail, 1, |cells|), contents[1..])
  {
    var m, n := |cells|, |contents|;
    var c := cells[tail := None];
    var t := Pos(tail, 1, m);
    forall k | 0 <= k < n - 1 ensures c[Pos(t, k, m)] == Some(contents[1..][k]) {
      assert Pos(t, k, m) == Pos(tail, k + 1, m);
      PosDistinct(tail, k + 1, 0, m);
    }
    forall k | n - 1 <= k < m ensures c[Pos(t, k, m)] == None {
      if k < m - 1 {
        assert Pos(t, k, m) == Pos(tail, k + 1, m);
      } else {
        assert Pos(t, k, m) == tail;
      }
    }
  }

  /** How many cells `Do` visits: from `tail` up to, not including,
      `head`. */
  function VisitCount(tail: nat, head: nat, m: nat): nat
    requires tail < m && head < m
  {
    if tail <= head then head - tail else head + m - tail
  }

  class RingQueue<V> {
    /** The ring's cells in ring order; a cell holds a value or nil. */
    var cells: seq<Option<V>>
    /** The free cell the next value goes to. */
    var head: nat
    /** The oldest value, when there is one. */
    var tail: nat
    var size: nat
    /** The values queued, oldest first. */
    ghost var contents: seq<V>

    ghost predicate Valid()
      reads this
    {
      Holds(cells, tail, contents) && size == |contents| && head == Pos(tail, size, |cells|)
    }

    /** NewRingQueue: an empty queue on a ring of `initSize` cells. */
    constructor(initSize: nat)
      requires initSize > 0
      ensures Valid() && contents == [] && |cells| == initSize
    {
      cells := Repeat(None, initSize);
      head, tail, size := 0, 0, 0;
      contents := [];
    }

    /** Len: the number of values queued. */
    function Len(): (n: nat)
      reads this
      requires Valid()
      ensures n == |contents|
    {
      size
    }

    /** The ring grown by as many empty cells as it holds values, spliced
        in before `head`; `head` moves to the first new cell. */
    method Grow()
      requires Valid() && head == tail && size > 0
      modifies this
      ensures Valid() && contents == old(contents) && |cells| == 2 * old(|cells|) && size < |cells|
    {
      FullWhenMeet(cells, tail, contents);
      GrowHolds(cells, head, contents);
      tail := head + |cells|;
      cells := cells[..head] + Repeat(None, size) + cells[head..];
    }

    /** Offer: queue a value at the back, growing the ring when full. */
    method Offer(val: V)
      requires Valid()
      modifies this
      ensures Valid() && contents == old(contents) + [val]
      ensures |cells| == if old(size) == old(|cells|) then 2 * old(|cells|) else old(|cells|)
    {
      if head == tail && size > 0 {
        Grow();
      }
      PushHolds(cells, tail, contents, val);
      cells := cells[head := Some(val)];
      head := if head + 1 == |cells| then 0 else head + 1;
      size := size + 1;
      contents := contents + [val];
    }

    /** Poll: the oldest value, which leaves the queue and whose cell is
        cleared; nil and no change on an empty queue. */
    method Poll() returns (r: Option<V>)
      requires Valid()
      modifies this
      ensures Valid() && |cells| == old(|cells|)
      ensures old(size) == 0 ==> r == None && contents == old(contents) && cells == old(cells)
      ensures old(size) > 0 ==>
        && r == Some(old(contents)[0]) && contents == old(contents)[1..]
        && cells[old(tail)] == None
    {
      if size == 0 {
        return None;
      }
      r := cells[tail];
      PopHolds(cells, tail, contents);
      cells := cells[tail := None];
      tail := if tail + 1 == |cells| then 0 else tail + 1;
      size := size - 1;
      contents := contents[1..];
    }

    /** Do as written: visit the cells from `tail` up to, not including,
        `head`. That is every value oldest first, except on a full ring,
        where `head` and `tail` meet and nothing is visited. */
    method Do() returns (visited: seq<V>)
      requires Valid()
      ensures |visited| == VisitCount(tail, head, |cells|)
      ensures visited == if size == |cells| then [] else contents
    {
      var m := |cells|;
      visited := [];
      var p := tail;
      if size == m {
        assert head == tail;
        return;
      }
      while p != head
        invariant |visited| <= size && p == Pos(tail, |visited|, m) && visited == contents[..|visited|]
        decreases size - |visited|
      {
        if |visited| == size {
          assert false;
        }
        visited := visited + [cells[p].value];
        p := if p + 1 == m then 0 else p + 1;
      }
      if |visited| < size {
        PosDistinct(tail, |visited|, size, m);
      }
      assert visited == contents;
    }

    /** Do as intended: visit the `size` values from `tail` on. */
    method DoAll() returns (visited: seq<V>)
      requires Valid()
      ensures visited == contents
    {
      var m := |cells|;
      visited := [];
      var p := tail;
      while |visited| < size
        invariant |visited| <= size && p == Pos(tail, |visited|, m) && visited == contents[..|visited|]
      {
        visited := visited + [cells[p].value];
        p := if p + 1 == m then 0 else p + 1;
      }
    }
  }

  /** A ring of one cell holding one value is full: `Do` visits nothing
      although a value is queued, while the corrected visit finds it. */
  method DoMissesFullRing<V>(x: V) returns (visited: seq<V>, all: seq<V>)
    ensures visited == [] && all == [x]
  {
    var q := new RingQueue<V>(1);
    q.Offer(x);
    visited := q.Do();
    all := q.DoAll();
  }
}
