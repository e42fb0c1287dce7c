/** The binary min-heap of Go's container/heap, which both the controller
    deployer (timers ordered by tick) and the service pod (free CPUs ordered by
    start time) use. The element order is the `key` parameter: `Less(i, j)` is
    `key(h[i]) < key(h[j])`. Len, Swap, Push (append) and Pop (drop the last
    element) of the element containers are the sequence operations below. */
module Heap {

  function Parent(i: nat): nat
    requires i > 0
  {
    (i - 1) / 2
  }

  function Swap<T>(h: seq<T>, i: nat, j: nat): (r: seq<T>)
    requires i < |h| && j < |h|
    ensures |r| == |h| && r[i] == h[j] && r[j] == h[i]
    ensures forall k :: 0 <= k < |h| && k != i && k != j ==> r[k] == h[k]
    ensures multiset(r) == multiset(h)
  {
    h[i := h[j]][j := h[i]]
  }

  /** The heap order on the first `n` elements. */
  ghost predicate HeapPrefix<T>(h: seq<T>, n: nat, key: T -> real)
    requires n <= |h|
  {
    forall k :: 0 < k < n ==> key(h[Parent(k)]) <= key(h[k])
  }

  ghost predicate IsHeap<T>(h: seq<T>, key: T -> real)
  {
    HeapPrefix(h, |h|, key)
  }

  /** container/heap's `up`: move element `j` towards the root while it is
      smaller than its parent. */
  function Up<T>(h: seq<T>, j: nat, key: T -> real): (r: seq<T>)
    requires j < |h|
    ensures |r| == |h| && multiset(r) == multiset(h)
    decreases j
  {
    if j == 0 || !(key(h[j]) < key(h[Parent(j)])) then h
    else Up(Swap(h, Parent(j), j), Parent(j), key)
  }

  /** container/heap's `down` on the first `n` elements: move element `i`
      towards the leaves while a child is smaller, preferring the smaller
      child and the left one on a tie. */
  function Down<T>(h: seq<T>, i: nat, n: nat, key: T -> real): (r: seq<T>)
    requires i < |h| && n <= |h|
    ensures |r| == |h| && multiset(r) == multiset(h)
    ensures forall k :: n <= k < |h| ==> r[k] == h[k]
    decreases n - i
  {
    var j1 := 2 * i + 1;
    if j1 >= n then h
    else
      var j := if j1 + 1 < n && key(h[j1 + 1]) < key(h[j1]) then j1 + 1 else j1;
      if !(key(h[j]) < key(h[i])) then h
      else Down(Swap(h, i, j), j, n, key)
  }

  /** container/heap's Push: append, then restore the order upwards. */
  function Push<T>(h: seq<T>, x: T, key: T -> real): (r: seq<T>)
    ensures |r| == |h| + 1
  {
    Up(h + [x], |h|, key)
  }

  /** container/heap's Pop: swap the root with the last element, restore the
      order on the rest, and remove the last element, which is returned. */
  function Pop<T>(h: seq<T>, key: T -> real): (r: (T, seq<T>))
    requires |h| > 0
    ensures |r.1| == |h| - 1
  {
    var n := |h| - 1;
    var d := Down(Swap(h, 0, n), 0, n, key);
    (d[n], d[..n])
  }

  /** "Heap except between `j` and its parent", with `j`'s parent no larger
      than `j`'s children: what holds while `up` runs. */
  ghost predicate UpInv<T>(h: seq<T>, j: nat, key: T -> real)
  {
    && (forall k :: 0 < k < |h| && k != j ==> key(h[Parent(k)]) <= key(h[k]))
    && (j > 0 ==> forall k :: 0 < k < |h| && Parent(k) == j ==> key(h[Parent(j)]) <= key(h[k]))
  }

  lemma {:induction false} UpRestoresHeap<T>(h: seq<T>, j: nat, key: T -> real)
    requires j < |h| && UpInv(h, j, key)
    ensures IsHeap(Up(h, j, key), key)
    decreases j
  {
    if j == 0 || !(key(h[j]) < key(h[Parent(j)])) {
    } else {
      var p := Parent(j);
      var h' := Swap(h, p, j);
      forall k | 0 < k < |h'| && k != p
        ensures key(h'[Parent(k)]) <= key(h'[k])
      {
        if k == j {
        } else if Parent(k) == j {
          assert h'[j] == h[p];
        } else if Parent(k) == p {
          assert key(h[p]) <= key(h[k]);
        } else {
          assert h'[Parent(k)] == h[Parent(k)] && h'[k] == h[k];
        }
      }
      if p > 0 {
        forall k | 0 < k < |h'| && Parent(k) == p
          ensures key(h'[Parent(p)]) <= key(h'[k])
        {
          assert Parent(p) != p && Parent(p) != j;
          assert key(h[Parent(p)]) <= key(h[p]);
          if k != j {
            assert key(h[p]) <= key(h[k]);
          }
        }
      }
      UpRestoresHeap(h', p, key);
    }
  }

  lemma PushKeepsHeap<T>(h: seq<T>, x: T, key: T -> real)
    requires IsHeap(h, key)
    ensures IsHeap(Push(h, x, key), key)
    ensures multiset(Push(h, x, key)) == multiset(h) + multiset{x}
  {
    var h1 := h + [x];
    assert forall k :: 0 < k < |h| ==> h1[Parent(k)] == h[Parent(k)] && h1[k] == h[k];
    UpRestoresHeap(h1, |h|, key);
  }

  /** "Heap on the first `n` elements except between `i` and its children",
      with `i`'s parent no larger than `i`'s children: what holds while
      `down` runs. */
  ghost predicate DownInv<T>(h: seq<T>, i: nat, n: nat, key: T -> real)
    requires n <= |h|
  {
    && (forall k :: 0 < k < n && Parent(k) != i ==> key(h[Parent(k)]) <= key(h[k]))
    && (i > 0 ==> forall k :: 0 < k < n && Parent(k) == i ==> key(h[Parent(i)]) <= key(h[k]))
  }

  /** The children of `i` are `2i+1` and `2i+2`. */
  lemma ChildrenOf(i: nat)
    ensures Parent(2 * i + 1) == i && Parent(2 * i + 2) == i
    ensures forall k: nat :: 0 < k && Parent(k) == i ==> k == 2 * i + 1 || k == 2 * i + 2
  {
  }

  /** The least child `j` of `i` is smaller than `i`: swapping them moves the
      exception down to `j`. */
  lemma DownStep<T>(h: seq<T>, i: nat, j: nat, n: nat, key: T -> real)
    requires n <= |h| && j < n && (j == 2 * i + 1 || j == 2 * i + 2) && DownInv(h, i, n, key)
    requires key(h[j]) <= key(h[2 * i + 1]) && (2 * i + 2 < n ==> key(h[j]) <= key(h[2 * i + 2]))
    requires key(h[j]) < key(h[i])
    ensures DownInv(Swap(h, i, j), j, n, key)
  {
    ChildrenOf(i);
    var h' := Swap(h, i, j);
    forall k | 0 < k < n && Parent(k) != j
      ensures key(h'[Parent(k)]) <= key(h'[k])
    {
      SwapKeepsOrder(h, i, j, n, key, k);
    }
    forall k | 0 < k < n && Parent(k) == j
      ensures key(h'[Parent(j)]) <= key(h'[k])
    {
      assert Parent(j) == i && k != i && k != j;
      assert key(h[j]) <= key(h[k]);
      assert h'[k] == h[k] && h'[i] == h[j];
    }
  }

  /** After that swap, every element but `j`'s children is no smaller than
      its parent. */
  lemma SwapKeepsOrder<T>(h: seq<T>, i: nat, j: nat, n: nat, key: T -> real, k: nat)
    requires n <= |h| && j < n && (j == 2 * i + 1 || j == 2 * i + 2) && DownInv(h, i, n, key)
    requires key(h[j]) <= key(h[2 * i + 1]) && (2 * i + 2 < n ==> key(h[j]) <= key(h[2 * i + 2]))
    requires key(h[j]) < key(h[i])
    requires 0 < k < n && Parent(k) != j
    ensures key(Swap(h, i, j)[Parent(k)]) <= key(Swap(h, i, j)[k])
  {
    var h' := Swap(h, i, j);
    if k == j {
      assert h'[Parent(k)] == h[j] && h'[k] == h[i];
    } else if Parent(k) == i {
      ChildrenOf(i);
      assert k == 2 * i + 1 || k == 2 * i + 2;
      assert h'[Parent(k)] == h[j] && h'[k] == h[k];
    } else if k == i {
      ChildrenOf(i);
      assert Parent(j) == i && key(h[Parent(i)]) <= key(h[j]);
      assert h'[Parent(k)] == h[Parent(i)] && h'[k] == h[j];
    } else {
      assert h'[Parent(k)] == h[Parent(k)] && h'[k] == h[k];
    }
  }

  /** `i`'s children are no smaller than `i`: the prefix is a heap. */
  lemma DownStop<T>(h: seq<T>, i: nat, n: nat, key: T -> real)
    requires i < |h| && n <= |h| && DownInv(h, i, n, key)
    requires 2 * i + 1 < n ==> key(h[i]) <= key(h[2 * i + 1])
    requires 2 * i + 2 < n ==> key(h[i]) <= key(h[2 * i + 2])
    ensures HeapPrefix(h, n, key)
  {
    ChildrenOf(i);
  }

  lemma {:induction false} DownRestoresHeap<T>(h: seq<T>, i: nat, n: nat, key: T -> real)
    requires i < |h| && n <= |h| && DownInv(h, i, n, key)
    ensures HeapPrefix(Down(h, i, n, key), n, key)
    decreases n - i
  {
    var j1 := 2 * i + 1;
    if j1 >= n {
      assert Down(h, i, n, key) == h;
      DownStop(h, i, n, key);
    } else {
      var j := if j1 + 1 < n && key(h[j1 + 1]) < key(h[j1]) then j1 + 1 else j1;
      if !(key(h[j]) < key(h[i])) {
        assert Down(h, i, n, key) == h;
        DownStop(h, i, n, key);
      } else {
        assert Down(h, i, n, key) == Down(Swap(h, i, j), j, n, key);
        DownStep(h, i, j, n, key);
        DownRestoresHeap(Swap(h, i, j), j, n, key);
      }
    }
  }

  /** In a heap, the root has the least key. */
  lemma {:induction false} RootIsLeast<T>(h: seq<T>, n: nat, key: T -> real, k: nat)
    requires k < n <= |h| && HeapPrefix(h, n, key)
    ensures key(h[0]) <= key(h[k])
    decreases k
  {
    if k > 0 {
      RootIsLeast(h, n, key, Parent(k));
    }
  }

  /** Swapping the root of a heap with its last element leaves the other
      elements in heap order, with the exception at the root. */
  lemma SwapRootOut<T>(h: seq<T>, key: T -> real)
    requires |h| > 0 && IsHeap(h, key)
    ensures DownInv(Swap(h, 0, |h| - 1), 0, |h| - 1, key)
  {
    var n := |h| - 1;
    var s := Swap(h, 0, n);
    forall k | 0 < k < n && Parent(k) != 0
      ensures key(s[Parent(k)]) <= key(s[k])
    {
      assert s[Parent(k)] == h[Parent(k)] && s[k] == h[k];
    }
  }

  /** The first `n` elements of a sequence in heap order on them are a heap. */
  lemma PrefixIsHeap<T>(d: seq<T>, n: nat, key: T -> real)
    requires n <= |d| && HeapPrefix(d, n, key)
    ensures IsHeap(d[..n], key)
  {
    assert forall k :: 0 < k < n ==> d[..n][Parent(k)] == d[Parent(k)] && d[..n][k] == d[k];
  }

  /** Pop returns the root, which has the least key. */
  lemma PopReturnsRoot<T>(h: seq<T>, key: T -> real)
    requires |h| > 0 && IsHeap(h, key)
    ensures Pop(h, key).0 == h[0]
    ensures forall k :: 0 <= k < |h| ==> key(Pop(h, key).0) <= key(h[k])
  {
    var n := |h| - 1;
    var s := Swap(h, 0, n);
    assert Down(s, 0, n, key)[n] == s[n];
    forall k | 0 <= k < |h| ensures key(h[0]) <= key(h[k]) {
      RootIsLeast(h, |h|, key, k);
    }
  }

  /** Pop leaves a heap of the other elements. */
  lemma PopLeavesHeap<T>(h: seq<T>, key: T -> real)
    requires |h| > 0 && IsHeap(h, key)
    ensures IsHeap(Pop(h, key).1, key)
    ensures multiset(Pop(h, key).1) + multiset{Pop(h, key).0} == multiset(h)
  {
    var n := |h| - 1;
    var s := Swap(h, 0, n);
    SwapRootOut(h, key);
    DownRestoresHeap(s, 0, n, key);
    var d := Down(s, 0, n, key);
    assert Pop(h, key) == (d[n], d[..n]);
    PrefixIsHeap(d, n, key);
    assert d == d[..n] + [d[n]];
    calc {
      multiset(h);
      multiset(d);
      multiset(d[..n]) + multiset{d[n]};
    }
  }

  /** Pop returns the root, a least element, and leaves a heap holding the
      other elements. */
  lemma PopKeepsHeap<T>(h: seq<T>, key: T -> real)
    requires |h| > 0 && IsHeap(h, key)
    ensures Pop(h, key).0 == h[0]
    ensures forall k :: 0 <= k < |h| ==> key(Pop(h, key).0) <= key(h[k])
    ensures IsHeap(Pop(h, key).1, key)
    ensures multiset(Pop(h, key).1) + multiset{Pop(h, key).0} == multiset(h)
  {
    PopReturnsRoot(h, key);
    PopLeavesHeap(h, key);
  }

  /** Both heap properties keep holding when the key changes only on
      elements that are not in the heap. */
  lemma HeapKeyIrrelevant<T>(h: seq<T>, key1: T -> real, key2: T -> real)
    requires IsHeap(h, key1)
    requires forall k :: 0 <= k < |h| ==> key1(h[k]) == key2(h[k])
    ensures IsHeap(h, key2)
  {
    forall k | 0 < k < |h| ensures key2(h[Parent(k)]) <= key2(h[k]) {
      assert key1(h[Parent(k)]) <= key1(h[k]);
    }
  }
}
