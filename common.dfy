/** Shared vocabulary: optional values, error results, Go's float-to-int
    conversion and sums of float sequences (float64 is modelled as real). */
module Common {

  datatype Option<T> = None | Some(value: T)

  /** A Go `(value, error)` pair: exactly one of the two is meaningful. */
  datatype Result<T> = Ok(value: T) | Err(msg: string)

  /** The Kubernetes pod phase. */
  datatype PodPhase = Pending | Running | Succeeded | Failed | Unknown

  /** Go's `int(x)` on a float: truncation toward zero. */
  function Trunc(x: real): (r: int)
    ensures x >= 0.0 ==> r == x.Floor
    ensures x >= 0.0 ==> 0 <= r && r as real <= x < r as real + 1.0
    ensures x < 0.0 ==> r <= 0 && x <= r as real < x + 1.0
  {
    if x >= 0.0 then x.Floor else -((-x).Floor)
  }

  lemma TruncMonotone(x: real, y: real)
    requires x <= y
    ensures Trunc(x) <= Trunc(y)
  {
  }

  lemma MulAtLeast(a: int, c: int)
    requires a >= 1 && c > 0
    ensures a * c >= c
  {
  }

  /** Quotient and remainder are determined by `t == q * c + r`. */
  lemma DivModUnique(t: int, c: int, q: int, r: int)
    requires c > 0 && 0 <= r < c && t == q * c + r
    ensures t / c == q && t % c == r
  {
    var q', r' := t / c, t % c;
    assert t == q' * c + r';
    assert (q - q') * c == r' - r;
    if q > q' {
      MulAtLeast(q - q', c);
    } else if q < q' {
      MulAtLeast(q' - q, c);
    }
  }

  /** A cursor that wraps to 0 when it reaches `c` is `t % c` after `t` steps. */
  lemma DivModStep(t: nat, c: nat)
    requires c > 0
    ensures (t + 1) % c == if t % c + 1 == c then 0 else t % c + 1
    ensures (t + 1) / c == if t % c + 1 == c then t / c + 1 else t / c
  {
    var q, r := t / c, t % c;
    if r + 1 == c {
      DivModUnique(t + 1, c, q + 1, 0);
    } else {
      DivModUnique(t + 1, c, q, r + 1);
    }
  }

  /** Scaling by a non-negative factor keeps the order of two non-negative
      values. */
  lemma MulWithin(c: real, x: real, y: real)
    requires c >= 0.0 && 0.0 <= x <= y
    ensures 0.0 <= c * x <= c * y
  {
    assert c * y - c * x == c * (y - x);
  }

  /** A share between 0 and 1 of a non-negative value lies between 0 and
      that value. */
  lemma ScaledWithin(c: real, x: real)
    requires c >= 0.0 && 0.0 <= x <= 1.0
    ensures 0.0 <= c * x <= c
  {
    MulWithin(c, x, 1.0);
    assert c * 1.0 == c;
  }

  /** Bounds add up. */
  lemma AddWithin(a: real, b: real, x: real, y: real)
    requires 0.0 <= a <= x && 0.0 <= b <= y
    ensures 0.0 <= a + b <= x + y
  {
  }

  function Min(a: int, b: int): int { if a < b then a else b }
  function MaxReal(a: real, b: real): real { if a < b then b else a }

  /** Sum of a float slice, accumulated from the front as Go's loops do. */
  function Sum(s: seq<real>): real
  {
    if |s| == 0 then 0.0 else Sum(s[..|s| - 1]) + s[|s| - 1]
  }

  /** The running total of a summing loop after `i` steps. */
  lemma SumPrefixStep(s: seq<real>, i: nat)
    requires i < |s|
    ensures Sum(s[..i + 1]) == Sum(s[..i]) + s[i]
  {
    assert s[..i + 1][..i] == s[..i];
  }

  lemma {:induction false} SumAppend(a: seq<real>, b: seq<real>)
    ensures Sum(a + b) == Sum(a) + Sum(b)
    decreases |b|
  {
    if |b| == 0 {
      assert a + b == a;
    } else {
      assert (a + b)[..|a + b| - 1] == a + b[..|b| - 1];
      SumAppend(a, b[..|b| - 1]);
    }
  }

  lemma {:induction false} SumNonNegative(s: seq<real>)
    requires forall i :: 0 <= i < |s| ==> s[i] >= 0.0
    ensures Sum(s) >= 0.0
    decreases |s|
  {
    if |s| > 0 {
      SumNonNegative(s[..|s| - 1]);
    }
  }

  /** Every element multiplied by `f`. */
  function Scale(s: seq<real>, f: real): (r: seq<real>)
    ensures |r| == |s|
    ensures forall i :: 0 <= i < |s| ==> r[i] == s[i] * f
  {
    seq(|s|, i requires 0 <= i < |s| => s[i] * f)
  }

  lemma {:induction false} SumScale(s: seq<real>, f: real)
    ensures Sum(Scale(s, f)) == Sum(s) * f
    decreases |s|
  {
    if |s| > 0 {
      var front := Scale(s, f)[..|s| - 1];
      assert |front| == |Scale(s[..|s| - 1], f)|;
      assert forall i :: 0 <= i < |front| ==> front[i] == Scale(s[..|s| - 1], f)[i];
      assert front == Scale(s[..|s| - 1], f);
      SumScale(s[..|s| - 1], f);
    }
  }

  /** The summing loop the workloads run over their time slices. */
  method SumSlots(slot: seq<real>) returns (total: real)
    ensures total == Sum(slot)
  {
    total := 0.0;
    var i := 0;
    while i < |slot|
      invariant 0 <= i <= |slot|
      invariant total == Sum(slot[..i])
    {
      SumPrefixStep(slot, i);
      total := total + slot[i];
      i := i + 1;
    }
    assert slot[..i] == slot;
  }

  /** A sequence of `n` copies of `x`. */
  function Repeat<T>(x: T, n: nat): (r: seq<T>)
    ensures |r| == n
    ensures forall i :: 0 <= i < n ==> r[i] == x
  {
    if n == 0 then [] else Repeat(x, n - 1) + [x]
  }

  /** Sum of `f` over a sequence, accumulated from the front. */
  function SumOf<T>(s: seq<T>, f: T -> real): real
  {
    if |s| == 0 then 0.0 else SumOf(s[..|s| - 1], f) + f(s[|s| - 1])
  }

  lemma {:induction false} SumOfAppend<T>(a: seq<T>, b: seq<T>, f: T -> real)
    ensures SumOf(a + b, f) == SumOf(a, f) + SumOf(b, f)
    decreases |b|
  {
    if |b| == 0 {
      assert a + b == a;
    } else {
      assert (a + b)[..|a + b| - 1] == a + b[..|b| - 1];
      SumOfAppend(a, b[..|b| - 1], f);
    }
  }

  /** A sum does not depend on the order of its terms. */
  lemma {:induction false} SumOfPermutation<T>(a: seq<T>, b: seq<T>, f: T -> real)
    requires multiset(a) == multiset(b)
    ensures SumOf(a, f) == SumOf(b, f)
    decreases |a|
  {
    if |a| > 0 {
      var x := a[|a| - 1];
      assert x in multiset(b);
      var k :| 0 <= k < |b| && b[k] == x;
      var a' := a[..|a| - 1];
      var b' := b[..k] + b[k + 1..];
      assert a == a' + [x];
      assert b == b[..k] + [x] + b[k + 1..];
      assert multiset(a) == multiset(a') + multiset{x};
      assert multiset(b) == multiset(b[..k]) + multiset{x} + multiset(b[k + 1..]);
      assert multiset(b') == multiset(b[..k]) + multiset(b[k + 1..]);
      assert multiset(a') == multiset(a) - multiset{x};
      assert multiset(b') == multiset(b) - multiset{x};
      SumOfPermutation(a', b', f);
      SumOfAppend(a', [x], f);
      SumOfAppend(b[..k], [x], f);
      SumOfAppend(b[..k] + [x], b[k + 1..], f);
      SumOfAppend(b[..k], b[k + 1..], f);
      assert SumOf([x], f) == f(x) by {
        assert [x][..0] == [];
      }
    }
  }

  /** Taking one term out of a sum. */
  lemma SumOfRemove<T>(a: seq<T>, b: seq<T>, x: T, f: T -> real)
    requires multiset(a) == multiset(b) + multiset{x}
    ensures SumOf(a, f) == SumOf(b, f) + f(x)
  {
    assert multiset(a) == multiset(b + [x]);
    SumOfPermutation(a, b + [x], f);
    SumOfAppend(b, [x], f);
    assert [x][..0] == [];
  }

  lemma {:induction false} SumOfNonNegative<T>(s: seq<T>, f: T -> real)
    requires forall x :: x in s ==> f(x) >= 0.0
    ensures SumOf(s, f) >= 0.0
    decreases |s|
  {
    if |s| > 0 {
      assert forall x :: x in s[..|s| - 1] ==> x in s;
      SumOfNonNegative(s[..|s| - 1], f);
    }
  }
}
