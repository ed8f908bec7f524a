/** celpMultSymtoepl2 of celp_enc.go: a banded symmetric Toeplitz multiply by sliding dot products. */
module Toeplitz {
  import opened Linear

  /** celpDotProd */
  method DotProd(a: Vec, b: Vec, l: nat) returns (r: real)
    requires l <= |a| && l <= |b|
    ensures r == DotN(a, b, l)
  {
    r := 0.0;
    for i := 0 to l
      invariant r == DotN(a, b, i)
    {
      r := r + a[i] * b[i];
    }
  }

  /** c[i] is phi at lag i - lResp + 1, with the trailing zero at 2 lResp - 1. */
  ghost predicate IsMirror(c: Vec, p: Vec) {
    && |c| >= 2 * |p| > 0
    && forall i :: 0 <= i < 2 * |p| ==> c[i] == Lag(p, i - |p| + 1)
  }

  ghost predicate ZeroFrom(x: Vec, n: nat) {
    forall i :: n <= i < |x| ==> x[i] == 0.0
  }

  /** Entry k of the product, summed over the first m samples. */
  function Partial(p: Vec, x: Vec, k: nat, m: nat): real
    requires m <= |x|
  {
    DotN(Row(p, |x|, k), x, m)
  }

  lemma {:induction false} WindowSum(c: Vec, p: Vec, x: Vec, k: nat, s: nat, t: nat, len: nat)
    requires IsMirror(c, p) && s + len <= 2 * |p| && t + len <= |x|
    requires s - |p| + 1 == t - k
    ensures DotN(c[s..], x[t..], len) == Partial(p, x, k, t + len) - Partial(p, x, k, t)
  {
    if len > 0 {
      WindowSum(c, p, x, k, s, t, len - 1);
      LagEven(p, k - (t + len - 1));
    }
  }

  lemma EntryVanishes(p: Vec, x: Vec, n: nat, k: nat, y: nat)
    requires y < |x| && ZeroFrom(x, n) && (y >= n || Far(y, k, |p|))
    ensures Row(p, |x|, k)[y] * x[y] == 0.0
  {
    if y < n {
      assert Lag(p, k - y) == 0.0;
      assert Row(p, |x|, k)[y] == Lag(p, k - y);
    }
  }

  /** Samples outside the band, or in the padding, add nothing. */
  lemma {:induction false} OutsideAddsNothing(p: Vec, x: Vec, n: nat, k: nat, a: nat, b: nat)
    requires a <= b <= |x| && ZeroFrom(x, n)
    requires forall y: nat :: a <= y < b ==> y >= n || Far(y, k, |p|)
    ensures Partial(p, x, k, b) == Partial(p, x, k, a)
  {
    if b > a {
      OutsideAddsNothing(p, x, n, k, a, b - 1);
      EntryVanishes(p, x, n, k, b - 1);
    }
  }

  predicate Far(y: nat, k: nat, width: nat) {
    y + width <= k || k + width <= y
  }

  /** A window that covers the band of entry k gives the whole product. */
  lemma WindowIsEntry(c: Vec, p: Vec, x: Vec, n: nat, k: nat, s: nat, t: nat, len: nat)
    requires IsMirror(c, p) && ZeroFrom(x, n) && n <= |x|
    requires s + len <= 2 * |p| && t + len <= |x| && s - |p| + 1 == t - k
    requires t == 0 || t + |p| <= k + 1
    requires t + len >= n || t + len >= k + |p|
    ensures DotN(c[s..], x[t..], len) == Dot(Row(p, n, k), x[..n])
  {
    WindowSum(c, p, x, k, s, t, len);
    OutsideAddsNothing(p, x, n, k, 0, t);
    if t + len >= n {
      OutsideAddsNothing(p, x, n, k, n, t + len);
    } else {
      OutsideAddsNothing(p, x, n, k, t + len, n);
    }
    DotNSame(Row(p, |x|, k), x, Row(p, n, k), x[..n], n);
  }

  lemma WindowIsProduct(c: Vec, p: Vec, x: Vec, n: nat, k: nat, s: nat, t: nat, len: nat)
    requires IsMirror(c, p) && ZeroFrom(x, n) && k < n <= |x|
    requires s + len <= 2 * |p| <= |c| && t + len <= |x| && s - |p| + 1 == t - k
    requires t == 0 || t + |p| <= k + 1
    requires t + len >= n || t + len >= k + |p|
    ensures DotN(c[s..], x[t..], len) == Times(p, x[..n])[k]
  {
    WindowIsEntry(c, p, x, n, k, s, t, len);
  }

  /** The dot product of two slices that gives entry k. */
  method Window(c: Vec, x: Vec, s: nat, t: nat, len: nat, ghost p: Vec, ghost n: nat, ghost k: nat) returns (r: real)
    requires IsMirror(c, p) && ZeroFrom(x, n) && k < n <= |x|
    requires s + len <= 2 * |p| <= |c| && t + len <= |x| && s - |p| + 1 == t - k
    requires t == 0 || t + |p| <= k + 1
    requires t + len >= n || t + len >= k + |p|
    ensures r == Times(p, x[..n])[k]
  {
    hide *;
    WindowIsProduct(c, p, x, n, k, s, t, len);
    r := DotProd(c[s..], x[t..], len);
  }

  /** x is zero padded from n on. */
  method MultSymtoepl2(c: Vec, lResp: nat, x: Vec, y: array<real>, n: nat, ghost p: Vec)
    requires IsMirror(c, p) && lResp == |p|
    requires lResp <= n + 1 && n + lResp <= |x| && ZeroFrom(x, n) && n <= y.Length
    modifies y
    ensures y[..n] == Times(p, x[..n])
    ensures forall k :: n <= k < y.Length ==> y[k] == old(y[k])
  {
    hide DotN, Row, Lag, ZeroFrom, IsMirror, Dot, Times;
    ghost var want := Times(p, x[..n]);
    var length := lResp;
    var nn := 0;
    assert |c| >= 2 * lResp > 0 by { MirrorLength(c, p); }
    while nn < lResp - 1
      invariant 0 <= nn <= lResp - 1 && length == lResp + nn
      invariant forall k: nat :: k < nn ==> y[k] == want[k]
      invariant forall k :: n <= k < y.Length ==> y[k] == old(y[k])
    {
      y[nn] := Window(c, x, lResp - 1 - nn, 0, length, p, n, nn);
      length := length + 1;
      nn := nn + 1;
    }
    length := 2 * lResp;
    while nn < n - lResp
      invariant lResp - 1 <= nn <= n
      invariant nn > lResp - 1 ==> nn <= n - lResp
      invariant forall k: nat :: k < nn ==> y[k] == want[k]
      invariant forall k :: n <= k < y.Length ==> y[k] == old(y[k])
    {
      y[nn] := Window(c, x, 0, nn + 1 - lResp, length, p, n, nn);
      nn := nn + 1;
    }
    ghost var start := nn;
    while nn < n
      invariant start <= nn <= n
      invariant length == 2 * lResp - (nn - start)
      invariant forall k: nat :: k < nn ==> y[k] == want[k]
      invariant forall k :: n <= k < y.Length ==> y[k] == old(y[k])
    {
      length := length - 1;
      y[nn] := Window(c, x, 0, nn + 1 - lResp, length, p, n, nn);
      nn := nn + 1;
    }
  }

  lemma MirrorLength(c: Vec, p: Vec)
    requires IsMirror(c, p)
    ensures |c| >= 2 * |p| > 0
  {
  }
}
