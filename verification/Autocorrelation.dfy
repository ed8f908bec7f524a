/** The autocorrelation of an impulse response, and why its matrix is never negative. */
module Autocorrelation {
  import opened Linear

  /** h, with zeros on both sides. */
  function Tap(h: Vec, t: int): real {
    if 0 <= t < |h| then h[t] else 0.0
  }

  /** The first t products of h with itself delayed by j. */
  function AutoSum(h: Vec, j: nat, t: nat): real {
    if t == 0 then 0.0 else AutoSum(h, j, t - 1) + Tap(h, t - 1) * Tap(h, t - 1 + j)
  }

  function Autocorr(h: Vec): (p: Vec)
    ensures |p| == |h|
  {
    seq(|h|, j requires 0 <= j < |h| => AutoSum(h, j, |h| - j))
  }

  lemma {:induction false} AutoSumSettles(h: Vec, j: nat, t: nat)
    requires t + j >= |h|
    ensures AutoSum(h, j, t) == Lag(Autocorr(h), j)
  {
    if j >= |h| {
      if t > 0 { AutoSumSettles(h, j, t - 1); }
    } else if t + j > |h| {
      AutoSumSettles(h, j, t - 1);
    }
  }

  /** h delayed by x, in a window of m samples. */
  function Delayed(h: Vec, x: nat, m: nat): (r: Vec)
    ensures |r| == m
  {
    seq(m, i requires 0 <= i < m => Tap(h, i - x))
  }

  lemma {:induction false} DelayedDot(h: Vec, x: nat, y: nat, m: nat, k: nat)
    requires y <= x && k <= m
    ensures DotN(Delayed(h, x, m), Delayed(h, y, m), k) == AutoSum(h, x - y, if k <= x then 0 else k - x)
  {
    if k > 0 {
      DelayedDot(h, x, y, m, k - 1);
      var a, b := Delayed(h, x, m)[k - 1], Delayed(h, y, m)[k - 1];
      assert a == Tap(h, k - x - 1) && b == Tap(h, k - x - 1 + (x - y));
      assert k - 1 < x ==> a == 0.0 && a * b == 0.0;
    }
  }

  lemma DelayedLag(h: Vec, x: nat, y: nat, m: nat)
    requires x + |h| <= m && y + |h| <= m
    ensures Dot(Delayed(h, x, m), Delayed(h, y, m)) == Lag(Autocorr(h), x - y)
  {
    if y <= x {
      DelayedDot(h, x, y, m, m);
      AutoSumSettles(h, x - y, m - x);
    } else {
      DotCommutes(Delayed(h, x, m), Delayed(h, y, m), m);
      DelayedDot(h, y, x, m, m);
      AutoSumSettles(h, y - x, m - y);
      LagEven(Autocorr(h), y - x);
    }
  }

  /** The response of the filter h to the first k samples of c. */
  function Response(h: Vec, c: Vec, m: nat, k: nat): (r: Vec)
    requires k <= |c|
    ensures |r| == m
  {
    if k == 0 then Zeros(m) else AddScaled(Response(h, c, m, k - 1), c[k - 1], Delayed(h, k - 1, m))
  }

  /** The products of w with h delayed by 0, 1, 2, ... */
  function Products(h: Vec, w: Vec, n: nat): (r: Vec)
    ensures |r| == n
  {
    seq(n, x requires 0 <= x < n => Dot(w, Delayed(h, x, |w|)))
  }

  lemma ProductIs(h: Vec, w: Vec, n: nat, x: nat)
    requires x < n
    ensures Products(h, w, n)[x] == Dot(w, Delayed(h, x, |w|))
  {
  }

  lemma NoResponseDot(h: Vec, c: Vec, w: Vec)
    ensures Dot(w, Response(h, c, |w|, 0)) == DotN(c, Products(h, w, |c|), 0)
  {
    DotNZeros(w, Zeros(|w|), |w|);
  }

  lemma {:induction false} DotGrows(u: Vec, v: Vec, k: nat)
    requires 0 < k <= |u| == |v|
    ensures DotN(u, v, k) == DotN(u, v, k - 1) + u[k - 1] * v[k - 1]
  {
  }

  lemma {:induction false} ResponseDot(h: Vec, c: Vec, w: Vec, k: nat)
    requires k <= |c|
    ensures Dot(w, Response(h, c, |w|, k)) == DotN(c, Products(h, w, |c|), k)
  {
    hide Delayed, AddScaled, Dot, Products;
    if k == 0 {
      NoResponseDot(h, c, w);
    } else {
      var m, p := |w|, Products(h, w, |c|);
      ResponseDot(h, c, w, k - 1);
      DotLinear(w, Response(h, c, m, k - 1), c[k - 1], Delayed(h, k - 1, m));
      DotGrows(c, p, k);
      ProductIs(h, w, |c|, k - 1);
    }
  }

  lemma {:induction false} DotSelf(v: Vec, k: nat)
    requires k <= |v|
    ensures DotN(v, v, k) >= 0.0
  {
    if k > 0 {
      DotSelf(v, k - 1);
      assert v[k - 1] * v[k - 1] >= 0.0;
    }
  }

  lemma ProductsOfDelayed(h: Vec, n: nat, x: nat)
    requires x < n
    ensures Products(h, Delayed(h, x, n + |h|), n) == Row(Autocorr(h), n, x)
  {
    forall y: nat | y < n ensures Products(h, Delayed(h, x, n + |h|), n)[y] == Row(Autocorr(h), n, x)[y] {
      DelayedLag(h, x, y, n + |h|);
    }
  }

  lemma ProductOfResponse(h: Vec, c: Vec, m: nat, x: nat)
    requires x < |c| && m == |c| + |h|
    ensures Dot(Response(h, c, m, |c|), Delayed(h, x, m)) == Dot(Row(Autocorr(h), |c|, x), c)
  {
    hide *;
    var n, w := |c|, Delayed(h, x, m);
    DotSwaps(Response(h, c, m, n), w);
    ResponseDots(h, c, w, m);
    ProductsOfDelayed(h, n, x);
  }

  lemma DotSwaps(u: Vec, v: Vec)
    requires |u| == |v|
    ensures Dot(u, v) == Dot(v, u)
  {
    DotCommutes(u, v, |u|);
  }

  lemma ResponseDots(h: Vec, c: Vec, w: Vec, m: nat)
    requires |w| == m
    ensures Dot(w, Response(h, c, m, |c|)) == Dot(Products(h, w, |c|), c)
  {
    ResponseDot(h, c, w, |c|);
    DotCommutes(c, Products(h, w, |c|), |c|);
  }

  lemma ProductsOfResponse(h: Vec, c: Vec)
    ensures Products(h, Response(h, c, |c| + |h|, |c|), |c|) == Times(Autocorr(h), c)
  {
    hide Dot, Autocorr, Row, Response, Delayed;
    var m := |c| + |h|;
    var r := Response(h, c, m, |c|);
    var u, v := Products(h, r, |c|), Times(Autocorr(h), c);
    forall x: nat | x < |c| ensures u[x] == v[x] {
      ProductOfResponse(h, c, m, x);
      assert u[x] == Dot(r, Delayed(h, x, m));
    }
  }

  /** c' Phi c is the energy of the response to c. */
  lemma FormIsEnergy(h: Vec, c: Vec)
    ensures var r := Response(h, c, |c| + |h|, |c|); Form(Autocorr(h), c) == Dot(r, r)
  {
    hide Dot, Autocorr, Times, Response, Products;
    ProductsOfResponse(h, c);
    ResponseDots(h, c, Response(h, c, |c| + |h|, |c|), |c| + |h|);
    DotSwaps(Times(Autocorr(h), c), c);
  }

  lemma AutocorrNonNegative(h: Vec, c: Vec)
    ensures Form(Autocorr(h), c) >= 0.0
  {
    FormIsEnergy(h, c);
    var r := Response(h, c, |c| + |h|, |c|);
    DotSelf(r, |r|);
  }

  /** Phi is symmetric. */
  lemma FormSymmetric(h: Vec, u: Vec, v: Vec)
    requires |u| == |v|
    ensures Dot(u, Times(Autocorr(h), v)) == Dot(v, Times(Autocorr(h), u))
  {
    hide Dot, Autocorr, Times, Response, Products;
    var m := |u| + |h|;
    var a, b := Response(h, u, m, |u|), Response(h, v, m, |v|);
    ProductsOfResponse(h, u);
    ProductsOfResponse(h, v);
    ResponseDots(h, v, a, m);
    ResponseDots(h, u, b, m);
    DotSwaps(a, b);
    DotSwaps(Times(Autocorr(h), u), v);
    DotSwaps(Times(Autocorr(h), v), u);
  }

  lemma TimesLinear(p: Vec, u: Vec, s: real, v: Vec)
    requires |u| == |v|
    ensures Times(p, AddScaled(u, s, v)) == AddScaled(Times(p, u), s, Times(p, v))
  {
    forall x: nat | x < |u|
      ensures Times(p, AddScaled(u, s, v))[x] == AddScaled(Times(p, u), s, Times(p, v))[x]
    {
      DotNLinear(Row(p, |u|, x), u, s, v, |u|);
    }
  }

  lemma DotLinear(w: Vec, u: Vec, s: real, v: Vec)
    requires |w| == |u| == |v|
    ensures Dot(w, AddScaled(u, s, v)) == Dot(w, u) + s * Dot(w, v)
  {
    DotNLinear(w, u, s, v, |u|);
  }

  lemma FormExpands(h: Vec, u: Vec, s: real, v: Vec)
    requires |u| == |v|
    ensures Form(Autocorr(h), AddScaled(u, s, v))
         == Form(Autocorr(h), u) + 2.0 * s * Dot(Times(Autocorr(h), u), v) + s * s * Form(Autocorr(h), v)
  {
    hide Dot, Autocorr, Times, AddScaled;
    var p, t := Autocorr(h), AddScaled(u, s, v);
    var pu, pv := Times(p, u), Times(p, v);
    TimesLinear(p, u, s, v);
    DotLinear(t, pu, s, pv);
    DotSwaps(t, pu);
    DotSwaps(t, pv);
    DotLinear(pu, u, s, v);
    DotLinear(pv, u, s, v);
    DotSwaps(pu, u);
    DotSwaps(pv, v);
    DotSwaps(pv, u);
    FormSymmetric(h, u, v);
    DotSwaps(pu, v);
    Quadratic(Dot(u, pu), Dot(pu, v), Dot(v, pv), s);
  }

  lemma Quadratic(a: real, b: real, c: real, s: real)
    ensures (a + s * b) + s * (b + s * c) == a + 2.0 * s * b + s * s * c
  {
  }

  // ---- computed as a filter over the reversed response ----

  /** celpFiltMa: tap i of coef meets sample k - i of x, which has history before xBase. */
  function Filtered(x: Vec, xBase: nat, coef: Vec, k: nat, taps: nat): real
    requires taps <= |coef| && taps <= xBase + 1 && xBase + k < |x|
  {
    if taps == 0 then 0.0 else Filtered(x, xBase, coef, k, taps - 1) + coef[taps - 1] * x[xBase + k - (taps - 1)]
  }

  ghost predicate IsFiltered(y: Vec, x: Vec, xBase: nat, coef: Vec, n: nat, taps: nat)
    requires n <= |y| && taps <= |coef| && taps <= xBase + 1 && xBase + n <= |x|
  {
    forall k: nat :: k < n ==> y[k] == Filtered(x, xBase, coef, k, taps)
  }

  method FiltMa(x: Vec, xBase: nat, n: nat, coef: Vec, coefLen: nat, y: array<real>)
    requires 2 <= coefLen <= |coef| && coefLen <= xBase + 1 && xBase + n <= |x| && n <= y.Length
    modifies y
    ensures IsFiltered(y[..], x, xBase, coef, n, coefLen)
    ensures forall k :: n <= k < y.Length ==> y[k] == old(y[k])
  {
    var i := 1;
    if coef[0] == 1.0 {
      for k := 0 to n
        invariant forall j: nat :: j < k ==> y[j] == Filtered(x, xBase, coef, j, 2)
        invariant forall j :: n <= j < y.Length ==> y[j] == old(y[j])
      {
        y[k] := x[xBase + k] + coef[1] * x[xBase + k - 1];
        TwoTaps(x, xBase, coef, k);
      }
      i := 2;
    } else {
      for k := 0 to n
        invariant forall j: nat :: j < k ==> y[j] == Filtered(x, xBase, coef, j, 1)
        invariant forall j :: n <= j < y.Length ==> y[j] == old(y[j])
      {
        y[k] := coef[0] * x[xBase + k];
        assert Filtered(x, xBase, coef, k, 0) == 0.0;
      }
    }
    while i < coefLen
      invariant 1 <= i <= coefLen
      invariant IsFiltered(y[..], x, xBase, coef, n, i)
      invariant forall j :: n <= j < y.Length ==> y[j] == old(y[j])
    {
      for k := 0 to n
        invariant forall j: nat :: j < k ==> y[j] == Filtered(x, xBase, coef, j, i + 1)
        invariant forall j: nat :: k <= j < n ==> y[j] == Filtered(x, xBase, coef, j, i)
        invariant forall j :: n <= j < y.Length ==> y[j] == old(y[j])
      {
        y[k] := y[k] + coef[i] * x[xBase + k - i];
      }
      i := i + 1;
    }
  }

  lemma TwoTaps(x: Vec, xBase: nat, coef: Vec, k: nat)
    requires 2 <= |coef| && xBase >= 1 && xBase + k < |x| && coef[0] == 1.0
    ensures Filtered(x, xBase, coef, k, 2) == x[xBase + k] + coef[1] * x[xBase + k - 1]
  {
    assert Filtered(x, xBase, coef, k, 1) == coef[0] * x[xBase + k];
  }

  /** celpFiltMa9: ten taps, one output at a time. */
  method FiltMa9(x: Vec, xBase: nat, n: nat, coef: Vec, y: array<real>)
    requires 10 <= |coef| && 9 <= xBase && xBase + n <= |x| && n <= y.Length
    modifies y
    ensures IsFiltered(y[..], x, xBase, coef, n, 10)
    ensures forall k :: n <= k < y.Length ==> y[k] == old(y[k])
  {
    for k := 0 to n
      invariant forall j: nat :: j < k ==> y[j] == Filtered(x, xBase, coef, j, 10)
      invariant forall j :: n <= j < y.Length ==> y[j] == old(y[j])
    {
      var res := 0.0;
      for i := 0 to 10
        invariant res == Filtered(x, xBase, coef, k, i)
      {
        res := res + coef[i] * x[xBase + k - i];
      }
      y[k] := res;
    }
  }

  /** x holds h backwards from xBase on, after at least |h| - 1 zeros. */
  ghost predicate IsReversed(x: Vec, xBase: nat, h: Vec) {
    && xBase + |h| <= |x|
    && (forall i :: 0 <= i < xBase ==> x[i] == 0.0)
    && forall i :: xBase <= i < xBase + |h| ==> x[i] == h[|h| - 1 - (i - xBase)]
  }

  /** The first t products of h with z advanced by j. */
  function CrossSum(h: Vec, z: Vec, j: nat, t: nat): real {
    if t == 0 then 0.0 else CrossSum(h, z, j, t - 1) + Tap(h, t - 1) * Tap(z, t - 1 + j)
  }

  lemma {:induction false} CrossWithSelf(h: Vec, j: nat, t: nat)
    ensures CrossSum(h, h, j, t) == AutoSum(h, j, t)
  {
    if t > 0 { CrossWithSelf(h, j, t - 1); }
  }

  lemma {:induction false} FilteredIsCrossSum(x: Vec, xBase: nat, h: Vec, z: Vec, j: nat, taps: nat)
    requires IsReversed(x, xBase, z) && j < |h| == |z| && taps <= |h| <= xBase + 1
    ensures Filtered(x, xBase, h, |h| - 1 - j, taps) == CrossSum(h, z, j, taps)
  {
    if taps > 0 {
      FilteredIsCrossSum(x, xBase, h, z, j, taps - 1);
      var k := xBase + (|h| - 1 - j) - (taps - 1);
      assert x[k] == Tap(z, taps - 1 + j);
    }
  }

  /** Filtering the reversed response by itself gives the autocorrelation backwards. */
  lemma FilteredIsAutocorr(y: Vec, x: Vec, xBase: nat, h: Vec)
    requires IsReversed(x, xBase, h) && |h| <= xBase + 1 && |h| <= |y| && IsFiltered(y, x, xBase, h, |h|, |h|)
    ensures forall j: nat :: j < |h| ==> y[|h| - 1 - j] == Autocorr(h)[j]
  {
    forall j: nat | j < |h| ensures y[|h| - 1 - j] == Autocorr(h)[j] {
      FilteredIsCrossSum(x, xBase, h, h, j, |h|);
      CrossWithSelf(h, j, |h|);
      AutoSumSettles(h, j, |h|);
    }
  }

  // ---- an error signal besides the response ----

  /** z, then zeros. */
  function Padded(z: Vec, m: nat): (r: Vec)
    ensures |r| == m
  {
    seq(m, i requires 0 <= i < m => Tap(z, i))
  }

  lemma {:induction false} CrossSettles(h: Vec, z: Vec, j: nat, t: nat)
    requires t >= |h|
    ensures CrossSum(h, z, j, t) == CrossSum(h, z, j, |h|)
  {
    if t > |h| { CrossSettles(h, z, j, t - 1); }
  }

  lemma {:induction false} PaddedDotN(h: Vec, z: Vec, x: nat, m: nat, k: nat)
    requires k <= m
    ensures DotN(Padded(z, m), Delayed(h, x, m), k) == CrossSum(h, z, x, if k <= x then 0 else k - x)
  {
    if k > 0 {
      PaddedDotN(h, z, x, m, k - 1);
      var a, b := Padded(z, m)[k - 1], Delayed(h, x, m)[k - 1];
      assert a == Tap(z, k - 1) && b == Tap(h, k - 1 - x);
      assert k - 1 < x ==> b == 0.0 && a * b == 0.0;
    }
  }

  /** What the filter makes of z, looked at from entry x. */
  lemma ProductsOfPadded(h: Vec, z: Vec, n: nat, x: nat)
    requires x < n
    ensures Products(h, Padded(z, n + |h|), n)[x] == CrossSum(h, z, x, |h|)
  {
    PaddedDotN(h, z, x, n + |h|, n + |h|);
    CrossSettles(h, z, x, n + |h| - x);
  }

  lemma {:induction false} CrossPastEnd(h: Vec, z: Vec, j: nat, t: nat)
    requires j >= |z|
    ensures CrossSum(h, z, j, t) == 0.0
  {
    if t > 0 { CrossPastEnd(h, z, j, t - 1); }
  }

  lemma FilteredIsProduct(y: Vec, x: Vec, xBase: nat, h: Vec, z: Vec, n: nat, j: nat)
    requires IsReversed(x, xBase, z) && |z| == |h| <= xBase + 1 && |h| <= |y| && IsFiltered(y, x, xBase, h, |h|, |h|)
    requires j < n
    ensures Products(h, Padded(z, n + |h|), n)[j] == if j < |h| then y[|h| - 1 - j] else 0.0
  {
    hide Products, IsReversed;
    ProductsOfPadded(h, z, n, j);
    if j < |h| {
      FilteredIsCrossSum(x, xBase, h, z, j, |h|);
    } else {
      CrossPastEnd(h, z, j, |h|);
    }
  }

  /** The energy of the response to v on top of the signal w. */
  function WeightedError(h: Vec, w: Vec, v: Vec): real
    requires |w| == |v| + |h|
  {
    var r := AddScaled(w, 1.0, Response(h, v, |w|, |v|));
    Dot(r, r)
  }

  lemma ErrorExpands(h: Vec, w: Vec, v: Vec)
    requires |w| == |v| + |h|
    ensures WeightedError(h, w, v) == Form(Autocorr(h), v) + 2.0 * Dot(Products(h, w, |v|), v) + Dot(w, w)
  {
    hide Dot, Form, Autocorr, Response, Products, AddScaled;
    var a := Response(h, v, |w|, |v|);
    var r := AddScaled(w, 1.0, a);
    DotLinear(r, w, 1.0, a);
    DotSwaps(r, w);
    DotSwaps(r, a);
    DotLinear(w, w, 1.0, a);
    DotLinear(a, w, 1.0, a);
    DotSwaps(a, w);
    ResponseDots(h, v, w, |w|);
    FormIsEnergy(h, v);
  }

  /** celpReverse */
  method Reverse(x: array<real>, l: nat)
    requires l <= x.Length
    modifies x
    ensures forall i :: 0 <= i < l ==> x[i] == old(x[l - 1 - i])
    ensures forall i :: l <= i < x.Length ==> x[i] == old(x[i])
  {
    for i := 0 to l / 2
      invariant forall j :: 0 <= j < i ==> x[j] == old(x[l - 1 - j]) && x[l - 1 - j] == old(x[j])
      invariant forall j :: i <= j < l - i ==> x[j] == old(x[j])
      invariant forall j :: l <= j < x.Length ==> x[j] == old(x[j])
    {
      x[i], x[l - i - 1] := x[l - i - 1], x[i];
    }
  }
}
