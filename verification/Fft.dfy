/** The recursive mixed-radix transform of internal/voip/media/mlow/fft.go. */
module Fft {
  import opened Arith
  import opened Complex
  import opened CooleyTukey

  ghost predicate SmallestFactor(p: nat, n: nat) {
    && 2 <= p <= n
    && Divides(p, n)
    && forall d: nat :: 2 <= d < p ==> !Divides(d, n)
  }

  /** smallestFactor: only odd candidates after 2, up to the square root. */
  method FindSmallestFactor(n: nat) returns (p: nat)
    requires n >= 2
    ensures SmallestFactor(p, n)
  {
    if n % 2 == 0 { return 2; }
    p := 3;
    SquareBound(p, n);
    while p * p <= n
      invariant 3 <= p && p % 2 == 1
      invariant forall d: nat :: 2 <= d < p ==> !Divides(d, n)
      invariant p <= n + 2
      decreases n + 2 - p
    {
      SquareBound(p, n);
      if n % p == 0 {
        return p;
      }
      OddMultiple(p + 1, n);
      p := p + 2;
    }
    NoFactorBelow(p, n);
    return n;
  }

  lemma SquareBound(p: nat, n: nat)
    ensures p > 0 && p * p <= n ==> p <= n
  {
  }

  lemma OddMultiple(e: nat, n: nat)
    requires e > 0 && e % 2 == 0 && n % 2 == 1
    ensures !Divides(e, n)
  {
    var h, q := e / 2, n / e;
    assert n == e * q + n % e;
    assert e * q == 2 * (h * q);
  }

  lemma NoFactorBelow(p: nat, n: nat)
    requires n >= 2 && p * p > n && p >= 2
    requires forall d: nat :: 2 <= d < p ==> !Divides(d, n)
    ensures SmallestFactor(n, n)
  {
    forall d: nat | 2 <= d < n ensures !Divides(d, n) {
      QuotientDivides(d, n);
      ProductAtLeast(n / d, d, p);
    }
  }

  lemma ProductAtLeast(q: nat, d: nat, p: nat)
    ensures q >= p && d >= p ==> q * d >= p * p
    ensures q == 1 ==> q * d == d
  {
  }

  // ---- slices of one memory ----

  function At(xo: nat, stride: nat, j: nat): nat {
    xo + j * stride
  }

  lemma AtGrows(xo: nat, stride: nat, i: nat, j: nat)
    ensures i <= j ==> At(xo, stride, i) <= At(xo, stride, j)
  {
  }

  /** The samples x[0], x[stride], x[2 stride], ... of the slice that starts at xo. */
  function Strided(s: seq<Cpx>, xo: nat, stride: nat, n: nat): (v: seq<Cpx>)
    requires n > 0 && At(xo, stride, n - 1) < |s|
    ensures |v| == n
  {
    seq(n, j requires 0 <= j < n => AtGrows(xo, stride, j, n - 1); s[At(xo, stride, j)])
  }

  predicate Apart(a: nat, aEnd: nat, b: nat, bEnd: nat) {
    aEnd <= b || bEnd <= a
  }

  /** x is [xo, xe), out is [oo, oo + n) and scratch needs no more than [so, so + 2 n). */
  predicate Fits(length: nat, xo: nat, xe: nat, stride: nat, n: nat, oo: nat, so: nat) {
    && n > 0
    && At(xo, stride, n - 1) < xe <= length
    && oo + n <= length
    && so + 2 * n <= length
    && Apart(xo, xe, oo, oo + n)
    && Apart(xo, xe, so, so + 2 * n)
    && Apart(oo, oo + n, so, so + 2 * n)
  }

  /** Only [lo, hi) may differ. */
  ghost predicate SameOutside(s: seq<Cpx>, t: seq<Cpx>, lo: nat, hi: nat) {
    |s| == |t| && forall i :: 0 <= i < |s| && !(lo <= i < hi) ==> s[i] == t[i]
  }

  lemma StridedSame(s: seq<Cpx>, t: seq<Cpx>, lo: nat, hi: nat, xo: nat, xe: nat, stride: nat, n: nat)
    requires SameOutside(s, t, lo, hi) && Apart(xo, xe, lo, hi)
    requires n > 0 && At(xo, stride, n - 1) < xe <= |s|
    ensures Strided(s, xo, stride, n) == Strided(t, xo, stride, n)
  {
  }

  /** Slicing from q * stride with p times the stride picks the samples q, q + p, q + 2 p, ... */
  lemma SliceIsPick(s: seq<Cpx>, xo: nat, stride: nat, m: nat, p: nat, q: nat)
    requires m > 0 && q < p && m * p > 0 && At(xo, stride, m * p - 1) < |s|
    ensures At(At(xo, stride, q), stride * p, m - 1) <= At(xo, stride, m * p - 1)
    ensures Strided(s, At(xo, stride, q), stride * p, m) == Pick(Strided(s, xo, stride, m * p), m, p, q)
  {
    AtComposes(xo, stride, p, q, m - 1);
    CellInside(m - 1, m, p, q);
    AtGrows(xo, stride, Cell(m - 1, p, q), m * p - 1);
    var u, w := Strided(s, At(xo, stride, q), stride * p, m), Pick(Strided(s, xo, stride, m * p), m, p, q);
    forall i: nat | i < m ensures u[i] == w[i] {
      AtComposes(xo, stride, p, q, i);
      CellInside(i, m, p, q);
      AtGrows(At(xo, stride, q), stride * p, i, m - 1);
    }
  }

  lemma AtComposes(xo: nat, stride: nat, p: nat, q: nat, i: nat)
    ensures At(At(xo, stride, q), stride * p, i) == At(xo, stride, Cell(i, p, q))
  {
  }

  // ---- one output bin ----

  /** The running twiddle index (k j) mod n is advanced by k, less n when it passes it. */
  lemma IndexAdvances(k: nat, j: nat, n: nat)
    requires k < n
    ensures Wrap(k * (j + 1), n)
         == (if Wrap(k * j, n) + k >= n then Wrap(k * j, n) + k - n else Wrap(k * j, n) + k)
  {
    assert k * (j + 1) == k * j + k;
    WrapStep(k * j, k, n);
  }

  lemma WrapStep(a: nat, k: nat, n: nat)
    requires k < n
    ensures Wrap(a + k, n) == (if Wrap(a, n) + k >= n then Wrap(a, n) + k - n else Wrap(a, n) + k)
  {
    var q, r := a / n, a % n;
    assert a == n * q + r;
    if r + k >= n {
      assert n * (q + 1) == n * q + n;
      DivModUnique(a + k, n, q + 1, r + k - n);
    } else {
      DivModUnique(a + k, n, q, r + k);
    }
  }

  function Table(tw: Twiddles, n: nat): (w: seq<Cpx>)
    ensures |w| == n && forall i: nat :: i < n ==> w[i] == tw(n, i)
  {
    seq(n, i requires 0 <= i < n => tw(n, i))
  }

  method DirectBin(mem: array<Cpx>, tw: Twiddles, xo: nat, stride: nat, n: nat, k: nat) returns (acc: Cpx)
    requires k < n && At(xo, stride, n - 1) < mem.Length
    ensures acc == Dft(tw, Strided(mem[..], xo, stride, n), k)
  {
    var w := Table(tw, n);
    ghost var v := Strided(mem[..], xo, stride, n);
    acc := ZERO;
    var mi := 0;
    for j := 0 to n
      invariant mi == Wrap(k * j, n)
      invariant acc == Sum(Terms(tw, v, k), j)
    {
      AtGrows(xo, stride, j, n - 1);
      assert v[j] == mem[At(xo, stride, j)];
      acc := Add(acc, Mul(mem[xo + j * stride], w[mi]));
      IndexAdvances(k, j, n);
      mi := mi + k;
      if mi >= n { mi := mi - n; }
    }
  }

  /** scratch[so ..] holds the first `done` of the p sub-transforms of v, one after the other. */
  ghost predicate SubsHeld(s: seq<Cpx>, so: nat, tw: Twiddles, v: seq<Cpx>, m: nat, p: nat, done: nat)
    requires done <= p && |v| == m * p && so + m * p <= |s|
  {
    forall q: nat, i: nat :: q < done && i < m ==> SubHeld(s, so, tw, v, m, p, q, i)
  }

  ghost predicate SubHeld(s: seq<Cpx>, so: nat, tw: Twiddles, v: seq<Cpx>, m: nat, p: nat, q: nat, i: nat)
    requires q < p && i < m && |v| == m * p && so + m * p <= |s|
  {
    CellBelow(q, m, p, i);
    s[so + Cell(q, m, i)] == Dft(tw, Pick(v, m, p, q), i)
  }

  lemma CellBelow(q: nat, m: nat, p: nat, i: nat)
    requires q < p && i < m
    ensures Cell(q, m, i) < m * p && Cell(q, m, m) <= m * p
  {
    MulOrder(m, q, p);
  }

  method CombineBin(mem: array<Cpx>, tw: Twiddles, so: nat, m: nat, p: nat, k: nat, ghost v: seq<Cpx>) returns (acc: Cpx)
    requires RootsOfUnity(tw)
    requires m > 0 && k < m * p == |v| && so + m * p <= mem.Length
    requires SubsHeld(mem[..], so, tw, v, m, p, p)
    ensures acc == Dft(tw, v, k)
  {
    hide RootsOfUnity, Dft, Pick, Mul, Add;
    var n := m * p;
    var w := Table(tw, n);
    var kmod := k % m;
    acc := ZERO;
    var mi := 0;
    for q := 0 to p
      invariant mi == Wrap(k * q, n)
      invariant acc == Sum(Legs(tw, v, m, p, k), q)
    {
      CellBelow(q, m, p, kmod);
      assert SubHeld(mem[..], so, tw, v, m, p, q, kmod);
      acc := Add(acc, Mul(mem[so + (q * m + kmod)], w[mi]));
      IndexAdvances(k, q, n);
      mi := mi + k;
      if mi >= n { mi := mi - n; }
    }
    DftSplits(tw, v, m, p, k);
  }

  // ---- the recursion ----

  /** out[0 .. n) is the transform of v. */
  ghost predicate IsTransform(s: seq<Cpx>, oo: nat, tw: Twiddles, v: seq<Cpx>) {
    oo + |v| <= |s| && forall k: nat :: k < |v| ==> s[oo + k] == Dft(tw, v, k)
  }

  ghost predicate Untouched(s: seq<Cpx>, t: seq<Cpx>, oo: nat, so: nat, n: nat) {
    |s| == |t| && forall i :: 0 <= i < |s| && !(oo <= i < oo + n) && !(so <= i < so + 2 * n) ==> s[i] == t[i]
  }

  lemma BaseCase(tw: Twiddles, v: seq<Cpx>)
    requires RootsOfUnity(tw) && |v| == 1
    ensures Dft(tw, v, 0) == v[0]
  {
    assert tw(1, 0) == ONE;
    hide RootsOfUnity;
    assert Term(tw, v, 0, 0) == v[0];
    assert Sum(Terms(tw, v, 0), 1) == Add(Sum(Terms(tw, v, 0), 0), Terms(tw, v, 0)(0));
  }

  /** fftRec: writes the transform of the strided samples to out, using scratch[0 .. 2 n) at most. */
  method FftRec(mem: array<Cpx>, tw: Twiddles, xo: nat, xe: nat, stride: nat, n: nat, oo: nat, so: nat)
    requires RootsOfUnity(tw)
    requires Fits(mem.Length, xo, xe, stride, n, oo, so)
    modifies mem
    ensures IsTransform(mem[..], oo, tw, Strided(old(mem[..]), xo, stride, n))
    ensures Untouched(old(mem[..]), mem[..], oo, so, n)
    decreases n, 1
  {
    hide RootsOfUnity, Dft, Add, Mul, Strided;
    ghost var v := Strided(mem[..], xo, stride, n);
    if n == 1 {
      BaseCase(tw, v);
      FirstSample(mem[..], xo, stride);
      mem[oo] := mem[xo];
      return;
    }
    var p := FindSmallestFactor(n);
    if p == n {
      DirectBins(mem, tw, xo, xe, stride, n, oo);
      return;
    }
    var m := n / p;
    Halves(n, p);
    SubTransforms(mem, tw, xo, xe, stride, m, p, so);
    CombineBins(mem, tw, so, m, p, oo, v);
  }

  lemma FirstSample(s: seq<Cpx>, xo: nat, stride: nat)
    requires xo < |s|
    ensures At(xo, stride, 0) == xo && Strided(s, xo, stride, 1) == [s[xo]]
  {
  }

  lemma Halves(n: nat, p: nat)
    requires n >= 2 && SmallestFactor(p, n) && p != n
    ensures 0 < n / p < n && (n / p) * p == n && 2 * (n / p) <= n
  {
  }

  method DirectBins(mem: array<Cpx>, tw: Twiddles, xo: nat, xe: nat, stride: nat, n: nat, oo: nat)
    requires n > 0 && At(xo, stride, n - 1) < xe <= mem.Length && oo + n <= mem.Length
    requires Apart(xo, xe, oo, oo + n)
    modifies mem
    ensures IsTransform(mem[..], oo, tw, Strided(old(mem[..]), xo, stride, n))
    ensures SameOutside(old(mem[..]), mem[..], oo, oo + n)
  {
    hide Dft, Strided;
    ghost var s := mem[..];
    for k := 0 to n
      invariant forall i: nat :: i < k ==> mem[oo + i] == Dft(tw, Strided(s, xo, stride, n), i)
      invariant SameOutside(s, mem[..], oo, oo + n)
    {
      StridedSame(s, mem[..], oo, oo + n, xo, xe, stride, n);
      var acc := DirectBin(mem, tw, xo, stride, n, k);
      mem[oo + k] := acc;
    }
  }

  method CombineBins(mem: array<Cpx>, tw: Twiddles, so: nat, m: nat, p: nat, oo: nat, ghost v: seq<Cpx>)
    requires RootsOfUnity(tw)
    requires m > 0 && m * p == |v| && so + m * p <= mem.Length && oo + m * p <= mem.Length
    requires Apart(oo, oo + m * p, so, so + m * p)
    requires SubsHeld(mem[..], so, tw, v, m, p, p)
    modifies mem
    ensures IsTransform(mem[..], oo, tw, v)
    ensures SameOutside(old(mem[..]), mem[..], oo, oo + m * p)
  {
    hide Dft, RootsOfUnity, SubsHeld;
    var n := m * p;
    ghost var s := mem[..];
    for k := 0 to n
      invariant forall i: nat :: i < k ==> mem[oo + i] == Dft(tw, v, i)
      invariant SameOutside(s, mem[..], oo, oo + n)
    {
      SubsStay(s, mem[..], oo, oo + n, so, tw, v, m, p, p);
      var acc := CombineBin(mem, tw, so, m, p, k, v);
      mem[oo + k] := acc;
    }
  }

  lemma SubsStay(s: seq<Cpx>, t: seq<Cpx>, lo: nat, hi: nat, so: nat, tw: Twiddles, v: seq<Cpx>, m: nat, p: nat, done: nat)
    requires done <= p && |v| == m * p && so + m * p <= |s|
    requires SameOutside(s, t, lo, hi) && Apart(so, so + Cell(done, m, 0), lo, hi)
    requires SubsHeld(s, so, tw, v, m, p, done)
    ensures SubsHeld(t, so, tw, v, m, p, done)
  {
    forall q: nat, i: nat | q < done && i < m ensures SubHeld(t, so, tw, v, m, p, q, i) {
      assert SubHeld(s, so, tw, v, m, p, q, i);
      CellBelow(q, m, p, i);
      CellBelow(q, m, done, i);
    }
  }

  lemma SubsStart(s: seq<Cpx>, so: nat, tw: Twiddles, v: seq<Cpx>, m: nat, p: nat)
    requires |v| == m * p && so + m * p <= |s|
    ensures SubsHeld(s, so, tw, v, m, p, 0)
  {
  }

  lemma SubGrows(s: seq<Cpx>, t: seq<Cpx>, so: nat, tw: Twiddles, v: seq<Cpx>, m: nat, p: nat, q: nat, r: nat, i: nat)
    requires r <= q < p && i < m && |v| == m * p && 2 * m <= m * p && so + 2 * (m * p) <= |s|
    requires Untouched(s, t, so + Cell(q, m, 0), so + m * p, m)
    requires r < q ==> SubHeld(s, so, tw, v, m, p, r, i)
    requires IsTransform(t, so + Cell(q, m, 0), tw, Pick(v, m, p, q))
    ensures SubHeld(t, so, tw, v, m, p, r, i)
  {
    hide Dft, Pick;
    CellBelow(r, m, p, i);
    if r < q {
      CellBelow(r, m, q, i);
    } else {
      assert t[so + Cell(q, m, 0) + i] == Dft(tw, Pick(v, m, p, q), i);
    }
  }

  lemma SubsGrow(s: seq<Cpx>, t: seq<Cpx>, so: nat, tw: Twiddles, v: seq<Cpx>, m: nat, p: nat, q: nat)
    requires q < p && |v| == m * p && 2 * m <= m * p && so + 2 * (m * p) <= |s|
    requires Untouched(s, t, so + Cell(q, m, 0), so + m * p, m)
    requires SubsHeld(s, so, tw, v, m, p, q)
    requires IsTransform(t, so + Cell(q, m, 0), tw, Pick(v, m, p, q))
    ensures SubsHeld(t, so, tw, v, m, p, q + 1)
  {
    hide Dft, Pick, Cell, SubHeld, Untouched, IsTransform;
    assert |t| == |s| by { TouchKeepsLength(s, t, so + Cell(q, m, 0), so + m * p, m); }
    forall r: nat, i: nat | r < q + 1 && i < m ensures SubHeld(t, so, tw, v, m, p, r, i) {
      SubGrows(s, t, so, tw, v, m, p, q, r, i);
    }
  }

  lemma TouchKeepsLength(s: seq<Cpx>, t: seq<Cpx>, oo: nat, so: nat, n: nat)
    requires Untouched(s, t, oo, so, n)
    ensures |t| == |s|
  {
  }

  method SubTransforms(mem: array<Cpx>, tw: Twiddles, xo: nat, xe: nat, stride: nat, m: nat, p: nat, so: nat)
    requires RootsOfUnity(tw)
    requires m > 0 && p >= 2 && 2 * m <= m * p
    requires At(xo, stride, m * p - 1) < xe <= mem.Length && so + 2 * (m * p) <= mem.Length
    requires Apart(xo, xe, so, so + 2 * (m * p))
    modifies mem
    ensures SubsHeld(mem[..], so, tw, Strided(old(mem[..]), xo, stride, m * p), m, p, p)
    ensures SameOutside(old(mem[..]), mem[..], so, so + 2 * (m * p))
    decreases m * p, 0
  {
    hide Dft, RootsOfUnity, Strided, SubsHeld, IsTransform;
    var n := m * p;
    ghost var s := mem[..];
    ghost var v := Strided(s, xo, stride, n);
    SubsStart(mem[..], so, tw, v, m, p);
    for q := 0 to p
      invariant SubsHeld(mem[..], so, tw, v, m, p, q)
      invariant SameOutside(s, mem[..], so, so + 2 * n)
    {
      ghost var t := mem[..];
      SliceIsPick(s, xo, stride, m, p, q);
      StridedSame(s, t, so, so + 2 * n, At(xo, stride, q), xe, stride * p, m);
      CellBelow(q, m, p, 0);
      FftRec(mem, tw, At(xo, stride, q), xe, stride * p, m, so + q * m, so + n);
      SubsGrow(t, mem[..], so, tw, v, m, p, q);
    }
  }
}
