/** The backward transform undoes the forward one, up to the factor n. */
module FftInverse {
  import opened Arith
  import opened Complex

  function Conj(a: Cpx): Cpx {
    Cpx(a.re, -a.im)
  }

  /** The two twiddle tables: exp(-i 2 pi m / n) and exp(+i 2 pi m / n). */
  ghost predicate ForwardAndBackward(fwd: Twiddles, bwd: Twiddles) {
    && RootsOfUnity(fwd)
    && RootsOfUnity(bwd)
    && (forall n: nat, a: nat :: a < n ==> bwd(n, a) == Conj(fwd(n, a)) && Mul(fwd(n, a), bwd(n, a)) == ONE)
    && (forall n: nat, a: nat :: 0 < a < n ==> fwd(n, a) != ONE)
  }

  function Negated(a: nat, n: nat): nat
    requires a < n
  {
    Wrap(n - a, n)
  }

  lemma NegatedCancels(a: nat, n: nat)
    requires a < n
    ensures Negated(a, n) < n && Wrap(a + Negated(a, n), n) == 0
  {
  }

  lemma InverseUnique(a: Cpx, b: Cpx, c: Cpx)
    requires Mul(a, b) == ONE && Mul(a, c) == ONE
    ensures b == c
  {
  }

  lemma MulCommutes(a: Cpx, b: Cpx)
    ensures Mul(a, b) == Mul(b, a)
  {
  }

  lemma BackwardIsNegatedForward(fwd: Twiddles, bwd: Twiddles, n: nat, a: nat)
    requires ForwardAndBackward(fwd, bwd) && a < n
    ensures Negated(a, n) < n && bwd(n, a) == fwd(n, Negated(a, n))
  {
    NegatedCancels(a, n);
    hide Mul;
    assert Mul(fwd(n, a), fwd(n, Negated(a, n))) == fwd(n, 0);
    InverseUnique(fwd(n, a), bwd(n, a), fwd(n, Negated(a, n)));
  }

  // ---- orthogonality ----

  function Powers(tw: Twiddles, n: nat, d: nat): nat -> Cpx
    requires n > 0
  {
    (j: nat) => tw(n, Wrap(d * j, n))
  }

  lemma NoZeroDivisors(a: Cpx, b: Cpx)
    requires Mul(a, b) == a && b != ONE
    ensures a == ZERO
  {
    var x, y := b.re - 1.0, b.im;
    assert x != 0.0 || y != 0.0;
    assert a.re * x == a.im * y && a.re * y == -(a.im * x);
    OnlyZeroFits(a.re, a.im, x, y);
  }

  function Product(x: real, y: real): real {
    x * y
  }

  lemma ProductSign(x: real, y: real)
    ensures x > 0.0 && y > 0.0 ==> Product(x, y) > 0.0
    ensures Product(-x, -y) == Product(x, y)
    ensures x == 0.0 ==> Product(x, y) == 0.0
  {
  }

  lemma OnlyZeroFits(u: real, v: real, x: real, y: real)
    requires u * x == v * y && u * y == -(v * x) && (x != 0.0 || y != 0.0)
    ensures u == 0.0 && v == 0.0
  {
  }

  lemma Times(a: real, b: real, c: real)
    requires a == b
    ensures a * c == b * c
  {
  }

  lemma PowerSteps(tw: Twiddles, n: nat, d: nat, j: nat)
    requires RootsOfUnity(tw) && d < n
    ensures Powers(tw, n, d)(j + 1) == Mul(Powers(tw, n, d)(j), tw(n, d))
  {
    WrapAdds(d * j, d, n);
    assert d * (j + 1) == d * j + d;
    DivModUnique(d, n, 0, d);
    assert Wrap(Wrap(d * j, n) + d, n) == Wrap(d * (j + 1), n);
  }

  lemma {:induction false} ShiftedSum(f: nat -> Cpx, g: nat -> Cpx, n: nat)
    requires forall j: nat :: j < n ==> g(j) == f(j + 1)
    ensures Add(f(0), Sum(g, n)) == Add(Sum(f, n), f(n))
  {
    if n > 0 { ShiftedSum(f, g, n - 1); }
  }

  lemma RotatedSum(f: nat -> Cpx, n: nat)
    ensures Add(f(0), Sum(Rotated(f), n)) == Add(Sum(f, n), f(n))
  {
    hide Add, Sum;
    ShiftedSum(f, Rotated(f), n);
  }

  lemma AddCancels(a: Cpx, b: Cpx, c: Cpx)
    requires Add(a, b) == Add(c, a)
    ensures b == c
  {
  }

  lemma PowersRepeat(tw: Twiddles, n: nat, d: nat)
    requires n > 0
    ensures Powers(tw, n, d)(0) == Powers(tw, n, d)(n)
  {
    MultipleDivides(d, n);
    DivModUnique(0, n, 0, 0);
    assert d * 0 == 0 && Wrap(0, n) == Wrap(d * n, n);
  }

  /** Multiplying the sum of the powers by one more power only rotates it. */
  lemma RotationCancels(f: nat -> Cpx, w: Cpx, n: nat)
    requires w != ONE && f(0) == f(n)
    requires forall j: nat :: j < n ==> Rotated(f)(j) == Mul(f(j), w)
    ensures Sum(f, n) == ZERO
  {
    hide *;
    SumScales(f, Rotated(f), w, n);
    RotatedSum(f, n);
    AddCancels(f(0), Sum(Rotated(f), n), Sum(f, n));
    NoZeroDivisors(Sum(f, n), w);
  }

  function Rotated(f: nat -> Cpx): nat -> Cpx {
    (j: nat) => f(j + 1)
  }

  lemma PowersCancel(tw: Twiddles, n: nat, d: nat)
    requires RootsOfUnity(tw) && 0 < d < n && tw(n, d) != ONE
    ensures Sum(Powers(tw, n, d), n) == ZERO
  {
    hide RootsOfUnity, Mul, Add, Sum, Powers;
    var f := Powers(tw, n, d);
    forall j: nat | j < n ensures Rotated(f)(j) == Mul(f(j), tw(n, d)) {
      PowerSteps(tw, n, d, j);
    }
    PowersRepeat(tw, n, d);
    RotationCancels(f, tw(n, d), n);
  }

  lemma {:induction false} OnesAdd(f: nat -> Cpx, n: nat)
    requires forall j: nat :: j < n ==> f(j) == ONE
    ensures Sum(f, n) == Cpx(n as real, 0.0)
  {
    if n > 0 { OnesAdd(f, n - 1); }
  }

  // ---- swapping a double sum ----

  function Across(f: (nat, nat) -> Cpx, j: nat): nat -> Cpx {
    (i: nat) => f(i, j)
  }

  function Down(f: (nat, nat) -> Cpx, i: nat): nat -> Cpx {
    (j: nat) => f(i, j)
  }

  function AcrossSums(f: (nat, nat) -> Cpx, m: nat): nat -> Cpx {
    (j: nat) => Sum(Across(f, j), m)
  }

  function DownSums(f: (nat, nat) -> Cpx, n: nat): nat -> Cpx {
    (i: nat) => Sum(Down(f, i), n)
  }

  lemma {:induction false} SumSwaps(f: (nat, nat) -> Cpx, m: nat, n: nat)
    ensures Sum(AcrossSums(f, m), n) == Sum(DownSums(f, n), m)
  {
    if n == 0 {
      SumOfZeros(DownSums(f, 0), m);
    } else {
      SumSwaps(f, m, n - 1);
      SumAdds(DownSums(f, n - 1), Across(f, n - 1), DownSums(f, n), m);
    }
  }

  // ---- inversion ----

  function Spectrum(tw: Twiddles, v: seq<Cpx>): (s: seq<Cpx>)
    ensures |s| == |v|
  {
    seq(|v|, k requires 0 <= k < |v| => Dft(tw, v, k))
  }

  function Scaled(n: nat, c: Cpx): Cpx {
    Cpx(n as real * c.re, n as real * c.im)
  }

  /** What sample i contributes to bin j, carried back to sample k. */
  function Share(fwd: Twiddles, bwd: Twiddles, v: seq<Cpx>, k: nat): (nat, nat) -> Cpx
    requires k < |v|
  {
    (i: nat, j: nat) => if i < |v| then Mul(Term(fwd, v, j, i), bwd(|v|, Wrap(k * j, |v|))) else ZERO
  }

  lemma BinIsAcross(fwd: Twiddles, bwd: Twiddles, v: seq<Cpx>, k: nat, j: nat)
    requires k < |v| && j < |v|
    ensures Terms(bwd, Spectrum(fwd, v), k)(j) == Sum(Across(Share(fwd, bwd, v, k), j), |v|)
  {
    var w := bwd(|v|, Wrap(k * j, |v|));
    var f, g := Terms(fwd, v, j), Across(Share(fwd, bwd, v, k), j);
    forall i: nat | i < |v| ensures g(i) == Mul(f(i), w) { AcrossIs(fwd, bwd, v, k, j, i); }
    TermOfSpectrum(fwd, bwd, v, k, j);
    hide *;
    DftIsSum(fwd, v, j);
    SumScales(f, g, w, |v|);
  }

  lemma AcrossIs(fwd: Twiddles, bwd: Twiddles, v: seq<Cpx>, k: nat, j: nat, i: nat)
    requires k < |v| && j < |v| && i < |v|
    ensures Across(Share(fwd, bwd, v, k), j)(i) == Mul(Terms(fwd, v, j)(i), bwd(|v|, Wrap(k * j, |v|)))
  {
  }

  lemma TermOfSpectrum(fwd: Twiddles, bwd: Twiddles, v: seq<Cpx>, k: nat, j: nat)
    requires k < |v| && j < |v|
    ensures Terms(bwd, Spectrum(fwd, v), k)(j) == Mul(Dft(fwd, v, j), bwd(|v|, Wrap(k * j, |v|)))
  {
  }

  lemma DftIsSum(tw: Twiddles, v: seq<Cpx>, j: nat)
    ensures Dft(tw, v, j) == Sum(Terms(tw, v, j), |v|)
  {
  }

  /** The distance from sample k to sample i, around the circle of n. */
  function Distance(i: nat, k: nat, n: nat): nat
    requires i < n && k < n
  {
    Wrap(i + Negated(k, n), n)
  }

  lemma DistanceZero(i: nat, k: nat, n: nat)
    requires i < n && k < n
    ensures Distance(i, k, n) < n && (Distance(i, k, n) == 0 <==> i == k)
  {
  }

  lemma WrapOfSum(a: nat, b: nat, n: nat)
    requires n > 0
    ensures Wrap(a + b, n) == Wrap(Wrap(a, n) + Wrap(b, n), n)
  {
    WrapAdds(a, b, n);
  }

  lemma WrapOfProduct(a: nat, j: nat, n: nat)
    requires n > 0
    ensures Wrap(a * j, n) == Wrap(Wrap(a, n) * j, n)
  {
    WrapMultiplies(a, j, n);
  }

  lemma Distributes(i: nat, b: nat, j: nat)
    ensures j * i + b * j == (i + b) * j
  {
  }

  lemma AnglesJoin(i: nat, k: nat, j: nat, n: nat)
    requires i < n && k < n
    ensures Wrap(k * j, n) < n
    ensures Wrap(Wrap(j * i, n) + Negated(Wrap(k * j, n), n), n) == Wrap(Distance(i, k, n) * j, n)
  {
    hide Wrap, Negated;
    var b := Negated(k, n);
    NegatedTimes(k, j, n);
    WrapOfSum(j * i, b * j, n);
    Distributes(i, b, j);
    WrapOfProduct(i + b, j, n);
  }

  lemma NegatedTimes(k: nat, j: nat, n: nat)
    requires k < n
    ensures Wrap(k * j, n) < n
    ensures Negated(Wrap(k * j, n), n) == Wrap(Negated(k, n) * j, n)
  {
    var c := Negated(k, n);
    var a, b := Wrap(k * j, n), Wrap(c * j, n);
    assert a < n && b < n;
    NegatedCancels(k, n);
    assert Wrap(0, n) == 0;
    hide Wrap, Negated;
    WrapOfSum(k * j, c * j, n);
    assert k * j + c * j == (k + c) * j;
    WrapOfProduct(k + c, j, n);
    assert 0 * j == 0;
    OppositeUnique(a, b, n);
  }

  lemma OppositeUnique(a: nat, b: nat, n: nat)
    requires a < n && b < n && Wrap(a + b, n) == 0
    ensures b == Negated(a, n)
  {
  }

  lemma TwiddlesMultiply(fwd: Twiddles, bwd: Twiddles, a: nat, b: nat, n: nat)
    requires ForwardAndBackward(fwd, bwd) && a < n && b < n
    ensures Mul(fwd(n, a), bwd(n, b)) == fwd(n, Wrap(a + Negated(b, n), n))
  {
    hide Mul;
    BackwardIsNegatedForward(fwd, bwd, n, b);
    assert RootsOfUnity(fwd);
  }

  function Angle(k: nat, j: nat, n: nat): (a: nat)
    requires n > 0
    ensures a < n
  {
    Wrap(k * j, n)
  }

  lemma AnglesMeet(i: nat, k: nat, j: nat, n: nat)
    requires i < n && k < n
    ensures Wrap(Angle(j, i, n) + Negated(Angle(k, j, n), n), n) == Angle(Distance(i, k, n), j, n)
  {
    hide Wrap, Negated, Distance;
    AnglesJoin(i, k, j, n);
  }

  lemma TwiddlesJoin(fwd: Twiddles, bwd: Twiddles, i: nat, k: nat, j: nat, n: nat)
    requires ForwardAndBackward(fwd, bwd) && i < n && k < n
    ensures Mul(fwd(n, Angle(j, i, n)), bwd(n, Angle(k, j, n))) == fwd(n, Angle(Distance(i, k, n), j, n))
  {
    hide *;
    AnglesMeet(i, k, j, n);
    TwiddlesMultiply(fwd, bwd, Angle(j, i, n), Angle(k, j, n), n);
  }

  lemma ShareIsPower(fwd: Twiddles, bwd: Twiddles, v: seq<Cpx>, k: nat, i: nat, j: nat)
    requires ForwardAndBackward(fwd, bwd) && k < |v| && i < |v|
    ensures Share(fwd, bwd, v, k)(i, j) == Mul(Powers(fwd, |v|, Distance(i, k, |v|))(j), v[i])
  {
    hide ForwardAndBackward, Wrap, Distance, Mul;
    var n := |v|;
    var a, b := Wrap(j * i, n), Wrap(k * j, n);
    TwiddlesJoin(fwd, bwd, i, k, j, n);
    MulAssociates(v[i], fwd(n, a), bwd(n, b));
    MulCommutes(v[i], Powers(fwd, n, Distance(i, k, n))(j));
  }

  lemma PowersAdd(fwd: Twiddles, bwd: Twiddles, n: nat, d: nat)
    requires ForwardAndBackward(fwd, bwd) && d < n
    ensures Sum(Powers(fwd, n, d), n) == if d == 0 then Cpx(n as real, 0.0) else ZERO
  {
    hide Mul, Sum;
    assert RootsOfUnity(fwd);
    if d == 0 {
      forall j: nat | j < n ensures Powers(fwd, n, d)(j) == ONE {
        DivModUnique(0, n, 0, 0);
        assert 0 * j == 0 && Wrap(0, n) == 0;
      }
      OnesAdd(Powers(fwd, n, d), n);
    } else {
      PowersCancel(fwd, n, d);
    }
  }

  lemma ShareOf(fwd: Twiddles, bwd: Twiddles, v: seq<Cpx>, k: nat, i: nat)
    requires ForwardAndBackward(fwd, bwd) && k < |v| && i < |v|
    ensures Sum(Down(Share(fwd, bwd, v, k), i), |v|) == if i == k then Scaled(|v|, v[k]) else ZERO
  {
    hide ForwardAndBackward, Sum, Distance, Powers, Share;
    var n, d := |v|, Distance(i, k, |v|);
    DistanceZero(i, k, n);
    PowersAdd(fwd, bwd, n, d);
    var g := Down(Share(fwd, bwd, v, k), i);
    forall j: nat | j < n ensures g(j) == Mul(Powers(fwd, n, d)(j), v[i]) {
      ShareIsPower(fwd, bwd, v, k, i, j);
    }
    SumScales(Powers(fwd, n, d), g, v[i], n);
  }

  lemma {:induction false} OnlyOne(f: nat -> Cpx, k: nat, n: nat)
    requires forall i: nat :: i < n && i != k ==> f(i) == ZERO
    ensures Sum(f, n) == if k < n then f(k) else ZERO
  {
    if n > 0 { OnlyOne(f, k, n - 1); }
  }

  /** Transforming forward and then backward multiplies every sample by n. */
  lemma BackwardUndoesForward(fwd: Twiddles, bwd: Twiddles, v: seq<Cpx>, k: nat)
    requires ForwardAndBackward(fwd, bwd) && k < |v|
    ensures Dft(bwd, Spectrum(fwd, v), k) == Scaled(|v|, v[k])
  {
    hide ForwardAndBackward, Term;
    var n, f := |v|, Share(fwd, bwd, v, k);
    forall j: nat | j < n ensures Terms(bwd, Spectrum(fwd, v), k)(j) == AcrossSums(f, n)(j) {
      BinIsAcross(fwd, bwd, v, k, j);
    }
    SumExt(Terms(bwd, Spectrum(fwd, v), k), AcrossSums(f, n), n);
    SumSwaps(f, n, n);
    forall i: nat | i < n ensures DownSums(f, n)(i) == if i == k then Scaled(n, v[k]) else ZERO {
      ShareOf(fwd, bwd, v, k, i);
    }
    OnlyOne(DownSums(f, n), k, n);
  }
}
