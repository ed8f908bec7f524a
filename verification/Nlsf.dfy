/** The root search silkA2NLSF of internal/voip/media/mlow/lpc.go, over unbounded integers. */
module Nlsf {
  import opened Arith

  const COS_TAB_SIZE: nat := 128
  const BIN_DIV_STEPS: nat := 3
  const MAX_ITERATIONS: nat := 16
  const INT16_MAX: int := 32767

  /** Go's / rounds toward zero. */
  function Quo(a: int, b: int): (q: int)
    requires b != 0
    ensures a >= 0 && b > 0 ==> q == a / b
    ensures a <= 0 && b < 0 ==> q == -a / -b
  {
    if (a >= 0) == (b > 0) then Magnitude(a) / Magnitude(b) else -(Magnitude(a) / Magnitude(b))
  }

  function Magnitude(a: int): nat {
    if a < 0 then -a else a
  }

  /** a >> n rounds down. */
  function Shr(a: int, n: nat): int {
    a / Pow2(n)
  }

  function Pow2(n: nat): (p: nat)
    ensures p > 0
  {
    if n == 0 then 1 else 2 * Pow2(n - 1)
  }

  function RshiftRound(a: int, shift: nat): int
    requires shift > 0
  {
    if shift == 1 then Shr(a, 1) + a % 2 else Shr(Shr(a, shift - 1) + 1, 1)
  }

  /** Adds b c, a product in Q16, rounded down. */
  function Smlaww(a: int, b: int, c: int): (r: int)
    ensures (r - a) * 65536 <= b * c < (r - a + 1) * 65536
  {
    assert Pow2(6) == 64 && Pow2(11) == 2048 && Pow2(16) == 65536;
    a + Shr(b * c, 16)
  }

  // ---- the change of basis ----

  /** 1, x, then c(n) = x c(n-1) - c(n-2) with c(2) = x x - 2: twice the cosine of n times the angle. */
  function Cosine(n: nat, x: int): int {
    if n == 0 then 1 else if n == 1 then x else if n == 2 then x * x - 2
    else x * Cosine(n - 1, x) - Cosine(n - 2, x)
  }

  function Power(x: int, n: nat): int {
    if n == 0 then 1 else Power(x, n - 1) * x
  }

  /** Powers up to k, and from there on power k - 1 times the cosines. */
  function Basis(k: nat, n: nat, x: int): int
    requires k >= 1
  {
    if n <= k then Power(x, n) else Power(x, k - 1) * Cosine(n + 1 - k, x)
  }

  /** Indices above split are already on stage k, the others on stage k - 1. */
  function Mixed(k: nat, split: int, x: int): nat -> int
    requires k >= 2
  {
    (n: nat) => if n > split then Basis(k, n, x) else Basis(k - 1, n, x)
  }

  /** The first m coefficients of p weighed by the values of a basis. */
  function Weigh(p: seq<int>, w: nat -> int, m: nat): int
    requires m <= |p|
  {
    if m == 0 then 0 else Weigh(p, w, m - 1) + p[m - 1] * w(m - 1)
  }

  /** The value at x of a polynomial given over powers. */
  function InPowers(p: seq<int>, x: int): int {
    Weigh(p, Powers(x), |p|)
  }

  function Powers(x: int): nat -> int {
    (n: nat) => Power(x, n)
  }

  function Cosines(x: int): nat -> int {
    (n: nat) => Cosine(n, x)
  }

  /** The value of a polynomial given over the cosines, x being twice the cosine of the angle. */
  function InCosines(p: seq<int>, x: int): int {
    Weigh(p, Cosines(x), |p|)
  }

  lemma {:induction false} WeighSame(p: seq<int>, v: nat -> int, w: nat -> int, m: nat)
    requires m <= |p| && forall n: nat :: n < m ==> v(n) == w(n)
    ensures Weigh(p, v, m) == Weigh(p, w, m)
  {
    if m > 0 { WeighSame(p, v, w, m - 1); }
  }

  /** Lowering p[i] by f p[n] pays for raising the n-th basis value by f times the i-th. */
  lemma {:induction false} WeighMoves(p: seq<int>, v: nat -> int, w: nat -> int, i: nat, n: nat, f: int, m: nat)
    requires i < n < |p| && m <= |p|
    requires w(n) == v(n) + f * v(i)
    requires forall j: nat :: j < m && j != n ==> w(j) == v(j)
    ensures Weigh(p[i := p[i] - f * p[n]], w, m) - Weigh(p, v, m)
         == (if i < m then -(f * p[n] * v(i)) else 0) + (if n < m then f * p[n] * v(i) else 0)
  {
    if m > 0 {
      WeighMoves(p, v, w, i, n, f, m - 1);
      MoveAlgebra(p[i], p[n], v(i), v(n), f);
    }
  }

  lemma MoveAlgebra(a: int, b: int, vi: int, vn: int, f: int)
    ensures (a - f * b) * vi == a * vi - f * b * vi
    ensures b * (vn + f * vi) == b * vn + f * b * vi
  {
  }

  lemma PowerUp(x: int, k: nat)
    requires k >= 2
    ensures Power(x, k - 1) == Power(x, k - 2) * x
    ensures Power(x, k) == Power(x, k - 1) * x
  {
  }

  lemma CosineUp(n: nat, x: int)
    requires n >= 1
    ensures Cosine(n + 2, x) + Cosine(n, x) == x * Cosine(n + 1, x)
    ensures Cosine(1, x) == x && Cosine(2, x) == x * x - 2
  {
  }

  lemma BasisStays(k: nat, n: nat, x: int)
    requires n < k && k >= 2
    ensures Basis(k, n, x) == Basis(k - 1, n, x)
  {
  }

  lemma BasisMeets(k: nat, x: int)
    requires k >= 2
    ensures Basis(k, k, x) == Basis(k - 1, k, x) + 2 * Basis(k - 1, k - 2, x)
  {
    hide Power, Cosine;
    PowerUp(x, k);
    CosineUp(1, x);
    TopAlgebra(Power(x, k - 2), x);
  }

  lemma TopAlgebra(a: int, x: int)
    ensures a * (x * x - 2) + 2 * a == (a * x) * x
  {
  }

  lemma BasisFolds(k: nat, n: nat, x: int)
    requires n > k >= 2
    ensures Basis(k, n, x) == Basis(k - 1, n, x) + Basis(k - 1, n - 2, x)
  {
  }

  /** One assignment of the inner loop, or the last one of the stage with f = 2. */
  lemma StageMoves(p: seq<int>, k: nat, n: nat, x: int)
    requires 2 <= k <= n < |p|
    ensures var f := if n == k then 2 else 1;
            Weigh(p[n - 2 := p[n - 2] - f * p[n]], Mixed(k, n - 1, x), |p|) == Weigh(p, Mixed(k, n, x), |p|)
  {
    hide Basis, Weigh;
    if n == k { BasisMeets(k, x); } else { BasisFolds(k, n, x); }
    WeighMoves(p, Mixed(k, n, x), Mixed(k, n - 1, x), n - 2, n, if n == k then 2 else 1, |p|);
  }

  lemma StageEnds(p: seq<int>, k: nat, x: int)
    requires k >= 2
    ensures Weigh(p, Mixed(k, k - 1, x), |p|) == Weigh(p, Mixed(k + 1, |p|, x), |p|)
  {
    hide Basis, Weigh;
    forall n: nat | n < k ensures Basis(k, n, x) == Basis(k - 1, n, x) { BasisStays(k, n, x); }
    WeighSame(p, Mixed(k, k - 1, x), Mixed(k + 1, |p|, x), |p|);
  }

  lemma FirstStage(p: seq<int>, x: int)
    ensures Weigh(p, Mixed(2, |p|, x), |p|) == InCosines(p, x)
  {
    hide Weigh;
    forall n: nat | n < |p| ensures Mixed(2, |p|, x)(n) == Cosine(n, x) { BasisOne(n, x); }
    WeighSame(p, Mixed(2, |p|, x), Cosines(x), |p|);
  }

  lemma BasisOne(n: nat, x: int)
    ensures Basis(1, n, x) == Cosine(n, x)
  {
    assert Power(x, 0) == 1;
    if n == 1 { assert Power(x, 1) == Power(x, 0) * x; }
  }

  lemma BasisLow(k: nat, n: nat, x: int)
    requires n <= k && k >= 1
    ensures Basis(k, n, x) == Power(x, n)
  {
  }

  lemma LastStage(p: seq<int>, k: nat, x: int)
    requires k >= 2 && |p| <= k
    ensures Weigh(p, Mixed(k, |p|, x), |p|) == InPowers(p, x)
  {
    hide Weigh;
    forall n: nat | n < |p| ensures Mixed(k, |p|, x)(n) == Power(x, n) {
      assert Mixed(k, |p|, x)(n) == Basis(k - 1, n, x);
      BasisLow(k - 1, n, x);
    }
    WeighSame(p, Mixed(k, |p|, x), Powers(x), |p|);
  }

  /** silkA2NLSFTransPoly: from twice the cosines of the multiples to powers, in place. */
  method TransPoly(p: array<int>)
    modifies p
    ensures forall x :: InPowers(p[..], x) == InCosines(old(p[..]), x)
  {
    hide Weigh, Mixed;
    var dd := p.Length - 1;
    ghost var start := p[..];
    forall x ensures Weigh(p[..], Mixed(2, |start|, x), |start|) == InCosines(start, x) { FirstStage(start, x); }
    var k := 2;
    while k <= dd
      invariant 2 <= k && (k <= dd + 1 || k == 2)
      invariant forall x :: Weigh(p[..], Mixed(k, |start|, x), |start|) == InCosines(start, x)
    {
      var n := dd;
      forall x ensures Weigh(p[..], Mixed(k, n, x), |start|) == InCosines(start, x) { SplitAtEnd(p[..], k, x); }
      while n >= k + 1
        invariant k <= n <= dd
        invariant forall x :: Weigh(p[..], Mixed(k, n, x), |start|) == InCosines(start, x)
      {
        ghost var s := p[..];
        forall x ensures Weigh(s[n - 2 := s[n - 2] - 1 * s[n]], Mixed(k, n - 1, x), |s|) == InCosines(start, x) {
          StageMoves(s, k, n, x);
        }
        p[n - 2] := p[n - 2] - p[n];
        assert p[..] == s[n - 2 := s[n - 2] - 1 * s[n]];
        n := n - 1;
      }
      ghost var s := p[..];
      forall x ensures Weigh(s[k - 2 := s[k - 2] - 2 * s[k]], Mixed(k, k - 1, x), |s|) == InCosines(start, x) {
        StageMoves(s, k, k, x);
      }
      p[k - 2] := p[k - 2] - 2 * p[k];
      assert p[..] == s[k - 2 := s[k - 2] - 2 * s[k]];
      forall x ensures Weigh(p[..], Mixed(k + 1, |start|, x), |start|) == InCosines(start, x) { StageEnds(p[..], k, x); }
      k := k + 1;
    }
    forall x ensures InPowers(p[..], x) == InCosines(start, x) { LastStage(p[..], k, x); }
  }

  lemma SplitAtEnd(p: seq<int>, k: nat, x: int)
    requires k >= 2
    ensures Weigh(p, Mixed(k, |p| - 1, x), |p|) == Weigh(p, Mixed(k, |p|, x), |p|)
  {
    WeighSame(p, Mixed(k, |p| - 1, x), Mixed(k, |p|, x), |p|);
  }

  // ---- fixed-point evaluation ----

  /** Horner's rule in Q16 over coefficients n and up. */
  function Horner(p: seq<int>, xQ16: int, n: nat): int
    requires n < |p|
    decreases |p| - n
  {
    if n == |p| - 1 then p[n] else Smlaww(p[n], Horner(p, xQ16, n + 1), xQ16)
  }

  method EvalPoly(p: array<int>, x: int) returns (y32: int)
    requires p.Length > 0
    ensures y32 == Horner(p[..], x * 16, 0)
  {
    var xQ16 := x * 16;
    var n := p.Length - 1;
    y32 := p[n];
    while n > 0
      invariant 0 <= n < p.Length
      invariant y32 == Horner(p[..], xQ16, n)
    {
      n := n - 1;
      y32 := Smlaww(p[n], y32, xQ16);
    }
  }

  // ---- the two polynomials ----

  function Signed(sign: int, v: int): int {
    if sign < 0 then -v else v
  }

  /** Dividing out the known root: coefficient k plus sign times the quotient's next one. */
  function Divided(raw: seq<int>, sign: int, k: nat): int
    requires k < |raw|
    decreases |raw| - k
  {
    if k == |raw| - 1 then raw[k] else raw[k] + Signed(sign, Divided(raw, sign, k + 1))
  }

  function Quotient(raw: seq<int>, sign: int): (q: seq<int>)
    ensures |q| == |raw|
  {
    seq(|raw|, k requires 0 <= k < |raw| => Divided(raw, sign, k))
  }

  /** Half of the symmetric (sign -1) or antisymmetric (sign 1) polynomial of the filter. */
  function Half(a: seq<int>, dd: nat, sign: int): (h: seq<int>)
    requires |a| == 2 * dd
    ensures |h| == dd + 1
  {
    seq(dd, k requires 0 <= k < dd => Signed(sign, a[dd + k]) - a[dd - k - 1]) + [65536]
  }

  /** Coefficient j of 1 - a[0] z - a[1] z^2 - ..., the whitening filter in Q16. */
  function Whitening(a: seq<int>, j: int): int {
    if j == 0 then 65536 else if 1 <= j <= |a| then -a[j - 1] else 0
  }

  /** Coefficient j of the symmetric polynomial whose upper half is q. */
  function Mirrored(q: seq<int>, dd: nat, j: int): int
    requires |q| == dd + 1
  {
    if 0 <= j <= dd then q[dd - j] else if dd < j <= 2 * dd then q[j - dd] else 0
  }

  lemma SignedIs(sign: int, v: int)
    requires sign == 1 || sign == -1
    ensures Signed(sign, v) == sign * v
  {
  }

  lemma HalfIs(a: seq<int>, dd: nat, sign: int, k: nat)
    requires |a| == 2 * dd && k <= dd && (sign == 1 || sign == -1)
    ensures Half(a, dd, sign)[k] == Whitening(a, dd - k) - sign * Whitening(a, dd + 1 + k)
  {
    if k < dd { SignedIs(sign, a[dd + k]); }
  }

  lemma QuotientIs(raw: seq<int>, sign: int, k: nat)
    requires k < |raw| && (sign == 1 || sign == -1)
    ensures Quotient(raw, sign)[k] == raw[k] + if k + 1 < |raw| then sign * Quotient(raw, sign)[k + 1] else 0
  {
  }

  /** The polynomial that is searched, times 1 - sign z, is that of the filter less (sign 1) or plus (sign -1) the same
      read backwards: coefficient by coefficient, for the two ends as well. */
  lemma RootDividedOut(a: seq<int>, dd: nat, sign: int, j: int)
    requires |a| == 2 * dd && (sign == 1 || sign == -1)
    ensures var q := Quotient(Half(a, dd, sign), sign);
            Mirrored(q, dd, j) - sign * Mirrored(q, dd, j - 1) == Whitening(a, j) - sign * Whitening(a, 2 * dd + 1 - j)
  {
    hide Half, Quotient, Whitening;
    var h := Half(a, dd, sign);
    if 0 <= j <= dd {
      QuotientIs(h, sign, dd - j);
      HalfIs(a, dd, sign, dd - j);
    } else if dd < j <= 2 * dd + 1 {
      QuotientIs(h, sign, j - dd - 1);
      HalfIs(a, dd, sign, j - dd - 1);
      var u, v := Whitening(a, 2 * dd + 1 - j), Whitening(a, j);
      assert sign == 1 ==> h[j - dd - 1] == u - v;
      assert sign == -1 ==> h[j - dd - 1] == u + v;
    } else {
      NoCoefficient(a, j);
      NoCoefficient(a, 2 * dd + 1 - j);
    }
  }

  lemma NoCoefficient(a: seq<int>, j: int)
    requires j < 0 || j > |a|
    ensures Whitening(a, j) == 0
  {
  }

  /** silkA2NLSFInit for one of the polynomials. */
  method InitPoly(aQ16: array<int>, p: array<int>, sign: int)
    requires p.Length > 0 && aQ16.Length == 2 * (p.Length - 1) && p != aQ16
    requires sign == 1 || sign == -1
    modifies p
    ensures forall x :: InPowers(p[..], x) == InCosines(Quotient(Half(aQ16[..], p.Length - 1, sign), sign), x)
  {
    FillPoly(aQ16, p, sign);
    TransPoly(p);
  }

  /** The coefficients before the change of basis. */
  method FillPoly(aQ16: array<int>, p: array<int>, sign: int)
    requires p.Length > 0 && aQ16.Length == 2 * (p.Length - 1) && p != aQ16
    modifies p
    ensures p[..] == Quotient(Half(aQ16[..], p.Length - 1, sign), sign)
  {
    var dd := p.Length - 1;
    p[dd] := 65536;
    for k := 0 to dd
      invariant p[dd] == 65536
      invariant forall j :: 0 <= j < k ==> p[j] == Signed(sign, aQ16[dd + j]) - aQ16[dd - j - 1]
    {
      p[k] := Signed(sign, aQ16[dd + k]) - aQ16[dd - k - 1];
    }
    assert p[..] == Half(aQ16[..], dd, sign);
    DivideOut(p, sign);
  }

  method DivideOut(p: array<int>, sign: int)
    requires p.Length > 0
    modifies p
    ensures p[..] == Quotient(old(p[..]), sign)
  {
    ghost var raw := p[..];
    var k := p.Length - 1;
    while k >= 1
      invariant 0 <= k < p.Length
      invariant forall j :: k <= j < p.Length ==> p[j] == Divided(raw, sign, j)
      invariant forall j :: 0 <= j < k ==> p[j] == raw[j]
    {
      p[k - 1] := p[k - 1] + Signed(sign, p[k]);
      k := k - 1;
    }
  }

  /** The i-th factor of the expansion: each is the last one times the first, rounded. */
  function Chirp(chirpQ16: int, i: nat): int {
    if i == 0 then chirpQ16
    else Chirp(chirpQ16, i - 1) + RshiftRound(Chirp(chirpQ16, i - 1) * (chirpQ16 - 65536), 16)
  }

  /** The rounded shift is within half a unit of the quotient. */
  lemma RoundedNear(a: int, shift: nat)
    requires shift > 0
    ensures 0 - Pow2(shift - 1) <= Pow2(shift) * RshiftRound(a, shift) - a <= Pow2(shift - 1)
  {
    var h := Pow2(shift - 1);
    assert Pow2(shift) == 2 * h && Pow2(1) == 2 * Pow2(0) == 2;
    if shift > 1 {
      var q, r := a / h, RshiftRound(a, shift);
      assert a == h * q + a % h && 0 <= a % h < h;
      assert r == (q + 1) / 2;
      var e := (q + 1) % 2;
      assert 2 * r == q + 1 - e;
      HalfUnits(h, q, r, e);
    }
  }

  lemma HalfUnits(h: int, q: int, r: int, e: int)
    requires 2 * r == q + 1 - e && (e == 0 || e == 1)
    ensures 2 * h * r == h * q + h - h * e && (e == 0 ==> h * e == 0) && (e == 1 ==> h * e == h)
  {
  }

  function RealPower(r: real, i: nat): real {
    if i == 0 then 1.0 else RealPower(r, i - 1) * r
  }

  predicate Near(c: int, ideal: real, e: real) {
    -e <= c as real - ideal <= e
  }

  function IdealChirp(chirpQ16: int, i: nat): real {
    chirpQ16 as real * RealPower(chirpQ16 as real / 65536.0, i)
  }

  lemma IdealStep(chirpQ16: int, i: nat)
    ensures IdealChirp(chirpQ16, 0) == chirpQ16 as real
    ensures IdealChirp(chirpQ16, i + 1) == IdealChirp(chirpQ16, i) * (chirpQ16 as real / 65536.0)
  {
  }

  lemma RoundedNear16(a: int)
    ensures -32768 <= 65536 * RshiftRound(a, 16) - a <= 32768
  {
    RoundedNear(a, 16);
    assert Pow2(16) == 65536 && Pow2(15) == 32768 by { assert Pow2(4) == 16; assert Pow2(8) == 256; assert Pow2(12) == 4096; }
  }

  /** Factor i is the i-th power of the expansion, times the first factor, but for half a unit of rounding a step. */
  lemma {:induction false} ChirpIsPower(chirpQ16: int, i: nat)
    requires 0 <= chirpQ16 <= 65536
    ensures Near(Chirp(chirpQ16, i), IdealChirp(chirpQ16, i), i as real / 2.0)
  {
    hide RshiftRound, IdealChirp;
    IdealStep(chirpQ16, if i > 0 then i - 1 else 0);
    if i > 0 {
      ChirpIsPower(chirpQ16, i - 1);
      var c := Chirp(chirpQ16, i - 1);
      RoundedNear16(c * (chirpQ16 - 65536));
      ErrorGrows(c, RshiftRound(c * (chirpQ16 - 65536), 16), chirpQ16, chirpQ16 as real / 65536.0, IdealChirp(chirpQ16, i - 1), (i - 1) as real / 2.0);
    }
  }

  lemma ErrorGrows(c: int, s: int, chirpQ16: int, r: real, ideal: real, e: real)
    requires 0 <= chirpQ16 <= 65536 && r == chirpQ16 as real / 65536.0 && e >= 0.0
    requires -32768 <= 65536 * s - c * (chirpQ16 - 65536) <= 32768
    requires Near(c, ideal, e)
    ensures Near(c + s, ideal * r, e + 0.5)
  {
    var d := c as real - ideal;
    assert 0.0 <= r <= 1.0;
    Scaled(d, e, r);
    assert (c * (chirpQ16 - 65536)) as real == c as real * (chirpQ16 as real - 65536.0);
    assert chirpQ16 as real == r * 65536.0;
    assert c as real * (r * 65536.0 - 65536.0) == 65536.0 * (c as real * r - c as real);
    assert c as real * r == ideal * r + d * r;
  }

  lemma Scaled(d: real, e: real, r: real)
    requires -e <= d <= e && 0.0 <= r <= 1.0
    ensures -e <= d * r <= e
  {
    if d >= 0.0 { assert d * r <= d; } else { assert d * r >= d; }
  }

  /** silkBwexpander32: the last coefficient gets a factor of its own after the loop. */
  method Bwexpander32(ar: array<int>, d: nat, chirpQ16: int)
    requires 0 < d <= ar.Length
    modifies ar
    ensures forall i: nat :: i < d ==> ar[i] == Shr(Chirp(chirpQ16, i) * old(ar[i]), 16)
    ensures forall i :: d <= i < ar.Length ==> ar[i] == old(ar[i])
  {
    hide Shr, RshiftRound;
    var chirp := chirpQ16;
    var chirpMinusOne := chirpQ16 - 65536;
    for i := 0 to d - 1
      invariant chirp == Chirp(chirpQ16, i)
      invariant forall j: nat :: j < i ==> ar[j] == Shr(Chirp(chirpQ16, j) * old(ar[j]), 16)
      invariant forall j :: i <= j < ar.Length ==> ar[j] == old(ar[j])
    {
      ar[i] := Shr(chirp * ar[i], 16);
      chirp := chirp + RshiftRound(chirp * chirpMinusOne, 16);
    }
    ar[d - 1] := Shr(chirp * ar[d - 1], 16);
  }

  // ---- one root ----

  /** The values at the two ends of a bracket do not have the same strict sign. */
  predicate Opposite(ylo: int, yhi: int) {
    (ylo <= 0 && yhi >= 0) || (ylo >= 0 && yhi <= 0)
  }

  lemma SmallQuotient(y: int, z: int)
    requires Opposite(y, z) && y != z
    ensures 0 <= Quo(y * 32 + Shr(y - z, 1), y - z) <= 33
  {
    var den := y - z;
    assert Shr(den, 1) == den / 2;
    var nom := y * 32 + den / 2;
    if den > 0 {
      QuotientAtMost(nom, den, 33);
    } else {
      QuotientAtMost(-nom, -den, 33);
    }
  }

  lemma QuotientAtMost(a: int, b: int, m: nat)
    requires 0 <= a && 0 < b && a <= m * b
    ensures 0 <= a / b <= m
  {
  }

  lemma LargeQuotient(y: int, z: int)
    requires Opposite(y, z) && Magnitude(y) >= 65536
    ensures Shr(y - z, 5) != 0 && 0 <= Quo(y, Shr(y - z, 5)) <= 32
  {
    var x := y - z;
    assert Pow2(5) == 32 by { assert Pow2(3) == 8; }
    var den := Shr(x, 5);
    assert den == x / 32;
    if y > 0 {
      assert y <= 32 * den + 31 && den >= 2048;
      assert y < 33 * den;
      QuotientBelow(y, den, 33);
    } else {
      assert -y <= 32 * -den;
      QuotientAtMost(-y, -den, 32);
    }
  }

  lemma QuotientBelow(a: int, b: int, m: nat)
    requires 0 <= a && 0 < b && a < m * b
    ensures 0 <= a / b < m
  {
  }

  /** Two points with the polynomial's values there. */
  datatype Bracket = Bracket(xa: int, ya: int, xb: int, yb: int)

  function EvalAt(p: seq<int>, x: int): int
    requires p != []
  {
    Horner(p, x * 16, 0)
  }

  /** The bracket after halving along a path; true is the upper half. */
  function Descend(p: seq<int>, b: Bracket, path: seq<bool>): Bracket
    requires p != []
  {
    if path == [] then b
    else
      var c := Descend(p, b, path[..|path| - 1]);
      var x := RshiftRound(c.xa + c.xb, 1);
      if path[|path| - 1] then Bracket(x, EvalAt(p, x), c.xb, c.yb) else Bracket(c.xa, c.ya, x, EvalAt(p, x))
  }

  /** Where the path leads within the cell, in 256ths. */
  function Offset(path: seq<bool>): nat
    requires |path| <= BIN_DIV_STEPS
  {
    if path == [] then 0
    else Offset(path[..|path| - 1]) + if path[|path| - 1] then Weight(|path| - 1) else 0
  }

  function Weight(m: nat): nat {
    if m == 0 then 128 else if m == 1 then 64 else 32
  }

  /** The linear step between the values at the ends of the last bracket. */
  function Linear(ya: int, yb: int): int
    requires Opposite(ya, yb)
  {
    if Magnitude(ya) < 65536 then
      if ya == yb then 0 else Quo(ya * 32 + Shr(ya - yb, 1), ya - yb)
    else
      LargeQuotient(ya, yb);
      Quo(ya, Shr(ya - yb, 5))
  }

  lemma LinearInRange(ya: int, yb: int)
    requires Opposite(ya, yb)
    ensures 0 <= Linear(ya, yb) <= 33
  {
    if Magnitude(ya) < 65536 {
      if ya != yb { SmallQuotient(ya, yb); }
    } else {
      LargeQuotient(ya, yb);
    }
  }

  /** The m-th choice follows the rule. */
  predicate HalvesAt(p: seq<int>, b: Bracket, before: seq<bool>, upper: bool)
    requires p != []
  {
    var c := Descend(p, b, before);
    upper <==> !Opposite(c.ya, EvalAt(p, RshiftRound(c.xa + c.xb, 1)))
  }

  /** The path takes the lower half whenever the polynomial changes sign there. */
  predicate Halves(p: seq<int>, b: Bracket, path: seq<bool>)
    requires p != []
  {
    forall m :: 0 <= m < |path| ==> HalvesAt(p, b, path[..m], path[m])
  }

  /** The eighth of the cell that three halvings lead to; the polynomial changes sign across it. */
  ghost predicate Refined(p: seq<int>, b: Bracket, path: seq<bool>) {
    p != [] && |path| == BIN_DIV_STEPS && Halves(p, b, path) && Opposite(Descend(p, b, path).ya, Descend(p, b, path).yb)
  }

  /** That eighth, and the linear step inside it. */
  ghost function Position(p: seq<int>, b: Bracket, path: seq<bool>): int
    requires Refined(p, b, path)
  {
    Offset(path) + Linear(Descend(p, b, path).ya, Descend(p, b, path).yb)
  }

  lemma DescendMore(p: seq<int>, b: Bracket, path: seq<bool>, upper: bool)
    requires p != []
    ensures
      var c := Descend(p, b, path);
      var x := RshiftRound(c.xa + c.xb, 1);
      Descend(p, b, path + [upper]) == if upper then Bracket(x, EvalAt(p, x), c.xb, c.yb) else Bracket(c.xa, c.ya, x, EvalAt(p, x))
  {
  }

  /** One halving more. */
  lemma HalvesMore(p: seq<int>, b: Bracket, path: seq<bool>, upper: bool)
    requires p != [] && Halves(p, b, path) && HalvesAt(p, b, path, upper)
    ensures Halves(p, b, path + [upper])
  {
    hide HalvesAt;
    var more := path + [upper];
    forall m | 0 <= m < |more| ensures HalvesAt(p, b, more[..m], more[m]) {
      if m < |path| { assert more[..m] == path[..m]; } else { assert more[..m] == path; }
    }
  }

  lemma OffsetMore(path: seq<bool>)
    requires |path| < BIN_DIV_STEPS
    ensures Offset(path + [false]) == Offset(path) && Offset(path + [true]) == Offset(path) + Weight(|path|)
  {
  }

  lemma HalvesNone(p: seq<int>, b: Bracket)
    requires p != []
    ensures Halves(p, b, []) && Descend(p, b, []) == b && Offset([]) == 0
  {
  }

  /** Three bisections and a linear step inside one grid cell. */
  method Refine(p: array<int>, xlo: int, ylo: int, xhi: int, yhi0: int) returns (ffrac: int, ghost path: seq<bool>)
    requires p.Length > 0 && Opposite(ylo, yhi0)
    ensures -256 <= ffrac <= 1
    ensures Refined(p[..], Bracket(xlo, ylo, xhi, yhi0), path)
    ensures ffrac + 256 == Position(p[..], Bracket(xlo, ylo, xhi, yhi0), path)
  {
    hide Horner, RshiftRound, Shr, Quo, Linear, Halves, Descend, Offset;
    HalvesNone(p[..], Bracket(xlo, ylo, xhi, yhi0));
    ghost var b := Bracket(xlo, ylo, xhi, yhi0);
    var yhi := yhi0;
    var xloL, yloL, xhiL := xlo, ylo, xhi;
    ffrac, path := -256, [];
    for m := 0 to BIN_DIV_STEPS
      invariant |path| == m && Descend(p[..], b, path) == Bracket(xloL, yloL, xhiL, yhi) && Opposite(yloL, yhi)
      invariant Halves(p[..], b, path)
      invariant ffrac == Offset(path) - 256
      invariant ffrac <= (if m == 0 then -256 else if m == 1 then -128 else if m == 2 then -64 else -32)
    {
      var xmid := RshiftRound(xloL + xhiL, 1);
      var ymid := EvalPoly(p, xmid);
      ghost var before := path;
      ghost var upper := !((yloL <= 0 && ymid >= 0) || (yloL >= 0 && ymid <= 0));
      DescendMore(p[..], b, before, upper);
      HalvesMore(p[..], b, before, upper);
      OffsetMore(before);
      if (yloL <= 0 && ymid >= 0) || (yloL >= 0 && ymid <= 0) {
        xhiL := xmid;
        yhi := ymid;
        path := before + [false];
      } else {
        xloL := xmid;
        yloL := ymid;
        ffrac := ffrac + Weight(m);
        path := before + [true];
      }
    }
    LinearInRange(yloL, yhi);
    LinearIs(yloL, yhi);
    if Magnitude(yloL) < 65536 {
      var den := yloL - yhi;
      var nom := yloL * 32 + Shr(den, 1);
      if den != 0 { ffrac := ffrac + Quo(nom, den); }
    } else {
      ffrac := ffrac + Quo(yloL, Shr(yloL - yhi, 5));
    }
  }

  lemma LinearIs(ya: int, yb: int)
    requires Opposite(ya, yb)
    ensures Magnitude(ya) < 65536 && ya == yb ==> Linear(ya, yb) == 0
    ensures Magnitude(ya) < 65536 && ya != yb ==> Linear(ya, yb) == Quo(ya * 32 + Shr(ya - yb, 1), ya - yb)
    ensures Magnitude(ya) >= 65536 ==> Shr(ya - yb, 5) != 0 && Linear(ya, yb) == Quo(ya, Shr(ya - yb, 5))
  {
  }

  // ---- the whole search ----

  /** How a root was found: at the very start, or in a grid cell from the value ylo at its lower end. */
  datatype Root = AtStart | InGrid(cell: nat, ylo: int, path: seq<bool>)

  /** The two polynomials of the filter, over powers. */
  datatype Pair = Pair(p: seq<int>, q: seq<int>)

  ghost predicate IsPair(polys: Pair, a: seq<int>, dd: nat) {
    |a| == 2 * dd && IsHalf(polys.p, a, dd, -1) && IsHalf(polys.q, a, dd, 1)
  }

  ghost predicate IsHalf(p: seq<int>, a: seq<int>, dd: nat, sign: int)
    requires |a| == 2 * dd
  {
    |p| == dd + 1 && forall x :: InPowers(p, x) == InCosines(Quotient(Half(a, dd, sign), sign), x)
  }

  /** Even roots are looked for in p, odd ones in q. */
  function Turn(polys: Pair, i: nat): seq<int> {
    if i % 2 == 1 then polys.q else polys.p
  }

  function Cell(r: Root): nat {
    if r.AtStart? then 1 else r.cell
  }

  /** What was found before a root: nothing yet, or the root before it. */
  datatype Before = First | After(root: Root)

  function BeforeRoot(roots: seq<Root>, i: nat): Before
    requires i <= |roots|
  {
    if i == 0 then First else After(roots[i - 1])
  }

  /** The grid cell in which the search for a root begins: that of the root before it. */
  function FirstCell(b: Before): nat {
    if b.After? then Cell(b.root) else 1
  }

  /** The search begins at the root before, inside this very cell. */
  predicate Inside(b: Before, cell: nat) {
    b.After? && b.root.InGrid? && b.root.cell == cell
  }

  /** The value at the lower end of a cell: that of the polynomial, but right behind a root the sign it must have there,
      positive for roots 0 and 1, negative for 2 and 3, and so on in turns. */
  function LowerValue(polys: Pair, cosTab: seq<int>, b: Before, i: nat, cell: nat): int
    requires |cosTab| == COS_TAB_SIZE + 1 && 1 <= cell <= COS_TAB_SIZE && Turn(polys, i) != []
  {
    if !Inside(b, cell) then EvalAt(Turn(polys, i), cosTab[cell - 1])
    else if i % 4 == 0 || i % 4 == 1 then 4096
    else -4096
  }

  /** The polynomial of root i changes sign across the cell. Right behind a root that lies on the upper end itself, zero
      there does not count. */
  predicate Crosses(polys: Pair, cosTab: seq<int>, b: Before, i: nat, cell: nat)
    requires |cosTab| == COS_TAB_SIZE + 1 && 1 <= cell <= COS_TAB_SIZE && polys.p != [] && polys.q != []
  {
    var ylo, yhi := LowerValue(polys, cosTab, b, i, cell), EvalAt(Turn(polys, i), cosTab[cell]);
    var least := if Inside(b, cell) && EvalAt(Turn(polys, i + 1), cosTab[cell]) == 0 then 1 else 0;
    (ylo <= 0 && yhi >= least) || (ylo >= 0 && yhi <= -least)
  }

  /** Between the root before and this cell nothing crosses. */
  ghost predicate NoneBelow(polys: Pair, cosTab: seq<int>, b: Before, i: nat, cell: nat)
    requires |cosTab| == COS_TAB_SIZE + 1 && cell <= COS_TAB_SIZE + 1 && polys.p != [] && polys.q != []
  {
    && (i == 0 ==> EvalAt(polys.p, cosTab[0]) >= 0)
    && forall c: nat :: 1 <= c && FirstCell(b) <= c < cell ==> !Crosses(polys, cosTab, b, i, c)
  }

  /** y is where root i lies: in the first cell, from that of the root before it, in which its polynomial changes sign. */
  ghost predicate IsRoot(polys: Pair, cosTab: seq<int>, i: nat, before: Before, r: Root, y: int)
    requires |cosTab| == COS_TAB_SIZE + 1
  {
    && InCell(y, Cell(r))
    && 1 <= Cell(r) <= COS_TAB_SIZE
    && polys.p != [] && polys.q != []
    && match r {
      case AtStart => i == 0 && y == 0 && EvalAt(polys.p, cosTab[0]) < 0
      case InGrid(cell, ylo, path) =>
        var p := Turn(polys, i);
        && FirstCell(before) <= cell
        && NoneBelow(polys, cosTab, before, i, cell) && Crosses(polys, cosTab, before, i, cell)
        && ylo == LowerValue(polys, cosTab, before, i, cell)
        && var b := Bracket(cosTab[cell - 1], ylo, cosTab[cell], EvalAt(p, cosTab[cell]));
           Refined(p, b, path) && y == Clamped(256 * cell - 256 + Position(p, b, path))
    }
  }

  function Clamped(y: int): int {
    if y < INT16_MAX then y else INT16_MAX
  }

  predicate InCell(y: int, cell: nat) {
    256 * cell - 256 <= y <= 256 * cell + 1 && y <= INT16_MAX
  }

  /** The roots found so far, each in its grid cell; the cells never go back. */
  ghost predicate Located(polys: Pair, cosTab: seq<int>, nlsf: seq<int>, roots: seq<Root>, k: nat)
    requires |cosTab| == COS_TAB_SIZE + 1
  {
    && |roots| <= |nlsf|
    && (forall i: nat :: i < |roots| ==> IsRoot(polys, cosTab, i, BeforeRoot(roots, i), roots[i], nlsf[i]) && Cell(roots[i]) <= k)
  }

  /** Evenly spread line spectral frequencies, when no root set was found. */
  ghost predicate Flat(nlsf: seq<int>, d: nat)
    requires d <= |nlsf|
  {
    forall i :: 0 <= i < d ==> nlsf[i] == (i + 1) * (32768 / (d + 1))
  }

  method Restart(nlsf: array<int>, aQ16: array<int>, p: array<int>, q: array<int>, d: nat, cosTab: seq<int>)
    returns (useQ: bool, ylo: int, rootIx: nat, ghost roots: seq<Root>)
    requires d >= 2 && d % 2 == 0 && aQ16.Length == d && nlsf.Length >= d && |cosTab| == COS_TAB_SIZE + 1
    requires p.Length == q.Length == d / 2 + 1 && p != q && p != aQ16 && q != aQ16 && p != nlsf && q != nlsf && aQ16 != nlsf
    modifies p, q, nlsf
    ensures rootIx <= 1 && useQ == (rootIx == 1) && |roots| == rootIx
    ensures IsPair(Pair(p[..], q[..]), aQ16[..], d / 2)
    ensures Located(Pair(p[..], q[..]), cosTab, nlsf[..], roots, 1)
    ensures Searching(Pair(p[..], q[..]), cosTab, BeforeRoot(roots, rootIx), rootIx, 1, ylo, 0)
  {
    hide Horner, InPowers, InCosines;
    InitPoly(aQ16, p, -1);
    ghost var pSeq := p[..];
    assert IsHalf(pSeq, aQ16[..], d / 2, -1);
    InitPoly(aQ16, q, 1);
    assert p[..] == pSeq && IsHalf(q[..], aQ16[..], d / 2, 1);
    useQ, rootIx, roots := false, 0, [];
    ylo := EvalPoly(p, cosTab[0]);
    if ylo < 0 {
      nlsf[0] := 0;
      useQ := true;
      ylo := EvalPoly(q, cosTab[0]);
      rootIx, roots := 1, [AtStart];
    }
  }

  /** The search for root i is at this cell, with this value at its lower end and this bound on the upper one. */
  ghost predicate Searching(polys: Pair, cosTab: seq<int>, b: Before, i: nat, k: nat, ylo: int, thr: int) {
    && |cosTab| == COS_TAB_SIZE + 1 && 1 <= k <= COS_TAB_SIZE && polys.p != [] && polys.q != []
    && FirstCell(b) <= k && NoneBelow(polys, cosTab, b, i, k)
    && ylo == LowerValue(polys, cosTab, b, i, k)
    && thr == if Inside(b, k) && EvalAt(Turn(polys, i + 1), cosTab[k]) == 0 then 1 else 0
  }

  /** Nothing crosses in this cell: on to the next. */
  lemma SearchesOn(polys: Pair, cosTab: seq<int>, b: Before, i: nat, k: nat, ylo: int, thr: int)
    requires Searching(polys, cosTab, b, i, k, ylo, thr)
    requires var yhi := EvalAt(Turn(polys, i), cosTab[k]); !((ylo <= 0 && yhi >= thr) || (ylo >= 0 && yhi <= -thr))
    ensures NoneBelow(polys, cosTab, b, i, k + 1)
    ensures k < COS_TAB_SIZE ==> Searching(polys, cosTab, b, i, k + 1, EvalAt(Turn(polys, i), cosTab[k]), 0)
  {
  }

  /** A root was placed in this cell: the next one is looked for from here. */
  lemma SearchesNext(polys: Pair, cosTab: seq<int>, r: Root, i: nat, k: nat, thr: int)
    requires |cosTab| == COS_TAB_SIZE + 1 && 1 <= k <= COS_TAB_SIZE && polys.p != [] && polys.q != []
    requires r.InGrid? && r.cell == k && thr == if EvalAt(Turn(polys, i), cosTab[k]) == 0 then 1 else 0
    ensures Searching(polys, cosTab, After(r), i + 1, k, StartOf(i + 1), thr)
  {
  }

  method Spread(nlsf: array<int>, d: nat)
    requires 1 <= d <= nlsf.Length
    modifies nlsf
    ensures Flat(nlsf[..], d)
  {
    nlsf[0] := Quo(32768, d + 1);
    for kk := 1 to d
      invariant nlsf[0] == 32768 / (d + 1)
      invariant forall i :: 0 <= i < kk ==> nlsf[i] == (i + 1) * (32768 / (d + 1))
    {
      nlsf[kk] := nlsf[kk - 1] + nlsf[0];
    }
  }

  lemma FlatInRange(nlsf: seq<int>, d: nat)
    requires 1 <= d <= |nlsf| && Flat(nlsf, d)
    ensures forall i :: 0 <= i < d ==> 0 <= nlsf[i] <= INT16_MAX
  {
  }

  lemma LocatedMore(polys: Pair, cosTab: seq<int>, s: seq<int>, t: seq<int>, roots: seq<Root>, k: nat, r: Root)
    requires |cosTab| == COS_TAB_SIZE + 1 && Located(polys, cosTab, s, roots, k) && |t| == |s| > |roots|
    requires t[..|roots|] == s[..|roots|] && IsRoot(polys, cosTab, |roots|, BeforeRoot(roots, |roots|), r, t[|roots|]) && Cell(r) == k
    ensures Located(polys, cosTab, t, roots + [r], k)
  {
    hide IsRoot;
    forall i: nat | i < |roots| ensures t[i] == s[i] {
      assert t[..|roots|][i] == s[..|roots|][i];
    }
  }

  lemma LocatedLater(polys: Pair, cosTab: seq<int>, s: seq<int>, roots: seq<Root>, k: nat, k': nat)
    requires |cosTab| == COS_TAB_SIZE + 1 && Located(polys, cosTab, s, roots, k) && k <= k'
    ensures Located(polys, cosTab, s, roots, k')
  {
  }

  lemma LocatedInRange(polys: Pair, cosTab: seq<int>, s: seq<int>, roots: seq<Root>, k: nat)
    requires |cosTab| == COS_TAB_SIZE + 1 && Located(polys, cosTab, s, roots, k)
    ensures |roots| <= |s| && forall i :: 0 <= i < |roots| ==> 0 <= s[i] <= INT16_MAX
  {
  }

  /** Writes one root. */
  method PlaceRoot(nlsf: array<int>, k: nat, ffrac: int, rootIx: nat,
                   ghost polys: Pair, cosTab: seq<int>, ghost roots: seq<Root>, ghost ylo: int, ghost thr: int, ghost path: seq<bool>)
      returns (ghost more: seq<Root>)
    requires |cosTab| == COS_TAB_SIZE + 1 && 1 <= k <= COS_TAB_SIZE && -256 <= ffrac <= 1
    requires |roots| == rootIx < nlsf.Length && Located(polys, cosTab, nlsf[..], roots, k)
    requires Searching(polys, cosTab, BeforeRoot(roots, rootIx), rootIx, k, ylo, thr)
    requires var yhi := EvalAt(Turn(polys, rootIx), cosTab[k]); (ylo <= 0 && yhi >= thr) || (ylo >= 0 && yhi <= -thr)
    requires var b := Bracket(cosTab[k - 1], ylo, cosTab[k], EvalAt(Turn(polys, rootIx), cosTab[k]));
             Refined(Turn(polys, rootIx), b, path) && ffrac + 256 == Position(Turn(polys, rootIx), b, path)
    modifies nlsf
    ensures more == roots + [InGrid(k, ylo, path)] && Located(polys, cosTab, nlsf[..], more, k)
  {
    hide Refined, EvalAt, Turn, Located, Position, NoneBelow, Inside;
    ghost var s := nlsf[..];
    var root := k * 256 + ffrac;
    nlsf[rootIx] := if root < INT16_MAX then root else INT16_MAX;
    more := roots + [InGrid(k, ylo, path)];
    assert nlsf[rootIx] == Clamped(256 * k - 256 + (ffrac + 256));
    LocatedMore(polys, cosTab, s, nlsf[..], roots, k, InGrid(k, ylo, path));
  }

  /** The value taken at the lower end when the search goes on after a root. */
  function StartOf(rootIx: nat): int {
    (1 - (if rootIx % 4 >= 2 then 2 else 0)) * 4096
  }

  // ---- the passes ----

  /** The coefficients after one expansion. */
  function Expanded(a: seq<int>, chirpQ16: int): (b: seq<int>)
    ensures |b| == |a|
  {
    seq(|a|, i requires 0 <= i < |a| => Shr(Chirp(chirpQ16, i) * a[i], 16))
  }

  /** The filter of pass j, counted from zero: before pass j it is expanded with 65536 - 2^j. */
  function FilterOf(a: seq<int>, j: nat): (b: seq<int>)
    ensures |b| == |a|
  {
    if j == 0 then a else Expanded(FilterOf(a, j - 1), 65536 - Pow2(j))
  }

  /** A pass over the grid with this filter comes to its end before all d roots are found. */
  ghost predicate PassFails(a: seq<int>, d: nat, cosTab: seq<int>)
    requires |cosTab| == COS_TAB_SIZE + 1
  {
    exists polys, s, roots :: IsPair(polys, a, d / 2) && StopsShort(polys, cosTab, s, roots, d)
  }

  ghost predicate StopsShort(polys: Pair, cosTab: seq<int>, s: seq<int>, roots: seq<Root>, d: nat)
    requires |cosTab| == COS_TAB_SIZE + 1
  {
    && polys.p != [] && polys.q != []
    && |roots| < d && Located(polys, cosTab, s, roots, COS_TAB_SIZE)
    && NoneBelow(polys, cosTab, BeforeRoot(roots, |roots|), |roots|, COS_TAB_SIZE + 1)
  }

  // ---- the search is determined by the filter ----

  lemma {:induction false} WeighFromBelow(p: seq<int>, x: int, m: nat)
    requires 1 <= m <= |p|
    ensures Weigh(p, Powers(x), m) == p[0] + x * Weigh(p[1..], Powers(x), m - 1)
  {
    if m == 1 {
      assert Power(x, 0) == 1;
      assert Weigh(p, Powers(x), 0) == 0;
    } else {
      WeighFromBelow(p, x, m - 1);
      var t := Weigh(p[1..], Powers(x), m - 2);
      assert Power(x, m - 1) == Power(x, m - 2) * x;
      RaisedOnce(x, t, p[m - 1], Power(x, m - 2));
    }
  }

  lemma RaisedOnce(x: int, t: int, c: int, w: int)
    ensures x * t + c * (w * x) == x * (t + c * w)
  {
  }

  lemma FarFromZero(n: int, t: int)
    requires n >= 0
    ensures t > 0 ==> n * t >= n
    ensures t < 0 ==> n * t <= -n
  {
  }

  lemma MultipleIsZero(c: int, n: nat, t: int)
    requires c == n * t && (if c < 0 then -c else c) < n
    ensures c == 0
  {
  }

  lemma CancelFactor(n: nat, a: int, b: int)
    requires n > 0 && n * a == n * b
    ensures a == b
  {
    FarFromZero(n, a - b);
    assert n * (a - b) == n * a - n * b;
  }

  /** Two polynomials with equal values at all positive integers are the same. */
  lemma {:induction false} SamePolynomial(p: seq<int>, q: seq<int>)
    requires |p| == |q| && forall x: nat :: x > 0 ==> InPowers(p, x) == InPowers(q, x)
    ensures p == q
    decreases |p|
  {
    if p != [] {
      var c := p[0] - q[0];
      var n: nat := (if c < 0 then -c else c) + 1;
      WeighFromBelow(p, n, |p|);
      WeighFromBelow(q, n, |q|);
      var u, v := Weigh(p[1..], Powers(n), |p| - 1), Weigh(q[1..], Powers(n), |q| - 1);
      assert InPowers(p, n) == p[0] + n * u && InPowers(q, n) == q[0] + n * v;
      assert c == n * (v - u);
      MultipleIsZero(c, n, v - u);
      forall x: nat | x > 0 ensures InPowers(p[1..], x) == InPowers(q[1..], x) {
        WeighFromBelow(p, x, |p|);
        WeighFromBelow(q, x, |q|);
        assert InPowers(p, x) == InPowers(q, x);
        CancelFactor(x, InPowers(p[1..], x), InPowers(q[1..], x));
      }
      SamePolynomial(p[1..], q[1..]);
      assert p == [p[0]] + p[1..] && q == [q[0]] + q[1..];
    }
  }

  lemma PairIsUnique(u: Pair, v: Pair, a: seq<int>, dd: nat)
    requires IsPair(u, a, dd) && IsPair(v, a, dd)
    ensures u == v
  {
    hide InPowers, InCosines, Quotient, Half;
    HalfIsUnique(u.p, v.p, a, dd, -1);
    HalfIsUnique(u.q, v.q, a, dd, 1);
  }

  lemma HalfIsUnique(p: seq<int>, q: seq<int>, a: seq<int>, dd: nat, sign: int)
    requires |a| == 2 * dd && IsHalf(p, a, dd, sign) && IsHalf(q, a, dd, sign)
    ensures p == q
  {
    hide InPowers, InCosines, Quotient, Half;
    SamePolynomial(p, q);
  }

  lemma {:induction false} PathIsUnique(p: seq<int>, b: Bracket, u: seq<bool>, v: seq<bool>)
    requires p != [] && |u| == |v| && Halves(p, b, u) && Halves(p, b, v)
    ensures u == v
    decreases |u|
  {
    hide HalvesAt;
    if u != [] {
      var n := |u| - 1;
      forall m | 0 <= m < n ensures u[..n][..m] == u[..m] && v[..n][..m] == v[..m] {}
      PathIsUnique(p, b, u[..n], v[..n]);
      ChoiceIsUnique(p, b, u[..n], u[n], v[n]);
    }
  }

  lemma ChoiceIsUnique(p: seq<int>, b: Bracket, before: seq<bool>, u: bool, v: bool)
    requires p != [] && HalvesAt(p, b, before, u) && HalvesAt(p, b, before, v)
    ensures u == v
  {
  }

  /** From the root before on there is one place for the next root. */
  lemma RootIsUnique(polys: Pair, cosTab: seq<int>, i: nat, before: Before, r: Root, y: int, t: Root, z: int)
    requires |cosTab| == COS_TAB_SIZE + 1 && (i == 0 <==> before.First?)
    requires IsRoot(polys, cosTab, i, before, r, y) && IsRoot(polys, cosTab, i, before, t, z)
    requires before.After? ==> 1 <= FirstCell(before)
    ensures r == t && y == z
  {
    hide EvalAt, LowerValue, Crosses, Position, Halves, Descend, Clamped;
    if r.InGrid? && t.InGrid? {
      assert r.cell == t.cell;
      var p := Turn(polys, i);
      PathIsUnique(p, Bracket(cosTab[r.cell - 1], r.ylo, cosTab[r.cell], EvalAt(p, cosTab[r.cell])), r.path, t.path);
    }
  }

  /** Two searches with the same polynomials find the same roots as far as they both go. */
  lemma {:induction false} RootsAgree(polys: Pair, cosTab: seq<int>, s: seq<int>, t: seq<int>, u: seq<Root>, v: seq<Root>, n: nat)
    requires |cosTab| == COS_TAB_SIZE + 1 && n <= |u| && n <= |v|
    requires Located(polys, cosTab, s, u, COS_TAB_SIZE) && Located(polys, cosTab, t, v, COS_TAB_SIZE)
    ensures u[..n] == v[..n] && s[..n] == t[..n]
  {
    hide IsRoot;
    if n > 0 {
      var i := n - 1;
      RootsAgree(polys, cosTab, s, t, u, v, i);
      if i > 0 {
        assert u[i - 1] == u[..i][i - 1] == v[i - 1];
        assert IsRoot(polys, cosTab, i - 1, BeforeRoot(u, i - 1), u[i - 1], s[i - 1]);
        CellStarts(polys, cosTab, i - 1, BeforeRoot(u, i - 1), u[i - 1], s[i - 1]);
      }
      assert IsRoot(polys, cosTab, i, BeforeRoot(u, i), u[i], s[i]) && IsRoot(polys, cosTab, i, BeforeRoot(v, i), v[i], t[i]);
      RootIsUnique(polys, cosTab, i, BeforeRoot(u, i), u[i], s[i], v[i], t[i]);
      assert u[..n] == u[..i] + [u[i]] && v[..n] == v[..i] + [v[i]] && s[..n] == s[..i] + [s[i]] && t[..n] == t[..i] + [t[i]];
    }
  }

  lemma CellStarts(polys: Pair, cosTab: seq<int>, i: nat, before: Before, r: Root, y: int)
    requires |cosTab| == COS_TAB_SIZE + 1 && IsRoot(polys, cosTab, i, before, r, y)
    ensures 1 <= Cell(r) <= COS_TAB_SIZE
  {
  }

  /** A pass that finds all its roots does not fail: which filters are searched to the end is decided by the filter alone. */
  lemma PassSucceeds(polys: Pair, a: seq<int>, cosTab: seq<int>, s: seq<int>, roots: seq<Root>, d: nat)
    requires |cosTab| == COS_TAB_SIZE + 1
    requires IsPair(polys, a, d / 2) && |roots| == d && Located(polys, cosTab, s, roots, COS_TAB_SIZE)
    ensures !PassFails(a, d, cosTab)
  {
    hide IsPair, IsRoot;
    if PassFails(a, d, cosTab) {
      var others, t, fewer :| IsPair(others, a, d / 2) && StopsShort(others, cosTab, t, fewer, d);
      PairIsUnique(polys, others, a, d / 2);
      var n := |fewer|;
      RootsAgree(polys, cosTab, t, s, fewer, roots, n);
      assert fewer == fewer[..n] == roots[..n];
      assert IsRoot(polys, cosTab, n, BeforeRoot(roots, n), roots[n], s[n]);
      assert BeforeRoot(roots, n) == BeforeRoot(fewer, n);
      if n > 0 { CellStarts(polys, cosTab, n - 1, BeforeRoot(roots, n - 1), roots[n - 1], s[n - 1]); }
      RootIsLeft(polys, cosTab, n, BeforeRoot(roots, n), roots[n], s[n]);
    }
  }

  lemma RootIsLeft(polys: Pair, cosTab: seq<int>, i: nat, before: Before, r: Root, y: int)
    requires |cosTab| == COS_TAB_SIZE + 1 && IsRoot(polys, cosTab, i, before, r, y) && 1 <= FirstCell(before)
    ensures !NoneBelow(polys, cosTab, before, i, COS_TAB_SIZE + 1)
  {
  }

  /** silkA2NLSF: ends for every filter, reads the cosine table in range and fills all d entries. `passes` is the number of
      passes that failed. */
  method A2Nlsf(nlsf: array<int>, aQ16: array<int>, d: nat, cosTab: seq<int>)
      returns (ghost found: bool, ghost roots: seq<Root>, ghost polys: Pair, ghost passes: nat)
    requires d >= 2 && d % 2 == 0 && aQ16.Length == d && nlsf.Length >= d && aQ16 != nlsf
    requires |cosTab| == COS_TAB_SIZE + 1
    modifies nlsf, aQ16
    ensures forall i :: 0 <= i < d ==> 0 <= nlsf[i] <= 32767
    ensures found <==> passes <= MAX_ITERATIONS
    ensures passes <= MAX_ITERATIONS + 1
    ensures forall j: nat :: j < passes ==> PassFails(FilterOf(old(aQ16[..]), j), d, cosTab)
    ensures aQ16[..] == FilterOf(old(aQ16[..]), if found then passes else MAX_ITERATIONS)
    ensures passes == 0 ==> aQ16[..] == old(aQ16[..])
    ensures found ==> IsPair(polys, aQ16[..], d / 2)
    ensures found ==> |roots| == d && Located(polys, cosTab, nlsf[..], roots, COS_TAB_SIZE) && !PassFails(aQ16[..], d, cosTab)
    ensures !found ==> Flat(nlsf[..], d)
  {
    hide Located, Flat, Pow2, IsPair, EvalAt, Refined, Position, Chirp, Shr, StartOf, Horner, Searching, NoneBelow, FilterOf, PassFails;
    var dd := d / 2;
    ghost var a0 := aQ16[..];
    FilterStarts(a0);
    var p := new int[dd + 1](_ => 0);
    var q := new int[dd + 1](_ => 0);
    var useQ, ylo, rootIx;
    var xlo := cosTab[0];
    useQ, ylo, rootIx, roots := Restart(nlsf, aQ16, p, q, d, cosTab);
    polys := Pair(p[..], q[..]);
    var k: nat := 1;
    var iter: nat := 0;
    var thr: int := 0;
    passes := 0;
    while true
      invariant 1 <= k <= COS_TAB_SIZE && iter <= MAX_ITERATIONS && 0 <= thr <= 1 && xlo == cosTab[k - 1]
      invariant |roots| == rootIx < d && useQ == (rootIx % 2 == 1)
      invariant polys == Pair(p[..], q[..]) && IsPair(polys, aQ16[..], dd)
      invariant Located(polys, cosTab, nlsf[..], roots, k)
      invariant Searching(polys, cosTab, BeforeRoot(roots, rootIx), rootIx, k, ylo, thr)
      invariant passes == iter && aQ16[..] == FilterOf(a0, iter)
      invariant forall j: nat :: j < passes ==> PassFails(FilterOf(a0, j), d, cosTab)
      decreases MAX_ITERATIONS - iter, d - rootIx, COS_TAB_SIZE - k
    {
      var poly := if useQ then q else p;
      var xhi := cosTab[k];
      var yhi := EvalPoly(poly, xhi);
      EvalIs(poly[..], xhi);
      if (ylo <= 0 && yhi >= thr) || (ylo >= 0 && yhi <= -thr) {
        ghost var bound := thr;
        thr := if yhi == 0 then 1 else 0;
        var ffrac;
        ghost var path;
        ffrac, path := Refine(poly, xlo, ylo, xhi, yhi);
        roots := PlaceRoot(nlsf, k, ffrac, rootIx, polys, cosTab, roots, ylo, bound, path);
        SearchesNext(polys, cosTab, roots[rootIx], rootIx, k, thr);
        rootIx := rootIx + 1;
        if rootIx >= d {
          LocatedInRange(polys, cosTab, nlsf[..], roots, k);
          LocatedLater(polys, cosTab, nlsf[..], roots, k, COS_TAB_SIZE);
          PassSucceeds(polys, aQ16[..], cosTab, nlsf[..], roots, d);
          return true, roots, polys, passes;
        }
        useQ := rootIx % 2 != 0;
        xlo := cosTab[k - 1];
        ylo := StartOf(rootIx);
      } else {
        SearchesOn(polys, cosTab, BeforeRoot(roots, rootIx), rootIx, k, ylo, thr);
        LocatedLater(polys, cosTab, nlsf[..], roots, k, if k < COS_TAB_SIZE then k + 1 else k);
        k := k + 1;
        xlo := xhi;
        ylo := yhi;
        thr := 0;
        if k > COS_TAB_SIZE {
          Fails(polys, aQ16[..], cosTab, nlsf[..], roots, d);
          passes := passes + 1;
          iter := iter + 1;
          if iter > MAX_ITERATIONS {
            Spread(nlsf, d);
            FlatInRange(nlsf[..], d);
            return false, [], polys, passes;
          }
          ghost var a := aQ16[..];
          Bwexpander32(aQ16, d, 65536 - Pow2(iter));
          FilterGoesOn(a0, iter, a, aQ16[..]);
          xlo := cosTab[0];
          useQ, ylo, rootIx, roots := Restart(nlsf, aQ16, p, q, d, cosTab);
          polys := Pair(p[..], q[..]);
          k := 1;
        }
      }
    }
  }

  lemma Fails(polys: Pair, a: seq<int>, cosTab: seq<int>, s: seq<int>, roots: seq<Root>, d: nat)
    requires |cosTab| == COS_TAB_SIZE + 1 && polys.p != [] && polys.q != [] && |roots| < d
    requires IsPair(polys, a, d / 2) && Located(polys, cosTab, s, roots, COS_TAB_SIZE)
    requires NoneBelow(polys, cosTab, BeforeRoot(roots, |roots|), |roots|, COS_TAB_SIZE + 1)
    ensures PassFails(a, d, cosTab)
  {
    hide IsPair, Located, NoneBelow;
    assert StopsShort(polys, cosTab, s, roots, d);
  }

  lemma FilterStarts(a0: seq<int>)
    ensures FilterOf(a0, 0) == a0
  {
  }

  lemma FilterGoesOn(a0: seq<int>, j: nat, a: seq<int>, b: seq<int>)
    requires j > 0 && a == FilterOf(a0, j - 1) && |b| == |a|
    requires forall i: nat :: i < |a| ==> b[i] == Shr(Chirp(65536 - Pow2(j), i) * a[i], 16)
    ensures b == FilterOf(a0, j)
  {
  }

  lemma EvalIs(p: seq<int>, x: int)
    requires p != []
    ensures EvalAt(p, x) == Horner(p, x * 16, 0)
  {
  }
}
