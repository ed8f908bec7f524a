/** Complex numbers over the reals, finite sums, and the discrete Fourier transform. */
module Complex {

  datatype Cpx = Cpx(re: real, im: real)

  const ZERO := Cpx(0.0, 0.0)
  const ONE := Cpx(1.0, 0.0)

  function Add(a: Cpx, b: Cpx): Cpx {
    Cpx(a.re + b.re, a.im + b.im)
  }

  function Mul(a: Cpx, b: Cpx): Cpx {
    Cpx(a.re * b.re - a.im * b.im, a.re * b.im + a.im * b.re)
  }

  lemma MulDistributes(a: Cpx, b: Cpx, c: Cpx)
    ensures Mul(Add(a, b), c) == Add(Mul(a, c), Mul(b, c))
  {
  }

  lemma MulAssociates(a: Cpx, b: Cpx, c: Cpx)
    ensures Mul(Mul(a, b), c) == Mul(a, Mul(b, c))
  {
  }

  function Sum(f: nat -> Cpx, n: nat): Cpx {
    if n == 0 then ZERO else Add(Sum(f, n - 1), f(n - 1))
  }

  lemma {:induction false} SumExt(f: nat -> Cpx, g: nat -> Cpx, n: nat)
    requires forall j: nat :: j < n ==> f(j) == g(j)
    ensures Sum(f, n) == Sum(g, n)
  {
    if n > 0 { SumExt(f, g, n - 1); }
  }

  lemma {:induction false} SumAdds(f: nat -> Cpx, g: nat -> Cpx, h: nat -> Cpx, n: nat)
    requires forall j: nat :: j < n ==> h(j) == Add(f(j), g(j))
    ensures Sum(h, n) == Add(Sum(f, n), Sum(g, n))
  {
    if n > 0 { SumAdds(f, g, h, n - 1); }
  }

  lemma {:induction false} SumScales(f: nat -> Cpx, g: nat -> Cpx, c: Cpx, n: nat)
    requires forall j: nat :: j < n ==> g(j) == Mul(f(j), c)
    ensures Sum(g, n) == Mul(Sum(f, n), c)
  {
    if n > 0 {
      SumScales(f, g, c, n - 1);
      MulDistributes(Sum(f, n - 1), f(n - 1), c);
    }
  }

  lemma {:induction false} SumJoins(f: nat -> Cpx, g: nat -> Cpx, a: nat, b: nat)
    requires forall j: nat :: j < b ==> g(j) == f(a + j)
    ensures Sum(f, a + b) == Add(Sum(f, a), Sum(g, b))
  {
    if b > 0 { SumJoins(f, g, a, b - 1); }
  }

  /** Cell q of row i in a table of p columns stored row by row. */
  function Cell(i: nat, p: nat, q: nat): nat {
    i * p + q
  }

  function Column(f: nat -> Cpx, p: nat, q: nat): nat -> Cpx {
    (i: nat) => f(Cell(i, p, q))
  }

  /** The sum of each column over its first m rows. */
  function ColumnSums(f: nat -> Cpx, m: nat, p: nat): nat -> Cpx {
    (q: nat) => Sum(Column(f, p, q), m)
  }

  function RowOf(f: nat -> Cpx, i: nat, p: nat): nat -> Cpx {
    (q: nat) => f(Cell(i, p, q))
  }

  lemma RowJoins(f: nat -> Cpx, m: nat, p: nat)
    requires m > 0
    ensures Sum(f, m * p) == Add(Sum(f, (m - 1) * p), Sum(RowOf(f, m - 1, p), p))
  {
    hide Add, Sum;
    var a := Cell(m - 1, p, 0);
    RowStarts(m - 1, p);
    SumJoins(f, RowOf(f, m - 1, p), a, p);
  }

  lemma RowStarts(i: nat, p: nat)
    ensures Cell(i, p, 0) == i * p && (i + 1) * p == Cell(i, p, 0) + p
    ensures forall q: nat :: Cell(i, p, q) == Cell(i, p, 0) + q
  {
  }

  lemma ColumnsGrow(f: nat -> Cpx, m: nat, p: nat)
    requires m > 0
    ensures Sum(ColumnSums(f, m, p), p) == Add(Sum(ColumnSums(f, m - 1, p), p), Sum(RowOf(f, m - 1, p), p))
  {
    hide Add;
    SumAdds(ColumnSums(f, m - 1, p), RowOf(f, m - 1, p), ColumnSums(f, m, p), p);
  }

  /** Summing row by row is summing column by column. */
  lemma {:induction false} SumInterleaves(f: nat -> Cpx, m: nat, p: nat)
    ensures Sum(f, m * p) == Sum(ColumnSums(f, m, p), p)
  {
    if m == 0 {
      SumOfZeros(ColumnSums(f, 0, p), p);
    } else {
      SumInterleaves(f, m - 1, p);
      RowJoins(f, m, p);
      ColumnsGrow(f, m, p);
    }
  }

  lemma {:induction false} SumOfZeros(f: nat -> Cpx, n: nat)
    requires forall j: nat :: j < n ==> f(j) == ZERO
    ensures Sum(f, n) == ZERO
  {
    if n > 0 { SumOfZeros(f, n - 1); }
  }

  // ---- roots of unity ----

  function Multiple(m: nat, p: nat): nat {
    m * p
  }

  type Twiddles = (nat, nat) -> Cpx

  /** tw(n, m) stands for exp(i s 2 pi m / n). */
  ghost predicate RootsOfUnity(tw: Twiddles) {
    && (forall n: nat :: n > 0 ==> tw(n, 0) == ONE)
    && (forall n: nat, a: nat, b: nat :: a < n && b < n ==> tw(n, Wrap(a + b, n)) == Mul(tw(n, a), tw(n, b)))
    && (forall m: nat, p: nat, a: nat :: a < m && p > 0 ==> tw(Multiple(m, p), Multiple(a, p)) == tw(m, a))
  }

  function Wrap(a: nat, n: nat): nat
    requires n > 0
  {
    a % n
  }

  /** The term j of the transform at bin k. */
  function Term(tw: Twiddles, v: seq<Cpx>, k: nat, j: nat): Cpx
    requires j < |v|
  {
    Mul(v[j], tw(|v|, Wrap(k * j, |v|)))
  }

  function Terms(tw: Twiddles, v: seq<Cpx>, k: nat): nat -> Cpx {
    (j: nat) => if j < |v| then Term(tw, v, k, j) else ZERO
  }

  /** The plain transform: out[k] is the sum of v[j] w^(k j). */
  function Dft(tw: Twiddles, v: seq<Cpx>, k: nat): Cpx {
    Sum(Terms(tw, v, k), |v|)
  }
}
