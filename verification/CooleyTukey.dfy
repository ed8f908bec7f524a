/** The decimation-in-time identity that the recursive transform relies on. */
module CooleyTukey {
  import opened Arith
  import opened Complex

  /** Every p-th sample of v, starting at q. */
  function Pick(v: seq<Cpx>, m: nat, p: nat, q: nat): (u: seq<Cpx>)
    requires |v| == m * p && q < p
    ensures |u| == m
  {
    seq(m, i requires 0 <= i < m => CellInside(i, m, p, q); v[Cell(i, p, q)])
  }

  lemma CellInside(i: nat, m: nat, p: nat, q: nat)
    requires i < m && q < p
    ensures Cell(i, p, q) < m * p
  {
    MulOrder(p, i, m);
  }

  /** The twiddled sub-transform q at bin k. */
  function Leg(tw: Twiddles, v: seq<Cpx>, m: nat, p: nat, k: nat, q: nat): Cpx
    requires |v| == m * p && m > 0 && q < p
  {
    MulOrder(m, 0, p);
    Mul(Dft(tw, Pick(v, m, p, q), Wrap(k, m)), tw(|v|, Wrap(k * q, |v|)))
  }

  function Legs(tw: Twiddles, v: seq<Cpx>, m: nat, p: nat, k: nat): nat -> Cpx
    requires |v| == m * p && m > 0
  {
    (q: nat) => if q < p then Leg(tw, v, m, p, k, q) else ZERO
  }

  lemma AngleSplits(k: nat, i: nat, m: nat, p: nat, q: nat)
    requires m > 0 && p > 0
    ensures m * p > 0 && Wrap(Wrap(k, m) * i, m) * p < m * p
    ensures Wrap(k * Cell(i, p, q), m * p) == Wrap(Wrap(Wrap(k, m) * i, m) * p + Wrap(k * q, m * p), m * p)
  {
    var n, a := m * p, k * i;
    WrapScales(a, m, p);
    WrapMultiplies(k, i, m);
    assert k * Cell(i, p, q) == a * p + k * q by { assert k * (i * p) == a * p; }
    WrapAdds(a * p, k * q, n);
    MulOrder(p, a % m, m);
    assert (a % m) * p == ((Wrap(k, m) * i) % m) * p;
  }

  lemma TwiddleSplits(tw: Twiddles, k: nat, i: nat, m: nat, p: nat, q: nat)
    requires RootsOfUnity(tw) && m > 0 && p > 0
    ensures m * p > 0
    ensures tw(m * p, Wrap(k * Cell(i, p, q), m * p)) == Mul(tw(m, Wrap(Wrap(k, m) * i, m)), tw(m * p, Wrap(k * q, m * p)))
  {
    AngleSplits(k, i, m, p, q);
    var a, b := Wrap(Wrap(k, m) * i, m), Wrap(k * q, m * p);
    hide Mul;
    assert tw(m * p, Wrap(a * p + b, m * p)) == Mul(tw(m * p, a * p), tw(m * p, b));
    assert tw(Multiple(m, p), Multiple(a, p)) == tw(m, a);
  }

  lemma TermSplits(tw: Twiddles, v: seq<Cpx>, m: nat, p: nat, k: nat, q: nat, i: nat)
    requires RootsOfUnity(tw) && m > 0 && p > 0 && |v| == m * p && q < p && i < m
    ensures Cell(i, p, q) < |v| && |v| > 0
    ensures Term(tw, v, k, Cell(i, p, q))
         == Mul(Term(tw, Pick(v, m, p, q), Wrap(k, m), i), tw(|v|, Wrap(k * q, |v|)))
  {
    hide RootsOfUnity, Wrap, Cell, Mul;
    CellInside(i, m, p, q);
    TwiddleSplits(tw, k, i, m, p, q);
    MulAssociates(v[Cell(i, p, q)], tw(m, Wrap(Wrap(k, m) * i, m)), tw(m * p, Wrap(k * q, m * p)));
  }

  lemma ColumnIsLeg(tw: Twiddles, v: seq<Cpx>, m: nat, p: nat, k: nat, q: nat)
    requires RootsOfUnity(tw) && m > 0 && |v| == m * p && q < p
    ensures Sum(Column(Terms(tw, v, k), p, q), m) == Leg(tw, v, m, p, k, q)
  {
    hide RootsOfUnity, Mul, Term, Sum, Cell, Wrap;
    MulOrder(m, 0, p);
    var f, u := Terms(tw, v, k), Pick(v, m, p, q);
    var g := Terms(tw, u, Wrap(k, m));
    forall i: nat | i < m ensures Column(f, p, q)(i) == Mul(g(i), tw(|v|, Wrap(k * q, |v|))) {
      TermSplits(tw, v, m, p, k, q, i);
    }
    SumScales(g, Column(f, p, q), tw(|v|, Wrap(k * q, |v|)), m);
  }

  /** A transform of m p samples is p twiddled transforms of m samples each. */
  lemma DftSplits(tw: Twiddles, v: seq<Cpx>, m: nat, p: nat, k: nat)
    requires RootsOfUnity(tw) && m > 0 && |v| == m * p
    ensures Dft(tw, v, k) == Sum(Legs(tw, v, m, p, k), p)
  {
    hide RootsOfUnity, Leg, Sum, Terms;
    var f := Terms(tw, v, k);
    SumInterleaves(f, m, p);
    forall q: nat | q < p ensures ColumnSums(f, m, p)(q) == Legs(tw, v, m, p, k)(q) {
      ColumnIsLeg(tw, v, m, p, k, q);
    }
    SumExt(ColumnSums(f, m, p), Legs(tw, v, m, p, k), p);
  }
}
