/** Vectors over the reals, symmetric Toeplitz forms and autocorrelations. */
module Linear {

  type Vec = seq<real>

  /** Inner product of the first k entries. */
  function DotN(u: Vec, v: Vec, k: nat): real
    requires k <= |u| && k <= |v|
  {
    if k == 0 then 0.0 else DotN(u, v, k - 1) + u[k - 1] * v[k - 1]
  }

  function Dot(u: Vec, v: Vec): real
    requires |u| == |v|
  {
    DotN(u, v, |u|)
  }

  function Zeros(n: nat): (v: Vec)
    ensures |v| == n
  {
    seq(n, i requires 0 <= i < n => 0.0)
  }

  /** c with s added at position i. */
  function Bump(c: Vec, i: nat, s: real): (r: Vec)
    requires i < |c|
    ensures |r| == |c|
  {
    c[i := c[i] + s]
  }

  /** u + s v, entry by entry. */
  function AddScaled(u: Vec, s: real, v: Vec): (r: Vec)
    requires |u| == |v|
    ensures |r| == |u|
  {
    seq(|u|, i requires 0 <= i < |u| => u[i] + s * v[i])
  }

  lemma {:induction false} DotNBumps(u: Vec, c: Vec, i: nat, s: real, k: nat)
    requires |u| == |c| && i < |c| && k <= |c|
    ensures DotN(u, Bump(c, i, s), k) == DotN(u, c, k) + if i < k then u[i] * s else 0.0
  {
    if k > 0 {
      DotNBumps(u, c, i, s, k - 1);
      if i == k - 1 {
        assert u[i] * (c[i] + s) == u[i] * c[i] + u[i] * s;
      }
    }
  }

  lemma DotBumps(u: Vec, c: Vec, i: nat, s: real)
    requires |u| == |c| && i < |c|
    ensures Dot(u, Bump(c, i, s)) == Dot(u, c) + u[i] * s
  {
    DotNBumps(u, c, i, s, |c|);
  }

  lemma {:induction false} DotCommutes(u: Vec, v: Vec, k: nat)
    requires k <= |u| && k <= |v|
    ensures DotN(u, v, k) == DotN(v, u, k)
  {
    if k > 0 { DotCommutes(u, v, k - 1); }
  }

  lemma {:induction false} DotNLinear(w: Vec, u: Vec, s: real, v: Vec, k: nat)
    requires |w| == |u| == |v| && k <= |u|
    ensures DotN(w, AddScaled(u, s, v), k) == DotN(w, u, k) + s * DotN(w, v, k)
  {
    if k > 0 {
      DotNLinear(w, u, s, v, k - 1);
      DistributeTerm(w[k - 1], u[k - 1], s, v[k - 1], DotN(w, v, k - 1));
    }
  }

  lemma DistributeTerm(a: real, b: real, s: real, c: real, t: real)
    ensures a * (b + s * c) + s * t == a * b + s * (t + a * c)
  {
  }

  lemma {:induction false} DotNZeros(u: Vec, v: Vec, k: nat)
    requires k <= |u| && k <= |v|
    requires forall i :: 0 <= i < k ==> v[i] == 0.0
    ensures DotN(u, v, k) == 0.0
  {
    if k > 0 {
      DotNZeros(u, v, k - 1);
      assert u[k - 1] * v[k - 1] == 0.0;
    }
  }

  lemma {:induction false} DotNSame(u: Vec, v: Vec, u': Vec, v': Vec, k: nat)
    requires k <= |u| && k <= |v| && k <= |u'| && k <= |v'|
    requires forall i :: 0 <= i < k ==> u[i] == u'[i] && v[i] == v'[i]
    ensures DotN(u, v, k) == DotN(u', v', k)
  {
    if k > 0 { DotNSame(u, v, u', v', k - 1); }
  }

  // ---- symmetric Toeplitz matrices ----

  /** Entry k of the autocorrelation, for a lag of either sign. */
  function Lag(phi: Vec, k: int): real {
    var a := if k < 0 then -k else k;
    if a < |phi| then phi[a] else 0.0
  }

  lemma LagEven(phi: Vec, k: int)
    ensures Lag(phi, -k) == Lag(phi, k)
  {
  }

  /** Row x of the n by n Toeplitz matrix of phi. */
  function Row(phi: Vec, n: nat, x: int): (r: Vec)
    ensures |r| == n
  {
    seq(n, y requires 0 <= y < n => Lag(phi, x - y))
  }

  /** The matrix times c. */
  function Times(phi: Vec, c: Vec): (r: Vec)
    ensures |r| == |c|
  {
    seq(|c|, x requires 0 <= x < |c| => Dot(Row(phi, |c|, x), c))
  }

  /** c' Phi c. */
  function Form(phi: Vec, c: Vec): real {
    Dot(c, Times(phi, c))
  }

  lemma TimesBumps(phi: Vec, c: Vec, i: nat, s: real)
    requires i < |c|
    ensures Times(phi, Bump(c, i, s)) == AddScaled(Times(phi, c), s, Row(phi, |c|, i))
  {
    var n := |c|;
    forall x | 0 <= x < n
      ensures Times(phi, Bump(c, i, s))[x] == AddScaled(Times(phi, c), s, Row(phi, n, i))[x]
    {
      DotBumps(Row(phi, n, x), c, i, s);
      LagEven(phi, x - i);
    }
  }

  /** Adding one pulse of sign s changes the form by 2 s (Phi c)[i] + phi(0). */
  lemma FormBumps(phi: Vec, c: Vec, i: nat, s: real)
    requires i < |c| && s * s == 1.0
    ensures Form(phi, Bump(c, i, s)) == Form(phi, c) + 2.0 * s * Times(phi, c)[i] + Lag(phi, 0)
  {
    hide Times, Row, Lag, Bump, DotN;
    var n, c', t, r := |c|, Bump(c, i, s), Times(phi, c), Row(phi, |c|, i);
    TimesBumps(phi, c, i, s);
    DotNLinear(c', t, s, r, n);
    DotCommutes(c', t, n);
    DotBumps(t, c, i, s);
    DotCommutes(t, c, n);
    DotCommutes(c', r, n);
    DotBumps(r, c, i, s);
    RowAt(phi, c, i);
    PulseSquare(s, t[i], Lag(phi, 0));
  }

  lemma RowAt(phi: Vec, c: Vec, i: nat)
    requires i < |c|
    ensures Row(phi, |c|, i)[i] == Lag(phi, 0) && Dot(Row(phi, |c|, i), c) == Times(phi, c)[i]
  {
  }

  lemma PulseSquare(s: real, t: real, z: real)
    requires s * s == 1.0
    ensures t * s + s * (t + z * s) == 2.0 * s * t + z
  {
  }
}
