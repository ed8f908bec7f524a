/** What the codebook search of celp_enc.go is looking for. */
module PulseCode {
  import opened Linear

  /** 1e-16, the floor of the denominator. */
  const EPS: real := 0.0000000000000001

  // ---- signed pulses ----

  function Position(q: int): int {
    (if q < 0 then -q else q) - 1
  }

  function Sign(q: int): real {
    if q < 0 then -1.0 else 1.0
  }

  predicate IsPulse(q: int, n: nat) {
    0 <= Position(q) < n
  }

  predicate ArePulses(ps: seq<int>, n: nat) {
    forall j :: 0 <= j < |ps| ==> IsPulse(ps[j], n)
  }

  /** The code vector of a list of pulses; repeated positions add up. */
  function Code(ps: seq<int>, n: nat): (c: Vec)
    requires ArePulses(ps, n)
    ensures |c| == n
  {
    if ps == [] then Zeros(n)
    else WithPulse(Code(ps[..|ps| - 1], n), ps[|ps| - 1])
  }

  function WithPulse(c: Vec, q: int): (r: Vec)
    requires IsPulse(q, |c|)
    ensures |r| == |c|
  {
    Bump(c, Position(q), Sign(q))
  }

  lemma CodeGrows(ps: seq<int>, q: int, n: nat)
    requires ArePulses(ps, n) && IsPulse(q, n)
    ensures ArePulses(ps + [q], n)
    ensures Code(ps + [q], n) == WithPulse(Code(ps, n), q)
  {
  }

  /** Sample i of the code is the number of pulses 1 + i in the list less that of pulses -(1 + i). */
  lemma {:induction false} CodeCounts(ps: seq<int>, n: nat, i: nat)
    requires ArePulses(ps, n) && i < n
    ensures Code(ps, n)[i] == multiset(ps)[1 + i] as real - multiset(ps)[-(1 + i)] as real
  {
    if ps != [] {
      var rest, q := ps[..|ps| - 1], ps[|ps| - 1];
      CodeCounts(rest, n, i);
      assert ps == rest + [q];
    }
  }

  // ---- the search criterion ----

  /** Correlation of the target with the code. */
  function Match(d: Vec, c: Vec): real
    requires |d| == |c|
  {
    Dot(d, c)
  }

  /** Energy of the filtered code, with the floor. */
  function Energy(phi: Vec, c: Vec): real {
    Form(phi, c) + EPS
  }

  /** No code has negative filtered energy. */
  ghost predicate NonNegative(phi: Vec, n: nat) {
    forall c: Vec :: |c| == n ==> Form(phi, c) >= 0.0
  }

  /** What a candidate with this numerator and denominator explains. */
  function Explained(num: real, den: real): real
    requires den != 0.0
  {
    (num * num) / den
  }

  /** The weighted energy that a code explains with its best gain. */
  function Score(d: Vec, phi: Vec, c: Vec): real
    requires |d| == |c|
  {
    if Energy(phi, c) == 0.0 then 0.0 else Explained(Match(d, c), Energy(phi, c))
  }

  /** The pulse at i, with the sign of the target there. */
  function PulseAt(d: Vec, i: nat): (q: int)
    requires i < |d|
    ensures IsPulse(q, |d|) && Position(q) == i
  {
    if d[i] > 0.0 then 1 + i else -(1 + i)
  }

  /** q is the best next pulse after c. */
  ghost predicate BestNext(d: Vec, phi: Vec, c: Vec, q: int)
    requires |d| == |c| && IsPulse(q, |d|)
  {
    && q == PulseAt(d, Position(q))
    && forall i: nat :: i < |d| ==> Score(d, phi, WithPulse(c, PulseAt(d, i))) <= Score(d, phi, WithPulse(c, q))
  }

  /** Every pulse was the best one at its turn. */
  ghost predicate Greedy(d: Vec, phi: Vec, ps: seq<int>)
    requires ArePulses(ps, |d|)
  {
    forall j :: 0 <= j < |ps| ==> BestAt(d, phi, ps, j)
  }

  ghost predicate BestAt(d: Vec, phi: Vec, ps: seq<int>, j: nat)
    requires j < |ps| && ArePulses(ps, |d|)
  {
    BestNext(d, phi, Code(ps[..j], |d|), ps[j])
  }

  /** The score after each number of pulses, from none on. */
  function Scores(d: Vec, phi: Vec, ps: seq<int>): (w: seq<real>)
    requires ArePulses(ps, |d|)
    ensures |w| == |ps| + 1
  {
    seq(|ps| + 1, k requires 0 <= k < |ps| + 1 => Score(d, phi, Code(ps[..k], |d|)))
  }

  // ---- one more pulse ----

  lemma MatchGrows(d: Vec, c: Vec, i: nat)
    requires i < |d| == |c|
    ensures Match(d, WithPulse(c, PulseAt(d, i))) == Match(d, c) + (if d[i] > 0.0 then d[i] else -d[i])
  {
    DotBumps(d, c, i, Sign(PulseAt(d, i)));
  }

  /** The recurrence for the numerator of candidate i once pulse q has been taken. */
  lemma NumRecurrence(d: Vec, c: Vec, q: int, i: nat)
    requires i < |d| == |c| && IsPulse(q, |d|) && q == PulseAt(d, Position(q))
    ensures Match(d, WithPulse(WithPulse(c, q), PulseAt(d, i)))
         == Match(d, WithPulse(c, PulseAt(d, i))) + (if d[Position(q)] > 0.0 then d[Position(q)] else -d[Position(q)])
  {
    MatchGrows(d, c, i);
    MatchGrows(d, c, Position(q));
    MatchGrows(d, WithPulse(c, q), i);
  }

  lemma FormGrows(phi: Vec, c: Vec, q: int)
    requires IsPulse(q, |c|)
    ensures Form(phi, WithPulse(c, q)) == Form(phi, c) + 2.0 * Sign(q) * Times(phi, c)[Position(q)] + Lag(phi, 0)
  {
    FormBumps(phi, c, Position(q), Sign(q));
  }

  lemma TimesGrows(phi: Vec, c: Vec, q: int, x: nat)
    requires IsPulse(q, |c|) && x < |c|
    ensures Times(phi, WithPulse(c, q))[x] == Times(phi, c)[x] + Sign(q) * Lag(phi, x - Position(q))
  {
    hide Times, Lag, Sign;
    TimesBumps(phi, c, Position(q), Sign(q));
    LagEven(phi, x - Position(q));
  }

  /** The recurrence for the denominator: a common part and a part in the band around q. */
  lemma DenRecurrence(phi: Vec, c: Vec, q: int, r: int)
    requires IsPulse(q, |c|) && IsPulse(r, |c|)
    ensures Form(phi, WithPulse(WithPulse(c, q), r))
         == Form(phi, WithPulse(c, r))
            + (2.0 * Sign(q) * Times(phi, c)[Position(q)] + Lag(phi, 0))
            + 2.0 * Sign(q) * Sign(r) * Lag(phi, Position(r) - Position(q))
  {
    hide Form, Times, Sign, Lag, WithPulse;
    FormGrows(phi, c, r);
    FormGrows(phi, c, q);
    FormGrows(phi, WithPulse(c, q), r);
    TimesGrows(phi, c, q, Position(r));
    DenSum(Times(phi, c)[Position(r)], Sign(r), Sign(q), Lag(phi, Position(r) - Position(q)));
  }

  lemma DenSum(t: real, r: real, q: real, z: real)
    ensures 2.0 * r * (t + q * z) == 2.0 * r * t + 2.0 * q * r * z
  {
  }

  /** Row x of Phi times the code, summed pulse by pulse. */
  function PulseSum(phi: Vec, ps: seq<int>, x: int): real {
    if ps == [] then 0.0
    else PulseSum(phi, ps[..|ps| - 1], x) + Lag(phi, Position(ps[|ps| - 1]) - x) * Sign(ps[|ps| - 1])
  }

  lemma {:induction false} TimesOfCode(phi: Vec, ps: seq<int>, n: nat, x: nat)
    requires ArePulses(ps, n) && x < n
    ensures Times(phi, Code(ps, n))[x] == PulseSum(phi, ps, x)
  {
    if ps == [] {
      DotNZeros(Row(phi, n, x), Zeros(n), n);
    } else {
      var rest, q := ps[..|ps| - 1], ps[|ps| - 1];
      TimesOfCode(phi, rest, n, x);
      TimesBumps(phi, Code(rest, n), Position(q), Sign(q));
    }
  }

  // ---- how many pulses to keep ----

  /** Score w less the price of k pulses. */
  function Net(w: real, k: nat, price: real): real {
    w - k as real * price
  }

  /** n pulses are the fewest with the largest net score. */
  ghost predicate BestCount(w: seq<real>, price: real, n: nat) {
    && n < |w|
    && (forall k: nat :: k < |w| ==> Net(w[k], k, price) <= Net(w[n], n, price))
    && (forall k: nat :: k < n ==> Net(w[k], k, price) < Net(w[n], n, price))
  }

  /** The running threshold is the score of n plus the price of the pulses since. */
  ghost predicate Picked(w: seq<real>, price: real, n: nat, thr: real) {
    BestCount(w, price, n) && Net(thr, |w| - 1, price) == Net(w[n], n, price)
  }

  lemma NetSteps(x: real, k: nat, price: real)
    ensures Net(x + price, k + 1, price) == Net(x, k, price)
  {
  }

  lemma PickedStarts(price: real)
    ensures Picked([0.0], price, 0, 0.0)
  {
  }

  lemma PickedSteps(w: seq<real>, price: real, n: nat, thr: real, x: real)
    requires Picked(w, price, n, thr)
    ensures x > thr + price ==> Picked(w + [x], price, |w|, x)
    ensures x <= thr + price ==> Picked(w + [x], price, n, thr + price)
  {
    var v := w + [x];
    NetSteps(thr, |w| - 1, price);
    assert Net(x, |w|, price) - Net(thr + price, |w|, price) == x - (thr + price);
  }
}
