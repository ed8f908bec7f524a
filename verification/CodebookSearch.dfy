/** The greedy fixed-codebook search of internal/voip/media/mlow/celp_enc.go. */
module CodebookSearch {
  import opened Autocorrelation
  import opened Linear
  import opened PulseCode
  import opened Toeplitz

  const MAX_SF_LEN: int := 160
  const MAX_L_RESP: int := 33
  const MAX_PULSES_PER_SF: int := 40

  /** What the search reports for one rate. */
  datatype Report = Report(n: nat, wnrg: real, gain: real, energy: real)

  /** The numbers are the direct formulas of code c. */
  ghost predicate Reports(r: Report, d: Vec, p: Vec, c: Vec)
    requires |d| == |c|
  {
    && Energy(p, c) > 0.0
    && r.wnrg == Score(d, p, c)
    && r.gain == Match(d, c) / Energy(p, c)
    && r.energy == Energy(p, c)
  }

  /** num[i] is the match of code c with candidate i added. */
  ghost predicate NumIs(num: seq<real>, d: Vec, c: Vec)
    requires |d| == |c| <= |num|
  {
    forall i: nat :: i < |d| ==> num[i] == Match(d, WithPulse(c, PulseAt(d, i)))
  }

  /** den[i] is the energy of code c with candidate i added. */
  ghost predicate DenIs(den: seq<real>, p: Vec, d: Vec, c: Vec)
    requires |d| == |c| <= |den|
  {
    forall i: nat :: i < |d| ==> den[i] == Energy(p, WithPulse(c, PulseAt(d, i)))
  }

  function Abs(x: real): real {
    if x > 0.0 then x else -x
  }

  method CalcAbsAndSign(d: Vec, dAbs: array<real>, dSign: array<real>)
    requires dAbs != dSign && |d| <= dAbs.Length && |d| <= dSign.Length
    modifies dAbs, dSign
    ensures forall i: nat :: i < |d| ==> dAbs[i] == Abs(d[i]) && dSign[i] == Sign(PulseAt(d, i))
  {
    for i := 0 to |d|
      invariant forall j: nat :: j < i ==> dAbs[j] == Abs(d[j]) && dSign[j] == Sign(PulseAt(d, j))
    {
      if d[i] > 0.0 {
        dAbs[i], dSign[i] := d[i], 1.0;
      } else {
        dAbs[i], dSign[i] := -d[i], -1.0;
      }
    }
  }

  /** celpGetMaxi: the first of the largest of x[0 .. n). */
  method GetMaxi(x: array<real>, n: nat) returns (i: nat)
    requires 0 < n <= x.Length
    ensures i < n && (forall j :: 0 <= j < n ==> x[j] <= x[i]) && forall j :: 0 <= j < i ==> x[j] < x[i]
  {
    i := 0;
    var mx := x[0];
    for m := 1 to n
      invariant i < m && mx == x[i]
      invariant forall j :: 0 <= j < m ==> x[j] <= mx
      invariant forall j :: 0 <= j < i ==> x[j] < mx
    {
      if x[m] > mx {
        mx := x[m];
        i := m;
      }
    }
  }

  /** celpCheckIfBetter: whether the score beats the threshold, and the next threshold. */
  function CheckIfBetter(wnrg: real, thr: real, price: real): (bool, real) {
    if wnrg > thr + price then (true, wnrg) else (false, thr + price)
  }

  method Quotients(num: array<real>, den: array<real>, n: nat, q: array<real>)
    requires n <= num.Length && n <= den.Length && n <= q.Length && q != num && q != den
    requires forall i :: 0 <= i < n ==> den[i] > 0.0
    modifies q
    ensures forall i :: 0 <= i < n ==> q[i] == Explained(num[i], den[i])
  {
    for i := 0 to n
      invariant forall j :: 0 <= j < i ==> q[j] == Explained(num[j], den[j])
    {
      q[i] := (num[i] * num[i]) / den[i];
    }
  }

  // ---- the first pulse ----

  lemma FirstMatch(d: Vec, i: nat)
    requires i < |d|
    ensures Match(d, WithPulse(Zeros(|d|), PulseAt(d, i))) == Abs(d[i])
  {
    MatchGrows(d, Zeros(|d|), i);
    DotNZeros(d, Zeros(|d|), |d|);
  }

  lemma EmptyForm(p: Vec, n: nat)
    ensures Form(p, Zeros(n)) == 0.0
    ensures forall i: nat :: i < n ==> Times(p, Zeros(n))[i] == 0.0
  {
    forall i: nat | i < n ensures Times(p, Zeros(n))[i] == 0.0 {
      DotNZeros(Row(p, n, i), Zeros(n), n);
    }
    DotCommutes(Zeros(n), Times(p, Zeros(n)), n);
    DotNZeros(Times(p, Zeros(n)), Zeros(n), n);
  }

  lemma FirstEnergy(p: Vec, d: Vec, i: nat)
    requires i < |d|
    ensures Energy(p, WithPulse(Zeros(|d|), PulseAt(d, i))) == Lag(p, 0) + EPS
  {
    EmptyForm(p, |d|);
    FormGrows(p, Zeros(|d|), PulseAt(d, i));
    assert 2.0 * Sign(PulseAt(d, i)) * 0.0 == 0.0;
  }

  lemma EnergyPositive(p: Vec, c: Vec)
    requires NonNegative(p, |c|)
    ensures Energy(p, c) > 0.0
  {
  }

  lemma QuotientMonotone(a: real, b: real, e: real)
    requires 0.0 <= a <= b && e > 0.0
    ensures Explained(a, e) <= Explained(b, e)
  {
  }

  lemma FirstScore(d: Vec, p: Vec, i: nat)
    requires i < |d| && NonNegative(p, |d|)
    ensures Lag(p, 0) + EPS > 0.0
    ensures Score(d, p, WithPulse(Zeros(|d|), PulseAt(d, i))) == Explained(Abs(d[i]), Lag(p, 0) + EPS)
  {
    hide Score, WithPulse, Energy, Match, NonNegative, Lag, Abs, PulseAt;
    var c := WithPulse(Zeros(|d|), PulseAt(d, i));
    FirstMatch(d, i);
    FirstEnergy(p, d, i);
    EnergyPositive(p, c);
    ScoreIs(d, p, c);
  }

  /** All denominators are equal at first, so the largest target entry is the best pulse. */
  lemma FirstIsBest(d: Vec, p: Vec, i: nat)
    requires i < |d| && NonNegative(p, |d|)
    requires forall j: nat :: j < |d| ==> Abs(d[j]) <= Abs(d[i])
    ensures BestNext(d, p, Zeros(|d|), PulseAt(d, i))
  {
    hide Score, WithPulse, NonNegative, Lag, PulseAt;
    FirstScore(d, p, i);
    forall j: nat | j < |d|
      ensures Score(d, p, WithPulse(Zeros(|d|), PulseAt(d, j))) <= Score(d, p, WithPulse(Zeros(|d|), PulseAt(d, i)))
    {
      FirstScore(d, p, j);
      QuotientMonotone(Abs(d[j]), Abs(d[i]), Lag(p, 0) + EPS);
    }
  }

  lemma ScoreIs(d: Vec, p: Vec, c: Vec)
    requires |d| == |c|
    ensures Energy(p, c) > 0.0 ==> Score(d, p, c) == Explained(Match(d, c), Energy(p, c))
  {
  }

  /** The positions taken so far, as signed pulses of the target. */
  ghost predicate Taken(positions: seq<nat>, d: Vec, ps: seq<int>) {
    && |ps| <= |positions|
    && forall j: nat :: j < |ps| ==> positions[j] < |d| && ps[j] == PulseAt(d, positions[j])
  }

  ghost predicate SignsOf(dAbs: seq<real>, dSign: seq<real>, d: Vec) {
    && |d| <= |dAbs| && |d| <= |dSign|
    && forall i: nat :: i < |d| ==> dAbs[i] == Abs(d[i]) && dSign[i] == Sign(PulseAt(d, i))
  }

  /** A report on the first r.n pulses; with none, the numbers are those the caller passed in. */
  ghost predicate Describes(r: Report, given: Report, d: Vec, p: Vec, ps: seq<int>)
    requires ArePulses(ps, |d|)
  {
    && r.n <= |ps|
    && (r.n == 0 ==> r == given.(n := 0))
    && (r.n > 0 ==> Reports(r, d, p, Code(ps[..r.n], |d|)))
  }

  const NOTHING := Report(0, 0.0, 0.0, 0.0)

  /** More pulses than the secondary rate may use, by one. */
  function FecLimit(maxFec: int): nat {
    if maxFec > 0 then maxFec + 1 else 0
  }

  /** The scores offered to the secondary rate: none, and those of two pulses and more, one more than its maximum at most. */
  function Offers(w: seq<real>, maxFec: int): (v: seq<real>)
    ensures |v| >= 1
  {
    [0.0] + if |w| <= 2 || maxFec <= 0 then [] else if |w| - 2 <= maxFec then w[2..] else w[2..2 + maxFec]
  }

  /** The number of pulses behind offer j; the first pulse comes to it only through the main rate. */
  function FecCount(w: seq<real>, priceMain: real, maxFec: int, j: nat): nat
    requires |w| >= 2
  {
    if j > 0 then j + 1 else if maxFec > 0 && w[1] > priceMain then 1 else 0
  }

  lemma OffersGrow(w: seq<real>, x: real, maxFec: int)
    requires |w| >= 2
    ensures maxFec >= |w| - 1 ==> Offers(w + [x], maxFec) == Offers(w, maxFec) + [x] && |Offers(w, maxFec)| == |w| - 1
    ensures maxFec < |w| - 1 ==> Offers(w + [x], maxFec) == Offers(w, maxFec)
  {
  }

  function PulseCount(maxMain: int): nat {
    if maxMain > 1 then maxMain else 1
  }

  /** The threshold left at the end: positive exactly when the main rate keeps its pulses. */
  function FinalThreshold(w: seq<real>, price: real, n: nat): real
    requires n < |w|
  {
    w[n] + (|w| - 1 - n) as real * price
  }

  /** What the search may settle on for the secondary rate: n pulses of a greedy run. */
  ghost predicate FecOutcome(d: Vec, p: Vec, priceMain: real, priceFec: real, maxMain: int, maxFec: int,
                             all: seq<int>, j: nat, n: nat)
  {
    && |d| > 0 && NonNegative(p, |d|)
    && |all| == PulseCount(maxMain) && ArePulses(all, |d|) && Greedy(d, p, all)
    && var w := Scores(d, p, all);
       && j < |Offers(w, maxFec)| && BestCount(Offers(w, maxFec), priceFec, j)
       && n == if FinalThreshold(Offers(w, maxFec), priceFec, j) > 0.0 then FecCount(w, priceMain, maxFec, j) else 0
  }

  lemma FecSettles(d: Vec, p: Vec, priceMain: real, priceFec: real, maxMain: int, maxFec: int, all: seq<int>, j: nat, n: nat)
    requires |d| > 0 && NonNegative(p, |d|)
    requires |all| == PulseCount(maxMain) && ArePulses(all, |d|) && Greedy(d, p, all)
    requires var v := Offers(Scores(d, p, all), maxFec); j < |v| && BestCount(v, priceFec, j)
    requires n == if FinalThreshold(Offers(Scores(d, p, all), maxFec), priceFec, j) > 0.0
                  then FecCount(Scores(d, p, all), priceMain, maxFec, j) else 0
    ensures FecOutcome(d, p, priceMain, priceFec, maxMain, maxFec, all, j, n)
  {
  }

  lemma DescribesMore(r: Report, given: Report, d: Vec, p: Vec, ps: seq<int>, q: int)
    requires ArePulses(ps, |d|) && IsPulse(q, |d|) && Describes(r, given, d, p, ps)
    ensures ArePulses(ps + [q], |d|) && Describes(r, given, d, p, ps + [q])
  {
    assert (ps + [q])[..r.n] == ps[..r.n];
  }

  lemma DescribesAll(r: Report, given: Report, d: Vec, p: Vec, ps: seq<int>)
    requires ArePulses(ps, |d|) && r.n == |ps| > 0 && Reports(r, d, p, Code(ps, |d|))
    ensures Describes(r, given, d, p, ps)
  {
    assert ps[..|ps|] == ps;
  }

  lemma GreedyGrows(d: Vec, p: Vec, ps: seq<int>, q: int)
    requires ArePulses(ps, |d|) && IsPulse(q, |d|) && Greedy(d, p, ps) && BestNext(d, p, Code(ps, |d|), q)
    ensures ArePulses(ps + [q], |d|) && Greedy(d, p, ps + [q])
  {
    hide BestNext, Code;
    forall j: nat | j < |ps| + 1 ensures BestAt(d, p, ps + [q], j) {
      if j < |ps| {
        assert BestAt(d, p, ps, j);
        assert (ps + [q])[..j] == ps[..j];
      } else {
        assert (ps + [q])[..j] == ps;
      }
    }
  }

  lemma ScoresGrow(d: Vec, p: Vec, ps: seq<int>, q: int)
    requires ArePulses(ps, |d|) && IsPulse(q, |d|)
    ensures ArePulses(ps + [q], |d|)
    ensures Scores(d, p, ps + [q]) == Scores(d, p, ps) + [Score(d, p, WithPulse(Code(ps, |d|), q))]
  {
    hide Score, Code;
    CodeGrows(ps, q, |d|);
    var v, w := Scores(d, p, ps + [q]), Scores(d, p, ps);
    assert (ps + [q])[..|ps| + 1] == ps + [q];
    forall k: nat | k < |w| ensures v[k] == w[k] {
      assert (ps + [q])[..k] == ps[..k];
    }
  }

  lemma ScoresStart(d: Vec, p: Vec)
    ensures Scores(d, p, []) == [0.0]
  {
    var none: seq<int> := [];
    assert none[..0] == none;
    DotNZeros(d, Zeros(|d|), |d|);
    assert Energy(p, Zeros(|d|)) == 0.0 || 0.0 / Energy(p, Zeros(|d|)) == 0.0;
  }

  predicate Near(i: int, col: int, width: int) {
    -width < i - col < width
  }

  class CelpEncoder {
    const percRespLen: int
    const fcbSubfrlen: int
    const phi: array<real>
    const phiFlip: array<real>

    constructor (percRespLen: int, fcbSubfrlen: int)
      requires 2 <= percRespLen <= 33 && 0 < fcbSubfrlen <= 160
      ensures Valid() && fresh(phi) && fresh(phiFlip)
      ensures this.percRespLen == percRespLen && this.fcbSubfrlen == fcbSubfrlen
    {
      this.percRespLen := percRespLen;
      this.fcbSubfrlen := fcbSubfrlen;
      phi := new real[MAX_SF_LEN](_ => 0.0);
      phiFlip := new real[2 * MAX_SF_LEN](_ => 0.0);
    }

    ghost predicate Valid() {
      && 2 <= percRespLen <= MAX_L_RESP
      && 0 < fcbSubfrlen <= MAX_SF_LEN
      && phi.Length == MAX_SF_LEN
      && phiFlip.Length == 2 * MAX_SF_LEN
      && phi != phiFlip
    }

    /** phi and its mirrored copy hold the autocorrelation p, which is zero from percRespLen on. */
    ghost predicate Holds(p: Vec)
      requires Valid()
      reads phi, phiFlip
    {
      && |p| == percRespLen
      && phi[0] == Lag(p, 0)
      && forall k: int :: -MAX_SF_LEN < k < MAX_SF_LEN ==> phiFlip[MAX_SF_LEN + k] == Lag(p, k)
    }

    /** percFiltMa, on a signal that starts at revBase. */
    method PercFiltMa(x: Vec, coef: Vec, y: array<real>)
      requires Valid() && |coef| == percRespLen && |x| == 2 * MAX_L_RESP - 1 && y.Length == MAX_SF_LEN
      modifies y
      ensures IsFiltered(y[..], x, MAX_L_RESP - 1, coef, percRespLen, percRespLen)
      ensures forall k :: percRespLen <= k < y.Length ==> y[k] == old(y[k])
    {
      if percRespLen == 10 {
        FiltMa9(x, MAX_L_RESP - 1, percRespLen, coef, y);
      } else {
        FiltMa(x, MAX_L_RESP - 1, percRespLen, coef, percRespLen, y);
      }
    }

    /** A signal backwards, after zeros. */
    function Backwards(z: Vec): (x: Vec)
      requires Valid() && |z| == percRespLen
      ensures |x| == 2 * MAX_L_RESP - 1 && IsReversed(x, MAX_L_RESP - 1, z)
    {
      seq(2 * MAX_L_RESP - 1, i requires 0 <= i < 2 * MAX_L_RESP - 1 =>
        if MAX_L_RESP - 1 <= i < MAX_L_RESP - 1 + percRespLen then z[percRespLen - 1 - (i - (MAX_L_RESP - 1))] else 0.0)
    }

    /** The part of EncodeSubframe that turns the weighted impulse response into phi and phiFlip. */
    method LoadResponse(imp: Vec)
      requires Valid() && |imp| == percRespLen
      modifies phi, phiFlip
      ensures Holds(Autocorr(imp))
    {
      var l := percRespLen;
      var impLpcRev := Backwards(imp);
      var work := new real[MAX_SF_LEN](_ => 0.0);
      PercFiltMa(impLpcRev, imp, work);
      FilteredIsAutocorr(work[..], impLpcRev, MAX_L_RESP - 1, imp);
      Reverse(work, l);
      var i := l;
      while i < fcbSubfrlen
        invariant l <= i
        invariant forall k :: 0 <= k < l ==> work[k] == Autocorr(imp)[k]
        invariant forall k :: l <= k < MAX_SF_LEN ==> work[k] == 0.0
        modifies work
      {
        work[i] := 0.0;
        i := i + 1;
      }
      forall k | 0 <= k < MAX_SF_LEN { phi[k] := work[k]; }
      MirrorPhi(Autocorr(imp));
    }

    method MirrorPhi(ghost p: Vec)
      requires Valid() && |p| == percRespLen
      requires forall k :: 0 <= k < MAX_SF_LEN ==> phi[k] == Lag(p, k)
      modifies phiFlip
      ensures Holds(p)
    {
      forall i | 0 <= i < 2 * MAX_SF_LEN { phiFlip[i] := 0.0; }
      phiFlip[MAX_SF_LEN] := phi[0];
      for i := 0 to percRespLen + 1
        invariant forall j :: 0 <= j < 2 * MAX_SF_LEN ==>
          phiFlip[j] == if j == MAX_SF_LEN || Near(j, MAX_SF_LEN, i) then Lag(p, j - MAX_SF_LEN) else 0.0
      {
        phiFlip[MAX_SF_LEN - i] := phi[i];
        phiFlip[MAX_SF_LEN + i] := phi[i];
      }
      forall k: int | -MAX_SF_LEN < k < MAX_SF_LEN ensures phiFlip[MAX_SF_LEN + k] == Lag(p, k) {
        assert !Near(MAX_SF_LEN + k, MAX_SF_LEN, percRespLen) ==> Lag(p, k) == 0.0;
      }
    }

    /** The target of a subframe without filter memory: phi applied to the residual. */
    method Target(resLpc: Vec, ghost p: Vec) returns (d: Vec)
      requires Valid() && Holds(p) && |resLpc| == fcbSubfrlen && percRespLen <= fcbSubfrlen + 1
      ensures d == Times(p, resLpc)
    {
      var n := fcbSubfrlen;
      var pad := resLpc + seq(percRespLen + 1, i requires 0 <= i < percRespLen + 1 => 0.0);
      var dLpc := new real[MAX_SF_LEN](_ => 0.0);
      var c := phiFlip[MAX_SF_LEN - percRespLen + 1..];
      forall i | 0 <= i < 2 * |p| ensures c[i] == Lag(p, i - |p| + 1) {
        assert phiFlip[MAX_SF_LEN + (i - |p| + 1)] == Lag(p, i - |p| + 1);
      }
      MultSymtoepl2(c, percRespLen, pad, dLpc, n, p);
      assert pad[..n] == resLpc;
      d := dLpc[..n];
    }

    /** Adds to the target what the response to a pulse meets of the zero-input response zir of the filter memory. */
    method AddZir(d: Vec, imp: Vec, zir: Vec) returns (t: Vec)
      requires Valid() && |d| == fcbSubfrlen && |imp| == |zir| == percRespLen
      ensures t == AddScaled(d, 1.0, Products(imp, Padded(zir, |d| + |imp|), |d|))
    {
      var work := new real[MAX_SF_LEN](_ => 0.0);
      PercFiltMa(Backwards(zir), imp, work);
      ghost var y := work[..];
      Reverse(work, percRespLen);
      var a := new real[fcbSubfrlen](i requires 0 <= i < fcbSubfrlen => d[i]);
      hide IsFiltered, IsReversed, Backwards, Products, Padded, AddScaled;
      ghost var more := Products(imp, Padded(zir, |d| + |imp|), |d|);
      forall k: nat | k < |d| ensures more[k] == if k < percRespLen then work[k] else 0.0 {
        FilteredIsProduct(y, Backwards(zir), MAX_L_RESP - 1, imp, zir, |d|, k);
      }
      var i := 0;
      while i < percRespLen && i < fcbSubfrlen
        invariant 0 <= i <= percRespLen && i <= fcbSubfrlen
        invariant forall k :: 0 <= k < fcbSubfrlen ==> a[k] == if k < i then d[k] + work[k] else d[k]
        modifies a
      {
        a[i] := a[i] + work[i];
        i := i + 1;
      }
      t := a[..];
      SumOfEntries(d, more, t);
    }

    /** The same steps from impulse response and filter memory to pulses; nothing is assumed of either. */
    method SearchFromResponse(imp: Vec, zir: Vec, resLpc: Vec, priceMain: real, priceFec: real, maxMain: int, maxFec: int)
      returns (main: Report, mainPulses: seq<int>)
      requires Valid() && |imp| == |zir| == percRespLen && |resLpc| == fcbSubfrlen && percRespLen <= fcbSubfrlen + 1
      requires maxMain <= 40
      modifies phi, phiFlip
      ensures |mainPulses| == main.n <= PulseCount(maxMain) && ArePulses(mainPulses, fcbSubfrlen)
      ensures main.n > 0 ==> main.wnrg >= 0.0
      ensures
        var w := Padded(zir, fcbSubfrlen + |imp|);
        main.n > 0 ==>
          WeightedError(imp, w, AddScaled(resLpc, -main.gain, Code(mainPulses, fcbSubfrlen)))
            <= WeightedError(imp, w, resLpc) - main.wnrg
    {
      hide *;
      LoadResponse(imp);
      ghost var p := Autocorr(imp);
      var plain := Target(resLpc, p);
      var d := AddZir(plain, imp, zir);
      TargetMeans(imp, Padded(zir, fcbSubfrlen + |imp|), resLpc, d);
      AllNonNegative(imp, |d|);
      var fec;
      var fecPulses;
      ghost var all;
      ghost var best;
      ghost var fecBest;
      main, fec, mainPulses, fecPulses, all, best, fecBest := FcbSearch(d, priceMain, priceFec, maxMain, maxFec, NOTHING, NOTHING, p);
      MainMeaning(imp, Padded(zir, fcbSubfrlen + |imp|), resLpc, d, main, mainPulses, all, best, priceMain);
    }

    /** celpNonZeroRange: the band of candidates that interact with a pulse at col. */
    function NonZeroRange(col: nat): (r: (nat, nat))
      requires Valid() && col < fcbSubfrlen
      ensures 0 <= r.0 <= col < r.1 <= fcbSubfrlen
      ensures forall i :: 0 <= i < fcbSubfrlen ==> (r.0 <= i < r.1 <==> Near(i, col, percRespLen))
    {
      var lo := col - percRespLen + 1;
      var hi := col + percRespLen;
      (if lo < 0 then 0 else lo, if hi > fcbSubfrlen then fcbSubfrlen else hi)
    }

    method CrossTerms(positions: array<nat>, dSign: array<real>, k: nat, ghost p: Vec, d: Vec, ghost ps: seq<int>)
      returns (sum: real)
      requires Valid() && Holds(p) && |d| == fcbSubfrlen
      requires 0 < k == |ps| && Taken(positions[..], d, ps) && ArePulses(ps, |d|)
      requires |d| <= dSign.Length && forall i: nat :: i < |d| ==> dSign[i] == Sign(PulseAt(d, i))
      ensures sum == PulseSum(p, ps[..k - 1], positions[k - 1])
    {
      hide PulseAt;
      var position := positions[k - 1];
      var colOff := MAX_SF_LEN - position;
      sum := 0.0;
      for i := 0 to k - 1
        invariant sum == PulseSum(p, ps[..i], position)
      {
        var pi := positions[i];
        assert ps[i] == PulseAt(d, pi);
        assert ps[..i + 1][..i] == ps[..i];
        sum := sum + phiFlip[colOff + pi] * dSign[pi];
        assert phiFlip[MAX_SF_LEN + (pi - position)] == Lag(p, pi - position);
      }
    }

    /** Adds the last pulse of ps to the running numerators. */
    method UpdateNum(num: array<real>, dAbs: array<real>, position: nat, d: Vec, ghost c: Vec)
      requires position < |d| == |c| && |d| <= num.Length && |d| <= dAbs.Length && num != dAbs
      requires dAbs[position] == Abs(d[position])
      requires NumIs(num[..], d, c)
      modifies num
      ensures NumIs(num[..], d, WithPulse(c, PulseAt(d, position)))
    {
      ghost var s := num[..];
      hide Match, PulseAt, WithPulse;
      for i := 0 to |d|
        invariant forall j: nat :: j < i ==> num[j] == s[j] + Abs(d[position])
        invariant forall j: nat :: i <= j < |d| ==> num[j] == s[j]
      {
        num[i] := num[i] + dAbs[position];
      }
      forall i: nat | i < |d|
        ensures num[i] == Match(d, WithPulse(WithPulse(c, PulseAt(d, position)), PulseAt(d, i)))
      {
        NumRecurrence(d, c, PulseAt(d, position), i);
      }
    }

    method AddCommon(den: array<real>, n: nat, dDen: real)
      requires n <= den.Length
      modifies den
      ensures forall j: nat :: j < n ==> den[j] == old(den[j]) + dDen
    {
      for i := 0 to n
        invariant forall j: nat :: j < i ==> den[j] == old(den[j]) + dDen
        invariant forall j: nat :: i <= j < n ==> den[j] == old(den[j])
      {
        den[i] := den[i] + dDen;
      }
    }

    method AddBand(den: array<real>, dSign: array<real>, position: nat, ghost p: Vec, d: Vec)
      requires Valid() && Holds(p) && position < |d| == fcbSubfrlen && |d| <= den.Length && |d| <= dSign.Length
      requires den != dSign && den != phiFlip && den != phi
      requires forall i: nat :: i < |d| ==> dSign[i] == Sign(PulseAt(d, i))
      modifies den
      ensures forall j: nat :: j < |d| ==> den[j] == old(den[j]) + Band(p, d, position, j)
    {
      hide PulseAt, Sign, Band, Lag;
      var sgn := dSign[position];
      var colOff := MAX_SF_LEN - position;
      var range := NonZeroRange(position);
      for i := range.0 to range.1
        invariant forall j: nat :: range.0 <= j < i ==> den[j] == old(den[j]) + Band(p, d, position, j)
        invariant forall j: nat :: j < |d| && !(range.0 <= j < i) ==> den[j] == old(den[j])
      {
        assert phiFlip[MAX_SF_LEN + (i - position)] == Lag(p, i - position);
        var more := 2.0 * sgn * dSign[i] * phiFlip[colOff + i];
        BandIs(p, d, position, i, sgn, dSign[i], phiFlip[colOff + i]);
        den[i] := den[i] + more;
      }
      forall j: nat | j < |d| ensures den[j] == old(den[j]) + Band(p, d, position, j) {
        OutOfBand(p, d, position, j);
      }
    }

    /** Adds the pulse at position to the running denominators. */
    method UpdateDen(den: array<real>, dSign: array<real>, position: nat, crossTerms: real, ghost p: Vec, d: Vec, ghost c: Vec)
      requires Valid() && Holds(p) && position < |d| == |c| == fcbSubfrlen && |d| <= den.Length && |d| <= dSign.Length
      requires den != dSign && den != phiFlip && den != phi
      requires forall i: nat :: i < |d| ==> dSign[i] == Sign(PulseAt(d, i))
      requires crossTerms == Times(p, c)[position]
      requires DenIs(den[..], p, d, c)
      modifies den
      ensures DenIs(den[..], p, d, WithPulse(c, PulseAt(d, position)))
    {
      hide PulseAt, WithPulse, Energy, Times, Sign, Band, Lag;
      ghost var s := den[..];
      ghost var q := PulseAt(d, position);
      var sgn := dSign[position];
      assert phiFlip[MAX_SF_LEN + 0] == Lag(p, 0);
      var dDen := crossTerms * (2.0 * sgn) + phiFlip[MAX_SF_LEN - position + position];
      AddCommon(den, |d|, dDen);
      AddBand(den, dSign, position, p, d);
      forall i: nat | i < |d| ensures den[i] == Energy(p, WithPulse(WithPulse(c, q), PulseAt(d, i))) {
        NextEnergy(p, d, c, position, i);
      }
    }

    /** smplFcbSearch. `all` is the whole greedy run and `best` the count the main rate settles on. */
    method FcbSearch(d: Vec, priceMain: real, priceFec: real, maxMain: int, maxFec: int, main0: Report, fec0: Report, ghost p: Vec)
      returns (main: Report, fec: Report, mainPulses: seq<int>, fecPulses: seq<int>, ghost all: seq<int>, ghost best: nat, ghost fecBest: nat)
      requires Valid() && Holds(p) && |d| == fcbSubfrlen && NonNegative(p, |d|)
      requires maxMain <= 40
      ensures |all| == PulseCount(maxMain) && ArePulses(all, |d|) && Greedy(d, p, all)
      ensures best <= |all| && BestCount(Scores(d, p, all), priceMain, best)
      ensures FinalThreshold(Scores(d, p, all), priceMain, best) > 0.0 ==>
                main.n == best && Describes(main, main0, d, p, all) && mainPulses == all[..best]
      ensures FinalThreshold(Scores(d, p, all), priceMain, best) <= 0.0 ==> main == Report(0, 0.0, 0.0, 0.0) && mainPulses == []
      ensures fec.n <= (if maxFec > 0 then maxFec + 1 else 0) && fec.n <= |all| && fecPulses == all[..fec.n]
      ensures BestCount(Offers(Scores(d, p, all), maxFec), priceFec, fecBest) && fecBest < |Offers(Scores(d, p, all), maxFec)|
      ensures FinalThreshold(Offers(Scores(d, p, all), maxFec), priceFec, fecBest) > 0.0 ==>
                fec.n == FecCount(Scores(d, p, all), priceMain, maxFec, fecBest) && Describes(fec, fec0, d, p, all)
      ensures FinalThreshold(Offers(Scores(d, p, all), maxFec), priceFec, fecBest) <= 0.0 ==> fec == Report(0, 0.0, 0.0, 0.0)
      ensures FecOutcome(d, p, priceMain, priceFec, maxMain, maxFec, all, fecBest, fec.n)
    {
      hide PulseAt, NumIs, DenIs, Code, Holds, WithPulse, NonNegative, Score, BestNext, Match, Energy, Scores, Reports,
           Describes, Greedy, Picked, BestCount, Explained, Offers, FinalThreshold, FecOutcome, Searched, FecCount;
      var n := |d|;
      var positions := new nat[MAX_PULSES_PER_SF](_ => 0);
      var dAbs := new real[MAX_SF_LEN](_ => 0.0);
      var dSign := new real[MAX_SF_LEN](_ => 0.0);
      var num := new real[MAX_SF_LEN](_ => 0.0);
      var den := new real[MAX_SF_LEN](_ => 0.0);
      var p0 := FirstPulse(num, den, dAbs, dSign, positions, p, d);
      main, fec := main0.(n := 0), fec0.(n := 0);
      var thrMain, thrFec := 0.0, 0.0;
      ghost var ps: seq<int> := [];
      var ratio := num[p0] / den[p0];
      var wnrg := num[p0] * ratio;
      var first := Report(1, wnrg, ratio, den[p0]);
      FirstWnrg(num[p0], den[p0], ratio);
      Offered(num[..], den[..], p, d, ps, p0, first);
      Starts(d, p, PulseAt(d, p0), priceMain, priceFec, main, main0, fec, fec0, maxFec, first);
      var better := CheckIfBetter(wnrg, thrMain, priceMain);
      thrMain := better.1;
      if better.0 {
        main := first;
        fec := first.(n := 0);
        if maxFec > 0 { fec := first; }
      }
      fecBest := 0;
      ps := [PulseAt(d, p0)];
      var pulseNr := 1;
      while pulseNr < maxMain
        invariant 1 <= pulseNr <= PulseCount(maxMain) && |ps| == pulseNr
        invariant ArePulses(ps, n)
        invariant Searched(d, p, ps, priceMain, priceFec, main, thrMain, main0, fec, thrFec, fec0, maxFec, fecBest)
        invariant SignsOf(dAbs[..], dSign[..], d) && Taken(positions[..], d, ps)
        invariant NumIs(num[..], d, Code(ps[..pulseNr - 1], n)) && DenIs(den[..], p, d, Code(ps[..pulseNr - 1], n))
      {
        var pp, w := NextPulse(num, den, dAbs, dSign, positions, pulseNr, p, d, ps);
        var r := Report(pulseNr + 1, w, num[pp] / den[pp], den[pp]);
        Offered(num[..], den[..], p, d, ps, pp, r);
        Takes(d, p, ps, PulseAt(d, pp), priceMain, priceFec, main, thrMain, main0, fec, thrFec, fec0, maxFec, fecBest, r);
        better := CheckIfBetter(w, thrMain, priceMain);
        thrMain := better.1;
        if better.0 { main := r; }
        if maxFec >= pulseNr {
          better := CheckIfBetter(w, thrFec, priceFec);
          thrFec := better.1;
          if better.0 { fec, fecBest := r, pulseNr; }
        }
        assert (ps + [PulseAt(d, pp)])[..pulseNr] == ps;
        ps := ps + [PulseAt(d, pp)];
        pulseNr := pulseNr + 1;
      }
      all, best := ps, main.n;
      Ends(d, p, ps, priceMain, priceFec, main, thrMain, main0, fec, thrFec, fec0, maxFec, fecBest);
      fec, fecPulses := Emit(thrFec, fec, positions, dSign, d, ps);
      main, mainPulses := Emit(thrMain, main, positions, dSign, d, ps);
      FecSettles(d, p, priceMain, priceFec, maxMain, maxFec, ps, fecBest, fec.n);
    }

    /** The closing loop over one rate. */
    method Emit(thr: real, r: Report, positions: array<nat>, dSign: array<real>, d: Vec, ghost ps: seq<int>)
      returns (out: Report, pulses: seq<int>)
      requires r.n <= |ps| && Taken(positions[..], d, ps)
      requires |d| <= dSign.Length && forall i: nat :: i < |d| ==> dSign[i] == Sign(PulseAt(d, i))
      ensures thr > 0.0 ==> out == r && pulses == ps[..r.n]
      ensures thr <= 0.0 ==> out == NOTHING && pulses == []
    {
      pulses := [];
      if thr > 0.0 {
        for i := 0 to r.n
          invariant pulses == ps[..i]
        {
          var position := positions[i];
          assert ps[i] == PulseAt(d, position);
          var q: int := 1 + position;
          if dSign[position] <= 0.0 { q := -q; }
          pulses := pulses + [q];
        }
        out := r;
      } else {
        out := NOTHING;
      }
    }

    /** Fills the candidate arrays and takes the largest target entry. */
    method FirstPulse(num: array<real>, den: array<real>, dAbs: array<real>, dSign: array<real>, positions: array<nat>,
                      ghost p: Vec, d: Vec)
      returns (p0: nat)
      requires Valid() && Holds(p) && |d| == fcbSubfrlen && NonNegative(p, |d|)
      requires |d| <= num.Length && |d| <= den.Length && |d| <= dAbs.Length && |d| <= dSign.Length && positions.Length > 0
      requires num != dAbs && num != dSign && num != den && den != dSign && den != dAbs && dAbs != dSign
      requires phi != num && phi != den && phi != dAbs && phi != dSign
      modifies num, den, dAbs, dSign, positions
      ensures SignsOf(dAbs[..], dSign[..], d)
      ensures p0 < |d| && Taken(positions[..], d, [PulseAt(d, p0)])
      ensures NumIs(num[..], d, Code([], |d|)) && DenIs(den[..], p, d, Code([], |d|))
      ensures BestNext(d, p, Code([], |d|), PulseAt(d, p0)) && den[p0] > 0.0
    {
      var n := |d|;
      hide NonNegative, BestNext, Energy, Match, WithPulse;
      CalcAbsAndSign(d, dAbs, dSign);
      var phi0 := phi[0];
      for i := 0 to n
        invariant forall j: nat :: j < i ==> den[j] == Lag(p, 0) + EPS
        modifies den
      {
        den[i] := phi0 + EPS;
      }
      forall i | 0 <= i < n {
        num[i] := dAbs[i];
      }
      p0 := GetMaxi(num, n);
      positions[0] := p0;
      assert Code([], n) == Zeros(n);
      forall i: nat | i < n
        ensures num[i] == Match(d, WithPulse(Zeros(n), PulseAt(d, i))) && den[i] == Energy(p, WithPulse(Zeros(n), PulseAt(d, i)))
      {
        FirstMatch(d, i);
        FirstEnergy(p, d, i);
      }
      DensPositive(den[..], p, d, Zeros(n));
      FirstIsBest(d, p, p0);
    }

    /** Brings num and den up to date with the last pulse and takes the best candidate. */
    method NextPulse(num: array<real>, den: array<real>, dAbs: array<real>, dSign: array<real>, positions: array<nat>,
                     k: nat, ghost p: Vec, d: Vec, ghost ps: seq<int>)
      returns (pp: nat, wnrg: real)
      requires Valid() && Holds(p) && |d| == fcbSubfrlen && NonNegative(p, |d|)
      requires |d| <= num.Length && |d| <= den.Length && SignsOf(dAbs[..], dSign[..], d)
      requires num != dAbs && num != dSign && num != den && num != phi && num != phiFlip
      requires den != dSign && den != dAbs && den != phiFlip && den != phi
      requires 0 < k == |ps| < positions.Length && Taken(positions[..], d, ps) && ArePulses(ps, |d|)
      requires NumIs(num[..], d, Code(ps[..k - 1], |d|)) && DenIs(den[..], p, d, Code(ps[..k - 1], |d|))
      modifies num, den, positions
      ensures pp < |d| && Taken(positions[..], d, ps + [PulseAt(d, pp)])
      ensures NumIs(num[..], d, Code(ps, |d|)) && DenIs(den[..], p, d, Code(ps, |d|))
      ensures BestNext(d, p, Code(ps, |d|), PulseAt(d, pp))
      ensures den[pp] > 0.0 && wnrg == Explained(num[pp], den[pp]) == Score(d, p, WithPulse(Code(ps, |d|), PulseAt(d, pp)))
    {
      hide PulseAt, NumIs, DenIs, Code, Holds, WithPulse, NonNegative, Score, BestNext, Match, Energy, PulseSum, Times;
      var n := |d|;
      ghost var rest := ps[..k - 1];
      ghost var c := Code(rest, n);
      var position := positions[k - 1];
      assert rest + [ps[k - 1]] == ps && ps[k - 1] == PulseAt(d, position);
      CodeGrows(rest, ps[k - 1], n);
      UpdateNum(num, dAbs, position, d, c);
      var crossTerms := CrossTerms(positions, dSign, k, p, d, ps);
      TimesOfCode(p, rest, n, position);
      UpdateDen(den, dSign, position, crossTerms, p, d, c);
      DensPositive(den[..], p, d, Code(ps, n));
      var q := new real[MAX_SF_LEN](_ => 0.0);
      Quotients(num, den, n, q);
      pp := GetMaxi(q, n);
      wnrg := q[pp];
      ChosenIsBest(num[..], den[..], p, d, Code(ps, n), pp);
      ghost var before := positions[..];
      positions[k] := pp;
      TakenMore(before, positions[..], d, ps);
    }
  }

  /** Everything the loop keeps about the pulses found so far. */
  ghost predicate Found(d: Vec, p: Vec, ps: seq<int>, priceMain: real, main: Report, thrMain: real, main0: Report,
                        fec: Report, thrFec: real, fec0: Report, maxFec: int)
  {
    && ArePulses(ps, |d|)
    && Greedy(d, p, ps)
    && Picked(Scores(d, p, ps), priceMain, main.n, thrMain)
    && Describes(main, main0, d, p, ps)
    && FecFound(d, p, ps, fec, thrFec, fec0, maxFec)
  }

  ghost predicate FecFound(d: Vec, p: Vec, ps: seq<int>, fec: Report, thrFec: real, fec0: Report, maxFec: int)
    requires ArePulses(ps, |d|)
  {
    && fec.n <= FecLimit(maxFec)
    && fec.n <= |ps|
    && (maxFec > 0 ==> Describes(fec, fec0, d, p, ps))
    && (maxFec <= 0 ==> thrFec == 0.0)
  }

  /** Offering the newest pulse to the main rate. */
  lemma MainOffered(d: Vec, p: Vec, ps: seq<int>, q: int, price: real, main: Report, thr: real, main0: Report, r: Report)
    requires ArePulses(ps, |d|) && IsPulse(q, |d|)
    requires Picked(Scores(d, p, ps), price, main.n, thr) && Describes(main, main0, d, p, ps)
    requires r.n == |ps| + 1 && Reports(r, d, p, WithPulse(Code(ps, |d|), q))
    ensures ArePulses(ps + [q], |d|)
    ensures var better := CheckIfBetter(r.wnrg, thr, price);
            var next := if better.0 then r else main;
            Picked(Scores(d, p, ps + [q]), price, next.n, better.1) && Describes(next, main0, d, p, ps + [q])
  {
    hide Reports, Code, Scores, Picked, Describes, Score, WithPulse, ArePulses, IsPulse;
    RateOffered(d, p, ps, q, main, main0, r);
    ScoresGrow(d, p, ps, q);
    ReportedScore(r, d, p, WithPulse(Code(ps, |d|), q));
    PickedSteps(Scores(d, p, ps), price, main.n, thr, r.wnrg);
    ScoresLength(d, p, ps);
  }

  /** Where the search stands after the pulses ps. */
  ghost predicate Searched(d: Vec, p: Vec, ps: seq<int>, priceMain: real, priceFec: real, main: Report, thrMain: real,
                           main0: Report, fec: Report, thrFec: real, fec0: Report, maxFec: int, fecBest: nat)
  {
    && ps != [] && ArePulses(ps, |d|)
    && Found(d, p, ps, priceMain, main, thrMain, main0, fec, thrFec, fec0, maxFec)
    && |Scores(d, p, ps)| == |ps| + 1
    && Picked(Offers(Scores(d, p, ps), maxFec), priceFec, fecBest, thrFec)
    && fec.n == FecCount(Scores(d, p, ps), priceMain, maxFec, fecBest)
  }

  /** One more pulse q, reported by r, offered to both rates. */
  lemma Takes(d: Vec, p: Vec, ps: seq<int>, q: int, priceMain: real, priceFec: real, main: Report, thrMain: real,
              main0: Report, fec: Report, thrFec: real, fec0: Report, maxFec: int, fecBest: nat, r: Report)
    requires Searched(d, p, ps, priceMain, priceFec, main, thrMain, main0, fec, thrFec, fec0, maxFec, fecBest)
    requires IsPulse(q, |d|) && BestNext(d, p, Code(ps, |d|), q)
    requires r.n == |ps| + 1 && Reports(r, d, p, WithPulse(Code(ps, |d|), q))
    ensures
      var m := CheckIfBetter(r.wnrg, thrMain, priceMain);
      var f := if maxFec >= |ps| then CheckIfBetter(r.wnrg, thrFec, priceFec) else (false, thrFec);
      Searched(d, p, ps + [q], priceMain, priceFec, if m.0 then r else main, m.1, main0,
               if f.0 then r else fec, f.1, fec0, maxFec, if f.0 then |ps| else fecBest)
  {
    hide Code, WithPulse, Score, BestNext, Scores, Reports, Describes, Greedy, Picked, Offers;
    MainOffered(d, p, ps, q, priceMain, main, thrMain, main0, r);
    RateOffered(d, p, ps, q, fec, fec0, r);
    GreedyGrows(d, p, ps, q);
    FecOffered(d, p, ps, q, priceMain, priceFec, maxFec, fecBest, thrFec, r);
  }

  lemma Starts(d: Vec, p: Vec, q: int, priceMain: real, priceFec: real, main: Report, main0: Report,
               fec: Report, fec0: Report, maxFec: int, r: Report)
    requires main == main0.(n := 0) && fec == fec0.(n := 0)
    requires IsPulse(q, |d|) && BestNext(d, p, Code([], |d|), q)
    requires r.n == 1 && Reports(r, d, p, WithPulse(Code([], |d|), q))
    ensures
      var m := CheckIfBetter(r.wnrg, 0.0, priceMain);
      && ArePulses([q], |d|)
      && Searched(d, p, [q], priceMain, priceFec, if m.0 then r else main, m.1, main0,
                  if !m.0 then fec else if maxFec > 0 then r else r.(n := 0), 0.0, fec0, maxFec, 0)
  {
    hide Code, WithPulse, Score, BestNext, Scores, Reports, Describes, Greedy, Picked, Offers;
    Nothing(d, p, priceMain, main0, fec0, maxFec);
    MainOffered(d, p, [], q, priceMain, main, 0.0, main0, r);
    RateOffered(d, p, [], q, fec, fec0, r);
    GreedyGrows(d, p, [], q);
    assert [] + [q] == [q];
    FirstScores(d, p, q, r, priceFec, maxFec);
  }

  /** What the two thresholds and counts mean at the end. */
  lemma Ends(d: Vec, p: Vec, ps: seq<int>, priceMain: real, priceFec: real, main: Report, thrMain: real,
             main0: Report, fec: Report, thrFec: real, fec0: Report, maxFec: int, fecBest: nat)
    requires Searched(d, p, ps, priceMain, priceFec, main, thrMain, main0, fec, thrFec, fec0, maxFec, fecBest)
    ensures ArePulses(ps, |d|) && Greedy(d, p, ps) && main.n <= |ps| && |Scores(d, p, ps)| == |ps| + 1
    ensures BestCount(Scores(d, p, ps), priceMain, main.n) && thrMain == FinalThreshold(Scores(d, p, ps), priceMain, main.n)
    ensures Describes(main, main0, d, p, ps)
    ensures fec.n <= FecLimit(maxFec) && fec.n <= |ps| && fec.n == FecCount(Scores(d, p, ps), priceMain, maxFec, fecBest)
    ensures fecBest < |Offers(Scores(d, p, ps), maxFec)| && BestCount(Offers(Scores(d, p, ps), maxFec), priceFec, fecBest)
    ensures thrFec == FinalThreshold(Offers(Scores(d, p, ps), maxFec), priceFec, fecBest)
    ensures thrFec > 0.0 ==> Describes(fec, fec0, d, p, ps)
  {
    hide Scores, Describes, Greedy, Picked, Offers, BestCount, FinalThreshold;
    PickedCounts(Scores(d, p, ps), priceMain, main.n, thrMain);
    PickedCounts(Offers(Scores(d, p, ps), maxFec), priceFec, fecBest, thrFec);
    NoOffers(Scores(d, p, ps), priceFec, maxFec, fecBest);
  }

  /** The scores once the first pulse is taken; the secondary rate has had no offer yet. */
  lemma FirstScores(d: Vec, p: Vec, q: int, r: Report, priceFec: real, maxFec: int)
    requires IsPulse(q, |d|) && Reports(r, d, p, WithPulse(Code([], |d|), q))
    ensures ArePulses([q], |d|) && Scores(d, p, [q]) == [0.0, r.wnrg]
    ensures Picked(Offers(Scores(d, p, [q]), maxFec), priceFec, 0, 0.0)
  {
    hide Reports, Score, Code, WithPulse, Picked;
    ScoresStart(d, p);
    assert [] + [q] == [q];
    ScoresGrow(d, p, [], q);
    ReportedScore(r, d, p, WithPulse(Code([], |d|), q));
    assert Offers(Scores(d, p, [q]), maxFec) == [0.0];
    PickedStarts(priceFec);
  }

  /** Offering the newest pulse to the secondary rate, when it may still take it. */
  lemma FecOffered(d: Vec, p: Vec, ps: seq<int>, q: int, priceMain: real, price: real, maxFec: int, j: nat, thr: real, r: Report)
    requires ArePulses(ps, |d|) && IsPulse(q, |d|) && ps != [] && |Scores(d, p, ps)| == |ps| + 1
    requires Picked(Offers(Scores(d, p, ps), maxFec), price, j, thr)
    requires r.n == |ps| + 1 && Reports(r, d, p, WithPulse(Code(ps, |d|), q))
    ensures ArePulses(ps + [q], |d|) && |Scores(d, p, ps + [q])| == |ps| + 2
    ensures var better := CheckIfBetter(r.wnrg, thr, price);
            maxFec >= |ps| ==>
              Picked(Offers(Scores(d, p, ps + [q]), maxFec), price, if better.0 then |ps| else j, better.1)
    ensures maxFec < |ps| ==> Picked(Offers(Scores(d, p, ps + [q]), maxFec), price, j, thr)
    ensures forall k :: FecCount(Scores(d, p, ps + [q]), priceMain, maxFec, k) == FecCount(Scores(d, p, ps), priceMain, maxFec, k)
  {
    hide Reports, Score, Code, WithPulse, Picked, Offers, Scores;
    ScoresGrow(d, p, ps, q);
    ReportedScore(r, d, p, WithPulse(Code(ps, |d|), q));
    OffersGrow(Scores(d, p, ps), r.wnrg, maxFec);
    PickedSteps(Offers(Scores(d, p, ps), maxFec), price, j, thr, r.wnrg);
  }

  lemma NoOffers(w: seq<real>, price: real, maxFec: int, j: nat)
    requires j < |Offers(w, maxFec)|
    ensures maxFec <= 0 ==> FinalThreshold(Offers(w, maxFec), price, j) == 0.0
  {
  }

  lemma ScoresLength(d: Vec, p: Vec, ps: seq<int>)
    requires ArePulses(ps, |d|)
    ensures |Scores(d, p, ps)| == |ps| + 1
  {
  }

  lemma Offered(num: seq<real>, den: seq<real>, p: Vec, d: Vec, ps: seq<int>, i: nat, r: Report)
    requires ArePulses(ps, |d|) && i < |d| <= |num| && |d| <= |den| && den[i] > 0.0
    requires NumIs(num, d, Code(ps, |d|)) && DenIs(den, p, d, Code(ps, |d|))
    requires r.wnrg == Explained(num[i], den[i]) && r.gain == num[i] / den[i] && r.energy == den[i]
    ensures Reports(r, d, p, WithPulse(Code(ps, |d|), PulseAt(d, i)))
  {
  }

  lemma FirstWnrg(num: real, den: real, ratio: real)
    requires den > 0.0 && ratio == num / den
    ensures num * ratio == Explained(num, den)
  {
  }

  lemma Nothing(d: Vec, p: Vec, priceMain: real, main0: Report, fec0: Report, maxFec: int)
    ensures Found(d, p, [], priceMain, main0.(n := 0), 0.0, main0, fec0.(n := 0), 0.0, fec0, maxFec)
  {
    ScoresStart(d, p);
    PickedStarts(priceMain);
  }

  lemma PickedCounts(w: seq<real>, price: real, n: nat, thr: real)
    requires Picked(w, price, n, thr)
    ensures BestCount(w, price, n) && n < |w| && thr == FinalThreshold(w, price, n)
  {
  }

  lemma ReportedScore(r: Report, d: Vec, p: Vec, c: Vec)
    requires |d| == |c| && Reports(r, d, p, c)
    ensures r.wnrg == Score(d, p, c)
  {
  }

  lemma RateOffered(d: Vec, p: Vec, ps: seq<int>, q: int, old_: Report, given: Report, r: Report)
    requires ArePulses(ps, |d|) && IsPulse(q, |d|)
    requires r.n == |ps| + 1 && Reports(r, d, p, WithPulse(Code(ps, |d|), q))
    ensures ArePulses(ps + [q], |d|) && Describes(r, given, d, p, ps + [q])
    ensures Describes(old_, given, d, p, ps) ==> Describes(old_, given, d, p, ps + [q])
  {
    hide Reports, Code, Describes;
    CodeGrows(ps, q, |d|);
    DescribesAll(r, given, d, p, ps + [q]);
    if Describes(old_, given, d, p, ps) { DescribesMore(old_, given, d, p, ps, q); }
  }

  lemma AllNonNegative(imp: Vec, n: nat)
    ensures NonNegative(Autocorr(imp), n)
  {
    forall c: Vec | |c| == n ensures Form(Autocorr(imp), c) >= 0.0 {
      AutocorrNonNegative(imp, c);
    }
  }

  lemma SumOfEntries(d: Vec, h: Vec, t: Vec)
    requires |d| == |h| == |t| && forall k: nat :: k < |d| ==> t[k] == d[k] + h[k]
    ensures t == AddScaled(d, 1.0, h)
  {
  }

  /** The target that makes matching a code the same as lowering the weighted error. */
  predicate IsTarget(d: Vec, imp: Vec, w: Vec, resLpc: Vec) {
    d == AddScaled(Times(Autocorr(imp), resLpc), 1.0, Products(imp, w, |resLpc|))
  }

  lemma TargetMeans(imp: Vec, w: Vec, resLpc: Vec, d: Vec)
    requires d == AddScaled(Times(Autocorr(imp), resLpc), 1.0, Products(imp, w, |resLpc|))
    ensures IsTarget(d, imp, w, resLpc)
  {
  }

  lemma MainMeaning(imp: Vec, w: Vec, resLpc: Vec, d: Vec, main: Report, pulses: seq<int>, all: seq<int>, best: nat, price: real)
    requires IsTarget(d, imp, w, resLpc) && |w| == |resLpc| + |imp| && ArePulses(all, |d|) && best <= |all|
    requires (main.n == best && Describes(main, NOTHING, d, Autocorr(imp), all) && pulses == all[..best])
          || (main == Report(0, 0.0, 0.0, 0.0) && pulses == [])
    ensures |pulses| == main.n && ArePulses(pulses, |d|) && |d| == |resLpc|
    ensures main.n > 0 ==> main.wnrg >= 0.0
    ensures main.n > 0 ==>
      WeightedError(imp, w, AddScaled(resLpc, -main.gain, Code(pulses, |d|))) <= WeightedError(imp, w, resLpc) - main.wnrg
  {
    assert |d| == |resLpc|;
    hide IsTarget, WeightedError, Times, Autocorr, Code, Reports;
    if main.n > 0 {
      assert Reports(main, d, Autocorr(imp), Code(pulses, |d|));
      FallsBy(imp, w, resLpc, Code(pulses, |d|), d, main);
    }
  }

  lemma MatchSplits(imp: Vec, w: Vec, resLpc: Vec, d: Vec, c: Vec)
    requires IsTarget(d, imp, w, resLpc) && |c| == |resLpc|
    ensures |d| == |c| && Match(d, c) == Dot(Times(Autocorr(imp), resLpc), c) + Dot(Products(imp, w, |resLpc|), c)
  {
    hide Dot, Times, Autocorr, Products;
    DotSwaps(d, c);
    DotLinear(c, Times(Autocorr(imp), resLpc), 1.0, Products(imp, w, |resLpc|));
    DotSwaps(c, Times(Autocorr(imp), resLpc));
    DotSwaps(c, Products(imp, w, |resLpc|));
  }

  /** The weighted error once the code is subtracted at some gain. */
  lemma ErrorAt(imp: Vec, w: Vec, resLpc: Vec, c: Vec, d: Vec, g: real)
    requires |c| == |resLpc| && |w| == |c| + |imp| && IsTarget(d, imp, w, resLpc)
    ensures |d| == |c|
    ensures WeightedError(imp, w, AddScaled(resLpc, -g, c))
         == WeightedError(imp, w, resLpc) + (-2.0 * g * Match(d, c) + g * g * Form(Autocorr(imp), c))
  {
    hide Form, Times, Autocorr, Dot, WeightedError, Products, IsTarget, AddScaled, Match;
    var s := -g;
    var left, h := AddScaled(resLpc, s, c), Products(imp, w, |c|);
    ErrorExpands(imp, w, left);
    ErrorExpands(imp, w, resLpc);
    FormExpands(imp, resLpc, s, c);
    DotLinear(h, resLpc, s, c);
    MatchSplits(imp, w, resLpc, d, c);
    var f, a, q := Form(Autocorr(imp), resLpc), Dot(Times(Autocorr(imp), resLpc), c), Form(Autocorr(imp), c);
    SumOfParts(f, a, q, Dot(h, resLpc), Dot(h, c), g, s);
  }

  lemma SumOfParts(f: real, a: real, q: real, e: real, b: real, g: real, s: real)
    requires s == -g
    ensures (f + 2.0 * s * a + s * s * q) + 2.0 * (e + s * b) == f + 2.0 * e + (-2.0 * g * (a + b) + g * g * q)
  {
  }

  /** Subtracting the code at the reported gain lowers the weighted error by the reported energy, or a trifle more. */
  lemma ErrorFalls(imp: Vec, w: Vec, resLpc: Vec, c: Vec, d: Vec, r: Report)
    requires |c| == |resLpc| && |w| == |c| + |imp| && IsTarget(d, imp, w, resLpc)
    requires |d| == |c| && Reports(r, d, Autocorr(imp), c)
    ensures WeightedError(imp, w, AddScaled(resLpc, -r.gain, c))
         == WeightedError(imp, w, resLpc) - r.wnrg - r.gain * r.gain * 0.0000000000000001
  {
    hide Form, Autocorr, WeightedError, IsTarget, AddScaled, Reports;
    FallsBy(imp, w, resLpc, c, d, r);
  }

  lemma FallsBy(imp: Vec, w: Vec, resLpc: Vec, c: Vec, d: Vec, r: Report)
    requires |c| == |resLpc| && |w| == |c| + |imp| && IsTarget(d, imp, w, resLpc)
    requires |d| == |c| && Reports(r, d, Autocorr(imp), c)
    ensures r.wnrg >= 0.0
    ensures WeightedError(imp, w, AddScaled(resLpc, -r.gain, c)) == WeightedError(imp, w, resLpc) - r.wnrg - r.gain * r.gain * EPS
    ensures r.gain * r.gain * EPS >= 0.0
  {
    hide Form, Autocorr, WeightedError, IsTarget, AddScaled, Match;
    ErrorAt(imp, w, resLpc, c, d, r.gain);
    GainAlgebra(Match(d, c), Energy(Autocorr(imp), c), r.gain, r.wnrg);
  }

  /** No other gain does better, but for that trifle. */
  lemma GainIsBest(imp: Vec, w: Vec, resLpc: Vec, c: Vec, d: Vec, r: Report, g: real)
    requires |c| == |resLpc| && |w| == |c| + |imp| && IsTarget(d, imp, w, resLpc)
    requires |d| == |c| && Reports(r, d, Autocorr(imp), c)
    ensures WeightedError(imp, w, AddScaled(resLpc, -g, c)) + g * g * EPS >= WeightedError(imp, w, resLpc) - r.wnrg
    ensures WeightedError(imp, w, AddScaled(resLpc, -g, c)) + g * g * EPS == WeightedError(imp, w, resLpc) - r.wnrg <==> g == r.gain
  {
    hide Form, Autocorr, WeightedError, IsTarget, AddScaled, Match;
    ErrorAt(imp, w, resLpc, c, d, g);
    GainAlgebra(Match(d, c), Energy(Autocorr(imp), c), r.gain, r.wnrg);
    OtherGain(Match(d, c), Energy(Autocorr(imp), c), r.gain, g);
  }

  /** -2 g m + g g e is least at m / e, where it is -m m / e. */
  lemma OtherGain(m: real, e: real, best: real, g: real)
    requires e > 0.0 && best == m / e
    ensures -2.0 * g * m + g * g * e >= -best * m
    ensures -2.0 * g * m + g * g * e == -best * m <==> g == best
  {
    var x := g - best;
    assert m == best * e;
    SquareOfGap(g, best, e);
    SquarePositive(x);
    if x == 0.0 {
      assert Product(Product(x, x), e) == 0.0;
    } else {
      PositiveTimes(Product(x, x), e);
    }
  }

  lemma SquarePositive(x: real)
    ensures x != 0.0 ==> Product(x, x) > 0.0
  {
    if x > 0.0 {
      PositiveTimes(x, x);
    } else if x < 0.0 {
      PositiveTimes(-x, -x);
      assert Product(x, x) == Product(-x, -x);
    }
  }

  lemma SquareOfGap(g: real, b: real, e: real)
    ensures -2.0 * g * (b * e) + g * g * e + b * (b * e) == Product(Product(g - b, g - b), e)
  {
  }

  lemma GainAlgebra(m: real, e: real, g: real, w: real)
    requires e > 0.0 && g == m / e && w == Explained(m, e)
    ensures w == g * m && w >= 0.0 && g * g * EPS >= 0.0
    ensures -2.0 * g * m + g * g * (e - EPS) == -w - g * g * EPS
  {
  }

  /** The arrays describe the candidates that follow code c, and i is the best of them. */
  lemma ChosenIsBest(num: seq<real>, den: seq<real>, p: Vec, d: Vec, c: Vec, i: nat)
    requires i < |d| == |c| && |d| <= |num| && |d| <= |den|
    requires NumIs(num, d, c) && DenIs(den, p, d, c)
    requires forall j: nat :: j < |d| ==> den[j] > 0.0
    requires forall j: nat :: j < |d| ==> Explained(num[j], den[j]) <= Explained(num[i], den[i])
    ensures BestNext(d, p, c, PulseAt(d, i))
    ensures Score(d, p, WithPulse(c, PulseAt(d, i))) == Explained(num[i], den[i])
  {
  }

  lemma DensPositive(den: seq<real>, p: Vec, d: Vec, c: Vec)
    requires |d| == |c| <= |den| && DenIs(den, p, d, c) && NonNegative(p, |d|)
    ensures forall j: nat :: j < |d| ==> den[j] > 0.0
  {
  }

  lemma TakenMore(positions: seq<nat>, next: seq<nat>, d: Vec, ps: seq<int>)
    requires Taken(positions, d, ps) && |ps| < |next| == |positions| && next[..|ps|] == positions[..|ps|]
    requires next[|ps|] < |d|
    ensures Taken(next, d, ps + [PulseAt(d, next[|ps|])])
  {
  }

  /** What the pulse at position adds to the denominator of candidate i inside the band. */
  function Band(p: Vec, d: Vec, position: nat, i: nat): real
    requires i < |d| && position < |d|
  {
    2.0 * Sign(PulseAt(d, position)) * Sign(PulseAt(d, i)) * Lag(p, i - position)
  }

  lemma BandIs(p: Vec, d: Vec, position: nat, i: nat, s: real, t: real, z: real)
    requires i < |d| && position < |d|
    requires s == Sign(PulseAt(d, position)) && t == Sign(PulseAt(d, i)) && z == Lag(p, i - position)
    ensures 2.0 * s * t * z == Band(p, d, position, i)
  {
  }

  lemma OutOfBand(p: Vec, d: Vec, position: nat, i: nat)
    requires i < |d| && position < |d|
    ensures !Near(i, position, |p|) ==> Band(p, d, position, i) == 0.0
  {
  }

  lemma NextEnergy(p: Vec, d: Vec, c: Vec, position: nat, i: nat)
    requires position < |d| == |c| && i < |d|
    ensures Energy(p, WithPulse(WithPulse(c, PulseAt(d, position)), PulseAt(d, i)))
         == Energy(p, WithPulse(c, PulseAt(d, i)))
            + (Times(p, c)[position] * (2.0 * Sign(PulseAt(d, position))) + Lag(p, 0)) + Band(p, d, position, i)
  {
    hide WithPulse, Form, Times, Lag, Sign, PulseAt;
    DenRecurrence(p, c, PulseAt(d, position), PulseAt(d, i));
  }

  // ---- the secondary rate and its maximum ----

  /** A target of one sample of height a, and the autocorrelation of a filter that changes nothing. */
  function Spike(n: nat, a: real): (d: Vec)
    requires n > 0
    ensures |d| == n && d[0] == a && forall i: nat :: 0 < i < n ==> d[i] == 0.0
  {
    seq(n, i requires 0 <= i < n => if i == 0 then a else 0.0)
  }

  function Identity(l: nat): (p: Vec)
    requires l > 0
    ensures |p| == l
    ensures forall k: int {:trigger Lag(p, k)} :: Lag(p, k) == if k == 0 then 1.0 else 0.0
  {
    seq(l, i requires 0 <= i < l => if i == 0 then 1.0 else 0.0)
  }

  function Ones(k: nat): (ps: seq<int>)
    ensures |ps| == k
    ensures forall n: nat :: n > 0 ==> ArePulses(ps, n)
  {
    seq(k, i => 1)
  }

  lemma {:induction false} OnesCode(k: nat, n: nat)
    requires n > 0
    ensures Code(Ones(k), n) == Spike(n, k as real)
  {
    if k > 0 {
      OnesCode(k - 1, n);
      assert Ones(k)[..k - 1] == Ones(k - 1);
    }
  }

  function Product(x: real, y: real): (z: real)
    ensures x >= 0.0 && y >= 0.0 ==> z >= 0.0
  {
    x * y
  }

  lemma {:induction false} SpikeDot(a: real, c: Vec, k: nat)
    requires 0 < k <= |c|
    ensures DotN(Spike(|c|, a), c, k) == Product(a, c[0])
  {
    if k == 1 {
      assert DotN(Spike(|c|, a), c, 0) == 0.0;
    } else {
      SpikeDot(a, c, k - 1);
      assert 0.0 * c[k - 1] == 0.0;
    }
  }

  lemma {:induction false} RowOfIdentity(l: nat, c: Vec, x: nat, k: nat)
    requires l > 0 && x < |c| && k <= |c|
    ensures DotN(Row(Identity(l), |c|, x), c, k) == if x < k then c[x] else 0.0
  {
    if k > 0 {
      RowOfIdentity(l, c, x, k - 1);
      assert Row(Identity(l), |c|, x)[k - 1] == Lag(Identity(l), x - (k - 1));
      assert 0.0 * c[k - 1] == 0.0 && 1.0 * c[k - 1] == c[k - 1];
    }
  }

  lemma IdentityTimes(l: nat, c: Vec)
    requires l > 0
    ensures Times(Identity(l), c) == c && Form(Identity(l), c) == Dot(c, c)
  {
    forall x: nat | x < |c| ensures Times(Identity(l), c)[x] == c[x] { RowOfIdentity(l, c, x, |c|); }
  }

  lemma IdentityNonNegative(l: nat, n: nat)
    requires l > 0
    ensures NonNegative(Identity(l), n)
  {
    forall c: Vec | |c| == n ensures Form(Identity(l), c) >= 0.0 {
      IdentityTimes(l, c);
      DotSelf(c, n);
    }
  }

  /** The share of a target that x pulses at one place explain. */
  function Rising(x: real): real
    requires x >= 0.0
  {
    Explained(x, Product(x, x) + EPS)
  }

  lemma ScaledShare(a: real, x: real, e: real)
    requires e > 0.0
    ensures Explained(Product(a, x), e) == Product(Product(a, a), Explained(x, e))
  {
  }

  lemma SpikeMatch(n: nat, a: real, x: real)
    requires n > 0
    ensures Match(Spike(n, a), Spike(n, x)) == Product(a, x)
  {
    SpikeDot(a, Spike(n, x), n);
  }

  lemma SpikeScore(n: nat, l: nat, a: real, x: real)
    requires n > 0 && l > 0 && x >= 0.0
    ensures Score(Spike(n, a), Identity(l), Spike(n, x)) == Product(Product(a, a), Rising(x))
  {
    hide Dot, Form, Product, Identity, Spike, Times;
    IdentityTimes(l, Spike(n, x));
    SpikeMatch(n, x, x);
    SpikeMatch(n, a, x);
    ScaledShare(a, x, Product(x, x) + EPS);
  }

  lemma LargerDivisor(x: real, e: real)
    requires e > 0.0
    ensures Explained(x, e + 1.0) <= Explained(x, e)
  {
  }

  lemma OtherPlaceScore(n: nat, l: nat, a: real, x: real, i: nat)
    requires 0 < i < n && l > 0 && x >= 0.0
    ensures Score(Spike(n, a), Identity(l), WithPulse(Spike(n, x), PulseAt(Spike(n, a), i)))
            == Explained(Product(a, x), Product(x, x) + EPS + 1.0)
  {
    hide Dot, Form, Product, Identity, Spike, Times, WithPulse;
    var d, p, c := Spike(n, a), Identity(l), Spike(n, x);
    MatchGrows(d, c, i);
    SpikeMatch(n, a, x);
    IdentityTimes(l, c);
    SpikeMatch(n, x, x);
    FormGrows(p, c, PulseAt(d, i));
    assert Lag(p, 0) == 1.0 && 2.0 * Sign(PulseAt(d, i)) * 0.0 == 0.0;
  }

  lemma ProductKeepsOrder(g: real, x: real, y: real)
    requires g >= 0.0 && x <= y
    ensures Product(g, x) <= Product(g, y)
  {
    ProductSplits(g, y, x);
  }

  lemma FirstPlaceIsBest(n: nat, l: nat, a: real, k: nat)
    requires n > 0 && l > 0 && a > 0.0
    ensures IsPulse(1, n) && BestNext(Spike(n, a), Identity(l), Spike(n, k as real), 1)
  {
    hide Score, Product, Identity, Rising, Explained;
    var x, g := k as real, Product(a, a);
    var d, p, c := Spike(n, a), Identity(l), Spike(n, x);
    assert WithPulse(c, 1) == Spike(n, (k + 1) as real);
    SpikeScore(n, l, a, (k + 1) as real);
    SpikeScore(n, l, a, x);
    RisingRun(k, k + 1);
    ProductKeepsOrder(g, Rising(x), Rising((k + 1) as real));
    forall i: nat | i < n ensures Score(d, p, WithPulse(c, PulseAt(d, i))) <= Score(d, p, WithPulse(c, 1)) {
      if i > 0 {
        OtherPlaceScore(n, l, a, x, i);
        LargerDivisor(Product(a, x), Product(x, x) + EPS);
        RisingScaled(a, x);
      }
    }
  }

  lemma RisingScaled(a: real, x: real)
    requires x >= 0.0
    ensures Explained(Product(a, x), Product(x, x) + EPS) == Product(Product(a, a), Rising(x))
  {
  }

  lemma RisesStrictly(x: real, y: real)
    requires 0.0 <= x < y
    ensures Rising(x) < Rising(y)
  {
    SquaresRise(x, y);
    Shares(Product(x, x), Product(y, y), EPS);
  }

  lemma SquaresRise(x: real, y: real)
    requires 0.0 <= x < y
    ensures Product(x, x) < Product(y, y)
  {
    PositiveTimes(y - x, y + x);
    assert Product(y - x, y + x) == Product(y, y) - Product(x, x);
  }

  lemma PositiveTimes(a: real, b: real)
    requires a > 0.0 && b > 0.0
    ensures Product(a, b) > 0.0
  {
  }

  /** a parts of a + e are less than b of b + e. */
  lemma Shares(a: real, b: real, e: real)
    requires 0.0 <= a < b && e > 0.0
    ensures a / (a + e) < b / (b + e)
  {
    var r, s := a / (a + e), b / (b + e);
    assert r * (a + e) == a && s * (b + e) == b;
    assert (1.0 - r) * (a + e) == e && (1.0 - s) * (b + e) == e;
    if r >= s { Smaller(1.0 - r, 1.0 - s, a + e, b + e); }
  }

  lemma Smaller(p: real, q: real, x: real, y: real)
    requires 0.0 < x < y && p <= q && q * y > 0.0
    ensures p * x < q * y
  {
  }

  lemma RisingRun(i: nat, j: nat)
    requires i < j
    ensures Rising(i as real) < Rising(j as real)
  {
    RisesStrictly(i as real, j as real);
  }

  lemma OnesAreGreedy(k: nat, n: nat, l: nat, a: real)
    requires n > 0 && l > 0 && a > 0.0
    ensures Greedy(Spike(n, a), Identity(l), Ones(k))
    ensures forall j: nat :: j <= k ==> Scores(Spike(n, a), Identity(l), Ones(k))[j] == Product(Product(a, a), Rising(j as real))
  {
    hide Score, Code, Rising, BestNext, Identity, Product;
    forall j: nat | j < k ensures BestAt(Spike(n, a), Identity(l), Ones(k), j) {
      OnesCode(j, n);
      FirstPlaceIsBest(n, l, a, j);
      assert Ones(k)[..j] == Ones(j);
    }
    forall j: nat | j <= k ensures Scores(Spike(n, a), Identity(l), Ones(k))[j] == Product(Product(a, a), Rising(j as real)) {
      OnesCode(j, n);
      SpikeScore(n, l, a, j as real);
      assert Ones(k)[..j] == Ones(j);
    }
  }

  /** A height at which every further pulse is worth more than all the prices together. */
  function Height(maxFec: nat, price: real): (a: real)
    requires Rising(maxFec as real) < Rising((maxFec + 1) as real)
    ensures a >= 1.0
  {
    1.0 + maxFec as real * Abs(price) / (Rising((maxFec + 1) as real) - Rising(maxFec as real))
  }

  lemma HighEnough(maxFec: nat, price: real, gap: real, a: real)
    requires gap > 0.0 && a == 1.0 + maxFec as real * Abs(price) / gap
    ensures Product(Product(a, a), gap) > maxFec as real * Abs(price)
  {
  }

  /** Whatever the prices, and for every length of subframe and response, there is a target for which the
      secondary rate takes one pulse more than its maximum. */
  lemma OneTooMany(maxMain: int, maxFec: int, n: nat, l: nat, priceMain: real, priceFec: real) returns (a: real)
    requires 1 <= maxFec < maxMain <= MAX_PULSES_PER_SF && n > 0 && l > 0
    ensures FecOutcome(Spike(n, a), Identity(l), priceMain, priceFec, maxMain, maxFec, Ones(maxMain), maxFec, maxFec + 1)
  {
    hide Scores, Greedy, Rising, NonNegative, Identity, Spike, Product, Height, BestCount, FinalThreshold;
    RisingRun(maxFec, maxFec + 1);
    a := Height(maxFec, priceFec);
    IdentityNonNegative(l, n);
    OnesAreGreedy(maxMain, n, l, a);
    var w := Scores(Spike(n, a), Identity(l), Ones(maxMain));
    var v := Offers(w, maxFec);
    assert |v| == maxFec + 1 && v[0] == 0.0 && forall j: nat :: 1 <= j <= maxFec ==> v[j] == w[j + 1];
    LastOfferWins(v, maxFec, a, priceFec);
  }

  lemma LastOfferWins(v: seq<real>, maxFec: nat, a: real, price: real)
    requires |v| == maxFec + 1 > 1 && v[0] == 0.0
    requires forall j: nat :: 1 <= j <= maxFec ==> v[j] == Product(Product(a, a), Rising((j + 1) as real))
    requires Rising(maxFec as real) < Rising((maxFec + 1) as real) && a == Height(maxFec, price)
    ensures BestCount(v, price, maxFec) && FinalThreshold(v, price, maxFec) > 0.0
  {
    hide Rising, Product, Height, BestCount, FinalThreshold;
    var g, last, before := Product(a, a), Rising((maxFec + 1) as real), Rising(maxFec as real);
    HeightIs(maxFec, price);
    HighEnough(maxFec, price, last - before, a);
    ProductSplits(g, last, before);
    forall j: nat | j < maxFec ensures v[j] <= Product(g, before) {
      if j == 0 {
        ZeroRises();
        ShareNotNegative(maxFec);
        ProductKeepsOrder(g, 0.0, before);
        ProductOfZero(g);
      } else {
        if j + 1 < maxFec { RisingRun(j + 1, maxFec); }
        ProductKeepsOrder(g, Rising((j + 1) as real), before);
      }
    }
    ShareNotNegative(maxFec);
    LastIsBest(v, price, maxFec as real * Abs(price), Product(g, before));
  }

  lemma HeightIs(maxFec: nat, price: real)
    requires Rising(maxFec as real) < Rising((maxFec + 1) as real)
    ensures Height(maxFec, price) == 1.0 + maxFec as real * Abs(price) / (Rising((maxFec + 1) as real) - Rising(maxFec as real))
  {
  }

  lemma ProductSplits(g: real, x: real, y: real)
    ensures Product(g, x) == Product(g, y) + Product(g, x - y)
  {
  }

  lemma ProductOfZero(g: real)
    ensures Product(g, 0.0) == 0.0
  {
  }

  lemma ShareNotNegative(k: nat)
    ensures Rising(k as real) >= 0.0
  {
  }

  lemma ZeroRises()
    ensures Rising(0.0) == 0.0
  {
  }

  /** An offer that exceeds all others by more than all the prices together is the best one. */
  lemma LastIsBest(v: seq<real>, price: real, prices: real, bound: real)
    requires |v| > 1 && prices == (|v| - 1) as real * Abs(price) && bound >= 0.0
    requires v[|v| - 1] > bound + prices && forall j: nat :: j < |v| - 1 ==> v[j] <= bound
    ensures BestCount(v, price, |v| - 1) && FinalThreshold(v, price, |v| - 1) > 0.0
  {
    var m := |v| - 1;
    forall j: nat | j < m ensures Net(v[j], j, price) < Net(v[m], m, price) {
      PriceOfRest(j, m, price);
    }
    assert 0 as real * price == 0.0;
    assert prices >= 0.0 by { PriceOfRest(0, m, price); }
  }

  lemma PriceOfRest(j: nat, m: nat, price: real)
    requires j < m
    ensures m as real * price - j as real * price <= m as real * Abs(price)
    ensures m as real * Abs(price) >= 0.0
  {
  }

  /** For every length of subframe and response and all prices: the secondary rate keeps to its maximum for all
      targets and filters exactly when that is not positive or the main rate has no larger one. */
  lemma FecMaximumExactly(maxMain: int, maxFec: int, n: nat, l: nat, a: real, b: real)
    requires maxMain <= 40 && n > 0 && l > 0
    ensures
      (forall d, p, all, j: nat, count: nat :: |d| == n && |p| == l && FecOutcome(d, p, a, b, maxMain, maxFec, all, j, count) ==>
         count <= maxFec || count == 0)
      <==> (maxFec <= 0 || maxMain <= maxFec)
  {
    hide Scores, Greedy, NonNegative;
    if 1 <= maxFec < maxMain {
      hide FecOutcome;
      var height := OneTooMany(maxMain, maxFec, n, l, a, b);
    }
  }
}
