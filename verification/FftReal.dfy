/** The packed real transforms of fft.go and perc.go, and their round trip. */
module FftReal {
  import opened Arith
  import opened Complex
  import opened Fft
  import opened FftInverse

  function Lifted(x: seq<real>): (v: seq<Cpx>)
    ensures |v| == |x|
  {
    seq(|x|, i requires 0 <= i < |x| => Cpx(x[i], 0.0))
  }

  // ---- the spectrum of real samples is conjugate symmetric ----

  lemma {:induction false} SumConjugates(f: nat -> Cpx, g: nat -> Cpx, n: nat)
    requires forall j: nat :: j < n ==> g(j) == Conj(f(j))
    ensures Sum(g, n) == Conj(Sum(f, n))
  {
    if n > 0 { SumConjugates(f, g, n - 1); }
  }

  lemma TwiddleConjugates(fwd: Twiddles, bwd: Twiddles, n: nat, k: nat, j: nat)
    requires ForwardAndBackward(fwd, bwd) && k < n
    ensures fwd(n, Wrap(Negated(k, n) * j, n)) == Conj(fwd(n, Wrap(k * j, n)))
  {
    var a := Angle(k, j, n);
    assert bwd(n, a) == Conj(fwd(n, a));
    BackwardIsNegatedForward(fwd, bwd, n, a);
    hide ForwardAndBackward, Negated;
    NegatedTimes(k, j, n);
  }

  lemma TermConjugates(fwd: Twiddles, bwd: Twiddles, x: seq<real>, k: nat, j: nat)
    requires ForwardAndBackward(fwd, bwd) && k < |x| && j < |x|
    ensures Term(fwd, Lifted(x), Negated(k, |x|), j) == Conj(Term(fwd, Lifted(x), k, j))
  {
    hide ForwardAndBackward, Wrap, Negated;
    TwiddleConjugates(fwd, bwd, |x|, k, j);
    MulConjugates(x[j], fwd(|x|, Wrap(k * j, |x|)));
  }

  lemma MulConjugates(r: real, w: Cpx)
    ensures Mul(Cpx(r, 0.0), Conj(w)) == Conj(Mul(Cpx(r, 0.0), w))
  {
  }

  lemma SpectrumConjugates(fwd: Twiddles, bwd: Twiddles, x: seq<real>, k: nat)
    requires ForwardAndBackward(fwd, bwd) && k < |x|
    ensures Dft(fwd, Lifted(x), Negated(k, |x|)) == Conj(Dft(fwd, Lifted(x), k))
  {
    hide ForwardAndBackward, Term;
    var v, k' := Lifted(x), Negated(k, |x|);
    forall j: nat | j < |x| ensures Terms(fwd, v, k')(j) == Conj(Terms(fwd, v, k)(j)) {
      TermConjugates(fwd, bwd, x, k, j);
    }
    SumConjugates(Terms(fwd, v, k), Terms(fwd, v, k'), |x|);
  }

  // ---- the ordered real layout ----

  /** f[0] = bin 0, f[1] = bin n/2 (real parts), then real and imaginary parts of bins 1 .. n/2 - 1. */
  ghost predicate IsOrdered(f: seq<real>, s: seq<Cpx>) {
    && |f| == |s| >= 2
    && f[0] == s[0].re
    && f[1] == s[|s| / 2].re
    && forall i: nat :: 1 <= i < |s| / 2 ==> IsPair(f, s, i)
  }

  ghost predicate IsPair(f: seq<real>, s: seq<Cpx>, i: nat)
    requires i < |s| / 2 && |f| == |s|
  {
    f[2 * i] == s[i].re && f[2 * i + 1] == s[i].im
  }

  /** The spectrum that is set up from the layout. For odd n nothing is written to one bin, which keeps
      whatever the buffer held there. */
  function Unpacked(f: seq<real>, stale: Cpx): (s: seq<Cpx>)
    requires |f| >= 2
    ensures |s| == |f|
  {
    seq(|f|, i requires 0 <= i < |f| => UnpackedAt(f, stale, i))
  }

  function UnpackedAt(f: seq<real>, stale: Cpx, i: nat): Cpx
    requires i < |f| && |f| >= 2
  {
    if i == 0 then Cpx(f[0], 0.0)
    else if i == |f| / 2 then Cpx(f[1], 0.0)
    else if i < |f| / 2 then Cpx(f[2 * i], f[2 * i + 1])
    else if IsStale(i, |f|) then stale
    else Cpx(f[2 * (|f| - i)], -f[2 * (|f| - i) + 1])
  }

  predicate IsStale(i: nat, n: nat) {
    n % 2 == 1 && i == n / 2 + 1
  }

  /** The buffer does not matter exactly for even lengths: for odd ones what it held is added to the first sample. */
  lemma StaleShows(bwd: Twiddles, f: seq<real>, a: Cpx, b: Cpx)
    requires RootsOfUnity(bwd) && |f| >= 2
    ensures |f| % 2 == 0 ==> Unpacked(f, a) == Unpacked(f, b)
    ensures |f| % 2 == 1 ==> Add(Dft(bwd, Unpacked(f, a), 0), b) == Add(Dft(bwd, Unpacked(f, b), 0), a)
  {
    hide RootsOfUnity, UnpackedAt, Terms, Add, Sum;
    var u, v, n := Unpacked(f, a), Unpacked(f, b), |f|;
    forall i: nat | i < n && !IsStale(i, n) ensures u[i] == v[i] { OnlyStaleDiffers(f, a, b, i); }
    if n % 2 == 0 {
      assert u == v;
    } else {
      var m := n / 2 + 1;
      forall i: nat | i < n ensures Terms(bwd, u, 0)(i) == u[i] && Terms(bwd, v, 0)(i) == v[i] {
        FirstBinTerm(bwd, u, i);
        FirstBinTerm(bwd, v, i);
      }
      OnlyStaleDiffers(f, a, b, m);
      OneTermDiffers(Terms(bwd, u, 0), Terms(bwd, v, 0), n, m);
    }
  }

  lemma OnlyStaleDiffers(f: seq<real>, a: Cpx, b: Cpx, i: nat)
    requires i < |f| && |f| >= 2
    ensures if IsStale(i, |f|) then UnpackedAt(f, a, i) == a && UnpackedAt(f, b, i) == b
            else UnpackedAt(f, a, i) == UnpackedAt(f, b, i)
  {
  }

  lemma FirstBinTerm(tw: Twiddles, v: seq<Cpx>, i: nat)
    requires RootsOfUnity(tw) && i < |v|
    ensures Terms(tw, v, 0)(i) == v[i]
  {
    hide RootsOfUnity;
    assert tw(|v|, 0) == ONE by { TurnOfZero(tw, |v|); }
    assert Wrap(0 * i, |v|) == 0;
  }

  lemma TurnOfZero(tw: Twiddles, n: nat)
    requires RootsOfUnity(tw) && n > 0
    ensures tw(n, 0) == ONE
  {
  }

  lemma {:induction false} OneTermDiffers(f: nat -> Cpx, g: nat -> Cpx, n: nat, m: nat)
    requires m < n && forall i: nat :: i < n && i != m ==> f(i) == g(i)
    ensures Add(Sum(f, n), g(m)) == Add(Sum(g, n), f(m))
  {
    if m == n - 1 { SumExt(f, g, m); } else { OneTermDiffers(f, g, n - 1, m); }
  }

  lemma NegatedAt(k: nat, n: nat)
    requires k < n
    ensures Negated(k, n) == if k == 0 then 0 else n - k
  {
  }

  lemma LayoutLosesNothing(fwd: Twiddles, bwd: Twiddles, x: seq<real>, f: seq<real>, stale: Cpx)
    requires ForwardAndBackward(fwd, bwd) && |x| % 2 == 0
    requires IsOrdered(f, Spectrum(fwd, Lifted(x)))
    ensures Unpacked(f, stale) == Spectrum(fwd, Lifted(x))
  {
    hide ForwardAndBackward, Dft;
    var s, n := Spectrum(fwd, Lifted(x)), |x|;
    forall k: nat | k < n ensures UnpackedAt(f, stale, k) == s[k] {
      SpectrumConjugates(fwd, bwd, x, k);
      NegatedAt(k, n);
      if 1 <= k < n / 2 {
        assert IsPair(f, s, k);
      } else if k > n / 2 {
        assert IsPair(f, s, n - k);
      }
    }
  }

  function RealParts(v: seq<Cpx>): (x: seq<real>)
    ensures |x| == |v|
  {
    seq(|v|, i requires 0 <= i < |v| => v[i].re)
  }

  function Amplified(x: seq<real>): (y: seq<real>)
    ensures |y| == |x|
  {
    seq(|x|, i requires 0 <= i < |x| => |x| as real * x[i])
  }

  /** Going forward and back multiplies every sample by n. */
  lemma RoundTrip(fwd: Twiddles, bwd: Twiddles, x: seq<real>, f: seq<real>, stale: Cpx)
    requires ForwardAndBackward(fwd, bwd) && |x| % 2 == 0
    requires IsOrdered(f, Spectrum(fwd, Lifted(x)))
    ensures |f| == |x| >= 2 && RealParts(Spectrum(bwd, Unpacked(f, stale))) == Amplified(x)
  {
    hide ForwardAndBackward, Dft;
    LayoutLosesNothing(fwd, bwd, x, f, stale);
    var s := Spectrum(fwd, Lifted(x));
    forall i: nat | i < |x| ensures RealParts(Spectrum(bwd, s))[i] == Amplified(x)[i] {
      BackwardUndoesForward(fwd, bwd, Lifted(x), i);
    }
  }

  // ---- the code ----

  /** cfft: hands 6 n cells of scratch to the recursion. */
  method Cfft(mem: array<Cpx>, tw: Twiddles, io: nat, n: nat, oo: nat, so: nat)
    requires RootsOfUnity(tw) && n > 0
    requires io + n <= mem.Length && oo + n <= mem.Length && so + 6 * n <= mem.Length
    requires Apart(io, io + n, oo, oo + n) && Apart(io, io + n, so, so + 6 * n) && Apart(oo, oo + n, so, so + 6 * n)
    modifies mem
    ensures IsTransform(mem[..], oo, tw, old(mem[io..io + n]))
    ensures Untouched(old(mem[..]), mem[..], oo, so, n)
  {
    hide RootsOfUnity, Dft;
    PlainStride(mem[..], io, n);
    FftRec(mem, tw, io, io + n, 1, n, oo, so);
  }

  lemma PlainStride(s: seq<Cpx>, io: nat, n: nat)
    requires n > 0 && io + n <= |s|
    ensures At(io, 1, n - 1) == io + n - 1
    ensures Strided(s, io, 1, n) == s[io..io + n]
  {
  }

  /** rfftForwardOrdered: cin, spec and the scratch of the recursion are ranges of one pooled buffer. */
  method RfftForwardOrdered(fwd: Twiddles, time: array<real>, f: array<real>)
    requires RootsOfUnity(fwd)
    requires time.Length == f.Length >= 2
    modifies f
    ensures IsOrdered(f[..], Spectrum(fwd, Lifted(old(time[..]))))
    ensures f.Length % 2 == 1 ==> f[f.Length - 1] == old(f[f.Length - 1])
  {
    hide RootsOfUnity, Dft, Strided, Untouched, IsOrdered;
    var n := time.Length;
    ghost var x := time[..];
    var mem := new Cpx[8 * n](_ => ZERO);
    for i := 0 to n
      invariant forall j: nat :: j < i ==> mem[j] == Cpx(x[j], 0.0)
      modifies mem
    {
      mem[i] := Cpx(time[i], 0.0);
    }
    assert mem[0..n] == Lifted(x);
    PlainStride(mem[..], 0, n);
    FftRec(mem, fwd, 0, n, 1, n, n, 2 * n);
    PackOrdered(mem, n, f, Spectrum(fwd, Lifted(x)));
  }

  method PackOrdered(mem: array<Cpx>, n: nat, f: array<real>, ghost s: seq<Cpx>)
    requires |s| == n == f.Length >= 2 && 2 * n <= mem.Length
    requires forall k: nat :: k < n ==> mem[n + k] == s[k]
    modifies f
    ensures IsOrdered(f[..], s)
    ensures n % 2 == 1 ==> f[n - 1] == old(f[n - 1])
  {
    f[0] := mem[n].re;
    f[1] := mem[n + n / 2].re;
    for i := 1 to n / 2
      invariant f[0] == s[0].re && f[1] == s[n / 2].re
      invariant forall j: nat :: 1 <= j < i ==> f[2 * j] == s[j].re && f[2 * j + 1] == s[j].im
      invariant n % 2 == 1 ==> f[n - 1] == old(f[n - 1])
    {
      f[2 * i] := mem[n + i].re;
      f[2 * i + 1] := mem[n + i].im;
    }
  }

  /** rfftBackwardOrdered; mem is the pooled buffer with the scratch of the recursion, whatever it held before. */
  method RfftBackwardOrdered(bwd: Twiddles, f: array<real>, time: array<real>, mem: array<Cpx>)
    requires RootsOfUnity(bwd)
    requires time.Length == f.Length >= 2 && mem.Length >= 8 * f.Length
    modifies time, mem
    ensures time[..] == RealParts(Spectrum(bwd, Unpacked(old(f[..]), old(mem[f.Length / 2 + 1]))))
  {
    hide RootsOfUnity, Dft, Untouched, Unpacked;
    var n := f.Length;
    ghost var u := Unpacked(f[..], mem[n / 2 + 1]);
    UnpackInto(f, mem);
    Cfft(mem, bwd, 0, n, n, 2 * n);
    ghost var s := Spectrum(bwd, u);
    for i := 0 to n
      invariant forall j: nat :: j < i ==> time[j] == s[j].re
      modifies time
    {
      time[i] := mem[n + i].re;
    }
  }

  method UnpackInto(f: array<real>, mem: array<Cpx>)
    requires f.Length >= 2 && f.Length < mem.Length
    modifies mem
    ensures mem[0..f.Length] == Unpacked(f[..], old(mem[f.Length / 2 + 1]))
    ensures f.Length % 2 == 1 ==> mem[f.Length / 2 + 1] == old(mem[f.Length / 2 + 1])
  {
    var n := f.Length;
    ghost var stale := mem[n / 2 + 1];
    mem[0] := Cpx(f[0], 0.0);
    mem[n / 2] := Cpx(f[1], 0.0);
    for i := 1 to n / 2
      invariant mem[0] == UnpackedAt(f[..], stale, 0) && mem[n / 2] == UnpackedAt(f[..], stale, n / 2)
      invariant n % 2 == 1 ==> mem[n / 2 + 1] == stale
      invariant forall j: nat :: 1 <= j < i ==> mem[j] == UnpackedAt(f[..], stale, j)
      invariant forall j: nat :: n - i < j < n ==> mem[j] == UnpackedAt(f[..], stale, j)
    {
      var re, im := f[2 * i], f[2 * i + 1];
      mem[i] := Cpx(re, im);
      mem[n - i] := Cpx(re, -im);
    }
  }

  /** The round trip of the two packed transforms: back(forward(x)) is n x, whatever the pooled buffer held. */
  method ForwardThenBackward(fwd: Twiddles, bwd: Twiddles, time: array<real>, f: array<real>, mem: array<Cpx>)
    requires ForwardAndBackward(fwd, bwd)
    requires time != f && time.Length == f.Length >= 2 && f.Length % 2 == 0 && mem.Length >= 8 * f.Length
    modifies time, f, mem
    ensures time[..] == Amplified(old(time[..]))
  {
    TablesAreRoots(fwd, bwd);
    hide *;
    ghost var x := time[..];
    ghost var stale := mem[f.Length / 2 + 1];
    RfftForwardOrdered(fwd, time, f);
    RoundTrip(fwd, bwd, x, f[..], stale);
    RfftBackwardOrdered(bwd, f, time, mem);
  }

  lemma TablesAreRoots(fwd: Twiddles, bwd: Twiddles)
    requires ForwardAndBackward(fwd, bwd)
    ensures RootsOfUnity(fwd) && RootsOfUnity(bwd)
  {
  }
}
