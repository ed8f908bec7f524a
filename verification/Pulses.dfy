/** Pulse vectors as counts, run lengths and packed signs: analysis.go, encoder.go and pulse.go of internal/voip/media/mlow. */
module Pulses {
  import opened Arith

  const SUBFRAMES: nat := 4
  const POS_PER: nat := 80
  const LENGTH: nat := 320
  const SIGN_CHUNK: nat := 15

  datatype RawSym = RawSym(sym: nat, nbits: nat)
  datatype PulseParams = PulseParams(subfr: seq<nat>, total: nat, magRuns: seq<int>, signSyms: seq<RawSym>)

  function Abs(a: int): nat {
    if a < 0 then -a else a
  }

  function Unit(a: int): int {
    if a < 0 then -1 else 1
  }

  function Zeros(n: nat): (z: seq<int>)
    ensures |z| == n
  {
    seq(n, i => 0)
  }

  // ---- what the parameters stand for ----

  /** The units in positions [base, n). */
  function Weight(s: seq<int>, base: nat, n: nat): nat
    requires base <= n <= |s|
  {
    if n == base then 0 else Weight(s, base, n - 1) + Abs(s[n - 1])
  }

  /** The last pulse in [base, n), or base when there is none. */
  function LastBefore(s: seq<int>, base: nat, n: nat): (p: nat)
    requires base <= n <= |s|
    ensures base <= p && (p < n || p == base)
  {
    if n == base then base else if s[n - 1] != 0 then n - 1 else LastBefore(s, base, n - 1)
  }

  /** The run lengths of [base, n): a step to each pulse, then zeros for its further units. */
  function Runs(s: seq<int>, base: nat, n: nat): seq<int>
    requires base <= n <= |s|
  {
    if n == base then []
    else if s[n - 1] == 0 then Runs(s, base, n - 1)
    else Runs(s, base, n - 1) + [n - 1 - LastBefore(s, base, n - 1)] + Zeros(Abs(s[n - 1]) - 1)
  }

  function AllRuns(s: seq<int>, sf: nat): seq<int>
    requires sf <= SUBFRAMES && |s| == LENGTH
  {
    if sf == 0 then [] else AllRuns(s, sf - 1) + Runs(s, POS_PER * (sf - 1), POS_PER * sf)
  }

  function Places(s: seq<int>, n: nat): seq<int>
    requires n <= |s|
  {
    if n == 0 then [] else if s[n - 1] == 0 then Places(s, n - 1) else Places(s, n - 1) + [n - 1]
  }

  function Mags(s: seq<int>, n: nat): (r: seq<int>)
    requires n <= |s|
    ensures |r| == |Places(s, n)|
  {
    if n == 0 then [] else if s[n - 1] == 0 then Mags(s, n - 1) else Mags(s, n - 1) + [Abs(s[n - 1])]
  }

  function Signs(s: seq<int>, n: nat): (r: seq<int>)
    requires n <= |s|
    ensures |r| == |Places(s, n)|
  {
    if n == 0 then [] else if s[n - 1] == 0 then Signs(s, n - 1) else Signs(s, n - 1) + [Unit(s[n - 1])]
  }

  lemma {:induction false} OneRunPerUnit(s: seq<int>, base: nat, n: nat)
    requires base <= n <= |s|
    ensures |Runs(s, base, n)| == Weight(s, base, n)
  {
    if n > base { OneRunPerUnit(s, base, n - 1); }
  }

  // ---- reading the run lengths back ----

  /** The reader inside a subframe: units so far, position, room left, and the pulses found. */
  datatype Reader = Reader(k: nat, runPos: int, pos: int, places: seq<int>, mags: seq<int>)

  function Take(x: Reader, m: int): Reader {
    if m > 0 || x.k == 0 then Reader(x.k + 1, x.runPos + m, x.pos - m, x.places + [x.runPos + m], x.mags + [1])
    else if x.mags == [] then x.(k := x.k + 1)
    else x.(k := x.k + 1, mags := x.mags[|x.mags| - 1 := x.mags[|x.mags| - 1] + 1])
  }

  function Read(x: Reader, runs: seq<int>): Reader {
    if runs == [] then x else Take(Read(x, runs[..|runs| - 1]), runs[|runs| - 1])
  }

  /** Each run length is a step that stays inside the room left. */
  predicate Fits(x: Reader, runs: seq<int>) {
    runs == [] ||
      (Fits(x, runs[..|runs| - 1]) && 0 <= runs[|runs| - 1] < Read(x, runs[..|runs| - 1]).pos)
  }

  lemma ReadMore(x: Reader, runs: seq<int>, m: int)
    ensures Read(x, runs + [m]) == Take(Read(x, runs), m)
    ensures Fits(x, runs + [m]) <==> Fits(x, runs) && 0 <= m < Read(x, runs).pos
  {
  }

  /** n more units on the last pulse. */
  function Heavier(y: Reader, n: nat): Reader
    requires y.mags != []
  {
    y.(k := y.k + n, mags := y.mags[|y.mags| - 1 := y.mags[|y.mags| - 1] + n])
  }

  lemma HeavierOnce(y: Reader, n: nat)
    requires y.k > 0 && y.mags != []
    ensures Take(Heavier(y, n), 0) == Heavier(y, n + 1) && Heavier(y, n).pos == y.pos
  {
  }

  lemma {:induction false} ReadZeros(x: Reader, runs: seq<int>, n: nat)
    requires Read(x, runs).k > 0 && Read(x, runs).mags != [] && Read(x, runs).pos > 0 && Fits(x, runs)
    ensures Read(x, runs + Zeros(n)) == Heavier(Read(x, runs), n)
    ensures Fits(x, runs + Zeros(n))
  {
    hide Read, Fits, Take;
    if n == 0 {
      assert runs + Zeros(0) == runs;
    } else {
      ReadZeros(x, runs, n - 1);
      HeavierOnce(Read(x, runs), n - 1);
      assert runs + Zeros(n) == (runs + Zeros(n - 1)) + [0];
      ReadMore(x, runs + Zeros(n - 1), 0);
    }
  }

  /** At the start of a subframe. */
  function Fresh(base: nat, places: seq<int>, mags: seq<int>): Reader {
    Reader(0, base, POS_PER, places, mags)
  }

  /** What the reader knows once it has the run lengths of [base, n). */
  function Reached(s: seq<int>, base: nat, n: nat): Reader
    requires base <= n <= |s|
  {
    Reader(|Runs(s, base, n)|, LastBefore(s, base, n), POS_PER - (LastBefore(s, base, n) - base), Places(s, n), Mags(s, n))
  }

  /** Reading the run lengths of a subframe finds its pulses, and every step fits. */
  lemma {:induction false} ReadsSubframe(s: seq<int>, base: nat, n: nat)
    requires base <= n <= |s| && n <= base + POS_PER
    ensures Read(Fresh(base, Places(s, base), Mags(s, base)), Runs(s, base, n)) == Reached(s, base, n)
    ensures Fits(Fresh(base, Places(s, base), Mags(s, base)), Runs(s, base, n))
  {
    if n > base {
      ReadsSubframe(s, base, n - 1);
      if s[n - 1] != 0 { ReadsPulse(s, base, n); }
    }
  }

  lemma ReadsPulse(s: seq<int>, base: nat, n: nat)
    requires base < n <= |s| && n <= base + POS_PER && s[n - 1] != 0
    requires Read(Fresh(base, Places(s, base), Mags(s, base)), Runs(s, base, n - 1)) == Reached(s, base, n - 1)
    requires Fits(Fresh(base, Places(s, base), Mags(s, base)), Runs(s, base, n - 1))
    ensures Read(Fresh(base, Places(s, base), Mags(s, base)), Runs(s, base, n)) == Reached(s, base, n)
    ensures Fits(Fresh(base, Places(s, base), Mags(s, base)), Runs(s, base, n))
  {
    hide Read, Fits, Take, Reached, LastBefore, Places, Mags, Fresh, Runs;
    var x := Fresh(base, Places(s, base), Mags(s, base));
    var before, m := Runs(s, base, n - 1), n - 1 - LastBefore(s, base, n - 1);
    OpensPulse(s, base, n);
    ReadMore(x, before, m);
    ReadZeros(x, before + [m], Abs(s[n - 1]) - 1);
    ClosesPulse(s, base, n);
  }

  /** The step to the pulse at n - 1. */
  function Opened(s: seq<int>, base: nat, n: nat): Reader
    requires base < n <= |s|
  {
    Reader(|Runs(s, base, n - 1)| + 1, n - 1, POS_PER - (n - 1 - base), Places(s, n), Mags(s, n - 1) + [1])
  }

  lemma OpensPulse(s: seq<int>, base: nat, n: nat)
    requires base < n <= |s| && n <= base + POS_PER && s[n - 1] != 0
    ensures var m := n - 1 - LastBefore(s, base, n - 1);
            var y := Reached(s, base, n - 1);
            Take(y, m) == Opened(s, base, n) && 0 <= m < y.pos
    ensures var y := Opened(s, base, n); y.k > 0 && y.mags != [] && y.pos > 0
  {
  }

  lemma ClosesPulse(s: seq<int>, base: nat, n: nat)
    requires base < n <= |s| && s[n - 1] != 0
    ensures var y := Opened(s, base, n);
            var more := Abs(s[n - 1]) - 1;
            y.mags != [] && Heavier(y, more) == Reached(s, base, n)
    ensures Runs(s, base, n) == Runs(s, base, n - 1) + [n - 1 - LastBefore(s, base, n - 1)] + Zeros(Abs(s[n - 1]) - 1)
  {
  }

  // ---- packing signs ----

  function Pow2(n: nat): (p: nat)
    ensures p > 0
  {
    if n == 0 then 1 else 2 * Pow2(n - 1)
  }

  function PlusBit(sign: int): nat {
    if sign > 0 then 1 else 0
  }

  /** The signs as bits, the first one highest. */
  function Bits(signs: seq<int>): (v: nat)
    ensures v < Pow2(|signs|)
  {
    if signs == [] then 0 else 2 * Bits(signs[..|signs| - 1]) + PlusBit(signs[|signs| - 1])
  }

  function Chunk(n: nat): nat {
    if n > SIGN_CHUNK then SIGN_CHUNK else n
  }

  function Packed(signs: seq<int>): seq<RawSym>
    decreases |signs|
  {
    if signs == [] then []
    else
      var c := Chunk(|signs|);
      [RawSym(Bits(signs[..c]), c)] + Packed(signs[c..])
  }

  lemma {:induction false} BitsPrefix(signs: seq<int>, j: nat)
    requires j <= |signs|
    ensures Bits(signs) / Pow2(|signs| - j) == Bits(signs[..j])
  {
    var n := |signs|;
    if j == n {
      assert signs[..n] == signs;
    } else {
      BitsPrefix(signs[..n - 1], j);
      assert signs[..n - 1][..j] == signs[..j];
      BitsHalf(signs);
      assert Pow2(n - j) == 2 * Pow2(n - 1 - j);
      HalvesFirst(Bits(signs), Pow2(n - 1 - j));
    }
  }

  lemma BitsHalf(signs: seq<int>)
    requires signs != []
    ensures Bits(signs) / 2 == Bits(signs[..|signs| - 1])
  {
  }

  lemma HalvesFirst(a: nat, b: nat)
    requires b > 0
    ensures a / (2 * b) == (a / 2) / b
  {
    var h := a / 2;
    var q, r := h / b, h % b;
    assert h == b * q + r && a == 2 * h + a % 2;
    assert a == (2 * b) * q + (2 * r + a % 2) by { assert 2 * (b * q) == (2 * b) * q; }
    DivModUnique(a, 2 * b, q, 2 * r + a % 2);
  }

  // ---- building ----

  /** What smplBuildPulseParams promises of its result. */
  predicate Describes(pp: PulseParams, pulse: seq<int>) {
    && |pulse| == LENGTH
    && |pp.subfr| == SUBFRAMES
    && (forall sf :: 0 <= sf < SUBFRAMES ==> pp.subfr[sf] == SubframeWeight(pulse, sf))
    && pp.total == pp.subfr[0] + pp.subfr[1] + pp.subfr[2] + pp.subfr[3]
    && pp.magRuns == AllRuns(pulse, SUBFRAMES)
    && pp.signSyms == Packed(Signs(pulse, LENGTH))
  }

  function SubframeWeight(pulse: seq<int>, sf: nat): nat
    requires sf < SUBFRAMES && |pulse| == LENGTH
  {
    Weight(pulse, POS_PER * sf, POS_PER * (sf + 1))
  }

  lemma {:induction false} NothingThere(s: seq<int>, base: nat, n: nat)
    requires base <= n <= |s| && Weight(s, base, n) == 0
    ensures Runs(s, base, n) == [] && Signs(s, n) == Signs(s, base)
    ensures Places(s, n) == Places(s, base) && Mags(s, n) == Mags(s, base)
  {
    if n > base { NothingThere(s, base, n - 1); }
  }

  method CountUnits(pulse: seq<int>, base: nat, end: nat) returns (sum: nat)
    requires base <= end <= |pulse|
    ensures sum == Weight(pulse, base, end)
  {
    sum := 0;
    for n := base to end
      invariant sum == Weight(pulse, base, n)
    {
      sum := sum + Abs(pulse[n]);
    }
  }

  /** The inner loops over one subframe. */
  method SubframeSymbols(pulse: seq<int>, base: nat, end: nat) returns (runs: seq<int>, signs: seq<int>)
    requires base <= end <= |pulse|
    ensures runs == Runs(pulse, base, end) && Signs(pulse, end) == Signs(pulse, base) + signs
  {
    runs, signs := [], [];
    var runPos := base;
    var first := true;
    for n := base to end
      invariant runPos == LastBefore(pulse, base, n) && (first ==> runPos == base)
      invariant runs == Runs(pulse, base, n) && Signs(pulse, n) == Signs(pulse, base) + signs
    {
      if pulse[n] != 0 {
        var mag := Abs(pulse[n]);
        var m := if first then n - base else n - runPos;
        ghost var before := runs + [m];
        runs := runs + [m];
        runPos := n;
        for k := 0 to mag - 1
          invariant runs == before + Zeros(k)
        {
          runs := runs + [0];
        }
        signs := signs + [if pulse[n] < 0 then -1 else 1];
        first := false;
      }
    }
  }

  /** One chunk of signs, bit by bit from the top. */
  method PackChunk(signs: seq<int>, p: nat, nbits: nat) returns (sym: nat)
    requires p + nbits <= |signs|
    ensures sym == Bits(signs[p..p + nbits])
  {
    sym := 0;
    for q := 0 to nbits
      invariant sym == Bits(signs[p..p + q]) * Pow2(nbits - q)
    {
      assert signs[p..p + q + 1][..q] == signs[p..p + q];
      ShiftIn(Bits(signs[p..p + q]), PlusBit(signs[p + q]), nbits - q);
      sym := sym + PlusBit(signs[p + q]) * Pow2(nbits - 1 - q);
    }
    assert Pow2(0) == 1;
  }

  lemma ShiftIn(v: nat, bit: nat, n: nat)
    requires n > 0
    ensures v * Pow2(n) + bit * Pow2(n - 1) == (2 * v + bit) * Pow2(n - 1)
  {
  }

  /** Full chunks of fifteen, and then what is left. */
  lemma {:induction false} PackedShape(signs: seq<int>)
    ensures |Packed(signs)| == (|signs| + 14) / 15
    ensures forall i :: 0 <= i < |Packed(signs)| ==> Packed(signs)[i].nbits == if i < |signs| / 15 then 15 else |signs| % 15
    decreases |signs|
  {
    hide Bits;
    if signs != [] {
      var c := Chunk(|signs|);
      PackedShape(signs[c..]);
      var rest := Packed(signs[c..]);
      if c == 15 { assert (|signs| - 15 + 14) / 15 == (|signs| + 14) / 15 - 1 && (|signs| - 15) / 15 == |signs| / 15 - 1; }
      forall i | 0 < i < |Packed(signs)| ensures Packed(signs)[i] == rest[i - 1] {}
    }
  }

  method PackSigns(signs: seq<int>) returns (syms: seq<RawSym>)
    ensures syms == Packed(signs)
    ensures |syms| == (|signs| + 14) / 15
    ensures forall i :: 0 <= i < |syms| ==> syms[i].nbits == if i < |signs| / 15 then 15 else |signs| % 15
  {
    hide Bits;
    PackedShape(signs);
    syms := [];
    var p := 0;
    assert signs[0..] == signs;
    while p < |signs|
      invariant p <= |signs|
      invariant syms + Packed(signs[p..]) == Packed(signs)
    {
      var nbits := Chunk(|signs| - p);
      var sym := PackChunk(signs, p, nbits);
      assert signs[p..][..nbits] == signs[p..p + nbits] && signs[p..][nbits..] == signs[p + nbits..];
      syms := syms + [RawSym(sym, nbits)];
      p := p + nbits;
    }
  }

  /** smplBuildPulseParams */
  method BuildPulseParams(pulse: seq<int>) returns (pp: PulseParams)
    requires |pulse| == LENGTH
    ensures Describes(pp, pulse)
  {
    var subfr: seq<nat> := [];
    for sf := 0 to SUBFRAMES
      invariant |subfr| == sf && forall i :: 0 <= i < sf ==> subfr[i] == SubframeWeight(pulse, i)
    {
      var s := CountUnits(pulse, POS_PER * sf, POS_PER * (sf + 1));
      subfr := subfr + [s];
    }
    var magRuns: seq<int>, signs: seq<int> := [], [];
    for sf := 0 to SUBFRAMES
      invariant magRuns == AllRuns(pulse, sf) && signs == Signs(pulse, POS_PER * sf)
    {
      if subfr[sf] > 0 {
        var runs, more := SubframeSymbols(pulse, POS_PER * sf, POS_PER * (sf + 1));
        magRuns, signs := magRuns + runs, signs + more;
      } else {
        NothingThere(pulse, POS_PER * sf, POS_PER * (sf + 1));
      }
    }
    var signSyms := PackSigns(signs);
    pp := PulseParams(subfr, subfr[0] + subfr[1] + subfr[2] + subfr[3], magRuns, signSyms);
  }

  // ---- replaying the run lengths into the encoder ----

  /** The run lengths of a subframe lie where the earlier ones end. */
  lemma {:induction false} AllRunsGrow(s: seq<int>, a: nat, b: nat)
    requires a <= b <= SUBFRAMES && |s| == LENGTH
    ensures |AllRuns(s, a)| <= |AllRuns(s, b)| && AllRuns(s, b)[..|AllRuns(s, a)|] == AllRuns(s, a)
  {
    if a < b { AllRunsGrow(s, a, b - 1); }
  }

  lemma SubframeAt(s: seq<int>, sf: nat)
    requires sf < SUBFRAMES && |s| == LENGTH
    ensures var start := |AllRuns(s, sf)|;
            var runs := Runs(s, POS_PER * sf, POS_PER * (sf + 1));
            |runs| == SubframeWeight(s, sf) && start + |runs| == |AllRuns(s, sf + 1)| <= |AllRuns(s, SUBFRAMES)|
            && AllRuns(s, SUBFRAMES)[start..start + |runs|] == runs
  {
    OneRunPerUnit(s, POS_PER * sf, POS_PER * (sf + 1));
    AllRunsGrow(s, sf, SUBFRAMES);
    AllRunsGrow(s, sf + 1, SUBFRAMES);
    hide Runs, Weight;
    assert AllRuns(s, sf + 1) == AllRuns(s, sf) + Runs(s, POS_PER * sf, POS_PER * (sf + 1));
    assert AllRuns(s, SUBFRAMES)[..|AllRuns(s, sf + 1)|][|AllRuns(s, sf)|..] == Runs(s, POS_PER * sf, POS_PER * (sf + 1));
  }

  lemma {:induction false} FitsAt(x: Reader, runs: seq<int>, k: nat)
    requires Fits(x, runs) && k < |runs|
    ensures Fits(x, runs[..k + 1]) && 0 <= runs[k] < Read(x, runs[..k]).pos
    ensures Read(x, runs[..k + 1]) == Take(Read(x, runs[..k]), runs[k])
    decreases |runs|
  {
    if k < |runs| - 1 {
      FitsAt(x, runs[..|runs| - 1], k);
      assert runs[..|runs| - 1][..k + 1] == runs[..k + 1] && runs[..|runs| - 1][..k] == runs[..k];
    } else {
      assert runs[..k + 1] == runs;
      assert runs[..k + 1][..k] == runs[..k];
    }
  }

  lemma {:induction false} ReadCounts(x: Reader, runs: seq<int>)
    ensures Read(x, runs).k == x.k + |runs|
  {
    if runs != [] { ReadCounts(x, runs[..|runs| - 1]); }
  }

  /** One symbol handed to the range encoder: its value, the room it is coded in, the units left. */
  datatype Sent = Sent(m: int, pos: int, c: int)

  predicate SentInside(sent: seq<Sent>) {
    forall i :: 0 <= i < |sent| ==> 0 <= sent[i].m < sent[i].pos <= POS_PER && sent[i].c >= 1
  }

  function Symbols(sent: seq<Sent>): (r: seq<int>)
    ensures |r| == |sent|
  {
    seq(|sent|, i requires 0 <= i < |sent| => sent[i].m)
  }

  lemma NothingSent()
    ensures Symbols([]) == [] && SentInside([])
  {
  }

  lemma SentMore(sent: seq<Sent>, x: Sent)
    requires SentInside(sent) && 0 <= x.m < x.pos <= POS_PER && x.c >= 1
    ensures Symbols(sent + [x]) == Symbols(sent) + [x.m] && SentInside(sent + [x])
  {
  }

  /** The magnitude block of encodeSmplPulses for one subframe. */
  method ReplaySubframe(magRuns: seq<int>, start: nat, cnt: nat, ghost x: Reader) returns (sent: seq<Sent>)
    requires start + cnt <= |magRuns| && x.k == 0 && x.pos == POS_PER
    requires Fits(x, magRuns[start..start + cnt])
    ensures |sent| == cnt && Symbols(sent) == magRuns[start..start + cnt] && SentInside(sent)
  {
    ghost var runs := magRuns[start..start + cnt];
    sent := [];
    var pos, c := POS_PER as int, cnt as int;
    var k := 0;
    assert Read(x, runs[..0]) == x;
    NothingSent();
    hide Read, Fits, Symbols, SentInside;
    while k < cnt
      invariant 0 <= k <= cnt && c == cnt - k && |sent| == k
      invariant pos == Read(x, runs[..k]).pos <= POS_PER
      invariant Symbols(sent) == runs[..k] && SentInside(sent)
    {
      var m := NextRun(magRuns, start, cnt, k, pos, x);
      SentMore(sent, Sent(m, pos, c));
      sent := sent + [Sent(m, pos, c)];
      assert runs[..k + 1] == runs[..k] + [m];
      if m > 0 || k == 0 { pos := pos - m; }
      c := c - 1;
      k := k + 1;
    }
    assert runs[..cnt] == runs;
  }

  method NextRun(magRuns: seq<int>, start: nat, cnt: nat, k: nat, pos: int, ghost x: Reader) returns (m: int)
    requires start + cnt <= |magRuns| && k < cnt && x.k == 0
    requires Fits(x, magRuns[start..start + cnt]) && pos == Read(x, magRuns[start..start + cnt][..k]).pos
    ensures m == magRuns[start..start + cnt][k] && 0 <= m < pos
    ensures Read(x, magRuns[start..start + cnt][..k + 1]).pos == if m > 0 || k == 0 then pos - m else pos
  {
    m := magRuns[start + k];
    FitsAt(x, magRuns[start..start + cnt], k);
    ReadCounts(x, magRuns[start..start + cnt][..k]);
  }

  /** What belongs to the first sf subframes. */
  function RunsTo(pulse: seq<int>, sf: nat): seq<int>
    requires sf <= SUBFRAMES && |pulse| == LENGTH
  {
    AllRuns(pulse, sf)
  }

  function PlacesTo(pulse: seq<int>, sf: nat): seq<int>
    requires sf <= SUBFRAMES && |pulse| == LENGTH
  {
    Places(pulse, POS_PER * sf)
  }

  function MagsTo(pulse: seq<int>, sf: nat): seq<int>
    requires sf <= SUBFRAMES && |pulse| == LENGTH
  {
    Mags(pulse, POS_PER * sf)
  }

  /** The run lengths of a subframe are a range of the whole list, and fit when they are read back. */
  lemma RangeOfRuns(pp: PulseParams, pulse: seq<int>, sf: nat)
    requires Describes(pp, pulse) && sf < SUBFRAMES
    ensures
      var a := |RunsTo(pulse, sf)|;
      && |pp.subfr| == SUBFRAMES && pp.subfr[sf] >= 0 && a + pp.subfr[sf] <= |pp.magRuns|
      && RunsTo(pulse, sf + 1) == RunsTo(pulse, sf) + pp.magRuns[a..a + pp.subfr[sf]]
      && pp.magRuns[a..a + pp.subfr[sf]] == Runs(pulse, POS_PER * sf, POS_PER * (sf + 1))
      && |PlacesTo(pulse, sf)| == |MagsTo(pulse, sf)|
  {
    hide Runs, Weight, Places, Mags;
    SubframeAt(pulse, sf);
    OnePerPlace(pulse, POS_PER * sf);
  }

  lemma {:induction false} OnePerPlace(s: seq<int>, n: nat)
    requires n <= |s|
    ensures |Places(s, n)| == |Mags(s, n)|
  {
    if n > 0 { OnePerPlace(s, n - 1); }
  }

  lemma SubframeIsRead(pp: PulseParams, pulse: seq<int>, sf: nat)
    requires Describes(pp, pulse) && sf < SUBFRAMES
    ensures
      var a := |RunsTo(pulse, sf)|;
      && |pp.subfr| == SUBFRAMES && pp.subfr[sf] >= 0 && a + pp.subfr[sf] <= |pp.magRuns|
      && |PlacesTo(pulse, sf)| == |MagsTo(pulse, sf)|
      && var x := Fresh(POS_PER * sf, PlacesTo(pulse, sf), MagsTo(pulse, sf));
         var runs := pp.magRuns[a..a + pp.subfr[sf]];
         && Fits(x, runs) && Read(x, runs).places == PlacesTo(pulse, sf + 1) && Read(x, runs).mags == MagsTo(pulse, sf + 1)
  {
    RangeOfRuns(pp, pulse, sf);
    ReadsSubframe(pulse, POS_PER * sf, POS_PER * (sf + 1));
    hide Describes, Fits, Read, Runs, RunsTo;
  }

  lemma NothingIsRead(x: Reader)
    ensures Read(x, []) == x
  {
  }

  /** The first sf subframes have been sent. */
  ghost predicate SentSoFar(pulse: seq<int>, sf: nat, magIdx: nat, sent: seq<Sent>)
    requires sf <= SUBFRAMES && |pulse| == LENGTH
  {
    magIdx == |sent| && Symbols(sent) == RunsTo(pulse, sf) && SentInside(sent)
  }

  method ReplayNext(pp: PulseParams, sf: nat, magIdx: nat, sent: seq<Sent>, ghost pulse: seq<int>)
      returns (next: nat, all: seq<Sent>)
    requires Describes(pp, pulse) && sf < SUBFRAMES && SentSoFar(pulse, sf, magIdx, sent)
    ensures SentSoFar(pulse, sf + 1, next, all)
  {
    assert |pulse| == LENGTH;
    hide Describes, Fits, Read, PlacesTo, MagsTo, RunsTo, Runs, SentInside, Symbols;
    RangeOfRuns(pp, pulse, sf);
    SubframeIsRead(pp, pulse, sf);
    var cnt := pp.subfr[sf];
    next, all := magIdx, sent;
    if cnt > 0 {
      var more := ReplaySubframe(pp.magRuns, magIdx, cnt, Fresh(POS_PER * sf, PlacesTo(pulse, sf), MagsTo(pulse, sf)));
      SentJoins(sent, more);
      next, all := magIdx + cnt, sent + more;
    }
  }

  /** The whole block: exactly the recorded run lengths are sent, as many as there are units. */
  method ReplayMagnitudes(pp: PulseParams, ghost pulse: seq<int>) returns (sent: seq<Sent>)
    requires Describes(pp, pulse)
    ensures Symbols(sent) == pp.magRuns && |sent| == pp.total && SentInside(sent)
  {
    NothingSent();
    sent := [];
    var magIdx := 0;
    assert SentSoFar(pulse, 0, magIdx, sent);
    hide Describes, SentSoFar, SentInside, Symbols;
    for sf := 0 to SUBFRAMES
      invariant SentSoFar(pulse, sf, magIdx, sent)
    {
      magIdx, sent := ReplayNext(pp, sf, magIdx, sent, pulse);
    }
    AllSent(pp, pulse, magIdx, sent);
  }

  lemma AllSent(pp: PulseParams, pulse: seq<int>, magIdx: nat, sent: seq<Sent>)
    requires Describes(pp, pulse) && SentSoFar(pulse, SUBFRAMES, magIdx, sent)
    ensures Symbols(sent) == pp.magRuns && |sent| == pp.total && SentInside(sent)
  {
    TotalIsRuns(pulse);
  }

  lemma SentJoins(a: seq<Sent>, b: seq<Sent>)
    requires SentInside(a) && SentInside(b)
    ensures Symbols(a + b) == Symbols(a) + Symbols(b) && SentInside(a + b)
  {
  }

  lemma TotalIsRuns(pulse: seq<int>)
    requires |pulse| == LENGTH
    ensures |AllRuns(pulse, SUBFRAMES)| == SubframeWeight(pulse, 0) + SubframeWeight(pulse, 1) + SubframeWeight(pulse, 2) + SubframeWeight(pulse, 3)
  {
    hide Runs, Weight;
    SubframeAt(pulse, 0);
    SubframeAt(pulse, 1);
    SubframeAt(pulse, 2);
    SubframeAt(pulse, 3);
    assert AllRuns(pulse, 0) == [];
  }

  // ---- decoding ----

  /** One run length: a new place, or one more unit at the last one. */
  method ReadRun(m: int, k: nat, runPos: int, pos: int, posList: seq<int>, magList: seq<int>)
      returns (newPos: int, room: int, places: seq<int>, mags: seq<int>)
    requires |posList| == |magList|
    ensures Reader(k + 1, newPos, room, places, mags) == Take(Reader(k, runPos, pos, posList, magList), m)
    ensures |places| == |mags|
  {
    newPos, room, places, mags := runPos, pos, posList, magList;
    if m > 0 || k == 0 {
      newPos := newPos + m;
      places, mags, room := places + [newPos], mags + [1], room - m;
    } else if mags != [] {
      mags := mags[|mags| - 1 := mags[|mags| - 1] + 1];
    }
  }

  /** Where the run lengths lead that fit. */
  ghost predicate ReadsTo(base: nat, places: seq<int>, mags: seq<int>, runs: seq<int>, newPlaces: seq<int>, newMags: seq<int>) {
    var x := Fresh(base, places, mags);
    Fits(x, runs) ==> newPlaces == Read(x, runs).places && newMags == Read(x, runs).mags
  }

  method ReadSubframe(magRuns: seq<int>, start: nat, cnt: nat, basePos: nat, posIn: seq<int>, magIn: seq<int>)
      returns (posList: seq<int>, magList: seq<int>)
    requires start + cnt <= |magRuns| && |posIn| == |magIn|
    ensures ReadsTo(basePos, posIn, magIn, magRuns[start..start + cnt], posList, magList)
  {
    ghost var runs := magRuns[start..start + cnt];
    ghost var x := Fresh(basePos, posIn, magIn);
    posList, magList := posIn, magIn;
    var runPos, pos, k := basePos as int, POS_PER as int, 0;
    assert runs[..cnt] == runs && runs[..0] == [];
    NothingIsRead(x);
    hide Read, Fits, Take;
    while k < cnt
      invariant 0 <= k <= cnt && |posList| == |magList|
      invariant Fits(x, runs) ==> Read(x, runs[..k]) == Reader(k, runPos, pos, posList, magList)
    {
      if Fits(x, runs) { FitsAt(x, runs, k); }
      if pos < 0 { break; }
      assert runs[k] == magRuns[start + k];
      runPos, pos, posList, magList := ReadRun(magRuns[start + k], k, runPos, pos, posList, magList);
      k := k + 1;
    }
  }

  /** The signs of one chunk, from the highest bit down. */
  method UnpackChunk(sym: nat, nbits: nat, ghost signs: seq<int>) returns (out: seq<int>)
    requires |signs| == nbits <= SIGN_CHUNK && sym == Bits(signs)
    requires forall i :: 0 <= i < nbits ==> signs[i] == 1 || signs[i] == -1
    ensures out == signs
  {
    hide Bits, Pow2;
    out := [];
    var bitfield := sym * Pow2(16 - nbits);
    for q := 0 to nbits
      invariant out == signs[..q] && bitfield == sym * Pow2(16 - nbits + q)
    {
      TopBit(signs, q);
      var sign := bitfield / 32768 % 2 * 2 - 1;
      assert sign == signs[q];
      out := out + [sign];
      Doubles(sym, 16 - nbits + q);
      bitfield := bitfield * 2;
    }
  }

  lemma Doubles(v: nat, n: nat)
    ensures v * Pow2(n) * 2 == v * Pow2(n + 1)
  {
  }

  lemma LastBit(signs: seq<int>, q: nat)
    requires q < |signs|
    ensures Bits(signs[..q + 1]) % 2 == PlusBit(signs[q])
  {
    var b := Bits(signs[..q]);
    assert signs[..q + 1][..q] == signs[..q];
    assert Bits(signs[..q + 1]) == 2 * b + PlusBit(signs[q]);
    hide Bits;
    LowBit(b, PlusBit(signs[q]));
  }

  lemma LowBit(b: nat, x: nat)
    requires x < 2
    ensures (2 * b + x) % 2 == x
  {
  }

  lemma TopBit(signs: seq<int>, q: nat)
    requires q < |signs| <= SIGN_CHUNK
    ensures Bits(signs) * Pow2(16 - |signs| + q) / 32768 % 2 == PlusBit(signs[q])
  {
    hide Bits, Pow2, PlusBit;
    var n := |signs|;
    BitsPrefix(signs, q + 1);
    LastBit(signs, q);
    Pow2Sum(16 - n + q, n - 1 - q);
    TopWeight();
    ShiftBoth(Bits(signs), Pow2(16 - n + q), Pow2(n - 1 - q), 32768);
  }

  lemma TopWeight()
    ensures Pow2(15) == 32768
  {
    assert Pow2(5) == 32;
    Pow2Sum(5, 5);
    Pow2Sum(10, 5);
  }

  lemma {:induction false} Pow2Sum(a: nat, b: nat)
    ensures Pow2(a + b) == Pow2(a) * Pow2(b)
  {
    if b > 0 { Pow2Sum(a, b - 1); }
  }

  lemma ShiftBoth(v: nat, a: nat, b: nat, c: nat)
    requires a > 0 && b > 0 && c > 0 && c == a * b
    ensures (v * a) / c == v / b
  {
    var q, r := v / b, v % b;
    assert v == b * q + r;
    assert v * a == (a * b) * q + r * a by { assert (b * q) * a == (a * b) * q; }
    assert r * a < a * b;
    DivModUnique(v * a, a * b, q, r * a);
  }

  lemma {:induction false} SignsAreUnits(s: seq<int>, n: nat)
    requires n <= |s|
    ensures forall i :: 0 <= i < |Signs(s, n)| ==> Signs(s, n)[i] == 1 || Signs(s, n)[i] == -1
  {
    if n > 0 { SignsAreUnits(s, n - 1); }
  }

  ghost predicate Carried(s: seq<int>, n: nat, places: seq<int>, mags: seq<int>, signs: seq<int>)
    requires n <= |s| && |places| == |mags| == |signs|
  {
    && (forall i :: 0 <= i < |places| ==> 0 <= places[i] < n && mags[i] * signs[i] == s[places[i]])
    && forall m :: 0 <= m < n && s[m] != 0 ==> m in places
  }

  lemma OneMoreCarried(s: seq<int>, n: nat, places: seq<int>, mags: seq<int>, signs: seq<int>)
    requires n < |s| && |places| == |mags| == |signs| && Carried(s, n, places, mags, signs)
    ensures s[n] == 0 ==> Carried(s, n + 1, places, mags, signs)
    ensures s[n] != 0 ==> Carried(s, n + 1, places + [n], mags + [Abs(s[n])], signs + [Unit(s[n])])
  {
  }

  /** Magnitude times sign is the pulse, at every recorded place; the other places are silent. */
  lemma {:induction false} PlacesCarry(s: seq<int>, n: nat)
    requires n <= |s|
    ensures Carried(s, n, Places(s, n), Mags(s, n), Signs(s, n))
  {
    hide Carried, Abs, Unit;
    if n == 0 {
      NothingCarried(s);
    } else {
      PlacesCarry(s, n - 1);
      OneMoreCarried(s, n - 1, Places(s, n - 1), Mags(s, n - 1), Signs(s, n - 1));
    }
  }

  lemma NothingCarried(s: seq<int>)
    ensures Carried(s, 0, [], [], [])
  {
  }

  function Products(a: seq<int>, b: seq<int>): (r: seq<int>)
    requires |a| == |b|
    ensures |r| == |a|
  {
    seq(|a|, i requires 0 <= i < |a| => a[i] * b[i])
  }

  /** The SIGN block of DecodeSmplPulses. */
  method ApplySigns(mags: seq<int>, signSyms: seq<RawSym>, ghost signs: seq<int>) returns (out: seq<int>)
    requires |signs| == |mags| && signSyms == Packed(signs)
    requires forall i :: 0 <= i < |signs| ==> signs[i] == 1 || signs[i] == -1
    ensures out == Products(mags, signs)
  {
    hide Packed, Bits, Products;
    out := [];
    var p, i := 0, 0;
    assert signs[0..] == signs && signSyms[0..] == signSyms;
    ProductsStart(mags, signs);
    while p < |mags|
      invariant p <= |mags| && i <= |signSyms|
      invariant signSyms[i..] == Packed(signs[p..])
      invariant out == Products(mags[..p], signs[..p])
    {
      var nbits := Chunk(|mags| - p);
      ChunkAhead(signSyms, i, signs, p);
      var got := UnpackChunk(signSyms[i].sym, nbits, signs[p..p + nbits]);
      ProductsGrow(mags, signs, p, nbits);
      out := out + seq(nbits, q requires 0 <= q < nbits => mags[p + q] * got[q]);
      p, i := p + nbits, i + 1;
    }
    assert mags[..p] == mags && signs[..p] == signs;
  }

  lemma ProductsStart(a: seq<int>, b: seq<int>)
    requires |a| == |b|
    ensures Products(a[..0], b[..0]) == []
  {
  }

  lemma ProductsGrow(a: seq<int>, b: seq<int>, p: nat, n: nat)
    requires |a| == |b| && p + n <= |a|
    ensures Products(a[..p + n], b[..p + n])
         == Products(a[..p], b[..p]) + seq(n, q requires 0 <= q < n => a[p + q] * b[p..p + n][q])
  {
  }

  lemma ChunkAhead(signSyms: seq<RawSym>, i: nat, signs: seq<int>, p: nat)
    requires i <= |signSyms| && p < |signs| && signSyms[i..] == Packed(signs[p..])
    ensures i < |signSyms|
    ensures var n := Chunk(|signs| - p);
            signSyms[i] == RawSym(Bits(signs[p..p + n]), n) && signSyms[i + 1..] == Packed(signs[p + n..])
  {
    hide Bits;
    var n := Chunk(|signs| - p);
    assert signs[p..][..n] == signs[p..p + n] && signs[p..][n..] == signs[p + n..];
    assert signSyms[i] == signSyms[i..][0];
    assert signSyms[i + 1..] == signSyms[i..][1..];
  }

  method Scatter(places: seq<int>, values: seq<int>, ghost pulse: seq<int>) returns (pulses: array<int>)
    requires |places| == |values| && |pulse| == LENGTH
    requires forall i :: 0 <= i < |places| ==> 0 <= places[i] < LENGTH && values[i] == pulse[places[i]]
    requires forall m :: 0 <= m < LENGTH && pulse[m] != 0 ==> m in places
    ensures fresh(pulses) && pulses[..] == pulse
  {
    pulses := new int[LENGTH](_ => 0);
    for i := 0 to |places|
      invariant forall m :: 0 <= m < LENGTH ==> pulses[m] == if m in places[..i] then pulse[m] else 0
    {
      assert places[..i + 1] == places[..i] + [places[i]];
      pulses[places[i]] := values[i];
    }
    assert places[..|places|] == places;
  }

  /** The first sf subframes have been read. */
  ghost predicate ReadSoFar(pulse: seq<int>, sf: nat, magIdx: nat, places: seq<int>, mags: seq<int>)
    requires sf <= SUBFRAMES && |pulse| == LENGTH
  {
    magIdx == |RunsTo(pulse, sf)| && places == PlacesTo(pulse, sf) && mags == MagsTo(pulse, sf)
  }

  lemma SubframeReadsTo(pp: PulseParams, pulse: seq<int>, sf: nat, places: seq<int>, mags: seq<int>)
    requires Describes(pp, pulse) && sf < SUBFRAMES
    ensures
      var a := |RunsTo(pulse, sf)|;
      && |pp.subfr| == SUBFRAMES && pp.subfr[sf] >= 0 && a + pp.subfr[sf] <= |pp.magRuns|
      && |RunsTo(pulse, sf + 1)| == a + pp.subfr[sf] && |PlacesTo(pulse, sf)| == |MagsTo(pulse, sf)|
      && (pp.subfr[sf] == 0 ==> PlacesTo(pulse, sf + 1) == PlacesTo(pulse, sf) && MagsTo(pulse, sf + 1) == MagsTo(pulse, sf))
      && (ReadsTo(POS_PER * sf, PlacesTo(pulse, sf), MagsTo(pulse, sf), pp.magRuns[a..a + pp.subfr[sf]], places, mags) ==>
            places == PlacesTo(pulse, sf + 1) && mags == MagsTo(pulse, sf + 1))
  {
    assert |pulse| == LENGTH;
    hide Describes, Fits, Read, PlacesTo, MagsTo, RunsTo, Runs;
    RangeOfRuns(pp, pulse, sf);
    SubframeIsRead(pp, pulse, sf);
    NothingIsRead(Fresh(POS_PER * sf, PlacesTo(pulse, sf), MagsTo(pulse, sf)));
  }

  method DecodeNext(pp: PulseParams, sf: nat, magIdx: nat, places: seq<int>, mags: seq<int>, ghost pulse: seq<int>)
      returns (next: nat, posList: seq<int>, magList: seq<int>)
    requires Describes(pp, pulse) && sf < SUBFRAMES && ReadSoFar(pulse, sf, magIdx, places, mags)
    ensures ReadSoFar(pulse, sf + 1, next, posList, magList)
  {
    assert |pulse| == LENGTH;
    hide Describes, PlacesTo, MagsTo, RunsTo, ReadsTo;
    SubframeReadsTo(pp, pulse, sf, places, mags);
    var cnt := pp.subfr[sf];
    next, posList, magList := magIdx, places, mags;
    if cnt > 0 {
      posList, magList := ReadSubframe(pp.magRuns, magIdx, cnt, POS_PER * sf, places, mags);
      SubframeReadsTo(pp, pulse, sf, posList, magList);
      next := magIdx + cnt;
    }
  }

  /** The decoded values are the pulses at their places. */
  lemma ValuesAreThere(pulse: seq<int>)
    requires |pulse| == LENGTH
    ensures
      var places, values := Places(pulse, LENGTH), Products(Mags(pulse, LENGTH), Signs(pulse, LENGTH));
      && |places| == |values|
      && (forall i :: 0 <= i < |places| ==> 0 <= places[i] < LENGTH && values[i] == pulse[places[i]])
      && forall m :: 0 <= m < LENGTH && pulse[m] != 0 ==> m in places
  {
    hide Places, Mags, Signs;
    PlacesCarry(pulse, LENGTH);
  }

  lemma AllRead(pp: PulseParams, pulse: seq<int>, magIdx: nat, places: seq<int>, mags: seq<int>)
    requires Describes(pp, pulse) && ReadSoFar(pulse, SUBFRAMES, magIdx, places, mags)
    ensures places == Places(pulse, LENGTH) && mags == Mags(pulse, LENGTH)
    ensures |Signs(pulse, LENGTH)| == |mags| && pp.signSyms == Packed(Signs(pulse, LENGTH))
  {
  }

  /** DecodeSmplPulses, given the symbols that encodeSmplPulses sends: the pulse vector comes back whole. */
  method Decode(pp: PulseParams, ghost pulse: seq<int>) returns (pulses: array<int>)
    requires Describes(pp, pulse)
    ensures fresh(pulses) && pulses[..] == pulse
  {
    var posList: seq<int>, magList: seq<int> := [], [];
    var magIdx := 0;
    assert ReadSoFar(pulse, 0, magIdx, posList, magList) && |pulse| == LENGTH;
    hide Describes, ReadSoFar;
    for sf := 0 to SUBFRAMES
      invariant ReadSoFar(pulse, sf, magIdx, posList, magList)
    {
      magIdx, posList, magList := DecodeNext(pp, sf, magIdx, posList, magList, pulse);
    }
    AllRead(pp, pulse, magIdx, posList, magList);
    SignsAreUnits(pulse, LENGTH);
    var values := ApplySigns(magList, pp.signSyms, Signs(pulse, LENGTH));
    ValuesAreThere(pulse);
    pulses := Scatter(posList, values, pulse);
  }
}
