/** Reflection coefficients, the stability test and the stabiliser of internal/voip/media/mlow/lpc.go. */
module Lpc {

  const ORDER: nat := 16
  const MAX_RC_STABLE: real := 0.9995

  type Vec = seq<real>

  function Times(x: real, y: real): real {
    x * y
  }

  function Square(r: real): real {
    r * r
  }

  predicate Small(r: real) {
    Square(r) <= MAX_RC_STABLE
  }

  // ---- step up ----

  function Mix(x: real, y: real, r: real): real {
    x + y * r
  }

  /** One order more: a and its mirror image mixed by r, then r itself. */
  function Up(a: Vec, r: real): (b: Vec)
    ensures |b| == |a| + 1 && b[|a|] == r
    ensures forall n {:trigger b[n]} :: 0 <= n < |a| ==> b[n] == Mix(a[n], a[|a| - 1 - n], r)
  {
    seq(|a|, n requires 0 <= n < |a| => Mix(a[n], a[|a| - 1 - n], r)) + [r]
  }

  /** The filter that has these reflection coefficients. */
  function FromReflection(rc: Vec): (a: Vec)
    ensures |a| == |rc|
  {
    if rc == [] then [] else Up(FromReflection(rc[..|rc| - 1]), rc[|rc| - 1])
  }

  // ---- step down ----

  function Unmix(x: real, y: real, r: real): real
    requires 1.0 - Square(r) != 0.0
  {
    (x - r * y) / (1.0 - Square(r))
  }

  /** One order less. */
  function Down(a: Vec): (b: Vec)
    requires a != [] && 1.0 - Square(a[|a| - 1]) != 0.0
    ensures |b| == |a| - 1
    ensures forall n {:trigger b[n]} :: 0 <= n < |b| ==> b[n] == Unmix(a[n], a[|b| - 1 - n], a[|b|])
  {
    seq(|a| - 1, n requires 0 <= n < |a| - 1 => Unmix(a[n], a[|a| - 2 - n], a[|a| - 1]))
  }

  /** Every order on the way down ends in a small coefficient. */
  predicate StepsDown(a: Vec)
    decreases |a|
  {
    a == [] || (Small(a[|a| - 1]) && StepsDown(Down(a)))
  }

  /** What the stability test decides. */
  predicate Stable(a: Vec) {
    StepsDown(a)
  }

  /** The last coefficient at each order on the way down. */
  function ToReflection(a: Vec): (rc: Vec)
    requires Stable(a)
    ensures |rc| == |a|
    decreases |a|
  {
    if a == [] then [] else ToReflection(Down(a)) + [a[|a| - 1]]
  }

  lemma UnmixMixes(x: real, y: real, r: real)
    requires 1.0 - Square(r) != 0.0
    ensures Unmix(Mix(x, y, r), Mix(y, x, r), r) == x
  {
    var e := 1.0 - Square(r);
    assert Mix(x, y, r) - r * Mix(y, x, r) == x * e;
    Cancel(x, e);
  }

  lemma MixUnmixes(x: real, y: real, r: real)
    requires 1.0 - Square(r) != 0.0
    ensures Mix(Unmix(x, y, r), Unmix(y, x, r), r) == x
  {
    var e := 1.0 - Square(r);
    var u, v := x - r * y, y - r * x;
    assert u + v * r == x * e;
    SumOfQuotients(u, v, r, e);
    Cancel(x, e);
  }

  lemma Cancel(x: real, e: real)
    requires e != 0.0
    ensures (x * e) / e == x
  {
  }

  lemma SumOfQuotients(u: real, v: real, r: real, e: real)
    requires e != 0.0
    ensures u / e + (v / e) * r == (u + v * r) / e
  {
  }

  lemma DownUp(a: Vec, r: real)
    requires 1.0 - Square(r) != 0.0
    ensures Down(Up(a, r)) == a
  {
    hide *;
    var b := Up(a, r);
    assert 1.0 - Square(b[|a|]) != 0.0;
    forall n | 0 <= n < |a| ensures Down(b)[n] == a[n] {
      assert Down(b)[n] == Unmix(b[n], b[|a| - 1 - n], r);
      UnmixMixes(a[n], a[|a| - 1 - n], r);
    }
  }

  lemma UpDown(a: Vec)
    requires a != [] && 1.0 - Square(a[|a| - 1]) != 0.0
    ensures Up(Down(a), a[|a| - 1]) == a
  {
    hide Mix, Unmix, Square;
    forall n | 0 <= n < |a| - 1 ensures Up(Down(a), a[|a| - 1])[n] == a[n] {
      MixUnmixes(a[n], a[|a| - 2 - n], a[|a| - 1]);
    }
  }

  lemma StableUp(a: Vec, r: real)
    ensures Stable(Up(a, r)) <==> Small(r) && Stable(a)
  {
    hide Mix, Unmix, Square;
    NotStableUnlessSmall(Up(a, r));
    if Small(r) { DownUp(a, r); }
  }

  lemma NotStableUnlessSmall(a: Vec)
    requires a != []
    ensures !Small(a[|a| - 1]) ==> !Stable(a)
    ensures Small(a[|a| - 1]) ==> 1.0 - Square(a[|a| - 1]) != 0.0 && (Stable(a) <==> Stable(Down(a)))
  {
  }

  /** The test accepts the filter of rc exactly when every reflection coefficient is small. */
  lemma {:induction false} StableIsSmallReflections(rc: Vec)
    ensures Stable(FromReflection(rc)) <==> forall k :: 0 <= k < |rc| ==> rc[k] * rc[k] <= 0.9995
  {
    hide Stable, Small, Up;
    if rc == [] {
      EmptyIsStable();
    } else {
      var rest, r := rc[..|rc| - 1], rc[|rc| - 1];
      StableIsSmallReflections(rest);
      StableUp(FromReflection(rest), r);
      SmallIs(r);
    }
  }

  lemma SmallIs(r: real)
    ensures Small(r) <==> r * r <= 0.9995
  {
  }

  lemma EmptyIsStable()
    ensures Stable([])
  {
  }

  lemma {:induction false} HasReflections(a: Vec)
    requires Stable(a)
    ensures FromReflection(ToReflection(a)) == a
    ensures forall k :: 0 <= k < |a| ==> Small(ToReflection(a)[k])
    decreases |a|
  {
    hide Mix, Unmix, Square;
    if a != [] {
      HasReflections(Down(a));
      UpDown(a);
      assert ToReflection(a)[..|a| - 1] == ToReflection(Down(a));
    }
  }

  /** Every filter the test accepts comes from small reflection coefficients. */
  lemma StableHasReflections(a: Vec)
    requires Stable(a)
    ensures FromReflection(ToReflection(a)) == a
    ensures forall k :: 0 <= k < |a| ==> ToReflection(a)[k] * ToReflection(a)[k] <= 0.9995
  {
    hide *;
    HasReflections(a);
    var rc := ToReflection(a);
    AllSmall(rc);
    assert forall k :: 0 <= k < |rc| ==> rc[k] * rc[k] <= 0.9995;
  }

  lemma AllSmall(rc: Vec)
    requires forall k :: 0 <= k < |rc| ==> Small(rc[k])
    ensures forall k :: 0 <= k < |rc| ==> rc[k] * rc[k] <= 0.9995
  {
    hide Small;
    forall k | 0 <= k < |rc| ensures rc[k] * rc[k] <= 0.9995 { SmallIs(rc[k]); }
  }

  /** rc2a: both halves of each order are rewritten in place. */
  method Rc2a(rc: Vec, order: nat, a: array<real>)
    requires order <= |rc| && order < a.Length
    modifies a
    ensures a[0] == 1.0 && a[1..order + 1] == FromReflection(rc[..order])
    ensures forall i :: order < i < a.Length ==> a[i] == old(a[i])
  {
    for i := 1 to order + 1
      invariant forall j :: 1 <= j < i ==> a[j] == 0.0
      invariant forall j :: order < j < a.Length ==> a[j] == old(a[j])
    {
      a[i] := 0.0;
    }
    a[0] := 1.0;
    UpAll(rc, order, a);
  }

  method UpAll(rc: Vec, order: nat, a: array<real>)
    requires order <= |rc| && order < a.Length
    modifies a
    ensures a[0] == old(a[0]) && a[1..order + 1] == FromReflection(rc[..order])
    ensures forall i :: order < i < a.Length ==> a[i] == old(a[i])
  {
    ghost var v: Vec := [];
    for k := 0 to order
      invariant a[0] == old(a[0]) && v == FromReflection(rc[..k])
      invariant forall j :: 1 <= j <= k ==> a[j] == v[j - 1]
      invariant forall j :: order < j < a.Length ==> a[j] == old(a[j])
    {
      UpInPlace(a, k, rc[k], v);
      v := OneMore(rc, k, v);
    }
    assert a[1..order + 1] == v;
  }

  ghost function OneMore(rc: Vec, k: nat, v: Vec): (w: Vec)
    requires k < |rc| && v == FromReflection(rc[..k])
    ensures w == FromReflection(rc[..k + 1]) && w == Up(v, rc[k])
  {
    assert rc[..k + 1][..k] == rc[..k];
    Up(v, rc[k])
  }

  /** One order of rc2a. */
  method UpInPlace(a: array<real>, k: nat, rcTmp: real, ghost v: Vec)
    requires k + 1 < a.Length && |v| == k
    requires forall j :: 1 <= j <= k ==> a[j] == v[j - 1]
    modifies a
    ensures forall j :: 1 <= j <= k + 1 ==> a[j] == Up(v, rcTmp)[j - 1]
    ensures a[0] == old(a[0]) && forall j :: k + 2 <= j < a.Length ==> a[j] == old(a[j])
  {
    hide Mix;
    for n := 0 to (k + 1) / 2
      invariant a[0] == old(a[0])
      invariant forall j :: 1 <= j <= n ==> a[j] == Mixed(v, rcTmp, j)
      invariant forall j :: n < j <= k - n ==> a[j] == v[j - 1]
      invariant forall j :: k - n < j <= k && n < j ==> a[j] == Mixed(v, rcTmp, j)
      invariant forall j :: k + 1 <= j < a.Length ==> a[j] == old(a[j])
    {
      var tmp1, tmp2 := a[n + 1], a[k - n];
      a[n + 1] := Mix(tmp1, tmp2, rcTmp);
      a[k - n] := Mix(tmp2, tmp1, rcTmp);
    }
    a[k + 1] := rcTmp;
  }

  function Mixed(v: Vec, r: real, j: nat): real
    requires 1 <= j <= |v|
  {
    Mix(v[j - 1], v[|v| - j], r)
  }

  // ---- the test ----

  method StepDown(src: array<real>, m: nat, dst: array<real>)
    requires src != dst && m < src.Length && m <= dst.Length
    requires 1.0 - Square(src[m]) != 0.0
    modifies dst
    ensures dst[..m] == Down(src[..m + 1])
  {
    var den := 1.0 - src[m] * src[m];
    var inv := 1.0 / den;
    ghost var v := src[..m + 1];
    for k := 0 to m
      invariant forall j :: 0 <= j < k ==> dst[j] == Unmix(v[j], v[m - 1 - j], v[m])
    {
      dst[k] := (src[k] - src[m] * src[m - k - 1]) * inv;
      TimesInverse(src[k] - src[m] * src[m - k - 1], den);
    }
  }

  lemma TimesInverse(x: real, e: real)
    requires e != 0.0
    ensures x * (1.0 / e) == x / e
  {
  }

  lemma OneLeft(a: Vec)
    requires |a| == 1
    ensures Stable(a) <==> Small(a[0])
  {
    if Small(a[0]) { assert StepsDown(Down(a)); }
  }

  datatype Verdict = Unstable | Passed | Onward

  /** Half a turn of the loop: from order m + 1 in src to order m in dst. */
  method HalfTurn(src: array<real>, m: nat, dst: array<real>) returns (verdict: Verdict)
    requires src != dst && 0 < m < src.Length && m <= dst.Length && Small(src[m])
    modifies dst
    ensures verdict.Unstable? ==> !Stable(src[..m + 1])
    ensures verdict.Passed? ==> Stable(src[..m + 1])
    ensures verdict.Onward? ==> m > 1 && Small(dst[m - 1]) && (Stable(src[..m + 1]) <==> Stable(dst[..m]))
  {
    hide Square, Down, Stable;
    ghost var v := src[..m + 1];
    assert v[m] == src[m];
    NotStableUnlessSmall(v);
    SquareIs(src[m]);
    if 1.0 - src[m] * src[m] == 0.0 { return Unstable; }
    StepDown(src, m, dst);
    ghost var d := dst[..m];
    assert d[m - 1] == dst[m - 1];
    NotStableUnlessSmall(d);
    SquareIs(dst[m - 1]);
    if dst[m - 1] * dst[m - 1] > MAX_RC_STABLE { return Unstable; }
    if m == 1 { OneLeft(d); return Passed; }
    return Onward;
  }

  /** lpcIsStable: steps down between two buffers, one order at a time. */
  method IsStable(a: array<real>) returns (ok: bool)
    requires a.Length == 17
    ensures ok <==> Stable(a[1..])
  {
    hide Square, Down, Stable;
    ghost var all := a[1..];
    assert all[ORDER - 1] == a[ORDER];
    NotStableUnlessSmall(all);
    SquareIs(a[ORDER]);
    if a[ORDER] * a[ORDER] > MAX_RC_STABLE { return false; }
    var a0 := new real[ORDER](_ => 0.0);
    var a1 := new real[ORDER](_ => 0.0);
    forall i | 0 <= i < ORDER { a0[i] := a[i + 1]; }
    var m := ORDER - 1;
    assert a0[..m + 1] == all;
    while true
      invariant 1 <= m < ORDER && a[1..] == all
      invariant Small(a0[m]) && (Stable(all) <==> Stable(a0[..m + 1]))
      decreases m
    {
      ghost var whole := a0[..m + 1];
      assert Stable(all) <==> Stable(whole);
      var verdict := HalfTurn(a0, m, a1);
      assert a0[..m + 1] == whole;
      if !verdict.Onward? { return verdict.Passed?; }
      m := m - 1;
      ghost var half := a1[..m + 1];
      assert Stable(all) <==> Stable(half);
      verdict := HalfTurn(a1, m, a0);
      assert a1[..m + 1] == half;
      if !verdict.Onward? { return verdict.Passed?; }
      m := m - 1;
    }
  }

  lemma SquareIs(r: real)
    ensures Square(r) == r * r
  {
  }

  // ---- bandwidth expansion ----

  function Power(f: real, k: nat): real {
    if k == 0 then 1.0 else Power(f, k - 1) * f
  }

  /** Coefficient k (counted from 1) times f to the k. */
  function Expanded(a: Vec, f: real): (b: Vec)
    ensures |b| == |a|
  {
    seq(|a|, k requires 0 <= k < |a| => Times(a[k], Power(f, k + 1)))
  }

  lemma {:induction false} PowerOfProduct(f: real, g: real, k: nat)
    ensures Power(f * g, k) == Power(f, k) * Power(g, k)
  {
    if k > 0 {
      PowerOfProduct(f, g, k - 1);
      Shuffle(Power(f, k - 1), Power(g, k - 1), f, g);
    }
  }

  lemma Shuffle(a: real, b: real, f: real, g: real)
    ensures (a * b) * (f * g) == (a * f) * (b * g)
  {
  }

  lemma ExpandedTwice(a: Vec, f: real, g: real)
    ensures Expanded(Expanded(a, f), g) == Expanded(a, Times(f, g))
  {
    forall k | 0 <= k < |a| ensures Expanded(Expanded(a, f), g)[k] == Expanded(a, Times(f, g))[k] {
      PowerOfProduct(f, g, k + 1);
      assert (a[k] * Power(f, k + 1)) * Power(g, k + 1) == a[k] * (Power(f, k + 1) * Power(g, k + 1));
    }
  }

  lemma {:induction false} PowerOfOne(k: nat)
    ensures Power(1.0, k) == 1.0
  {
    if k > 0 { PowerOfOne(k - 1); }
  }

  lemma ExpandedByOne(a: Vec)
    ensures Expanded(a, 1.0) == a
  {
    forall k | 0 <= k < |a| ensures Expanded(a, 1.0)[k] == a[k] {
      PowerOfOne(k + 1);
    }
  }

  lemma ExpandedByZero(a: Vec)
    ensures forall k :: 0 <= k < |a| ==> Expanded(a, 0.0)[k] == 0.0
  {
  }

  /** bweExpand */
  method BweExpand(a: array<real>, order: nat, bwe: real)
    requires order < a.Length
    modifies a
    ensures a[0] == old(a[0]) && a[1..order + 1] == Expanded(old(a[1..order + 1]), bwe)
    ensures forall i :: order < i < a.Length ==> a[i] == old(a[i])
  {
    hide Times, Expanded, Power;
    ghost var v := a[1..order + 1];
    var c := bwe;
    PowerGrows(bwe, 0);
    for i := 1 to order + 1
      invariant c == Power(bwe, i)
      invariant a[0] == old(a[0])
      invariant forall j :: 1 <= j < i ==> a[j] == Times(v[j - 1], Power(bwe, j))
      invariant forall j :: i <= j < a.Length ==> a[j] == old(a[j])
    {
      assert a[i] == v[i - 1];
      a[i] := Times(a[i], c);
      c := Times(c, bwe);
      PowerGrows(bwe, i);
    }
    ghost var w := Expanded(v, bwe);
    forall j | 1 <= j <= order ensures a[j] == w[j - 1] {
      ExpandedAt(v, bwe, j - 1);
    }
    assert a[1..order + 1] == w;
  }

  lemma ExpandedAt(a: Vec, f: real, k: nat)
    requires k < |a|
    ensures Expanded(a, f)[k] == Times(a[k], Power(f, k + 1))
  {
  }

  lemma PowerGrows(f: real, k: nat)
    ensures Power(f, 0) == 1.0 && Power(f, 1) == f && Power(f, k + 1) == Times(Power(f, k), f)
  {
  }

  // ---- the stabiliser ----

  function RoundFactor(iter: int): real {
    1.0 - iter as real * 0.001
  }

  /** The product of the factors of the first i rounds. */
  function Shrink(i: nat): real {
    if i == 0 then 1.0 else Times(Shrink(i - 1), RoundFactor(i))
  }

  /** Round i takes i thousandths off what the rounds before it left. Before round 1000 nothing is lost altogether. */
  lemma {:induction false} ShrinkSteps(i: nat)
    ensures Shrink(0) == 1.0 && 1000.0 * Shrink(i + 1) == (999 - i) as real * Shrink(i)
    ensures i < 1000 ==> 0.0 < Shrink(i) <= 1.0
    ensures i < 999 ==> Shrink(i + 1) < Shrink(i)
  {
    if i > 0 { ShrinkSteps(i - 1); }
    PartOf(Shrink(i), (999 - i) as real * 0.001);
    assert RoundFactor(i + 1) == (999 - i) as real * 0.001;
    if i > 0 {
      assert RoundFactor(i) == (1000 - i) as real * 0.001;
      PartOf(Shrink(i - 1), (1000 - i) as real * 0.001);
    }
  }

  lemma PartOf(s: real, f: real)
    ensures Times(s, f) == s * f
    ensures s > 0.0 && 0.0 < f < 1.0 ==> 0.0 < s * f < s
  {
  }

  /** a has been expanded for i rounds, and none of the earlier ones was stable. */
  ghost predicate AfterRounds(a0: Vec, a: Vec, i: nat) {
    && a == Expanded(a0, Shrink(i))
    && forall j: nat :: j < i ==> !Stable(Expanded(a0, Shrink(j)))
  }

  lemma {:induction false} ZerosAreStable(a: Vec)
    requires forall k :: 0 <= k < |a| ==> a[k] == 0.0
    ensures Stable(a)
    decreases |a|
  {
    if a != [] {
      ZerosAreStable(Down(a));
    }
  }

  lemma LastRoundIsZero(a0: Vec)
    ensures Stable(Expanded(a0, Shrink(1000)))
  {
    LastFactor();
    assert Shrink(1000) == Times(Shrink(999), RoundFactor(1000)) == 0.0;
    ExpandedByZero(a0);
    ZerosAreStable(Expanded(a0, 0.0));
  }

  lemma LastFactor()
    ensures RoundFactor(1000) == 0.0
  {
  }

  /** lpcStabilize: ends within 1000 rounds with the first stable expansion. */
  method Stabilize(a: array<real>) returns (ghost rounds: nat)
    requires a.Length == 17
    modifies a
    ensures a[0] == old(a[0])
    ensures rounds <= 1000 && AfterRounds(old(a[1..]), a[1..], rounds) && Stable(a[1..])
  {
    hide Expanded, Times, Down, Small;
    ghost var a0 := a[1..];
    StartsUnchanged(a0);
    var ok := IsStable(a);
    rounds := 0;
    if ok { return; }
    var iter := 0;
    LastRoundIsZero(a0);
    while true
      invariant 0 <= iter == rounds < 1000
      invariant a[0] == old(a[0]) && AfterRounds(a0, a[1..], rounds) && !Stable(a[1..])
      decreases 1000 - iter
    {
      iter := iter + 1;
      var factor := 1.0 - iter as real * 0.001;
      assert a[1..ORDER + 1] == a[1..];
      assert factor == RoundFactor(rounds + 1);
      NextRound(a0, rounds);
      BweExpand(a, ORDER, factor);
      assert a[1..ORDER + 1] == a[1..];
      rounds := rounds + 1;
      ok := IsStable(a);
      if ok { return; }
    }
  }

  lemma StartsUnchanged(a0: Vec)
    ensures Expanded(a0, Shrink(0)) == a0
  {
    ExpandedByOne(a0);
  }

  lemma NextRound(a0: Vec, i: nat)
    ensures Expanded(Expanded(a0, Shrink(i)), RoundFactor(i + 1)) == Expanded(a0, Shrink(i + 1))
  {
    hide Times;
    assert Shrink(i + 1) == Times(Shrink(i), RoundFactor(i + 1));
    ExpandedTwice(a0, Shrink(i), RoundFactor(i + 1));
  }
}
