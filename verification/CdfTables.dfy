/** The integer CDF builders celpDcmfToCmf, lsfDcmfToCmf and pdfToCmf of internal/voip/media/mlow. */
module CdfTables {
  import opened Arith

  const MAX_CDF: nat := 32767

  type I32 = x: int | -0x8000_0000 <= x < 0x8000_0000
  type U16 = x: int | 0 <= x < 0x1_0000
  type U8 = x: int | 0 <= x < 256

  function Sum(t: seq<nat>, i: nat): nat
    requires i <= |t|
  {
    if i == 0 then 0 else Sum(t, i - 1) + t[i - 1]
  }

  /** x parts of s, in units of k, rounded down. */
  function Share(x: nat, k: nat, s: nat): (q: nat)
    requires s > 0
    ensures q * s <= x * k < (q + 1) * s
  {
    ProductSign(x, k);
    var n: nat := x * k;
    QuotientBelow(n, s);
    n / s
  }

  lemma ProductSign(x: nat, k: nat)
    ensures x * k >= 0
  {
  }

  lemma QuotientBelow(a: nat, b: nat)
    requires b > 0
    ensures a / b >= 0 && (a / b) * b <= a < (a / b + 1) * b
  {
  }

  /** The first i steps: the share of each symbol in the range that is left, and one unit more. */
  function Cdf(t: seq<nat>, i: nat): nat
    requires i <= |t| <= MAX_CDF && Sum(t, |t|) > 0
  {
    if i == 0 then 0 else Cdf(t, i - 1) + Share(t[i - 1], MAX_CDF - |t|, Sum(t, |t|)) + 1
  }

  ghost predicate IsCdf(c: seq<int>, t: seq<nat>) {
    && |t| <= MAX_CDF && Sum(t, |t|) > 0 && |c| == |t| + 1
    && forall i :: 0 <= i <= |t| ==> c[i] == Cdf(t, i)
  }

  /** The shares of a prefix stay within the prefix's share of the range, and fall short of it by less than one unit a symbol. */
  lemma {:induction false} SharesFit(t: seq<nat>, i: nat)
    requires i <= |t| <= MAX_CDF && Sum(t, |t|) > 0
    ensures i <= Cdf(t, i) && (Cdf(t, i) - i) * Sum(t, |t|) <= (MAX_CDF - |t|) * Sum(t, i) <= Cdf(t, i) * Sum(t, |t|)
  {
    if i > 0 {
      SharesFit(t, i - 1);
      hide Share;
      var k, s, x := MAX_CDF - |t|, Sum(t, |t|), t[i - 1];
      SharesAdd(Cdf(t, i - 1) - (i - 1), Share(x, k, s), s, k, Sum(t, i - 1), x, i - 1);
    }
  }

  lemma SharesAdd(c: nat, q: nat, s: nat, k: nat, a: nat, x: nat, n: nat)
    requires c * s <= k * a <= (c + n) * s && q * s <= x * k <= (q + 1) * s
    ensures (c + q) * s <= k * (a + x) <= (c + q + n + 1) * s
  {
  }

  lemma {:induction false} SumGrows(t: seq<nat>, i: nat, j: nat)
    requires i <= j <= |t|
    ensures Sum(t, i) <= Sum(t, j)
  {
    if i < j { SumGrows(t, i, j - 1); }
  }

  lemma CdfBelow(t: seq<nat>, i: nat)
    requires i <= |t| <= MAX_CDF && Sum(t, |t|) > 0
    ensures Cdf(t, i) <= MAX_CDF - |t| + i
  {
    hide Share, Cdf, Sum;
    SharesFit(t, i);
    SumGrows(t, i, |t|);
    SmallerShare(Cdf(t, i) - i, MAX_CDF - |t|, Sum(t, i), Sum(t, |t|));
  }

  lemma SmallerShare(c: nat, k: nat, part: nat, s: nat)
    requires s > 0 && part <= s && c * s <= k * part
    ensures c <= k
  {
  }

  /** Strictly increasing from 0, and never above the 15-bit total. */
  lemma CdfShape(c: seq<int>, t: seq<nat>)
    requires IsCdf(c, t)
    ensures c[0] == 0 && c[|t|] <= MAX_CDF
    ensures forall i :: 0 <= i < |t| ==> c[i] < c[i + 1]
    ensures forall i :: 0 <= i < |c| ==> 0 <= c[i] <= MAX_CDF
  {
    forall i: nat | i <= |t| ensures c[i] <= MAX_CDF { CdfBelow(t, i); }
    forall i: nat | i < |t| ensures c[i] < c[i + 1] { StepUp(t, i); }
  }

  lemma StepUp(t: seq<nat>, i: nat)
    requires i < |t| <= MAX_CDF && Sum(t, |t|) > 0
    ensures Cdf(t, i) < Cdf(t, i + 1)
  {
  }

  /** The width of every symbol: one unit, and the whole units of its share of the 32767 - n that are left for n symbols. */
  lemma WidthIsShare(c: seq<int>, t: seq<nat>, i: nat)
    requires IsCdf(c, t) && i < |t|
    ensures (c[i + 1] - c[i] - 1) * Sum(t, |t|) <= t[i] * (32767 - |t|) < (c[i + 1] - c[i]) * Sum(t, |t|)
  {
  }

  // ---- byte tables ----

  /** The weight of a table entry: the square of its value plus one, at most 65535. */
  function WeightOf(d: U8): (w: nat)
    ensures 1 <= w <= 65535
    ensures d < 255 ==> w == d * d + 2 * d + 1
    ensures d == 255 ==> w == 65535
  {
    var w := (d + 1) * (d + 1);
    if w > 65535 then 65535 else w
  }

  function Weights(d: seq<U8>): (t: seq<nat>)
    ensures |t| == |d|
  {
    seq(|d|, i requires 0 <= i < |d| => WeightOf(d[i]))
  }

  lemma {:induction false} WeightsAdd(d: seq<U8>, i: nat)
    requires i <= |d|
    ensures i <= Sum(Weights(d), i) <= 65535 * i
  {
    if i > 0 { WeightsAdd(d, i - 1); }
  }

  lemma ShareInRange(w: nat, len: nat)
    requires w <= 65535 && len <= MAX_CDF
    ensures 0 <= w * (MAX_CDF - len) < 0x8000_0000
  {
  }

  /** The share of symbol n fits sixteen bits. */
  lemma ShareFits(t: seq<nat>, n: nat)
    requires 0 < n <= |t| <= MAX_CDF && Sum(t, |t|) > 0
    ensures var share := Share(t[n - 1], MAX_CDF - |t|, Sum(t, |t|));
            share <= MAX_CDF && Cdf(t, n) == Cdf(t, n - 1) + share + 1 <= MAX_CDF
  {
    hide Share;
    CdfBelow(t, n);
  }

  /** The weight of one byte, in 32 bits. */
  method Weigh(d: U8) returns (tmp: I32)
    ensures tmp == WeightOf(d)
  {
    tmp := d as int + 1;
    tmp := tmp * tmp;
    if tmp > 65535 { tmp := 65535; }
  }

  /** One step of the second loop, with 32-bit products and 16-bit sums. */
  method Next32(prev: U16, raw: U16, len: nat, sum: I32, ghost t: seq<nat>, ghost n: nat) returns (v: U16)
    requires 0 < n <= |t| == len <= MAX_CDF && Sum(t, |t|) == sum > 0
    requires raw == t[n - 1] && prev == Cdf(t, n - 1)
    ensures v == Cdf(t, n)
  {
    ShareInRange(raw, len);
    ShareFits(t, n);
    var product: I32 := raw * (32767 - len);
    var share: U16 := product / sum;
    v := prev + share + 1;
  }

  /** celpDcmfToCmf: the weights are stored in the table that the sums then overwrite. */
  method CelpDcmfToCmf(dcmf: seq<U8>, cmf: array<U16>)
    requires 1 <= |dcmf| <= MAX_CDF && cmf.Length >= |dcmf| + 1
    modifies cmf
    ensures IsCdf(cmf[..|dcmf| + 1], Weights(dcmf))
    ensures forall i :: |dcmf| < i < cmf.Length ==> cmf[i] == old(cmf[i])
  {
    hide Share, Cdf;
    ghost var t := Weights(dcmf);
    var len := |dcmf|;
    var sum: I32 := 0;
    for n := 0 to len
      invariant sum == Sum(t, n)
      invariant forall i :: 1 <= i <= n ==> cmf[i] == t[i - 1]
      invariant forall i :: len < i < cmf.Length ==> cmf[i] == old(cmf[i])
    {
      var tmp := Weigh(dcmf[n]);
      WeightsAdd(dcmf, n + 1);
      cmf[n + 1] := tmp;
      sum := sum + tmp;
    }
    cmf[0] := 0;
    WeightsAdd(dcmf, len);
    CdfStarts(t);
    for n := 1 to len + 1
      invariant forall i :: 0 <= i < n ==> cmf[i] == Cdf(t, i)
      invariant forall i :: n <= i <= len ==> cmf[i] == t[i - 1]
      invariant forall i :: len < i < cmf.Length ==> cmf[i] == old(cmf[i])
    {
      cmf[n] := Next32(cmf[n - 1], cmf[n], len, sum, t, n);
    }
  }

  lemma CdfStarts(t: seq<nat>)
    requires |t| <= MAX_CDF && Sum(t, |t|) > 0
    ensures Cdf(t, 0) == 0
  {
  }

  method Next64(prev: U16, raw: nat, len: nat, sum: nat, ghost t: seq<nat>, ghost n: nat) returns (v: U16)
    requires 0 < n <= |t| == len <= MAX_CDF && Sum(t, |t|) == sum > 0
    requires raw == t[n - 1] && prev == Cdf(t, n - 1)
    ensures v == Cdf(t, n)
  {
    ShareFits(t, n);
    ProductSign(raw, 32767 - len);
    var add := raw * (32767 - len) / sum + 1;
    v := prev + add;
  }

  /** lsfDcmfToCmf: the same over 64-bit sums, into a new table. */
  method LsfDcmfToCmf(dcmf: seq<U8>) returns (cmf: array<U16>)
    requires 1 <= |dcmf| <= MAX_CDF
    ensures fresh(cmf) && IsCdf(cmf[..], Weights(dcmf))
  {
    hide Share, Cdf;
    ghost var t := Weights(dcmf);
    var n := |dcmf|;
    cmf := new U16[n + 1](_ => 0);
    var sum: int := 0;
    for i := 0 to n
      invariant sum == Sum(t, i)
      invariant cmf[0] == 0 && forall j :: 1 <= j <= i ==> cmf[j] == t[j - 1]
    {
      var tmp := Weigh(dcmf[i]);
      cmf[i + 1] := tmp;
      sum := sum + tmp;
    }
    WeightsAdd(dcmf, n);
    CdfStarts(t);
    for i := 1 to n + 1
      invariant forall j :: 0 <= j < i ==> cmf[j] == Cdf(t, j)
      invariant forall j :: i <= j <= n ==> cmf[j] == t[j - 1]
    {
      cmf[i] := Next64(cmf[i - 1], cmf[i], n, sum, t, i);
    }
  }

  /** pdfToCmf: any table of nonnegative frequencies with a positive sum. */
  method PdfToCmf(pdf: seq<nat>) returns (cmf: array<U16>)
    requires |pdf| <= MAX_CDF && Sum(pdf, |pdf|) > 0
    ensures fresh(cmf) && IsCdf(cmf[..], pdf)
  {
    hide Share, Cdf;
    var n := |pdf|;
    var sump := 0;
    for i := 0 to n
      invariant sump == Sum(pdf, i)
    {
      sump := sump + pdf[i];
    }
    cmf := new U16[n + 1](_ => 0);
    CdfStarts(pdf);
    for i := 0 to n
      invariant forall j :: 0 <= j <= i ==> cmf[j] == Cdf(pdf, j)
    {
      cmf[i + 1] := Next64(cmf[i], pdf[i], n, sump, pdf, i + 1);
    }
  }

  /** The two byte-table builders agree entry by entry. */
  lemma BuildersAgree(a: seq<int>, b: seq<int>, d: seq<U8>)
    requires IsCdf(a, Weights(d)) && IsCdf(b, Weights(d))
    ensures a == b
  {
  }
}
