/** Bytes, big-endian integers and exclusive or. */
module Bytes {

  type Byte = x: int | 0 <= x < 256

  type Data = seq<Byte>

  function Pow2(n: nat): (p: nat)
    ensures p > 0
  {
    if n == 0 then 1 else 2 * Pow2(n - 1)
  }

  /** Exclusive or of the low n bits. */
  function XorBits(a: nat, b: nat, n: nat): (r: nat)
    ensures r < Pow2(n)
  {
    if n == 0 then 0 else 2 * XorBits(a / 2, b / 2, n - 1) + (a + b) % 2
  }

  lemma {:induction false} XorBitsTwice(a: nat, b: nat, n: nat)
    requires a < Pow2(n)
    ensures XorBits(XorBits(a, b, n), b, n) == a
  {
    if n > 0 {
      XorBitsTwice(a / 2, b / 2, n - 1);
      XorHalves(XorBits(a / 2, b / 2, n - 1), a, b);
    }
  }

  lemma XorHalves(h: nat, a: nat, b: nat)
    ensures var r := 2 * h + (a + b) % 2; r / 2 == h && (r + b) % 2 == a % 2 && a == 2 * (a / 2) + a % 2
  {
  }

  function Xor(a: Byte, b: Byte): Byte {
    ByteBits();
    XorBits(a, b, 8)
  }

  lemma ByteBits()
    ensures Pow2(8) == 256
  {
  }

  lemma XorTwice(a: Byte, b: Byte)
    ensures Xor(Xor(a, b), b) == a
  {
    ByteBits();
    XorBitsTwice(a, b, 8);
  }

  /** Bit k of x. */
  function Bit(x: nat, k: nat): (b: nat)
    ensures b < 2
  {
    if k == 0 then x % 2 else Bit(x / 2, k - 1)
  }

  /** Each bit of the result is set exactly when the two bits differ. */
  lemma {:induction false} XorBitwise(a: nat, b: nat, n: nat, k: nat)
    requires k < n
    ensures Bit(XorBits(a, b, n), k) == 1 <==> Bit(a, k) != Bit(b, k)
  {
    var h := XorBits(a / 2, b / 2, n - 1);
    XorHalves(h, a, b);
    if k == 0 {
      Parities(h, a, b);
    } else {
      XorBitwise(a / 2, b / 2, n - 1, k - 1);
    }
  }

  lemma Parities(h: nat, a: nat, b: nat)
    ensures (2 * h + (a + b) % 2) % 2 == 1 <==> a % 2 != b % 2
  {
  }

  lemma {:induction false} XorCommutes(a: nat, b: nat, n: nat)
    ensures XorBits(a, b, n) == XorBits(b, a, n)
  {
    if n > 0 { XorCommutes(a / 2, b / 2, n - 1); }
  }

  lemma {:induction false} XorZero(a: nat, n: nat)
    requires a < Pow2(n)
    ensures XorBits(a, 0, n) == a
  {
    if n > 0 { XorZero(a / 2, n - 1); }
  }

  /** a, moved up by m bits. */
  function Shl(a: nat, m: nat): nat {
    a * Pow2(m)
  }

  lemma ShlUp(a: nat, m: nat)
    requires m > 0
    ensures Shl(a, m) == 2 * Shl(a, m - 1)
  {
  }

  /** High and low parts are combined apart. */
  lemma {:induction false} XorParts(a: nat, b: nat, x: nat, y: nat, n: nat, m: nat)
    requires x < Pow2(m) && y < Pow2(m)
    ensures XorBits(Shl(a, m) + x, Shl(b, m) + y, n + m) == Shl(XorBits(a, b, n), m) + XorBits(x, y, m)
    decreases m
  {
    if m > 0 {
      hide Shl;
      var h := XorBits(a, b, n);
      XorParts(a, b, x / 2, y / 2, n, m - 1);
      ShlUp(a, m);
      ShlUp(b, m);
      ShlUp(h, m);
      XorPartsStep(Shl(a, m - 1), Shl(b, m - 1), x, y, Shl(h, m - 1), n + m, m);
    }
  }

  lemma XorPartsStep(s: nat, t: nat, x: nat, y: nat, h: nat, k: nat, m: nat)
    requires k >= m > 0 && XorBits(s + x / 2, t + y / 2, k - 1) == h + XorBits(x / 2, y / 2, m - 1)
    ensures XorBits(2 * s + x, 2 * t + y, k) == 2 * h + XorBits(x, y, m)
  {
    hide XorBits;
    HalfOfSum(s, x);
    HalfOfSum(t, y);
    SameParity(s, t, x, y);
    Unrolled(2 * s + x, 2 * t + y, k);
    Unrolled(x, y, m);
  }

  lemma Unrolled(a: nat, b: nat, n: nat)
    requires n > 0
    ensures XorBits(a, b, n) == 2 * XorBits(a / 2, b / 2, n - 1) + (a + b) % 2
  {
  }

  lemma HalfOfSum(t: nat, x: nat)
    ensures (2 * t + x) / 2 == t + x / 2
  {
  }

  lemma SameParity(s: nat, t: nat, x: nat, y: nat)
    ensures ((2 * s + x) + (2 * t + y)) % 2 == (x + y) % 2
  {
  }

  /** x as n bytes, the most significant first; higher bits are dropped. */
  function BigEndian(x: nat, n: nat): (s: Data)
    ensures |s| == n
  {
    if n == 0 then [] else BigEndian(x / 256, n - 1) + [x % 256]
  }

  function FromBigEndian(s: Data): (x: nat)
    ensures x < Pow256(|s|)
  {
    if s == [] then 0 else FromBigEndian(s[..|s| - 1]) * 256 + s[|s| - 1]
  }

  function Pow256(n: nat): (p: nat)
    ensures p > 0
  {
    if n == 0 then 1 else 256 * Pow256(n - 1)
  }

  /** Writing an integer and reading it back drops the bits that did not fit. */
  lemma {:induction false} ReadWritten(x: nat, n: nat)
    ensures x < Pow256(n) ==> FromBigEndian(BigEndian(x, n)) == x
  {
    if n > 0 {
      ReadWritten(x / 256, n - 1);
      assert BigEndian(x, n)[..n - 1] == BigEndian(x / 256, n - 1);
    }
  }

  lemma {:induction false} WriteRead(s: Data)
    ensures BigEndian(FromBigEndian(s), |s|) == s
  {
    if s != [] {
      WriteRead(s[..|s| - 1]);
      var x := FromBigEndian(s);
      assert x / 256 == FromBigEndian(s[..|s| - 1]) && x % 256 == s[|s| - 1];
    }
  }

  lemma Widths()
    ensures Pow256(2) == 0x1_0000 && Pow256(4) == 0x1_0000_0000 && Pow256(6) == 0x1_0000_0000_0000
    ensures Pow256(8) == 0x1_0000_0000_0000_0000
  {
  }

  /** Byte by byte. */
  function XorData(s: Data, t: Data): (r: Data)
    requires |s| == |t|
    ensures |r| == |s|
  {
    seq(|s|, i requires 0 <= i < |s| => Xor(s[i], t[i]))
  }

  /** That is exclusive or of the two integers. */
  lemma {:induction false} XorDataIsXor(s: Data, t: Data)
    requires |s| == |t|
    ensures FromBigEndian(XorData(s, t)) == XorBits(FromBigEndian(s), FromBigEndian(t), 8 * |s|)
    decreases |s|
  {
    if s != [] {
      var n := |s| - 1;
      XorDataIsXor(s[..n], t[..n]);
      assert XorData(s, t)[..n] == XorData(s[..n], t[..n]);
      ByteBits();
      XorParts(FromBigEndian(s[..n]), FromBigEndian(t[..n]), s[n], t[n], 8 * n, 8);
      hide XorBits;
    }
  }

  function Zeros(n: nat): (z: Data)
    ensures |z| == n
  {
    seq(n, i => 0)
  }

  lemma {:induction false} ZerosBehind(s: Data, n: nat)
    ensures FromBigEndian(s + Zeros(n)) == FromBigEndian(s) * Pow256(n)
  {
    if n == 0 {
      assert s + Zeros(0) == s;
    } else {
      ZerosBehind(s, n - 1);
      assert (s + Zeros(n))[..|s| + n - 1] == s + Zeros(n - 1);
    }
  }

  lemma {:induction false} ZerosBefore(n: nat, s: Data)
    ensures FromBigEndian(Zeros(n) + s) == FromBigEndian(s)
    decreases |s|, n
  {
    if s != [] {
      var m := |s| - 1;
      ZerosBefore(n, s[..m]);
      assert (Zeros(n) + s)[..n + m] == Zeros(n) + s[..m];
    } else if n > 0 {
      ZerosBefore(n - 1, s);
      assert (Zeros(n) + s)[..n - 1] == Zeros(n - 1) + s;
    }
  }

  lemma XorWithZero(a: Byte)
    ensures Xor(a, 0) == a
  {
    ByteBits();
    XorZero(a, 8);
  }
}
