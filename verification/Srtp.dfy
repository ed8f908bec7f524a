/** The packet transform and the rollover counter of internal/voip/media/srtp.go. */
module Srtp {
  import opened Bytes
  import opened Rtp

  const SALT_LEN: nat := 14
  const IV_LEN: nat := 16
  const MAC_LEN: nat := 20

  type Digest = s: Data | |s| == MAC_LEN witness seq(MAC_LEN, i => 0)

  /** The AES counter-mode keystream for a key and an initial block, and HMAC-SHA1. */
  datatype Ciphers = Ciphers(stream: (Data, Data) -> (nat -> Byte), mac: (Data, Data) -> Digest)

  datatype Keys = Keys(sessionKey: Data, sessionSalt: Data, authKey: Data, authTagLen: nat)

  predicate GoodKeys(k: Keys) {
    |k.sessionSalt| == SALT_LEN && k.authTagLen <= MAC_LEN
  }

  // ---- the initial block ----

  function IvByte(salt: Data, ssrc: U32, index: nat, i: nat): Byte
    requires |salt| == SALT_LEN && i < IV_LEN
  {
    if i < 4 then salt[i]
    else if i < 8 then Xor(salt[i], BigEndian(ssrc, 4)[i - 4])
    else if i < SALT_LEN then Xor(salt[i], BigEndian(index, 6)[i - 8])
    else 0
  }

  function Iv(salt: Data, ssrc: U32, index: nat): (iv: Data)
    requires |salt| == SALT_LEN
    ensures |iv| == IV_LEN
  {
    seq(IV_LEN, i requires 0 <= i < IV_LEN => IvByte(salt, ssrc, index, i))
  }

  lemma XorCancels(a: Byte, b: Byte, c: Byte)
    ensures Xor(a, b) == Xor(a, c) ==> b == c
  {
    XorCommutes(a, b, 8);
    XorCommutes(a, c, 8);
    XorTwice(b, a);
    XorTwice(c, a);
  }

  /** The block of section 4.1.1 of RFC 3711: (salt * 2^16) xor (source * 2^64) xor (index * 2^16), in 128 bits. */
  lemma IvIsRfc(salt: Data, ssrc: U32, index: nat)
    requires |salt| == SALT_LEN && index < 0x1_0000_0000_0000
    ensures FromBigEndian(Iv(salt, ssrc, index))
         == XorBits(XorBits(FromBigEndian(salt) * 0x1_0000, ssrc * 0x1_0000_0000_0000_0000, 128), index * 0x1_0000, 128)
  {
    hide Xor, BigEndian, FromBigEndian, XorBits;
    var a, b, c := salt + Zeros(2), Zeros(4) + (BigEndian(ssrc, 4) + Zeros(8)), Zeros(8) + (BigEndian(index, 6) + Zeros(2));
    IvIsXor(salt, ssrc, index);
    XorDataIsXor(XorData(a, b), c);
    XorDataIsXor(a, b);
    Widths();
    ZerosBehind(salt, 2);
    ZerosBefore(4, BigEndian(ssrc, 4) + Zeros(8));
    ZerosBehind(BigEndian(ssrc, 4), 8);
    ReadWritten(ssrc, 4);
    ZerosBefore(8, BigEndian(index, 6) + Zeros(2));
    ZerosBehind(BigEndian(index, 6), 2);
    ReadWritten(index, 6);
  }

  lemma IvIsXor(salt: Data, ssrc: U32, index: nat)
    requires |salt| == SALT_LEN
    ensures Iv(salt, ssrc, index)
         == XorData(XorData(salt + Zeros(2), Zeros(4) + (BigEndian(ssrc, 4) + Zeros(8))), Zeros(8) + (BigEndian(index, 6) + Zeros(2)))
  {
    hide Xor, BigEndian;
    var a, b, c := salt + Zeros(2), Zeros(4) + (BigEndian(ssrc, 4) + Zeros(8)), Zeros(8) + (BigEndian(index, 6) + Zeros(2));
    forall i | 0 <= i < IV_LEN ensures Iv(salt, ssrc, index)[i] == XorData(XorData(a, b), c)[i] {
      XorWithZero(a[i]);
      XorWithZero(Xor(a[i], b[i]));
    }
  }

  /** No two packets of one key share an initial block: not across sources, not across 2^48 indices. */
  lemma IvNeverRepeats(salt: Data, ssrc: U32, index: nat, ssrc': U32, index': nat)
    requires |salt| == SALT_LEN && index < 0x1_0000_0000_0000 && index' < 0x1_0000_0000_0000
    ensures Iv(salt, ssrc, index) == Iv(salt, ssrc', index') ==> ssrc == ssrc' && index == index'
  {
    hide Xor, BigEndian;
    var v, w := Iv(salt, ssrc, index), Iv(salt, ssrc', index');
    if v == w {
      forall i | 0 <= i < 4 ensures BigEndian(ssrc, 4)[i] == BigEndian(ssrc', 4)[i] {
        assert v[4 + i] == w[4 + i];
        XorCancels(salt[4 + i], BigEndian(ssrc, 4)[i], BigEndian(ssrc', 4)[i]);
      }
      forall i | 0 <= i < 6 ensures BigEndian(index, 6)[i] == BigEndian(index', 6)[i] {
        assert v[8 + i] == w[8 + i];
        XorCancels(salt[8 + i], BigEndian(index, 6)[i], BigEndian(index', 6)[i]);
      }
      assert BigEndian(ssrc, 4) == BigEndian(ssrc', 4) && BigEndian(index, 6) == BigEndian(index', 6);
      Widths();
      ReadWritten(ssrc, 4);
      ReadWritten(ssrc', 4);
      ReadWritten(index, 6);
      ReadWritten(index', 6);
    }
  }

  lemma {:induction false} LowBytes(x: nat, n: nat, k: nat)
    requires k <= n
    ensures BigEndian(x, n)[n - k..] == BigEndian(x, k)
  {
    if k > 0 {
      LowBytes(x / 256, n - 1, k - 1);
      assert BigEndian(x, n)[n - k..] == BigEndian(x / 256, n - 1)[n - k..] + [x % 256];
    }
  }

  // ---- the payload ----

  function XorStream(s: Data, key: nat -> Byte): (r: Data)
    ensures |r| == |s|
  {
    seq<Byte>(|s|, i requires 0 <= i < |s| => Xor(s[i], key(i)))
  }

  lemma XorStreamTwice(s: Data, key: nat -> Byte)
    ensures XorStream(XorStream(s, key), key) == s
  {
    forall i | 0 <= i < |s| ensures XorStream(XorStream(s, key), key)[i] == s[i] {
      XorTwice(s[i], key(i));
    }
  }

  function PayloadKey(c: Ciphers, k: Keys, ssrc: U32, index: nat): nat -> Byte
    requires GoodKeys(k)
  {
    c.stream(k.sessionKey, Iv(k.sessionSalt, ssrc, index))
  }

  function Tag(c: Ciphers, k: Keys, data: Data, roc: nat): (t: Data)
    requires GoodKeys(k)
    ensures |t| == k.authTagLen
  {
    c.mac(k.authKey, data + BigEndian(roc, 4))[..k.authTagLen]
  }

  /** The packet on the wire when its 48-bit index is `index`. */
  function Sealed(c: Ciphers, k: Keys, p: Packet, index: nat): Data
    requires GoodKeys(k)
  {
    var body := Wire(p.header) + XorStream(p.payload, PayloadKey(c, k, p.header.ssrc, index));
    body + Tag(c, k, body, index / 0x1_0000)
  }

  // ---- the rollover counter ----

  datatype RocState = RocState(initialized: bool, roc: U32, lastSeq: U16)

  const FRESH := RocState(false, 0, 0)

  /** updateRoc */
  function Step(s: RocState, sequence: U16): RocState {
    if !s.initialized then s.(initialized := true, lastSeq := sequence)
    else if sequence - s.lastSeq < -32768 then RocState(true, (s.roc + 1) % 0x1_0000_0000, sequence)
    else s.(lastSeq := sequence)
  }

  /** packetIndex */
  function Index(s: RocState, sequence: U16): nat {
    s.roc * 0x1_0000 + sequence
  }

  /** Whole turns of the sequence number before the x-th packet of a count that starts at a multiple of 2^16. */
  function Epoch(x: nat): nat {
    x / 0x1_0000
  }

  function Sequence(x: nat): U16 {
    x % 0x1_0000
  }

  /** The counter after the packets with these absolute numbers. */
  function After(xs: seq<nat>): RocState {
    if xs == [] then FRESH else Step(After(xs[..|xs| - 1]), Sequence(xs[|xs| - 1]))
  }

  /** No turn lies between, or the gap is less than half a turn. */
  predicate GapOk(x: nat, y: nat) {
    Epoch(x) == Epoch(y) || y - x <= 32767
  }

  predicate Ascending(xs: seq<nat>) {
    (forall i, j :: 0 <= i < j < |xs| ==> xs[i] < xs[j]) && forall i :: 0 <= i < |xs| ==> xs[i] < 0x1_0000_0000_0000
  }

  predicate GapsOk(xs: seq<nat>) {
    forall i :: 0 < i < |xs| ==> GapOk(xs[i - 1], xs[i])
  }

  /** The counter after the last of xs counts the turns since the first. */
  predicate Tracks(xs: seq<nat>)
    requires xs != []
  {
    After(xs).roc == Epoch(xs[|xs| - 1]) - Epoch(xs[0])
  }

  /** One received packet: the counter moves by the turns passed exactly when the gap allows it. */
  lemma StepTracks(s: RocState, x: nat, y: nat, base: nat)
    requires x < y < 0x1_0000_0000_0000 && s.initialized && s.lastSeq == Sequence(x)
    requires base <= Epoch(x) && s.roc == Epoch(x) - base
    ensures Step(s, Sequence(y)).initialized && Step(s, Sequence(y)).lastSeq == Sequence(y)
    ensures base <= Epoch(y)
    ensures Step(s, Sequence(y)).roc == Epoch(y) - base <==> GapOk(x, y)
  {
  }

  lemma {:induction false} AfterLast(xs: seq<nat>)
    requires xs != []
    ensures After(xs).initialized && After(xs).lastSeq == Sequence(xs[|xs| - 1])
  {
  }

  /** The counter is right after every one of these packets. */
  predicate AlwaysTracks(xs: seq<nat>)
    requires xs != []
    decreases |xs|
  {
    Tracks(xs) && (|xs| > 1 ==> AlwaysTracks(xs[..|xs| - 1]))
  }

  lemma OneTracks(xs: seq<nat>)
    requires |xs| == 1
    ensures Tracks(xs) && GapsOk(xs)
  {
  }

  /** That is so exactly when every gap across a turn is below half a turn. */
  lemma {:induction false} TracksWhen(xs: seq<nat>)
    requires xs != [] && Ascending(xs)
    ensures AlwaysTracks(xs) <==> GapsOk(xs)
  {
    hide Step, Epoch, Sequence, GapOk;
    var n := |xs|;
    if n == 1 {
      OneTracks(xs);
    } else {
      var init := xs[..n - 1];
      TracksWhen(init);
      AfterLast(init);
      GapsSplit(xs);
      if GapsOk(init) {
        StepTracks(After(init), xs[n - 2], xs[n - 1], Epoch(xs[0]));
      }
    }
  }

  lemma GapsSplit(xs: seq<nat>)
    requires |xs| > 1
    ensures GapsOk(xs) <==> GapsOk(xs[..|xs| - 1]) && GapOk(xs[|xs| - 2], xs[|xs| - 1])
  {
  }
}
