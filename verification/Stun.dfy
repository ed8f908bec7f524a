/** Building and parsing STUN messages, internal/voip/transport/stun.go. */
module Stun {
  import opened Bytes

  const HEADER: nat := 20
  const MAGIC_COOKIE: nat := 0x2112a442
  const MESSAGE_INTEGRITY: nat := 0x0008
  const FINGERPRINT: nat := 0x8028
  const TID_LEN: nat := 12

  type U16 = x: int | 0 <= x < 0x1_0000
  type U32 = x: int | 0 <= x < 0x1_0000_0000
  type Digest = s: Data | |s| == 20 witness seq(20, i => 0)

  datatype Attribute = Attribute(kind: U16, data: Data)

  /** HMAC-SHA1, and CRC-32 with the fingerprint mask applied. */
  datatype Checks = Checks(mac: (Data, Data) -> Digest, crc: Data -> U32)

  datatype Key = NoKey | Key(bytes: Data)

  function Padding(n: nat): (p: nat)
    ensures p < 4 && (n + p) % 4 == 0
  {
    (4 - n % 4) % 4
  }

  /** encodeAttribute */
  function EncodeAttribute(a: Attribute): Data {
    BigEndian(a.kind, 2) + BigEndian(|a.data|, 2) + a.data + seq(Padding(|a.data|), i => 0)
  }

  function Encoded(attrs: seq<Attribute>): Data {
    if attrs == [] then [] else EncodeAttribute(attrs[0]) + Encoded(attrs[1..])
  }

  lemma AlignedSum(x: nat, y: nat)
    requires x % 4 == 0 && y % 4 == 0
    ensures (x + y) % 4 == 0
  {
  }

  lemma AttributeAligned(a: Attribute)
    ensures |EncodeAttribute(a)| % 4 == 0
  {
  }

  /** Attributes end on 32-bit boundaries. */
  lemma {:induction false} EncodedAligned(attrs: seq<Attribute>)
    ensures |Encoded(attrs)| % 4 == 0
  {
    hide EncodeAttribute, Padding;
    if attrs != [] {
      var first, rest := |EncodeAttribute(attrs[0])|, |Encoded(attrs[1..])|;
      assert |Encoded(attrs)| == first + rest;
      assert (first + rest) % 4 == 0 by {
        AttributeAligned(attrs[0]);
        EncodedAligned(attrs[1..]);
        AlignedSum(first, rest);
      }
    }
  }

  lemma {:induction false} EncodedJoins(a: seq<Attribute>, b: seq<Attribute>)
    ensures Encoded(a + b) == Encoded(a) + Encoded(b)
  {
    hide EncodeAttribute;
    if a == [] {
      assert a + b == b;
    } else {
      EncodedJoins(a[1..], b);
      assert (a + b)[1..] == a[1..] + b;
      assert EncodeAttribute(a[0]) + (Encoded(a[1..]) + Encoded(b)) == (EncodeAttribute(a[0]) + Encoded(a[1..])) + Encoded(b);
    }
  }

  lemma EncodedOne(a: Attribute)
    ensures Encoded([a]) == EncodeAttribute(a)
  {
  }

  function Head(kind: U16, length: nat, tid: Data): (s: Data)
    requires |tid| == TID_LEN
    ensures |s| == HEADER
  {
    BigEndian(kind, 2) + BigEndian(length, 2) + BigEndian(MAGIC_COOKIE, 4) + tid
  }

  /** The message with exactly these attributes. */
  function Message(kind: U16, attrs: seq<Attribute>, tid: Data): (s: Data)
    requires |tid| == TID_LEN
    ensures |s| == HEADER + |Encoded(attrs)|
  {
    Head(kind, |Encoded(attrs)|, tid) + Encoded(attrs)
  }

  /** The part of the message that comes before its last attribute; the length still counts that attribute. */
  function BeforeLast(kind: U16, attrs: seq<Attribute>, tid: Data): Data
    requires |tid| == TID_LEN && attrs != []
  {
    EncodedJoins(attrs[..|attrs| - 1], attrs[|attrs| - 1..]);
    assert attrs == attrs[..|attrs| - 1] + attrs[|attrs| - 1..];
    Message(kind, attrs, tid)[..HEADER + |Encoded(attrs[..|attrs| - 1])|]
  }

  /** attrs ends in an integrity attribute that covers everything before it. */
  predicate Signed(c: Checks, kind: U16, attrs: seq<Attribute>, tid: Data, key: Data)
    requires |tid| == TID_LEN
  {
    attrs != [] && attrs[|attrs| - 1] == Attribute(MESSAGE_INTEGRITY, c.mac(key, BeforeLast(kind, attrs, tid)))
  }

  predicate Fingerprinted(c: Checks, kind: U16, attrs: seq<Attribute>, tid: Data)
    requires |tid| == TID_LEN
  {
    attrs != [] && attrs[|attrs| - 1] == Attribute(FINGERPRINT, BigEndian(c.crc(BeforeLast(kind, attrs, tid)), 4))
  }

  /** Appending an attribute: what it may cover is the head with the final length, and the rest. */
  lemma BeforeAppended(kind: U16, attrs: seq<Attribute>, a: Attribute, tid: Data)
    requires |tid| == TID_LEN
    ensures BeforeLast(kind, attrs + [a], tid)
         == Head(kind, |Encoded(attrs)| + |EncodeAttribute(a)|, tid) + Encoded(attrs)
    ensures Encoded(attrs + [a]) == Encoded(attrs) + EncodeAttribute(a)
  {
    hide Head, EncodeAttribute, Encoded;
    EncodedJoins(attrs, [a]);
    EncodedOne(a);
    assert (attrs + [a])[..|attrs|] == attrs;
  }

  /** The list with an integrity attribute: 20 bytes of digest behind 4 of attribute header. */
  function WithIntegrity(c: Checks, kind: U16, list: seq<Attribute>, tid: Data, key: Data): seq<Attribute>
    requires |tid| == TID_LEN
  {
    list + [Attribute(MESSAGE_INTEGRITY, c.mac(key, Head(kind, |Encoded(list)| + 24, tid) + Encoded(list)))]
  }

  function WithFingerprint(c: Checks, kind: U16, list: seq<Attribute>, tid: Data): seq<Attribute>
    requires |tid| == TID_LEN
  {
    list + [Attribute(FINGERPRINT, BigEndian(c.crc(Head(kind, |Encoded(list)| + 8, tid) + Encoded(list)), 4))]
  }

  /** The list that a message carries in the end. */
  function Carried(c: Checks, kind: U16, list: seq<Attribute>, tid: Data, key: Key, fingerprint: bool): seq<Attribute>
    requires |tid| == TID_LEN
  {
    var signed := if key.Key? then WithIntegrity(c, kind, list, tid, key.bytes) else list;
    if fingerprint then WithFingerprint(c, kind, signed, tid) else signed
  }

  /** The digest covers the message before it, under a length that already counts it. */
  lemma IntegrityCovers(c: Checks, kind: U16, list: seq<Attribute>, tid: Data, key: Data)
    requires |tid| == TID_LEN
    ensures Signed(c, kind, WithIntegrity(c, kind, list, tid, key), tid, key)
  {
    hide BeforeLast, Head, EncodeAttribute, Encoded;
    var signed := WithIntegrity(c, kind, list, tid, key);
    var a := signed[|list|];
    AttributeSize(a);
    BeforeAppended(kind, list, a, tid);
  }

  lemma FingerprintCovers(c: Checks, kind: U16, list: seq<Attribute>, tid: Data)
    requires |tid| == TID_LEN
    ensures Fingerprinted(c, kind, WithFingerprint(c, kind, list, tid), tid)
  {
    hide BeforeLast, Head, EncodeAttribute, Encoded, BigEndian;
    var printed := WithFingerprint(c, kind, list, tid);
    var a := printed[|list|];
    AttributeSize(a);
    BeforeAppended(kind, list, a, tid);
  }

  /** Both checks of a built message cover all that precedes them, and the list itself comes first. */
  lemma CarriedIsCovered(c: Checks, kind: U16, list: seq<Attribute>, tid: Data, key: Key, fingerprint: bool)
    requires |tid| == TID_LEN
    ensures var all := Carried(c, kind, list, tid, key, fingerprint);
            && list <= all
            && |all| == |list| + (if key.Key? then 1 else 0) + (if fingerprint then 1 else 0)
            && (key.Key? ==> Signed(c, kind, all[..|list| + 1], tid, key.bytes))
            && (fingerprint ==> Fingerprinted(c, kind, all, tid))
  {
    hide Signed, Fingerprinted, Head, Encoded;
    var signed := if key.Key? then WithIntegrity(c, kind, list, tid, key.bytes) else list;
    var all := Carried(c, kind, list, tid, key, fingerprint);
    if key.Key? {
      IntegrityCovers(c, kind, list, tid, key.bytes);
      assert all[..|list| + 1] == signed;
    }
    if fingerprint { FingerprintCovers(c, kind, signed, tid); }
  }

  /** buildStunMessage; `attrs` arrive encoded. */
  method Build(c: Checks, kind: U16, attrs: Data, tid: Data, integrityKey: Key, includeFingerprint: bool, ghost list: seq<Attribute>)
      returns (message: Data)
    requires |tid| == TID_LEN && attrs == Encoded(list)
    ensures message == Message(kind, Carried(c, kind, list, tid, integrityKey, includeFingerprint), tid)
  {
    hide Head, Encoded, EncodeAttribute, BigEndian;
    ghost var all := list;
    var attrsData := attrs;
    if integrityKey.Key? {
      var hmacHeader := Head(kind, |attrsData| + 24, tid);
      var mi := Attribute(MESSAGE_INTEGRITY, c.mac(integrityKey.bytes, hmacHeader + attrsData));
      EncodedMore(all, mi);
      attrsData := attrsData + EncodeAttribute(mi);
      all := all + [mi];
    }
    if includeFingerprint {
      var crcHeader := Head(kind, |attrsData| + 8, tid);
      var fp := Attribute(FINGERPRINT, BigEndian(c.crc(crcHeader + attrsData), 4));
      EncodedMore(all, fp);
      attrsData := attrsData + EncodeAttribute(fp);
    }
    message := Head(kind, |attrsData|, tid) + attrsData;
  }

  lemma EncodedMore(list: seq<Attribute>, a: Attribute)
    ensures Encoded(list + [a]) == Encoded(list) + EncodeAttribute(a)
  {
    EncodedJoins(list, [a]);
    EncodedOne(a);
  }

  lemma AttributeSize(a: Attribute)
    ensures |EncodeAttribute(a)| == 4 + |a.data| + Padding(|a.data|)
  {
  }

  // ---- parsing ----

  const ERROR_CODE: nat := 0x0009
  const CONNECTION_ID: nat := 0x4033

  datatype Class = Request | Indication | Success | Error

  /** What the attributes say besides: the error, and the id of the connection. */
  datatype Facts = Facts(errorCode: nat, errorReason: Data, connectionId: nat)

  datatype Info = Info(kind: U16, stunClass: Class, methodBits: nat, tid: Data, length: nat, attrs: seq<Attribute>, facts: Facts)
  datatype Parsed = Nothing | Ping(kind: U16, tid: Data, length: nat) | Stun(info: Info)

  const NO_FACTS := Facts(0, [], 0)

  function ClassNumbered(n: nat): Class
    requires n < 4
  {
    if n == 0 then Request else if n == 1 then Indication else if n == 2 then Success else Error
  }

  /** The two class bits and the twelve method bits of a message type, section 6 of RFC 5389. */
  function ClassOf(kind: U16): Class {
    ClassNumbered(kind / 256 % 2 * 2 + kind / 16 % 2)
  }

  function MethodOf(kind: U16): nat {
    kind / 512 % 32 * 128 + kind / 32 % 8 * 16 + kind % 16
  }

  /** The type of a message of this class and method. */
  function KindOf(methodBits: nat, classBits: nat): U16
    requires methodBits < 4096 && classBits < 4
  {
    methodBits / 128 * 512 + classBits / 2 * 256 + methodBits / 16 % 8 * 32 + classBits % 2 * 16 + methodBits % 16
  }

  /** Class and method are read back from the type they are woven into. */
  lemma KindRoundTrip(methodBits: nat, classBits: nat)
    requires methodBits < 4096 && classBits < 4
    ensures MethodOf(KindOf(methodBits, classBits)) == methodBits
    ensures ClassOf(KindOf(methodBits, classBits))
         == [Class.Request, Class.Indication, Class.Success, Class.Error][classBits]
  {
    Woven(methodBits / 128, classBits / 2, methodBits / 16 % 8, classBits % 2, methodBits % 16);
    assert methodBits / 16 == methodBits / 128 * 8 + methodBits / 16 % 8 by { assert methodBits / 128 == methodBits / 16 / 8; }
  }

  /** A type whose two highest bits are zero, as they are in every STUN message, is woven from its own method and class. */
  lemma KindOfParts(kind: U16)
    requires kind < 0x4000
    ensures MethodOf(kind) < 4096
    ensures kind == KindOf(MethodOf(kind), match ClassOf(kind) case Request => 0 case Indication => 1 case Success => 2 case Error => 3)
  {
    var a, b, c, d, e := kind / 512, kind / 256 % 2, kind / 32 % 8, kind / 16 % 2, kind % 16;
    Taken(kind);
    assert MethodOf(kind) == a * 128 + c * 16 + e;
    Apart(a, c, e);
  }

  lemma Taken(kind: nat)
    requires kind < 0x4000
    ensures kind / 512 < 32 && kind == kind / 512 * 512 + kind / 256 % 2 * 256 + kind / 32 % 8 * 32 + kind / 16 % 2 * 16 + kind % 16
  {
    assert kind / 256 == kind / 512 * 2 + kind / 256 % 2 by { assert kind / 512 == kind / 256 / 2; }
    assert kind / 32 == kind / 256 * 8 + kind / 32 % 8 by { assert kind / 256 == kind / 32 / 8; }
    assert kind / 16 == kind / 32 * 2 + kind / 16 % 2 by { assert kind / 32 == kind / 16 / 2; }
  }

  lemma Apart(a: nat, c: nat, e: nat)
    requires a < 32 && c < 8 && e < 16
    ensures var m := a * 128 + c * 16 + e; m < 4096 && m / 128 == a && m / 16 % 8 == c && m % 16 == e
  {
  }

  lemma Woven(a: nat, b: nat, c: nat, d: nat, e: nat)
    requires a < 32 && b < 2 && c < 8 && d < 2 && e < 16
    ensures var k := a * 512 + b * 256 + c * 32 + d * 16 + e;
            k / 512 == a && k / 256 == 2 * a + b && k / 32 == 16 * a + 8 * b + c && k / 16 == 32 * a + 16 * b + 2 * c + d && k % 16 == e
    ensures (2 * a + b) % 2 == b && (16 * a + 8 * b + c) % 8 == c && (32 * a + 16 * b + 2 * c + d) % 2 == d && a % 32 == a
  {
  }

  function ErrorNumber(hundreds: nat, rest: nat): nat {
    hundreds % 8 * 100 + rest
  }

  /** One attribute as the parser looks at it. */
  function Noted(f: Facts, stunClass: Class, a: Attribute): Facts {
    if a.kind == ERROR_CODE && |a.data| >= 4 then
      f.(errorCode := ErrorNumber(a.data[2], a.data[3]), errorReason := if |a.data| > 4 then a.data[4..] else f.errorReason)
    else if a.kind == CONNECTION_ID && stunClass == Success && |a.data| == 8 then f.(connectionId := FromBigEndian(a.data))
    else f
  }

  function FactsOf(stunClass: Class, attrs: seq<Attribute>): Facts {
    if attrs == [] then NO_FACTS else Noted(FactsOf(stunClass, attrs[..|attrs| - 1]), stunClass, attrs[|attrs| - 1])
  }

  function InfoOf(kind: U16, tid: Data, length: nat, attrs: seq<Attribute>): Info {
    Info(kind, ClassOf(kind), MethodOf(kind), tid, length, attrs, FactsOf(ClassOf(kind), attrs))
  }

  /** The ERROR-CODE attribute of section 15.6 of RFC 5389. */
  function ErrorAttribute(code: nat, reason: Data): Attribute
    requires 300 <= code < 700
  {
    Attribute(ERROR_CODE, [0, 0, code / 100, code % 100] + reason)
  }

  predicate NamesError(a: Attribute) {
    a.kind == 0x0009 && |a.data| >= 4
  }

  /** The last error counts: its class is the low three bits of the third byte; without any reason bytes the one
      found before stays. */
  lemma {:induction false} ErrorRead(stunClass: Class, before: seq<Attribute>, a: Attribute, behind: seq<Attribute>)
    requires NamesError(a) && forall i :: 0 <= i < |behind| ==> !NamesError(behind[i])
    ensures
      var f := FactsOf(stunClass, before + [a] + behind);
      var hundreds: nat, rest: nat := a.data[2], a.data[3];
      && f.errorCode == hundreds % 8 * 100 + rest
      && f.errorReason == if |a.data| == 4 then FactsOf(stunClass, before).errorReason else a.data[4..]
    decreases |behind|
  {
    var all := before + [a] + behind;
    if behind == [] {
      assert all[..|all| - 1] == before;
    } else {
      var init := behind[..|behind| - 1];
      ErrorRead(stunClass, before, a, init);
      assert all[..|all| - 1] == before + [a] + init;
      assert all[|all| - 1] == behind[|behind| - 1];
    }
  }

  lemma {:induction false} NoErrorRead(stunClass: Class, attrs: seq<Attribute>)
    requires forall i :: 0 <= i < |attrs| ==> !NamesError(attrs[i])
    ensures FactsOf(stunClass, attrs).errorCode == 0 && FactsOf(stunClass, attrs).errorReason == []
  {
    if attrs != [] {
      NoErrorRead(stunClass, attrs[..|attrs| - 1]);
      assert !NamesError(attrs[|attrs| - 1]);
    }
  }

  /** An error that is followed by no other one is read back, code and reason. */
  lemma ErrorRoundTrip(stunClass: Class, before: seq<Attribute>, code: nat, reason: Data, behind: seq<Attribute>)
    requires 300 <= code < 700 && reason != []
    requires forall i :: 0 <= i < |behind| ==> !NamesError(behind[i])
    ensures
      var f := FactsOf(stunClass, before + [ErrorAttribute(code, reason)] + behind);
      f.errorCode == code && f.errorReason == reason
  {
    var a := ErrorAttribute(code, reason);
    ErrorRead(stunClass, before, a, behind);
    assert a.data[4..] == reason;
  }

  /** The id of the connection, in eight bytes. */
  function ConnectionAttribute(id: nat): Attribute
    requires id < 0x1_0000_0000_0000_0000
  {
    Attribute(0x4033, BigEndian(id, 8))
  }

  /** In an answer of success the last id is read back; in a message of any other class none is. */
  lemma {:induction false} ConnectionRoundTrip(stunClass: Class, before: seq<Attribute>, id: nat, behind: seq<Attribute>)
    requires id < 0x1_0000_0000_0000_0000
    requires forall i :: 0 <= i < |behind| ==> behind[i].kind != 0x4033 || |behind[i].data| != 8
    ensures FactsOf(stunClass, before + [ConnectionAttribute(id)] + behind).connectionId == if stunClass == Success then id else 0
    decreases |behind|
  {
    var all := before + [ConnectionAttribute(id)] + behind;
    if behind == [] {
      assert all[..|all| - 1] == before;
      ReadWritten(id, 8);
      Widths();
      hide BigEndian, FromBigEndian;
      NoConnection(stunClass, before);
    } else {
      hide BigEndian, FromBigEndian;
      var init := behind[..|behind| - 1];
      ConnectionRoundTrip(stunClass, before, id, init);
      assert all[..|all| - 1] == before + [ConnectionAttribute(id)] + init;
      assert all[|all| - 1] == behind[|behind| - 1];
    }
  }

  lemma {:induction false} NoConnection(stunClass: Class, attrs: seq<Attribute>)
    ensures
      stunClass != Success || (forall i :: 0 <= i < |attrs| ==> attrs[i].kind != 0x4033 || |attrs[i].data| != 8) ==>
        FactsOf(stunClass, attrs).connectionId == 0
  {
    if attrs != [] { NoConnection(stunClass, attrs[..|attrs| - 1]); }
  }

  function Read16(data: Data, at: nat): (x: U16)
    requires at + 2 <= |data|
  {
    Widths();
    FromBigEndian(data[at..at + 2])
  }

  /** The attributes from offset on, up to `end` or the end of the datagram. */
  function ParseAttributes(data: Data, offset: nat, end: nat): seq<Attribute>
    decreases |data| - offset
  {
    if offset + 4 > end || offset + 4 > |data| then []
    else
      var length := Read16(data, offset + 2);
      var attrEnd := offset + 4 + length;
      if attrEnd > |data| then []
      else
        [Attribute(Read16(data, offset), data[offset + 4..attrEnd])]
          + ParseAttributes(data, attrEnd + Padding(length), end)
  }

  function Parse(data: Data): Parsed {
    if |data| < HEADER then Nothing
    else
      var kind := Read16(data, 0);
      if FromBigEndian(data[4..8]) != MAGIC_COOKIE then
        if kind == 0x0801 || kind == 0x0802 then Ping(kind, data[8..20], |data|) else Nothing
      else
        Stun(InfoOf(kind, data[8..20], |data|, ParseAttributes(data, HEADER, HEADER + Read16(data, 2))))
  }

  lemma ParsesOn(data: Data, offset: nat, end: nat)
    ensures offset + 4 > end || offset + 4 > |data| ==> ParseAttributes(data, offset, end) == []
    ensures offset + 4 <= end && offset + 4 <= |data| ==>
      var length := Read16(data, offset + 2);
      var attrEnd := offset + 4 + length;
      ParseAttributes(data, offset, end) ==
        if attrEnd > |data| then []
        else [Attribute(Read16(data, offset), data[offset + 4..attrEnd])] + ParseAttributes(data, attrEnd + Padding(length), end)
  {
  }

  lemma NoFacts(stunClass: Class)
    ensures FactsOf(stunClass, []) == NO_FACTS
  {
  }

  lemma FactsGrow(stunClass: Class, attrs: seq<Attribute>, a: Attribute)
    ensures FactsOf(stunClass, attrs + [a]) == Noted(FactsOf(stunClass, attrs), stunClass, a)
  {
  }

  method Note(before: Facts, stunClass: Class, a: Attribute) returns (f: Facts)
    ensures f == Noted(before, stunClass, a)
  {
    f := before;
    if a.kind == ERROR_CODE && |a.data| >= 4 {
      f := f.(errorCode := ErrorNumber(a.data[2], a.data[3]));
      if |a.data| > 4 { f := f.(errorReason := a.data[4..]); }
    }
    if a.kind == CONNECTION_ID && stunClass == Success && |a.data| == 8 {
      f := f.(connectionId := FromBigEndian(a.data));
    }
  }

  /** The loop of ParseStunResponse. */
  method ParseList(data: Data, msgLength: nat, stunClass: Class) returns (attrs: seq<Attribute>, facts: Facts)
    ensures attrs == ParseAttributes(data, HEADER, HEADER + msgLength) && facts == FactsOf(stunClass, attrs)
  {
    hide FromBigEndian, Read16, ParseAttributes, Padding, Noted, FactsOf;
    NoFacts(stunClass);
    attrs, facts := [], NO_FACTS;
    var offset := HEADER;
    ghost var want := ParseAttributes(data, HEADER, HEADER + msgLength);
    while offset + 4 <= HEADER + msgLength && offset + 4 <= |data|
      invariant attrs + ParseAttributes(data, offset, HEADER + msgLength) == want
      invariant facts == FactsOf(stunClass, attrs)
      decreases |data| - offset
    {
      ParsesOn(data, offset, HEADER + msgLength);
      var attrLength := Read16(data, offset + 2);
      var attrEnd := offset + 4 + attrLength;
      if attrEnd > |data| { break; }
      var a := Attribute(Read16(data, offset), data[offset + 4..attrEnd]);
      FactsGrow(stunClass, attrs, a);
      facts := Note(facts, stunClass, a);
      attrs := attrs + [a];
      offset := attrEnd + Padding(attrLength);
    }
    ParsesOn(data, offset, HEADER + msgLength);
  }

  /** ParseStunResponse: the header fields, the attribute list, and what the attributes say of errors. */
  method ParseResponse(data: Data) returns (r: Parsed)
    ensures r == Parse(data)
  {
    hide FromBigEndian, Read16, ParseAttributes;
    if |data| < HEADER { return Nothing; }
    var kind := Read16(data, 0);
    if FromBigEndian(data[4..8]) != MAGIC_COOKIE {
      if kind == 0x0801 || kind == 0x0802 { return Ping(kind, data[8..20], |data|); }
      return Nothing;
    }
    var attrs, facts := ParseList(data, Read16(data, 2), ClassOf(kind));
    return Stun(Info(kind, ClassOf(kind), MethodOf(kind), data[8..20], |data|, attrs, facts));
  }

  // ---- round trip ----

  lemma AttributeSlices(pre: Data, a: Attribute, rest: Data)
    requires |a.data| < 0x1_0000
    ensures var data := pre + EncodeAttribute(a) + rest;
            |data| >= |pre| + 4 + |a.data| && Read16(data, |pre|) == a.kind && Read16(data, |pre| + 2) == |a.data|
            && data[|pre| + 4..|pre| + 4 + |a.data|] == a.data
  {
    Widths();
    ReadWritten(a.kind, 2);
    ReadWritten(|a.data|, 2);
    hide BigEndian, FromBigEndian;
    FourParts(pre, BigEndian(a.kind, 2), BigEndian(|a.data|, 2), a.data, seq(Padding(|a.data|), i => 0), rest);
  }

  lemma FourParts(pre: Data, k: Data, l: Data, d: Data, pad: Data, rest: Data)
    requires |k| == |l| == 2
    ensures var data := pre + (k + l + d + pad) + rest;
            var n := |pre|;
            data[n..n + 2] == k && data[n + 2..n + 4] == l && data[n + 4..n + 4 + |d|] == d
  {
  }

  lemma FirstAttribute(data: Data, pre: Data, a: Attribute, rest: Data, end: nat)
    requires data == pre + EncodeAttribute(a) + rest && |a.data| < 0x1_0000
    requires |pre| + |EncodeAttribute(a)| <= end
    ensures ParseAttributes(data, |pre|, end) == [a] + ParseAttributes(data, |pre| + |EncodeAttribute(a)|, end)
  {
    AttributeSlices(pre, a, rest);
    AttributeSize(a);
    hide EncodeAttribute, Read16;
  }

  lemma EncodedSplits(pre: Data, attrs: seq<Attribute>, rest: Data)
    requires attrs != []
    ensures pre + Encoded(attrs) + rest == pre + EncodeAttribute(attrs[0]) + (Encoded(attrs[1..]) + rest)
    ensures pre + Encoded(attrs) + rest == (pre + EncodeAttribute(attrs[0])) + Encoded(attrs[1..]) + rest
    ensures |Encoded(attrs)| == |EncodeAttribute(attrs[0])| + |Encoded(attrs[1..])|
  {
  }

  lemma OneMoreParsed(data: Data, pre: Data, attrs: seq<Attribute>, rest: Data, end: nat)
    requires attrs != [] && |Encoded(attrs)| < 0x1_0000
    requires data == pre + Encoded(attrs) + rest && end == |pre| + |Encoded(attrs)|
    requires ParseAttributes(data, |pre| + |EncodeAttribute(attrs[0])|, end) == attrs[1..]
    ensures ParseAttributes(data, |pre|, end) == attrs
  {
    hide EncodeAttribute, ParseAttributes, Encoded, Padding;
    AttributeSize(attrs[0]);
    EncodedSplits(pre, attrs, rest);
    FirstAttribute(data, pre, attrs[0], Encoded(attrs[1..]) + rest, end);
  }

  lemma EncodedNone()
    ensures Encoded([]) == []
  {
  }

  lemma NoneParsed(data: Data, offset: nat)
    ensures ParseAttributes(data, offset, offset) == []
  {
  }

  lemma TailStep(data: Data, pre: Data, next: Data, attrs: seq<Attribute>, rest: Data, end: nat)
    requires attrs != [] && |Encoded(attrs)| < 0x1_0000 && next == pre + EncodeAttribute(attrs[0])
    requires data == pre + Encoded(attrs) + rest && end == |pre| + |Encoded(attrs)|
    ensures |Encoded(attrs[1..])| < 0x1_0000
    ensures data == next + Encoded(attrs[1..]) + rest && end == |next| + |Encoded(attrs[1..])|
  {
  }

  lemma {:induction false} AttributesRoundTrip(data: Data, pre: Data, attrs: seq<Attribute>, rest: Data, end: nat)
    requires |Encoded(attrs)| < 0x1_0000
    requires data == pre + Encoded(attrs) + rest && end == |pre| + |Encoded(attrs)|
    ensures ParseAttributes(data, |pre|, end) == attrs
    decreases |attrs|
  {
    hide *;
    if attrs == [] {
      EncodedNone();
      NoneParsed(data, |pre|);
    } else {
      var next := pre + EncodeAttribute(attrs[0]);
      TailStep(data, pre, next, attrs, rest, end);
      AttributesRoundTrip(data, next, attrs[1..], rest, end);
      OneMoreParsed(data, pre, attrs, rest, end);
    }
  }

  lemma HeadSlices(kind: U16, length: nat, tid: Data, rest: Data)
    requires |tid| == TID_LEN && length < 0x1_0000
    ensures var data := Head(kind, length, tid) + rest;
            Read16(data, 0) == kind && Read16(data, 2) == length && FromBigEndian(data[4..8]) == MAGIC_COOKIE && data[8..20] == tid
  {
    Widths();
    ReadWritten(kind, 2);
    ReadWritten(length, 2);
    ReadWritten(MAGIC_COOKIE, 4);
    hide BigEndian, FromBigEndian;
    HeadParts(BigEndian(kind, 2), BigEndian(length, 2), BigEndian(MAGIC_COOKIE, 4), tid, rest);
  }

  lemma HeadParts(k: Data, l: Data, m: Data, tid: Data, rest: Data)
    requires |k| == |l| == 2 && |m| == 4 && |tid| == TID_LEN
    ensures var data := k + l + m + tid + rest;
            data[0..2] == k && data[2..4] == l && data[4..8] == m && data[8..20] == tid
  {
  }

  /** A built message is read back attribute by attribute, whatever follows it in the datagram. */
  lemma MessageRoundTrip(kind: U16, attrs: seq<Attribute>, tid: Data, rest: Data)
    requires |tid| == TID_LEN && |Encoded(attrs)| < 0x1_0000
    ensures Parse(Message(kind, attrs, tid) + rest) == Stun(InfoOf(kind, tid, HEADER + |Encoded(attrs)| + |rest|, attrs))
  {
    hide Head, Read16, InfoOf;
    var length := |Encoded(attrs)|;
    var head := Head(kind, length, tid);
    assert Message(kind, attrs, tid) + rest == head + (Encoded(attrs) + rest) == head + Encoded(attrs) + rest;
    HeadSlices(kind, length, tid, Encoded(attrs) + rest);
    AttributesRoundTrip(head + Encoded(attrs) + rest, head, attrs, rest, HEADER + length);
  }
}
