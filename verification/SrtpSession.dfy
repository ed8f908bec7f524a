/** SrtpContext of srtp.go, and a whole stream from sender to receiver. */
module SrtpSession {
  import opened Bytes
  import opened Rtp
  import opened Srtp

  datatype Outcome = Opened(packet: Packet) | TooShort | Undecodable

  /** What Unprotect makes of a datagram, given the counter before it. */
  function Open(c: Ciphers, k: Keys, s: RocState, data: Data): (Outcome, RocState)
    requires GoodKeys(k)
  {
    if |data| < MIN_HEADER then (TooShort, s)
    else if Parse(data).Failed? then (Undecodable, s)
    else
      var h := Parse(data).header;
      if |data| - Size(h) - k.authTagLen <= 0 then (TooShort, s)
      else
        var next := Step(s, h.sequenceNumber);
        var body := data[Size(h)..|data| - k.authTagLen];
        (Opened(Packet(h, XorStream(body, PayloadKey(c, k, h.ssrc, Index(next, h.sequenceNumber))))), next)
  }

  /** What RFC 3711 asks of the packet on the wire: the header, the payload masked byte by byte with the keystream under
      the block of its source and 48-bit index, and as tag the front of the digest of all that precedes it and of the
      rollover counter (sections 4.1.1 and 4.2). */
  predicate Secured(c: Ciphers, k: Keys, p: Packet, roc: U32, data: Data)
    requires GoodKeys(k)
  {
    var n := |Wire(p.header)|;
    var rest := n + |p.payload|;
    && |data| == rest + k.authTagLen
    && data[..n] == Wire(p.header)
    && (forall j :: 0 <= j < |p.payload| ==>
          data[n + j] == Xor(p.payload[j], c.stream(k.sessionKey, Iv(k.sessionSalt, p.header.ssrc, roc * 0x1_0000 + p.header.sequenceNumber))(j)))
    && data[rest..] == c.mac(k.authKey, data[..rest] + BigEndian(roc, 4))[..k.authTagLen]
  }

  lemma SealedIsSecured(c: Ciphers, k: Keys, p: Packet, roc: U32)
    requires GoodKeys(k)
    ensures Secured(c, k, p, roc, Sealed(c, k, p, roc * 0x1_0000 + p.header.sequenceNumber))
  {
  }

  /** What a receiver that counts this many turns reads behind the header of the datagram. */
  predicate Unmasked(c: Ciphers, k: Keys, q: Packet, roc: U32, data: Data)
    requires GoodKeys(k)
  {
    && Parse(data) == Ok(q.header)
    && |data| == Size(q.header) + |q.payload| + k.authTagLen
    && forall j :: 0 <= j < |q.payload| ==>
         q.payload[j] == Xor(data[Size(q.header) + j], c.stream(k.sessionKey, Iv(k.sessionSalt, q.header.ssrc, roc * 0x1_0000 + q.header.sequenceNumber))(j))
  }

  lemma OpenedIsUnmasked(c: Ciphers, k: Keys, s: RocState, data: Data)
    requires GoodKeys(k) && Open(c, k, s, data).0.Opened?
    ensures Unmasked(c, k, Open(c, k, s, data).0.packet, Open(c, k, s, data).1.roc, data)
  {
  }

  lemma SealedParses(c: Ciphers, k: Keys, p: Packet, index: nat)
    requires GoodKeys(k) && WellFormed(p.header)
    ensures var data := Sealed(c, k, p, index);
            |data| >= MIN_HEADER && Parse(data) == Ok(p.header)
            && |data| == Size(p.header) + |p.payload| + k.authTagLen
            && data[Size(p.header)..|data| - k.authTagLen] == XorStream(p.payload, PayloadKey(c, k, p.header.ssrc, index))
  {
    hide Iv, Parse, WellFormed, XorStream, PayloadKey, Tag, Wire;
    var enc := XorStream(p.payload, PayloadKey(c, k, p.header.ssrc, index));
    var tag := Tag(c, k, Wire(p.header) + enc, index / 0x1_0000);
    assert Sealed(c, k, p, index) == Wire(p.header) + (enc + tag);
    HeaderCounts(p.header);
    HeaderRoundTrip(p.header, enc + tag);
    SizeOfWire(p.header);
  }

  lemma HeaderCounts(h: Header)
    requires WellFormed(h)
    ensures |h.csrc| == h.csrcCount
  {
  }

  /** Opening undoes sealing when both sides count the packet alike and there is a payload. */
  lemma OpenSealed(c: Ciphers, k: Keys, s: RocState, p: Packet, index: nat)
    requires GoodKeys(k) && WellFormed(p.header) && p.payload != []
    requires Index(Step(s, p.header.sequenceNumber), p.header.sequenceNumber) == index
    ensures Open(c, k, s, Sealed(c, k, p, index)) == (Opened(p), Step(s, p.header.sequenceNumber))
  {
    hide Parse, WellFormed, XorStream, PayloadKey, Sealed, Step, Size;
    SealedParses(c, k, p, index);
    XorStreamTwice(p.payload, PayloadKey(c, k, p.header.ssrc, index));
  }

  /** A packet without a payload is refused however it was sealed. */
  lemma EmptyPayloadRefused(c: Ciphers, k: Keys, s: RocState, p: Packet, index: nat)
    requires GoodKeys(k) && WellFormed(p.header) && p.payload == []
    ensures Open(c, k, s, Sealed(c, k, p, index)) == (TooShort, s)
  {
    hide Parse, WellFormed, XorStream, PayloadKey, Sealed, Step, Size;
    SealedParses(c, k, p, index);
  }

  /** The tag is cut off unread: whether a datagram is opened, and as what, does not depend on it. */
  lemma TagIsNotRead(c: Ciphers, k: Keys, s: RocState, body: Data, tag: Data, tag': Data)
    requires GoodKeys(k) && |tag| == |tag'| == k.authTagLen
    ensures Open(c, k, s, body + tag).0.Opened? <==> Open(c, k, s, body + tag').0.Opened?
    ensures Open(c, k, s, body + tag).0.Opened? ==> Open(c, k, s, body + tag') == Open(c, k, s, body + tag)
    ensures !Open(c, k, s, body + tag).0.Opened? ==> Open(c, k, s, body + tag').1 == Open(c, k, s, body + tag).1 == s
  {
    if Open(c, k, s, body + tag).0.Opened? { OpensAlike(c, k, s, body, tag, tag'); }
    if Open(c, k, s, body + tag').0.Opened? { OpensAlike(c, k, s, body, tag', tag); }
  }

  lemma OpensAlike(c: Ciphers, k: Keys, s: RocState, body: Data, tag: Data, tag': Data)
    requires GoodKeys(k) && |tag| == |tag'| == k.authTagLen && Open(c, k, s, body + tag).0.Opened?
    ensures Open(c, k, s, body + tag') == Open(c, k, s, body + tag)
  {
    hide Parse, Size, XorStream, PayloadKey, Step, Index;
    var data, data', n := body + tag, body + tag', |body|;
    assert data[..n] == body == data'[..n];
    ParseAgrees(data, data', n);
    var z := Size(Parse(data).header);
    assert data[z..n] == body[z..] == data'[z..n];
  }

  class SrtpContext {
    const ciphers: Ciphers
    const keys: Keys
    var roc: U32
    var lastSeq: U16
    var initialized: bool

    constructor (ciphers: Ciphers, keys: Keys)
      requires GoodKeys(keys)
      ensures this.ciphers == ciphers && this.keys == keys && State() == FRESH
    {
      this.ciphers := ciphers;
      this.keys := keys;
      roc, lastSeq, initialized := 0, 0, false;
    }

    ghost function State(): RocState
      reads this
    {
      RocState(initialized, roc, lastSeq)
    }

    method UpdateRoc(sequence: U16)
      modifies this
      ensures State() == Step(old(State()), sequence)
    {
      if !initialized {
        lastSeq := sequence;
        initialized := true;
        return;
      }
      var diff := sequence - lastSeq;
      if diff < -32768 { roc := (roc + 1) % 0x1_0000_0000; }
      lastSeq := sequence;
    }

    /** generateIV: the salt, with the source and the index mixed in byte by byte. */
    method GenerateIv(ssrc: U32, index: nat) returns (iv: Data)
      requires GoodKeys(keys)
      ensures iv == Iv(keys.sessionSalt, ssrc, index)
    {
      hide Xor, BigEndian;
      var a := new Byte[IV_LEN](_ => 0);
      var salt := keys.sessionSalt;
      for i := 0 to SALT_LEN
        invariant forall j :: 0 <= j < IV_LEN ==> a[j] == if j < i then salt[j] else 0
      {
        a[i] := salt[i];
      }
      var ssrcBuf := BigEndian(ssrc, 4);
      for i := 0 to 4
        invariant forall j :: 0 <= j < IV_LEN ==>
          a[j] == if j >= SALT_LEN then 0 else if 4 <= j < 4 + i then Xor(salt[j], ssrcBuf[j - 4]) else salt[j]
      {
        a[4 + i] := Xor(a[4 + i], ssrcBuf[i]);
      }
      var idxBuf := BigEndian(index, 8);
      LowBytes(index, 8, 6);
      ghost var low := BigEndian(index, 6);
      assert forall i :: 0 <= i < 6 ==> idxBuf[2..][i] == low[i];
      for i := 0 to 6
        invariant forall j :: 0 <= j < 8 ==> a[j] == IvByte(salt, ssrc, index, j)
        invariant forall j :: 8 <= j < SALT_LEN ==> a[j] == if j < 8 + i then Xor(salt[j], low[j - 8]) else salt[j]
        invariant forall j :: SALT_LEN <= j < IV_LEN ==> a[j] == 0
      {
        assert idxBuf[2 + i] == low[i];
        a[8 + i] := Xor(a[8 + i], idxBuf[2 + i]);
      }
      iv := a[..];
    }

    method Protect(p: Packet) returns (output: Data)
      requires GoodKeys(keys) && |p.header.csrc| == p.header.csrcCount
      modifies this
      ensures State() == Step(old(State()), p.header.sequenceNumber)
      ensures output == Sealed(ciphers, keys, p, Index(State(), p.header.sequenceNumber))
      ensures Secured(ciphers, keys, p, State().roc, output)
    {
      hide Secured;
      hide Wire, Size, BigEndian, Step, Iv, XorStream;
      UpdateRoc(p.header.sequenceNumber);
      var index := roc * 0x1_0000 + p.header.sequenceNumber;
      var headerSize := Size(p.header);
      SizeOfWire(p.header);
      var buf := new Byte[headerSize](_ => 0);
      var written := Encode(p.header, buf);
      assert buf[..] == Wire(p.header);
      var iv := GenerateIv(p.header.ssrc, index);
      var body := buf[..] + XorStream(p.payload, ciphers.stream(keys.sessionKey, iv));
      RocOfIndex(roc, p.header.sequenceNumber);
      output := body + ciphers.mac(keys.authKey, body + BigEndian(roc, 4))[..keys.authTagLen];
      SealedIsSecured(ciphers, keys, p, roc);
    }

    method Unprotect(data: Data) returns (r: Outcome)
      requires GoodKeys(keys)
      modifies this
      ensures (r, State()) == Open(ciphers, keys, old(State()), data)
      ensures r.Opened? ==> Unmasked(ciphers, keys, r.packet, State().roc, data)
    {
      hide Unmasked;
      ghost var before := State();
      hide Parse, Size, Iv, XorStream, Step;
      if |data| < MIN_HEADER { return TooShort; }
      var parsed := Decode(data);
      if parsed.Failed? { return Undecodable; }
      var header := parsed.header;
      var headerSize := Size(header);
      var payloadLen := |data| - headerSize - keys.authTagLen;
      if payloadLen <= 0 { return TooShort; }
      UpdateRoc(header.sequenceNumber);
      var index := roc * 0x1_0000 + header.sequenceNumber;
      var iv := GenerateIv(header.ssrc, index);
      assert data[headerSize..headerSize + payloadLen] == data[headerSize..|data| - keys.authTagLen];
      r := Opened(Packet(header, XorStream(data[headerSize..headerSize + payloadLen], ciphers.stream(keys.sessionKey, iv))));
      assert (r, State()) == Open(ciphers, keys, before, data);
      OpenedIsUnmasked(ciphers, keys, before, data);
    }
  }

  lemma RocOfIndex(roc: U32, sequence: U16)
    ensures (roc * 0x1_0000 + sequence) / 0x1_0000 == roc
  {
  }

  // ---- a whole stream ----

  datatype Last = None | Some(number: nat)

  /** The arrivals start before the first turn and keep their gaps within bounds. */
  predicate Deliverable(arrives: seq<bool>, number: nat, last: Last) {
    arrives == [] ||
      if arrives[0] then
        (if last.None? then number < 0x1_0000 else GapOk(last.number, number))
        && Deliverable(arrives[1..], number + 1, Some(number))
      else Deliverable(arrives[1..], number + 1, last)
  }

  function Arrived<T>(sent: seq<T>, arrives: seq<bool>): seq<T>
    requires |sent| == |arrives|
  {
    if sent == [] then []
    else Arrived(sent[..|sent| - 1], arrives[..|sent| - 1]) + if arrives[|sent| - 1] then [sent[|sent| - 1]] else []
  }

  /** The receiver is at the last arrival. */
  ghost predicate ReceiverAt(s: RocState, last: Last, number: nat) {
    match last
    case None => s == FRESH
    case Some(x) => s.initialized && s.roc == Epoch(x) && s.lastSeq == Sequence(x) && x < number
  }

  /** The sender has sent everything below `number`, from `first` on. */
  ghost predicate SenderAt(s: RocState, first: nat, number: nat)
    requires first <= number
  {
    if number == first then s == FRESH else s.initialized && s.lastSeq == Sequence(number - 1) && s.roc == Epoch(number - 1)
  }

  lemma SenderSteps(s: RocState, first: nat, number: nat)
    requires first < 0x1_0000 && first <= number < 0x1_0000_0000_0000 && SenderAt(s, first, number)
    ensures SenderAt(Step(s, Sequence(number)), first, number + 1)
    ensures Index(Step(s, Sequence(number)), Sequence(number)) == number
  {
  }

  lemma ReceiverSteps(s: RocState, last: Last, number: nat)
    requires ReceiverAt(s, last, number) && number < 0x1_0000_0000_0000
    requires if last.None? then number < 0x1_0000 else GapOk(last.number, number)
    ensures ReceiverAt(Step(s, Sequence(number)), Some(number), number + 1)
    ensures Index(Step(s, Sequence(number)), Sequence(number)) == number
  {
  }

  lemma FreshHeaderFits(payloadType: Byte, sequence: U16, timestamp: U32, ssrc: U32, marker: bool)
    requires payloadType < 128
    ensures WellFormed(NewHeader(payloadType, sequence, timestamp, ssrc, marker))
  {
  }

  lemma ArrivedMore<T>(sent: seq<T>, arrives: seq<bool>, i: nat, p: T)
    requires |sent| == i < |arrives|
    ensures Arrived(sent + [p], arrives[..i + 1]) == Arrived(sent, arrives[..i]) + if arrives[i] then [p] else []
  {
    assert (sent + [p])[..i] == sent && arrives[..i + 1][..i] == arrives[..i];
  }

  method SendOne(session: RtpSession, send: SrtpContext, payload: Data, duration: nat, marker: bool, ghost first: nat,
                 ghost number: nat)
      returns (p: Packet, data: Data)
    requires GoodKeys(send.keys) && session.payloadType < 128
    requires first <= number && SenderAt(send.State(), first, number) && first < 0x1_0000 && number < 0x1_0000_0000_0000
    requires session.sequenceNumber == Sequence(number)
    modifies session, send
    ensures session.sequenceNumber == Sequence(number + 1)
    ensures p.payload == payload && p.header.sequenceNumber == Sequence(number) && p.header.marker == marker && WellFormed(p.header)
    ensures data == Sealed(send.ciphers, send.keys, p, number) && SenderAt(send.State(), first, number + 1)
  {
    hide Step, Sealed, SenderAt, WellFormed;
    ghost var s := send.State();
    FreshHeaderFits(session.payloadType, session.sequenceNumber, session.timestamp, session.ssrc, marker);
    p := session.CreatePacket(payload, duration, marker);
    SenderSteps(s, first, number);
    data := send.Protect(p);
  }

  method ReceiveOne(recv: SrtpContext, data: Data, ghost p: Packet, ghost last: Last, ghost number: nat) returns (q: Packet)
    requires GoodKeys(recv.keys) && WellFormed(p.header) && p.payload != [] && p.header.sequenceNumber == Sequence(number)
    requires data == Sealed(recv.ciphers, recv.keys, p, number)
    requires ReceiverAt(recv.State(), last, number) && number < 0x1_0000_0000_0000
    requires if last.None? then number < 0x1_0000 else GapOk(last.number, number)
    modifies recv
    ensures q == p && ReceiverAt(recv.State(), Some(number), number + 1)
  {
    hide Step, Sealed, Open, WellFormed, GapOk, ReceiverAt;
    ghost var r := recv.State();
    ReceiverSteps(r, last, number);
    OpenSealed(recv.ciphers, recv.keys, r, p, number);
    var outcome := recv.Unprotect(data);
    q := outcome.packet;
  }

  /** The packets sent so far carry the payloads under consecutive numbers, each sealed under its own. */
  ghost predicate AllSealed(c: Ciphers, k: Keys, first: nat, payloads: seq<Data>, markers: seq<bool>, sent: seq<Packet>,
                            wire: seq<Data>)
    requires GoodKeys(k)
  {
    && |sent| == |wire| <= |payloads| == |markers|
    && (forall i :: 0 <= i < |sent| ==>
          && sent[i].payload == payloads[i] && sent[i].header.marker == markers[i]
          && sent[i].header.sequenceNumber == Sequence(first + i))
    && forall i :: 0 <= i < |sent| ==> wire[i] == Sealed(c, k, sent[i], first + i)
  }

  lemma OneMoreSealed(c: Ciphers, k: Keys, first: nat, payloads: seq<Data>, markers: seq<bool>, sent: seq<Packet>,
                      wire: seq<Data>, p: Packet, data: Data)
    requires GoodKeys(k) && AllSealed(c, k, first, payloads, markers, sent, wire) && |sent| < |payloads|
    requires p.payload == payloads[|sent|] && p.header.marker == markers[|sent|] && p.header.sequenceNumber == Sequence(first + |sent|)
    requires data == Sealed(c, k, p, first + |sent|)
    ensures AllSealed(c, k, first, payloads, markers, sent + [p], wire + [data])
  {
    hide Sealed, Sequence;
  }

  /** The next arrival is in order, whatever comes after it. */
  lemma DeliverableNext(arrives: seq<bool>, i: nat, number: nat, last: Last)
    requires i < |arrives| && Deliverable(arrives[i..], number, last)
    ensures arrives[i] ==>
      (if last.None? then number < 0x1_0000 else GapOk(last.number, number)) && Deliverable(arrives[i + 1..], number + 1, Some(number))
    ensures !arrives[i] ==> Deliverable(arrives[i + 1..], number + 1, last)
  {
  }

  /** Every packet that arrives is the packet that was sent, across any number of turns. */
  method Stream(session: RtpSession, send: SrtpContext, recv: SrtpContext, payloads: seq<Data>, duration: nat, markers: seq<bool>,
                arrives: seq<bool>)
    returns (sent: seq<Packet>, wire: seq<Data>, got: seq<Packet>)
    requires send != recv && GoodKeys(send.keys) && send.keys == recv.keys && send.ciphers == recv.ciphers
    requires send.State() == FRESH && recv.State() == FRESH && session.payloadType < 128
    requires |arrives| == |markers| == |payloads| && session.sequenceNumber + |payloads| <= 0x1_0000_0000_0000
    requires forall i :: 0 <= i < |payloads| ==> payloads[i] != []
    requires Deliverable(arrives, session.sequenceNumber, None)
    modifies session, send, recv
    ensures |sent| == |payloads| && AllSealed(send.ciphers, send.keys, old(session.sequenceNumber), payloads, markers, sent, wire)
    ensures AreSecured(send.ciphers, send.keys, old(session.sequenceNumber), sent, wire)
    ensures got == Arrived(sent, arrives)
  {
    hide AreSecured;
    hide Step, Sealed, Open, WellFormed, GapOk, SenderAt, ReceiverAt, AllSealed, Deliverable, Sequence, GoodKeys;
    sent, wire, got := [], [], [];
    ghost var first: nat := session.sequenceNumber;
    ghost var last := None;
    StartsFresh(first, send.ciphers, send.keys, payloads, markers);
    assert arrives[0..] == arrives;
    for i := 0 to |payloads|
      invariant |sent| == i && got == Arrived(sent, arrives[..i])
      invariant session.sequenceNumber == Sequence(first + i)
      invariant SenderAt(send.State(), first, first + i) && ReceiverAt(recv.State(), last, first + i)
      invariant Deliverable(arrives[i..], first + i, last)
      invariant AllSealed(send.ciphers, send.keys, first, payloads, markers, sent, wire)
    {
      var p, data := SendOne(session, send, payloads[i], duration, markers[i], first, first + i);
      ArrivedMore(sent, arrives, i, p);
      OneMoreSealed(send.ciphers, send.keys, first, payloads, markers, sent, wire, p, data);
      DeliverableNext(arrives, i, first + i, last);
      if arrives[i] {
        var q := ReceiveOne(recv, data, p, last, first + i);
        got := got + [q];
        last := Some(first + i);
      } else {
        ReceiverWaits(recv.State(), last, first + i);
      }
      sent, wire := sent + [p], wire + [data];
    }
    assert arrives[..|payloads|] == arrives;
    AllSecured(send.ciphers, send.keys, first, payloads, markers, sent, wire);
  }

  /** Every datagram is secured under the number of turns of the sequence number before its packet. */
  ghost predicate AreSecured(c: Ciphers, k: Keys, first: nat, sent: seq<Packet>, wire: seq<Data>) {
    && GoodKeys(k) && |sent| == |wire| && first + |sent| <= 0x1_0000_0000_0000
    && forall i :: 0 <= i < |sent| ==> Secured(c, k, sent[i], (first + i) / 0x1_0000, wire[i])
  }

  lemma AllSecured(c: Ciphers, k: Keys, first: nat, payloads: seq<Data>, markers: seq<bool>, sent: seq<Packet>, wire: seq<Data>)
    requires GoodKeys(k) && first + |payloads| <= 0x1_0000_0000_0000
    requires AllSealed(c, k, first, payloads, markers, sent, wire)
    ensures AreSecured(c, k, first, sent, wire)
  {
  }

  lemma StartsFresh(first: U16, c: Ciphers, k: Keys, payloads: seq<Data>, markers: seq<bool>)
    requires GoodKeys(k) && |markers| == |payloads|
    ensures SenderAt(FRESH, first, first) && ReceiverAt(FRESH, None, first) && Sequence(first) == first
    ensures AllSealed(c, k, first, payloads, markers, [], [])
  {
  }

  lemma ReceiverWaits(r: RocState, last: Last, number: nat)
    requires ReceiverAt(r, last, number)
    ensures ReceiverAt(r, last, number + 1)
  {
  }
}
