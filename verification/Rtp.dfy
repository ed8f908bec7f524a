/** RTP headers and the sending session of internal/voip/media/rtp.go. */
module Rtp {
  import opened Bytes

  const RTP_VERSION: Byte := 2
  const MIN_HEADER: nat := 12

  type U16 = x: int | 0 <= x < 0x1_0000
  type U32 = x: int | 0 <= x < 0x1_0000_0000

  datatype Header = Header(
    version: Byte, padding: bool, extension: bool, csrcCount: Byte, marker: bool, payloadType: Byte,
    sequenceNumber: U16, timestamp: U32, ssrc: U32, csrc: seq<U32>, extensionProfile: U16, extensionData: Data)

  datatype Packet = Packet(header: Header, payload: Data)

  datatype Error = BufferTooSmall | InvalidVersion | NoRoomForCsrc
  datatype Parsed = Ok(header: Header) | Failed(error: Error)

  function Bit(b: bool): nat {
    if b then 1 else 0
  }

  function Size(h: Header): nat {
    MIN_HEADER + h.csrcCount * 4 + if h.extension then 4 + |h.extensionData| else 0
  }

  // ---- what is written ----

  function FirstByte(h: Header): Byte {
    (h.version % 4) * 64 + Bit(h.padding) * 32 + Bit(h.extension) * 16 + h.csrcCount % 16
  }

  function SecondByte(h: Header): Byte {
    Bit(h.marker) * 128 + h.payloadType % 128
  }

  function Words(csrc: seq<U32>): (s: Data)
    ensures |s| == 4 * |csrc|
  {
    if csrc == [] then [] else Words(csrc[..|csrc| - 1]) + BigEndian(csrc[|csrc| - 1], 4)
  }

  function Fixed(h: Header): (s: Data)
    ensures |s| == MIN_HEADER
  {
    [FirstByte(h), SecondByte(h)] + BigEndian(h.sequenceNumber, 2) + BigEndian(h.timestamp, 4) + BigEndian(h.ssrc, 4)
  }

  function Tail(h: Header): (s: Data)
    ensures |s| == if h.extension then 4 + |h.extensionData| else 0
  {
    if h.extension then
      BigEndian(h.extensionProfile, 2) + BigEndian(|h.extensionData| / 4, 2) + h.extensionData
    else []
  }

  function Wire(h: Header): (s: Data)
    ensures |s| == MIN_HEADER + 4 * |h.csrc| + |Tail(h)|
  {
    Fixed(h) + Words(h.csrc) + Tail(h)
  }

  // ---- what is read ----

  function ReadWords(s: Data, n: nat): (r: seq<U32>)
    requires 4 * n <= |s|
    ensures |r| == n
  {
    Widths();
    if n == 0 then [] else ReadWords(s, n - 1) + [FromBigEndian(s[4 * n - 4..4 * n])]
  }

  function ParseFixed(b: Data): Header
    requires |b| >= MIN_HEADER
  {
    Widths();
    Header(b[0] / 64, b[0] / 32 % 2 != 0, b[0] / 16 % 2 != 0, b[0] % 16, b[1] / 128 != 0, b[1] % 128,
           FromBigEndian(b[2..4]), FromBigEndian(b[4..8]), FromBigEndian(b[8..12]), [], 0, [])
  }

  /** The extension after the words; a cut-off one leaves the profile, or the data, empty. */
  function ParseTail(h: Header, b: Data): Header {
    if !h.extension || |b| < 4 then h
    else
      Widths();
      var words := FromBigEndian(b[2..4]);
      var profile := FromBigEndian(b[0..2]);
      h.(extensionProfile := profile, extensionData := if |b| >= 4 + words * 4 then b[4..4 + words * 4] else [])
  }

  function Parse(b: Data): Parsed {
    if |b| < MIN_HEADER then Failed(BufferTooSmall)
    else
      var h := ParseFixed(b);
      if h.version != RTP_VERSION then Failed(InvalidVersion)
      else if |b| < MIN_HEADER + h.csrcCount * 4 then Failed(NoRoomForCsrc)
      else
        var end := MIN_HEADER + h.csrcCount * 4;
        Ok(ParseTail(h.(csrc := ReadWords(b[MIN_HEADER..end], h.csrcCount)), b[end..]))
  }

  // ---- round trips ----

  /** A header the format can carry. */
  predicate WellFormed(h: Header) {
    && h.version == 2
    && h.csrcCount == |h.csrc| < 16
    && h.payloadType < 128
    && (h.extension ==> |h.extensionData| % 4 == 0 && |h.extensionData| / 4 < 0x1_0000)
    && (!h.extension ==> h.extensionProfile == 0 && h.extensionData == [])
  }

  lemma FixedSlices(h: Header, rest: Data)
    ensures var b := Fixed(h) + rest;
            |b| >= MIN_HEADER && b[0] == FirstByte(h) && b[1] == SecondByte(h) && b[2..4] == BigEndian(h.sequenceNumber, 2)
            && b[4..8] == BigEndian(h.timestamp, 4) && b[8..12] == BigEndian(h.ssrc, 4) && b[12..] == rest
  {
  }

  lemma BitsWritten(h: Header)
    ensures var b0, b1 := FirstByte(h), SecondByte(h);
            b0 / 64 == h.version % 4 && (b0 / 32 % 2 != 0) == h.padding && (b0 / 16 % 2 != 0) == h.extension
            && b0 % 16 == h.csrcCount % 16 && (b1 / 128 != 0) == h.marker && b1 % 128 == h.payloadType % 128
  {
  }

  lemma FixedRoundTrip(h: Header, rest: Data)
    ensures |Fixed(h) + rest| >= MIN_HEADER
    ensures ParseFixed(Fixed(h) + rest) ==
      h.(version := h.version % 4, csrcCount := h.csrcCount % 16, payloadType := h.payloadType % 128,
         csrc := [], extensionProfile := 0, extensionData := [])
  {
    FixedSlices(h, rest);
    BitsWritten(h);
    Widths();
    ReadWritten(h.sequenceNumber, 2);
    ReadWritten(h.timestamp, 4);
    ReadWritten(h.ssrc, 4);
    hide Fixed, FirstByte, SecondByte, BigEndian, FromBigEndian;
  }

  lemma WordsGrow(csrc: seq<U32>, x: U32)
    ensures Words(csrc + [x]) == Words(csrc) + BigEndian(x, 4)
  {
  }

  lemma ReadWordsGrow(s: Data, n: nat)
    requires 4 * (n + 1) <= |s|
    ensures FromBigEndian(s[4 * n..4 * n + 4]) < 0x1_0000_0000
    ensures ReadWords(s, n + 1) == ReadWords(s, n) + [FromBigEndian(s[4 * n..4 * n + 4])]
  {
  }

  lemma NoWords(s: Data)
    ensures ReadWords(s, 0) == [] && Words([]) == [] && s[..0] == []
  {
  }

  lemma SameSlice(b: Data, b': Data, n: nat, i: nat, j: nat)
    requires i <= j <= n <= |b| && n <= |b'| && b[..n] == b'[..n]
    ensures b[i..j] == b'[i..j]
  {
    assert b[i..j] == b[..n][i..j] && b'[i..j] == b'[..n][i..j];
  }

  lemma {:induction false} WordsRoundTrip(csrc: seq<U32>, rest: Data)
    ensures ReadWords(Words(csrc) + rest, |csrc|) == csrc
  {
    hide BigEndian, FromBigEndian;
    var n := |csrc|;
    if n == 0 {
      NoWords(Words(csrc) + rest);
    } else {
      hide Words, ReadWords;
      var init, last := csrc[..n - 1], csrc[n - 1];
      var all := Words(csrc) + rest;
      assert csrc == init + [last];
      WordsRoundTrip(init, BigEndian(last, 4) + rest);
      WordsGrow(init, last);
      assert all == Words(init) + (BigEndian(last, 4) + rest);
      assert all[4 * (n - 1)..4 * (n - 1) + 4] == BigEndian(last, 4);
      Widths();
      ReadWritten(last, 4);
      ReadWordsGrow(all, n - 1);
    }
  }

  lemma TailRoundTrip(h: Header, rest: Data)
    requires h.extension ==> |h.extensionData| % 4 == 0 && |h.extensionData| / 4 < 0x1_0000
    requires !h.extension ==> h.extensionProfile == 0 && h.extensionData == []
    ensures ParseTail(h.(extensionProfile := 0, extensionData := []), Tail(h) + rest) == h
  {
    if h.extension {
      var b := Tail(h) + rest;
      assert b[0..2] == BigEndian(h.extensionProfile, 2);
      assert b[2..4] == BigEndian(|h.extensionData| / 4, 2);
      Widths();
      ReadWritten(h.extensionProfile, 2);
      ReadWritten(|h.extensionData| / 4, 2);
      assert b[4..4 + |h.extensionData|] == h.extensionData;
    }
  }

  lemma ParsedIsWellFormed(b: Data)
    requires Parse(b).Ok?
    ensures WellFormed(Parse(b).header)
  {
  }

  lemma WireSlices(h: Header, rest: Data)
    requires |h.csrc| == h.csrcCount
    ensures var b := Wire(h) + rest;
            var end := MIN_HEADER + h.csrcCount * 4;
            b == Fixed(h) + (Words(h.csrc) + Tail(h) + rest) && end <= |b|
            && b[MIN_HEADER..end] == Words(h.csrc) && b[end..] == Tail(h) + rest
  {
  }

  lemma ParseByParts(b: Data, f: Header, csrc: seq<U32>, t: Header)
    requires |b| >= MIN_HEADER && ParseFixed(b) == f && f.version == RTP_VERSION
    requires MIN_HEADER + f.csrcCount * 4 <= |b|
    requires csrc == ReadWords(b[MIN_HEADER..MIN_HEADER + f.csrcCount * 4], f.csrcCount)
    requires t == ParseTail(f.(csrc := csrc), b[MIN_HEADER + f.csrcCount * 4..])
    ensures Parse(b) == Ok(t)
  {
  }

  lemma WellFormedParses(h: Header, rest: Data)
    requires WellFormed(h)
    ensures Parse(Wire(h) + rest) == Ok(h)
  {
    hide Fixed, Tail, ParseFixed, ParseTail, Wire, Parse;
    var b := Wire(h) + rest;
    WireSlices(h, rest);
    FixedRoundTrip(h, Words(h.csrc) + Tail(h) + rest);
    var f := h.(csrc := [], extensionProfile := 0, extensionData := []);
    assert ParseFixed(b) == f;
    WordsRoundTrip(h.csrc, []);
    assert Words(h.csrc) + [] == Words(h.csrc);
    TailRoundTrip(h, rest);
    assert f.(csrc := h.csrc) == h.(extensionProfile := 0, extensionData := []);
    ParseByParts(b, f, h.csrc, h);
  }

  /** A written header is read back unchanged exactly when the format can carry it. */
  lemma HeaderRoundTrip(h: Header, rest: Data)
    requires |h.csrc| == h.csrcCount
    ensures Parse(Wire(h) + rest) == Ok(h) <==> WellFormed(h)
  {
    hide Wire, Parse, WellFormed;
    if WellFormed(h) {
      WellFormedParses(h, rest);
    } else if Parse(Wire(h) + rest) == Ok(h) {
      ParsedIsWellFormed(Wire(h) + rest);
    }
  }

  /** The announced extension is all there. */
  predicate Complete(b: Data)
    requires Parse(b).Ok?
  {
    var end := MIN_HEADER + ParseFixed(b).csrcCount * 4;
    ParseFixed(b).extension ==> |b| >= end + 4 && |b| >= end + 4 + FromBigEndian(b[end + 2..end + 4]) * 4
  }

  lemma {:induction false} WordsRead(s: Data, n: nat)
    requires 4 * n <= |s|
    ensures Words(ReadWords(s, n)) == s[..4 * n]
  {
    hide *;
    if n == 0 {
      NoWords(s);
    } else {
      WordsRead(s, n - 1);
      ReadWordsGrow(s, n - 1);
      var word := s[4 * (n - 1)..4 * (n - 1) + 4];
      WriteRead(word);
      WordsGrow(ReadWords(s, n - 1), FromBigEndian(word));
      assert s[..4 * (n - 1)] + word == s[..4 * n];
    }
  }

  lemma TailRead(h: Header, b: Data)
    requires h.extensionProfile == 0 && h.extensionData == []
    requires h.extension ==> |b| >= 4 && |b| >= 4 + FromBigEndian(b[2..4]) * 4
    ensures var t := Tail(ParseTail(h, b)); |t| <= |b| && t == b[..|t|]
  {
    if h.extension {
      WriteRead(b[0..2]);
      WriteRead(b[2..4]);
      hide BigEndian, FromBigEndian;
      var words := FromBigEndian(b[2..4]);
      var t := ParseTail(h, b);
      assert t.extensionData == b[4..4 + words * 4] && |t.extensionData| / 4 == words;
      assert Tail(t) == b[0..2] + b[2..4] + b[4..4 + words * 4];
    }
  }

  lemma Halves(b: nat)
    ensures b / 16 == 2 * (b / 32) + b / 16 % 2 && b / 32 == 2 * (b / 64) + b / 32 % 2
  {
  }

  lemma BitsRead(b0: Byte, b1: Byte)
    ensures (b0 / 64) % 4 * 64 + (b0 / 32 % 2) * 32 + (b0 / 16 % 2) * 16 + (b0 % 16) % 16 == b0
    ensures (b1 / 128) * 128 + (b1 % 128) % 128 == b1
  {
  }

  lemma FixedRead(b: Data)
    requires |b| >= MIN_HEADER
    ensures Fixed(ParseFixed(b)) == b[..12]
  {
    BitsRead(b[0], b[1]);
    WriteRead(b[2..4]);
    WriteRead(b[4..8]);
    WriteRead(b[8..12]);
    hide BigEndian, FromBigEndian;
  }

  lemma FixedIgnoresTail(f: Header, h: Header)
    requires h == f.(csrc := h.csrc, extensionProfile := h.extensionProfile, extensionData := h.extensionData)
    ensures Fixed(h) == Fixed(f)
  {
  }

  lemma TailKeeps(h: Header, b: Data)
    ensures var t := ParseTail(h, b); t == h.(extensionProfile := t.extensionProfile, extensionData := t.extensionData)
  {
  }

  lemma WireFromParts(b: Data, h: Header, end: nat)
    requires 12 <= end <= |b| && Fixed(h) == b[..12] && Words(h.csrc) == b[12..end]
    requires |Tail(h)| <= |b| - end && Tail(h) == b[end..][..|Tail(h)|]
    ensures Wire(h) == b[..end + |Tail(h)|]
  {
  }

  lemma ParseParts(b: Data)
    requires Parse(b).Ok?
    ensures |b| >= MIN_HEADER
    ensures var f := ParseFixed(b);
            var end := MIN_HEADER + f.csrcCount * 4;
            end <= |b| && Parse(b).header == ParseTail(f.(csrc := ReadWords(b[MIN_HEADER..end], f.csrcCount)), b[end..])
  {
  }

  lemma FixedHasNoTail(b: Data)
    requires |b| >= MIN_HEADER
    ensures var f := ParseFixed(b); f.csrc == [] && f.extensionProfile == 0 && f.extensionData == []
  {
  }

  lemma CompleteAfter(b: Data, end: nat)
    requires Parse(b).Ok? && Complete(b) && end == MIN_HEADER + ParseFixed(b).csrcCount * 4
    ensures end <= |b| && (ParseFixed(b).extension ==> |b[end..]| >= 4 && |b[end..]| >= 4 + FromBigEndian(b[end..][2..4]) * 4)
  {
    hide ParseFixed, ParseTail, ReadWords, FromBigEndian;
    ParseParts(b);
    if ParseFixed(b).extension { assert b[end..][2..4] == b[end + 2..end + 4]; }
  }

  lemma SizeByParts(h: Header)
    requires |h.csrc| == h.csrcCount
    ensures Size(h) == MIN_HEADER + h.csrcCount * 4 + |Tail(h)|
  {
  }

  lemma CompleteRewrites(b: Data)
    requires Parse(b).Ok? && Complete(b)
    ensures var h := Parse(b).header; Size(h) <= |b| && |h.csrc| == h.csrcCount && Wire(h) == b[..Size(h)]
  {
    hide Fixed, ParseFixed, ParseTail, Tail, Wire, Size, Parse, Complete, Words, ReadWords, FromBigEndian;
    ParseParts(b);
    FixedHasNoTail(b);
    var f := ParseFixed(b);
    var end := MIN_HEADER + f.csrcCount * 4;
    CompleteAfter(b, end);
    var g := f.(csrc := ReadWords(b[12..end], f.csrcCount));
    var h := ParseTail(g, b[end..]);
    FixedRead(b);
    TailKeeps(g, b[end..]);
    FixedIgnoresTail(f, h);
    WordsRead(b[12..end], f.csrcCount);
    assert b[12..end][..4 * f.csrcCount] == b[12..end];
    TailRead(g, b[end..]);
    WireFromParts(b, h, end);
    SizeByParts(h);
  }

  /** A cut-off extension is written again as an empty one, or not inside the datagram. */
  lemma CutTail(g: Header, t: Data)
    requires g.extension && g.extensionData == [] && (|t| < 4 || |t| < 4 + FromBigEndian(t[2..4]) * 4)
    ensures var tail := Tail(ParseTail(g, t)); |tail| == 4 && (|t| >= 4 ==> tail[2..4] != t[2..4])
  {
  }

  lemma CutDiffers(b: Data)
    requires Parse(b).Ok? && !Complete(b)
    ensures var h := Parse(b).header; |h.csrc| == h.csrcCount && (Size(h) <= |b| ==> Wire(h) != b[..Size(h)])
  {
    hide Fixed, ParseFixed, ParseTail, Tail, Wire, Size, Parse, Words, ReadWords, FromBigEndian;
    ParseParts(b);
    FixedHasNoTail(b);
    var f := ParseFixed(b);
    var end := MIN_HEADER + f.csrcCount * 4;
    var g := f.(csrc := ReadWords(b[12..end], f.csrcCount));
    var h := ParseTail(g, b[end..]);
    TailKeeps(g, b[end..]);
    if |b| >= end + 4 { assert b[end..][2..4] == b[end + 2..end + 4]; }
    CutTail(g, b[end..]);
    SizeByParts(h);
    if Size(h) <= |b| {
      WireSlices(h, []);
      assert Wire(h) + [] == Wire(h) && Tail(h) + [] == Tail(h);
      assert Wire(h)[end..][2..4] == Wire(h)[end + 2..end + 4];
      assert b[..Size(h)][end + 2..end + 4] == b[end + 2..end + 4];
    }
  }

  /** What was read, written again, gives the bytes it was read from exactly when its extension was all there. */
  lemma ReadThenWrite(b: Data)
    requires Parse(b).Ok?
    ensures var h := Parse(b).header; |h.csrc| == h.csrcCount && (Size(h) <= |b| && Wire(h) == b[..Size(h)] <==> Complete(b))
  {
    hide Complete, Parse, Wire, Size;
    if Complete(b) { CompleteRewrites(b); } else { CutDiffers(b); }
  }

  lemma TailLength(g: Header, t: Data)
    requires g.extension && |t| >= 4
    ensures
      var words := FromBigEndian(t[2..4]);
      |Tail(ParseTail(g, t))| == 4 + if |t| >= 4 + words * 4 then words * 4 else 0
  {
  }

  /** The tail is read from bytes that it then accounts for. */
  lemma TailAgrees(g: Header, t: Data, t': Data, m: nat)
    requires |t| == |t'| && m <= |t| && t[..m] == t'[..m]
    requires g.extensionData == [] && |Tail(ParseTail(g, t))| <= m
    ensures ParseTail(g, t') == ParseTail(g, t)
  {
    hide FromBigEndian, Tail;
    if g.extension && |t| >= 4 {
      TailLength(g, t);
      SameSlice(t, t', m, 0, 2);
      SameSlice(t, t', m, 2, 4);
      var words := FromBigEndian(t[2..4]);
      if |t| >= 4 + words * 4 { SameSlice(t, t', m, 4, 4 + words * 4); }
    }
  }

  lemma FixedAgrees(b: Data, b': Data, n: nat)
    requires 12 <= n <= |b| == |b'| && b[..n] == b'[..n]
    ensures ParseFixed(b') == ParseFixed(b)
  {
    assert forall i :: 0 <= i < n ==> b[i] == b[..n][i] && b'[i] == b'[..n][i];
    assert b[2..4] == b'[2..4] && b[4..8] == b'[4..8] && b[8..12] == b'[8..12];
    hide FromBigEndian;
  }

  /** Reading a header depends on the length of the datagram and on the bytes of the header only. */
  lemma ParseAgrees(b: Data, b': Data, n: nat)
    requires Parse(b).Ok? && Size(Parse(b).header) <= n <= |b| == |b'| && b[..n] == b'[..n]
    ensures Parse(b') == Parse(b)
  {
    hide Parse, ParseFixed, ParseTail, ReadWords, Size, Tail, FromBigEndian;
    ParsedSize(b);
    ParseParts(b);
    var f := ParseFixed(b);
    var end := 12 + f.csrcCount * 4;
    var g := f.(csrc := ReadWords(b[12..end], f.csrcCount));
    FixedHasNoTail(b);
    FixedAgrees(b, b', n);
    SameSlice(b, b', n, 12, end);
    SameRest(b, b', n, end);
    TailAgrees(g, b[end..], b'[end..], n - end);
    ParsedVersion(b);
    ParseByParts(b', f, g.csrc, ParseTail(g, b[end..]));
    ParseByParts(b, f, g.csrc, ParseTail(g, b[end..]));
  }

  lemma SameRest(b: Data, b': Data, n: nat, end: nat)
    requires end <= n <= |b| == |b'| && b[..n] == b'[..n]
    ensures b[end..][..n - end] == b'[end..][..n - end]
  {
    SameSlice(b, b', n, end, n);
    assert b[end..][..n - end] == b[end..n] && b'[end..][..n - end] == b'[end..n];
  }

  lemma ParsedVersion(b: Data)
    requires Parse(b).Ok?
    ensures ParseFixed(b).version == RTP_VERSION
  {
  }

  lemma ParsedSize(b: Data)
    requires Parse(b).Ok?
    ensures var h := Parse(b).header;
            && |b| >= 12 && Size(h) == 12 + 4 * ParseFixed(b).csrcCount + |Tail(h)|
            && |h.csrc| == h.csrcCount == ParseFixed(b).csrcCount
  {
  }

  // ---- the code ----

  method Put(buf: array<Byte>, offset: nat, s: Data)
    requires offset + |s| <= buf.Length
    modifies buf
    ensures buf[..] == old(buf[..offset]) + s + old(buf[offset + |s|..])
  {
    for i := 0 to |s|
      invariant forall j :: 0 <= j < i ==> buf[offset + j] == s[j]
      invariant forall j :: 0 <= j < buf.Length && !(offset <= j < offset + i) ==> buf[j] == old(buf[j])
    {
      buf[offset + i] := s[i];
    }
  }

  /** What Encode does: an error, or a write beyond the buffer (only with more words than csrcCount says), or a header. */
  datatype Encoding = Written | TooSmall | OutOfRange

  /** s laid over the front of a buffer; what does not fit is cut off. */
  function Laid(s: Data, buffer: Data): (r: Data)
    ensures |r| == |buffer|
  {
    if |s| <= |buffer| then s + buffer[|s|..] else s[..|buffer|]
  }

  /** Encode: the size is that of csrcCount words, the words written are those of the list. */
  method Encode(h: Header, buf: array<Byte>) returns (r: Encoding)
    modifies buf
    ensures r == TooSmall <==> buf.Length < Size(h)
    ensures r == TooSmall ==> buf[..] == old(buf[..])
    ensures r == OutOfRange <==> Size(h) <= buf.Length < 12 + 4 * |h.csrc| + if h.extension then 4 else 0
    ensures r == Written ==> buf[..] == Laid(Wire(h), old(buf[..]))
    ensures |h.csrc| <= h.csrcCount ==> r != OutOfRange && (r == Written ==> |Wire(h)| <= Size(h))
  {
    if buf.Length < Size(h) { return TooSmall; }
    ghost var s := buf[..];
    SizeAndWords(h);
    hide Wire, Size, Fixed, Words, Tail, Laid;
    WireParts(h);
    PutFixed(h, buf);
    var offset := 12 + 4 * |h.csrc|;
    if offset > buf.Length { return OutOfRange; }
    PutWords(h.csrc, buf, 12, Fixed(h), s[12..]);
    ghost var front, rest := Fixed(h) + Words(h.csrc), s[12..][4 * |h.csrc|..];
    if h.extension {
      if offset + 4 > buf.Length { return OutOfRange; }
      PutTail(h, buf, offset, front, rest);
    } else {
      NothingLaid(rest);
    }
    LaidAfter(front, Tail(h), s);
    assert s[12..][4 * |h.csrc|..] == s[|front|..];
    return Written;
  }

  lemma NothingLaid(rest: Data)
    ensures Laid([], rest) == rest
  {
  }

  lemma LaidAfter(front: Data, tail: Data, s: Data)
    requires |front| <= |s|
    ensures front + Laid(tail, s[|front|..]) == Laid(front + tail, s)
  {
  }

  lemma SizeAndWords(h: Header)
    ensures Size(h) == 12 + 4 * h.csrcCount + |Tail(h)| && |Wire(h)| == 12 + 4 * |h.csrc| + |Tail(h)|
    ensures |Tail(h)| >= (if h.extension then 4 else 0)
  {
  }

  lemma SizeOfWire(h: Header)
    requires |h.csrc| == h.csrcCount
    ensures Size(h) == |Wire(h)| == 12 + |Words(h.csrc)| + |Tail(h)|
  {
  }

  lemma WireParts(h: Header)
    ensures Wire(h) == Fixed(h) + Words(h.csrc) + Tail(h) && (!h.extension ==> Tail(h) == [])
  {
  }

  method PutFixed(h: Header, buf: array<Byte>)
    requires buf.Length >= 12
    modifies buf
    ensures buf[..] == Fixed(h) + old(buf[12..])
  {
    hide FirstByte, SecondByte, BigEndian, Fixed;
    ghost var s := buf[..];
    var first := [FirstByte(h), SecondByte(h)];
    var a, b, c := BigEndian(h.sequenceNumber, 2), BigEndian(h.timestamp, 4), BigEndian(h.ssrc, 4);
    assert buf[..] == [] + s;
    PutNext(buf, 0, first, [], s);
    PutNext(buf, 2, a, [] + first, s[2..]);
    PutNext(buf, 4, b, [] + first + a, s[2..][2..]);
    PutNext(buf, 8, c, [] + first + a + b, s[2..][2..][4..]);
    FixedParts(h, first, a, b, c, s);
  }

  lemma FixedParts(h: Header, first: Data, a: Data, b: Data, c: Data, s: Data)
    requires first == [FirstByte(h), SecondByte(h)] && |s| >= 12
    requires a == BigEndian(h.sequenceNumber, 2) && b == BigEndian(h.timestamp, 4) && c == BigEndian(h.ssrc, 4)
    ensures [] + first + a + b + c == Fixed(h) && s[2..][2..][4..][4..] == s[12..]
  {
  }

  /** Put, for a buffer known in two parts. */
  method PutNext(buf: array<Byte>, offset: nat, s: Data, ghost front: Data, ghost rest: Data)
    requires buf[..] == front + rest && |front| == offset && |s| <= |rest|
    modifies buf
    ensures buf[..] == (front + s) + rest[|s|..]
  {
    assert buf[..offset] == front && buf[offset + |s|..] == rest[|s|..];
    Put(buf, offset, s);
  }

  method PutWords(csrc: seq<U32>, buf: array<Byte>, start: nat, ghost front: Data, ghost rest: Data)
    requires buf[..] == front + rest && |front| == start && 4 * |csrc| <= |rest|
    modifies buf
    ensures buf[..] == (front + Words(csrc)) + rest[4 * |csrc|..]
  {
    hide BigEndian;
    var offset := start;
    for i := 0 to |csrc|
      invariant offset == start + 4 * i
      invariant buf[..] == (front + Words(csrc[..i])) + rest[4 * i..]
    {
      var word := BigEndian(csrc[i], 4);
      PutNext(buf, offset, word, front + Words(csrc[..i]), rest[4 * i..]);
      MoreWords(csrc, i);
      assert (front + Words(csrc[..i])) + word == front + (Words(csrc[..i]) + word);
      assert rest[4 * i..][4..] == rest[4 * (i + 1)..];
      offset := offset + 4;
    }
    assert csrc[..|csrc|] == csrc;
  }

  lemma MoreWords(csrc: seq<U32>, i: nat)
    requires i < |csrc|
    ensures Words(csrc[..i + 1]) == Words(csrc[..i]) + BigEndian(csrc[i], 4)
  {
    assert csrc[..i + 1] == csrc[..i] + [csrc[i]];
    WordsGrow(csrc[..i], csrc[i]);
  }

  /** The extension; copy stops at the end of the buffer. */
  method PutTail(h: Header, buf: array<Byte>, offset: nat, ghost front: Data, ghost rest: Data)
    requires h.extension && offset == |front| && 4 <= |rest|
    requires buf[..] == front + rest
    modifies buf
    ensures buf[..] == front + Laid(Tail(h), rest)
  {
    hide BigEndian, Tail, Laid;
    var profile, words := BigEndian(h.extensionProfile, 2), BigEndian(|h.extensionData| / 4, 2);
    PutNext(buf, offset, profile, front, rest);
    PutNext(buf, offset + 2, words, front + profile, rest[2..]);
    var room := buf.Length - (offset + 4);
    var data := if |h.extensionData| <= room then h.extensionData else h.extensionData[..room];
    PutNext(buf, offset + 4, data, front + profile + words, rest[2..][2..]);
    TailLaid(h, profile, words, data, front, rest);
  }

  lemma TailLaid(h: Header, profile: Data, words: Data, data: Data, front: Data, rest: Data)
    requires h.extension && profile == BigEndian(h.extensionProfile, 2) && words == BigEndian(|h.extensionData| / 4, 2)
    requires 4 <= |rest| && data == if |h.extensionData| <= |rest| - 4 then h.extensionData else h.extensionData[..|rest| - 4]
    ensures (front + profile + words + data) + rest[2..][2..][|data|..] == front + Laid(Tail(h), rest)
  {
  }

  /** DecodeRtpHeader: the words are appended one by one. */
  method Decode(buf: Data) returns (r: Parsed)
    ensures r == Parse(buf)
  {
    ParseFails(buf);
    hide Parse, ParseFixed, ParseTail, ReadWords, FromBigEndian;
    if |buf| < MIN_HEADER { return Failed(BufferTooSmall); }
    var h := ParseFixed(buf);
    FixedHasNoTail(buf);
    if h.version != RTP_VERSION { return Failed(InvalidVersion); }
    var headerSize := MIN_HEADER + h.csrcCount * 4;
    if |buf| < headerSize { return Failed(NoRoomForCsrc); }
    var csrc: seq<U32> := [];
    var offset := MIN_HEADER;
    ghost var words := buf[MIN_HEADER..headerSize];
    NoWords(words);
    for i := 0 to h.csrcCount
      invariant offset == MIN_HEADER + 4 * i
      invariant csrc == ReadWords(words, i)
    {
      assert buf[offset..offset + 4] == words[4 * i..4 * i + 4];
      ReadWordsGrow(words, i);
      csrc := csrc + [FromBigEndian(buf[offset..offset + 4])];
      offset := offset + 4;
    }
    var all := DecodeTail(buf, offset, h.(csrc := csrc));
    ParseByParts(buf, h, csrc, all);
    return Ok(all);
  }

  lemma ParseFails(b: Data)
    ensures |b| < MIN_HEADER ==> Parse(b) == Failed(BufferTooSmall)
    ensures |b| >= MIN_HEADER && ParseFixed(b).version != RTP_VERSION ==> Parse(b) == Failed(InvalidVersion)
    ensures |b| >= MIN_HEADER && ParseFixed(b).version == RTP_VERSION && |b| < MIN_HEADER + ParseFixed(b).csrcCount * 4 ==>
      Parse(b) == Failed(NoRoomForCsrc)
  {
  }

  /** The extension of DecodeRtpHeader. */
  method DecodeTail(buf: Data, start: nat, before: Header) returns (h: Header)
    requires start <= |buf| && before.extensionData == []
    ensures h == ParseTail(before, buf[start..])
  {
    hide FromBigEndian;
    h := before;
    var offset := start;
    if h.extension && |buf| >= offset + 4 {
      ghost var rest := buf[offset..];
      assert buf[offset..offset + 2] == rest[0..2] && buf[offset + 2..offset + 4] == rest[2..4];
      Widths();
      h := h.(extensionProfile := FromBigEndian(buf[offset..offset + 2]));
      var extBytes := FromBigEndian(buf[offset + 2..offset + 4]) * 4;
      offset := offset + 4;
      if |buf| >= offset + extBytes {
        assert buf[offset..offset + extBytes] == rest[4..4 + extBytes];
        h := h.(extensionData := buf[offset..offset + extBytes]);
      }
    }
  }

  // ---- the sending session ----

  class RtpSession {
    const ssrc: U32
    const payloadType: Byte
    var sequenceNumber: U16
    var timestamp: U32

    constructor (ssrc: U32, payloadType: Byte, firstSequence: U16, firstTimestamp: U32)
      ensures this.ssrc == ssrc && this.payloadType == payloadType
      ensures sequenceNumber == firstSequence && timestamp == firstTimestamp
    {
      this.ssrc := ssrc;
      this.payloadType := payloadType;
      sequenceNumber := firstSequence;
      timestamp := firstTimestamp;
    }

    /** CreatePacketWithDuration */
    method CreatePacket(payload: Data, duration: nat, marker: bool) returns (p: Packet)
      modifies this
      ensures p == Packet(NewHeader(payloadType, old(sequenceNumber), old(timestamp), ssrc, marker), payload)
      ensures payloadType < 128 ==> WellFormed(p.header)
      ensures sequenceNumber == (old(sequenceNumber) + 1) % 0x1_0000
      ensures timestamp == (old(timestamp) + duration) % 0x1_0000_0000
    {
      p := Packet(NewHeader(payloadType, sequenceNumber, timestamp, ssrc, marker), payload);
      sequenceNumber := (sequenceNumber + 1) % 0x1_0000;
      timestamp := (timestamp + duration) % 0x1_0000_0000;
    }
  }

  function NewHeader(payloadType: Byte, sequence: U16, timestamp: U32, ssrc: U32, marker: bool): Header {
    Header(RTP_VERSION, false, false, 0, marker, payloadType, sequence, timestamp, ssrc, [], 0, [])
  }
}
