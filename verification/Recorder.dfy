/** The two-leg mixer of internal/voip/recording/recorder.go. */
module Recorder {
  import H = RecordingHandoff

  const MAX_PENDING: nat := 480_000

  /** One leg of the WAV: every frame is either a sample that was fed in, or silence. */
  function Fed(lane: seq<int>, mask: seq<bool>): seq<int>
    requires |lane| == |mask|
  {
    if lane == [] then [] else Fed(lane[..|lane| - 1], mask[..|mask| - 1]) + if mask[|mask| - 1] then [lane[|lane| - 1]] else []
  }

  predicate SilentElsewhere(lane: seq<int>, mask: seq<bool>)
    requires |lane| == |mask|
  {
    forall i :: 0 <= i < |lane| && !mask[i] ==> lane[i] == 0
  }

  /** f2i: clamp, then truncate toward zero. */
  function F2i(s: real): (r: int)
    ensures -32768 <= r <= 32767
    ensures s == 0.0 ==> r == 0
  {
    if s >= 1.0 then 32767
    else if s <= -1.0 then -32768
    else if s >= 0.0 then (s * 32767.0).Floor
    else -(-s * 32767.0).Floor
  }

  /** The frame stands for the sample: full scale beyond +-1, and otherwise the sample in units of 1/32767, less than one
      unit off and toward zero. */
  predicate Carries(frame: int, s: real) {
    && (s >= 1.0 ==> frame == 32767)
    && (s <= -1.0 ==> frame == -32768)
    && (0.0 <= s < 1.0 ==> 0 <= frame && frame as real <= 32767.0 * s < (frame + 1) as real)
    && (-1.0 < s < 0.0 ==> frame <= 0 && (frame - 1) as real < 32767.0 * s <= frame as real)
  }

  lemma F2iCarries(s: real)
    ensures Carries(F2i(s), s)
  {
  }

  /** The frames stand for these samples, one each. */
  predicate CarriesAll(frames: seq<int>, samples: seq<real>) {
    |frames| == |samples| && forall j :: 0 <= j < |frames| ==> Carries(frames[j], samples[j])
  }

  lemma QuantizedCarries(s: seq<real>)
    ensures CarriesAll(Quantized(s), s)
  {
  }

  /** What is in a lane and in the buffer behind it are the first samples the leg took, and the rest. */
  lemma LegCarries(lane: seq<int>, mask: seq<bool>, buf: seq<real>, accepted: seq<real>)
    requires Leg(lane, mask, buf, accepted)
    ensures |Fed(lane, mask)| + |buf| == |accepted| && CarriesAll(Fed(lane, mask), accepted[..|Fed(lane, mask)|])
  {
    hide Carries, Quantized, F2i, Fed, SilentElsewhere;
    var fed := Fed(lane, mask);
    QuantizedCarries(accepted);
    assert |fed + Quantized(buf)| == |fed| + |buf|;
    forall j | 0 <= j < |fed| ensures Carries(fed[j], accepted[j]) {
      assert (fed + Quantized(buf))[j] == fed[j];
    }
  }

  function Quantized(s: seq<real>): (r: seq<int>)
    ensures |r| == |s|
  {
    seq(|s|, i requires 0 <= i < |s| => F2i(s[i]))
  }

  lemma QuantizedJoins(a: seq<real>, b: seq<real>)
    ensures Quantized(a + b) == Quantized(a) + Quantized(b)
  {
  }

  function Min(a: nat, b: nat): nat {
    if a < b then a else b
  }

  /** n frames of a leg: what is buffered, then silence. */
  function Taken(buf: seq<real>, n: nat): (r: seq<real>)
    ensures |r| == n
  {
    seq(n, i requires 0 <= i < n => if i < |buf| then buf[i] else 0.0)
  }

  function Mask(have: nat, n: nat): (m: seq<bool>)
    ensures |m| == n
  {
    seq(n, i requires 0 <= i < n => i < have)
  }

  lemma {:induction false} FedAppends(lane: seq<int>, mask: seq<bool>, more: seq<int>, moreMask: seq<bool>)
    requires |lane| == |mask| && |more| == |moreMask|
    ensures Fed(lane + more, mask + moreMask) == Fed(lane, mask) + Fed(more, moreMask)
  {
    if more == [] {
      assert lane + more == lane && mask + moreMask == mask;
    } else {
      var n := |more| - 1;
      FedAppends(lane, mask, more[..n], moreMask[..n]);
      assert (lane + more)[..|lane| + n] == lane + more[..n] && (mask + moreMask)[..|lane| + n] == mask + moreMask[..n];
    }
  }

  lemma {:induction false} FedOfTaken(buf: seq<real>, n: nat)
    ensures Fed(Quantized(Taken(buf, n)), Mask(|buf|, n)) == Quantized(buf[..Min(n, |buf|)])
  {
    if n > 0 {
      FedOfTaken(buf, n - 1);
      assert Quantized(Taken(buf, n))[..n - 1] == Quantized(Taken(buf, n - 1));
      assert Mask(|buf|, n)[..n - 1] == Mask(|buf|, n - 1);
      if n <= |buf| {
        assert buf[..n] == buf[..n - 1] + [buf[n - 1]];
      }
    }
  }

  /** What one leg has accepted is what its lane carries, in order, and then what is still buffered. */
  ghost predicate Leg(lane: seq<int>, mask: seq<bool>, buf: seq<real>, accepted: seq<real>) {
    && |lane| == |mask|
    && SilentElsewhere(lane, mask)
    && Fed(lane, mask) + Quantized(buf) == Quantized(accepted)
  }

  lemma SilenceFlushes(lane: seq<int>, mask: seq<bool>, buf: seq<real>, n: nat)
    requires |lane| == |mask| && SilentElsewhere(lane, mask)
    ensures SilentElsewhere(lane + Quantized(Taken(buf, n)), mask + Mask(|buf|, n))
  {
  }

  lemma LegFlushes(lane: seq<int>, mask: seq<bool>, buf: seq<real>, accepted: seq<real>, n: nat)
    requires Leg(lane, mask, buf, accepted)
    ensures Leg(lane + Quantized(Taken(buf, n)), mask + Mask(|buf|, n), buf[Min(n, |buf|)..], accepted)
  {
    hide Quantized, Taken, Mask, SilentElsewhere, Fed;
    var m := Min(n, |buf|);
    var taken, rest := Quantized(Taken(buf, n)), Quantized(buf[m..]);
    SilenceFlushes(lane, mask, buf, n);
    FedAppends(lane, mask, taken, Mask(|buf|, n));
    FedOfTaken(buf, n);
    assert buf == buf[..m] + buf[m..];
    QuantizedJoins(buf[..m], buf[m..]);
    Regroups(Fed(lane, mask), Quantized(buf[..m]), rest);
  }

  lemma Regroups(a: seq<int>, b: seq<int>, c: seq<int>)
    ensures a + (b + c) == (a + b) + c
  {
  }

  lemma LegGrows(lane: seq<int>, mask: seq<bool>, buf: seq<real>, accepted: seq<real>, pcm: seq<real>)
    requires Leg(lane, mask, buf, accepted)
    ensures Leg(lane, mask, buf + pcm, accepted + pcm)
  {
    QuantizedJoins(buf, pcm);
    QuantizedJoins(accepted, pcm);
    assert Fed(lane, mask) + (Quantized(buf) + Quantized(pcm)) == (Fed(lane, mask) + Quantized(buf)) + Quantized(pcm);
  }

  /** New frames of a lane: the samples that were waiting, in order, and silence behind them. */
  predicate Appends(frames: seq<int>, buf: seq<real>) {
    forall i :: 0 <= i < |frames| ==> if i < |buf| then Carries(frames[i], buf[i]) else frames[i] == 0
  }

  lemma TakenAppends(buf: seq<real>, n: nat)
    ensures Appends(Quantized(Taken(buf, n)), buf)
  {
  }

  method Consume(buf: seq<real>, n: nat) returns (out: seq<real>, rest: seq<real>)
    ensures out == Taken(buf, n) && rest == buf[Min(n, |buf|)..]
  {
    var a := new real[n](_ => 0.0);
    var m := Min(n, |buf|);
    for i := 0 to m
      invariant forall j :: 0 <= j < n ==> a[j] == if j < i then buf[j] else 0.0
    {
      a[i] := buf[i];
    }
    out, rest := a[..], buf[m..];
  }

  class Mixer {
    const maxFrames: nat
    var opBuf: seq<real>
    var peerBuf: seq<real>
    var written: nat
    var left: seq<int>
    var right: seq<int>
    var closed: bool
    var limitHit: bool
    ghost var opIn: seq<real>
    ghost var peerIn: seq<real>
    ghost var opMask: seq<bool>
    ghost var peerMask: seq<bool>

    constructor (maxFrames: nat)
      ensures Valid() && this.maxFrames == maxFrames && !closed && !limitHit && written == 0 && opIn == peerIn == []
    {
      this.maxFrames := maxFrames;
      opBuf, peerBuf, left, right, written, closed, limitHit := [], [], [], [], 0, false, false;
      opIn, peerIn, opMask, peerMask := [], [], [], [];
    }

    ghost predicate Valid()
      reads this
    {
      && Leg(left, opMask, opBuf, opIn)
      && Leg(right, peerMask, peerBuf, peerIn)
      && |left| == |right| == written
      && (maxFrames > 0 ==> written <= maxFrames)
      && (limitHit ==> maxFrames > 0)
    }

    /** WriteOperator; a leg that is too far ahead is not taken. */
    method WriteOperator(pcm: seq<real>)
      requires Valid()
      modifies `opBuf, `opIn
      ensures Valid()
      ensures if !closed && |old(opBuf)| < 480_000 then opBuf == old(opBuf) + pcm && opIn == old(opIn) + pcm
              else opBuf == old(opBuf) && opIn == old(opIn)
    {
      if pcm == [] { return; }
      if Takes(opBuf) {
        LegGrows(left, opMask, opBuf, opIn, pcm);
        opBuf, opIn := opBuf + pcm, opIn + pcm;
      }
    }

    /** WritePeer: the same for the other leg. */
    method WritePeer(pcm: seq<real>)
      requires Valid()
      modifies `peerBuf, `peerIn
      ensures Valid()
      ensures if !closed && |old(peerBuf)| < 480_000 then peerBuf == old(peerBuf) + pcm && peerIn == old(peerIn) + pcm
              else peerBuf == old(peerBuf) && peerIn == old(peerIn)
    {
      if pcm == [] { return; }
      if Takes(peerBuf) {
        LegGrows(right, peerMask, peerBuf, peerIn, pcm);
        peerBuf, peerIn := peerBuf + pcm, peerIn + pcm;
      }
    }

    predicate Takes(buf: seq<real>)
      reads `closed
    {
      !closed && |buf| < MAX_PENDING
    }

    /** The committing half of flush: n more frames of both legs. */
    method Commit(n: nat)
      requires Valid() && (maxFrames > 0 ==> written + n <= maxFrames)
      modifies `opBuf, `peerBuf, `written, `left, `right, `opMask, `peerMask
      ensures Valid() && written == old(written) + n
      ensures opBuf == old(opBuf)[Min(n, |old(opBuf)|)..] && peerBuf == old(peerBuf)[Min(n, |old(peerBuf)|)..]
      ensures |left| == |right| == written
      ensures left[..old(written)] == old(left) && right[..old(written)] == old(right)
      ensures Appends(left[old(written)..], old(opBuf)) && Appends(right[old(written)..], old(peerBuf))
    {
      hide Leg, Quantized, Taken, Mask, Appends;
      TakenAppends(opBuf, n);
      TakenAppends(peerBuf, n);
      LegFlushes(left, opMask, opBuf, opIn, n);
      LegFlushes(right, peerMask, peerBuf, peerIn, n);
      opMask, peerMask := opMask + Mask(|opBuf|, n), peerMask + Mask(|peerBuf|, n);
      var l, opRest := Consume(opBuf, n);
      var r, peerRest := Consume(peerBuf, n);
      opBuf, peerBuf := opRest, peerRest;
      ghost var before := written;
      left, right, written := left + Quantized(l), right + Quantized(r), written + n;
      assert left[before..] == Quantized(l) && right[before..] == Quantized(r);
    }

    /** flush: `now` is the wall-clock position in frames. */
    method Flush(final: bool, now: nat) returns (stop: bool)
      requires Valid()
      modifies `opBuf, `peerBuf, `written, `left, `right, `limitHit, `opMask, `peerMask
      ensures Valid() && stop == (!closed && limitHit)
      ensures closed ==> unchanged(this)
      ensures !closed ==>
        var target := if final then old(written) + (if |old(peerBuf)| > |old(opBuf)| then |old(peerBuf)| else |old(opBuf)|) else now;
        var capped := if maxFrames > 0 then Min(target, maxFrames) else target;
        && written == (if capped > old(written) then capped else old(written))
        && limitHit == (old(limitHit) || (maxFrames > 0 && target > maxFrames))
      ensures !closed && final && !limitHit ==> opBuf == peerBuf == []
      ensures |left| >= |old(left)| && left[..|old(left)|] == old(left)
      ensures |right| >= |old(right)| && right[..|old(right)|] == old(right)
      ensures Appends(left[|old(left)|..], old(opBuf)) && Appends(right[|old(right)|..], old(peerBuf))
    {
      hide Leg;
      if closed { return false; }
      var rem := if |peerBuf| > |opBuf| then |peerBuf| else |opBuf|;
      var target := if final then written + rem else now;
      if maxFrames > 0 && target > maxFrames {
        target := maxFrames;
        limitHit := true;
      }
      if target <= written { return limitHit; }
      Commit(target - written);
      return limitHit;
    }

    /** Taps of both legs, in the order in which they get the lock. */
    method Deliver(taps: seq<Tap>)
      requires Valid() && !closed
      modifies `opBuf, `opIn, `peerBuf, `peerIn
      ensures Valid()
      ensures var more := Admitted(old(opBuf), taps, Operator); opIn == old(opIn) + more && opBuf == old(opBuf) + more
      ensures var more := Admitted(old(peerBuf), taps, Peer); peerIn == old(peerIn) + more && peerBuf == old(peerBuf) + more
    {
      hide Admitted, Leg, Added;
      ghost var op, peer, opIn0, peerIn0 := opBuf, peerBuf, opIn, peerIn;
      AdmittedNone(op, taps, Operator);
      AdmittedNone(peer, taps, Peer);
      for i := 0 to |taps|
        invariant Valid() && !closed
        invariant Added(op, opIn0, Admitted(op, taps[..i], Operator), opBuf, opIn)
        invariant Added(peer, peerIn0, Admitted(peer, taps[..i], Peer), peerBuf, peerIn)
      {
        AdmittedMore(op, opIn0, opBuf, opIn, taps, i, Operator);
        AdmittedMore(peer, peerIn0, peerBuf, peerIn, taps, i, Peer);
        if taps[i].leg == Operator { WriteOperator(taps[i].pcm); } else { WritePeer(taps[i].pcm); }
      }
      assert taps[..|taps|] == taps;
      AddedIs(op, opIn0, Admitted(op, taps, Operator), opBuf, opIn);
      AddedIs(peer, peerIn0, Admitted(peer, taps, Peer), peerBuf, peerIn);
    }

    /** Close: the goroutine of run flushes for the last time and ends; then the recorder is marked closed. The two take
        the lock one after the other, and `late` are the taps that get it in between. Once closed, it is the duration again. */
    method Close(late: seq<Tap>) returns (ns: nat)
      requires Valid()
      modifies this
      ensures Valid() && closed && ns == written * H.NS_PER_SAMPLE && H.FileBytes(written) == 44 + 4 * |left|
      ensures ns / 1_000_000 == H.ApproxDurationMs(H.FileBytes(written))
      ensures !old(closed) && !limitHit ==>
        && opIn == old(opIn) + Admitted([], late, Operator) && Fed(left, opMask) == Quantized(old(opIn))
        && peerIn == old(peerIn) + Admitted([], late, Peer) && Fed(right, peerMask) == Quantized(old(peerIn))
      ensures !old(closed) && !limitHit ==>
        && (Fed(left, opMask) == Quantized(opIn) <==> Silent(late, Operator))
        && (Fed(right, peerMask) == Quantized(peerIn) <==> Silent(late, Peer))
      ensures CarriesAll(Fed(left, opMask), opIn[..|opIn| - |opBuf|]) && CarriesAll(Fed(right, peerMask), peerIn[..|peerIn| - |peerBuf|])
      ensures !old(closed) && !limitHit ==>
        CarriesAll(Fed(left, opMask), old(opIn)) && CarriesAll(Fed(right, peerMask), old(peerIn))
      ensures old(closed) ==> unchanged(this)
    {
      hide CarriesAll;
      QuantizedCarries(opIn);
      QuantizedCarries(peerIn);
      H.DurationsAgree(written);
      LegCarries(left, opMask, opBuf, opIn);
      LegCarries(right, peerMask, peerBuf, peerIn);
      if closed { return written * H.NS_PER_SAMPLE; }
      var stop := Flush(true, 0);
      if !limitHit {
        WholeLane(left, opMask, opBuf, opIn);
        WholeLane(right, peerMask, peerBuf, peerIn);
        AdmittedNothing([], late, Operator);
        AdmittedNothing([], late, Peer);
      }
      Deliver(late);
      closed := true;
      LegCarries(left, opMask, opBuf, opIn);
      LegCarries(right, peerMask, peerBuf, peerIn);
      ns := written * H.NS_PER_SAMPLE;
      H.DurationsAgree(written);
    }

    /** What Close loses: in every open recorder without a cap, a tap that comes after the last flush is accepted and
        is not in the lane. */
    method LateTapIsLost(pcm: seq<real>)
      requires Valid() && !closed && maxFrames == 0 && pcm != []
      modifies this
      ensures Valid() && closed && opIn == old(opIn) + pcm
      ensures Fed(left, opMask) == Quantized(old(opIn)) != Quantized(opIn)
    {
      var tap := [Tap(Operator, pcm)];
      assert tap[0].leg == Operator && tap[0].pcm != [] && !Silent(tap, Operator);
      AdmittedNone([], tap, Operator);
      AdmittedMore([], opIn, [], opIn, tap, 0, Operator);
      assert tap[..1] == tap;
      var ns := Close(tap);
    }
  }

  datatype Side = Operator | Peer

  /** Samples that a callback hands over. */
  datatype Tap = Tap(leg: Side, pcm: seq<real>)

  /** None of the taps brings a sample of this leg. */
  predicate Silent(taps: seq<Tap>, leg: Side) {
    forall i :: 0 <= i < |taps| && taps[i].leg == leg ==> taps[i].pcm == []
  }

  /** What a leg with this much in its buffer takes of the taps. */
  function Admitted(buf: seq<real>, taps: seq<Tap>, leg: Side): seq<real> {
    if taps == [] then []
    else
      var before, tap := Admitted(buf, taps[..|taps| - 1], leg), taps[|taps| - 1];
      if tap.leg == leg && |buf + before| < MAX_PENDING then before + tap.pcm else before
  }

  /** more was added both to a buffer and to what its leg has accepted. */
  predicate Added(buf0: seq<real>, in0: seq<real>, more: seq<real>, buf: seq<real>, accepted: seq<real>) {
    buf == buf0 + more && accepted == in0 + more
  }

  lemma AddedIs(buf0: seq<real>, in0: seq<real>, more: seq<real>, buf: seq<real>, accepted: seq<real>)
    requires Added(buf0, in0, more, buf, accepted)
    ensures buf == buf0 + more && accepted == in0 + more
  {
  }

  lemma AdmittedNone(buf: seq<real>, taps: seq<Tap>, leg: Side)
    ensures taps[..0] == [] && Admitted(buf, taps[..0], leg) == []
    ensures forall in0 :: Added(buf, in0, [], buf, in0)
  {
  }

  lemma AdmittedMore(buf0: seq<real>, in0: seq<real>, buf: seq<real>, accepted: seq<real>, taps: seq<Tap>, i: nat, leg: Side)
    requires i < |taps| && Added(buf0, in0, Admitted(buf0, taps[..i], leg), buf, accepted)
    ensures
      var takes := taps[i].leg == leg && |buf| < MAX_PENDING;
      Added(buf0, in0, Admitted(buf0, taps[..i + 1], leg),
            if takes then buf + taps[i].pcm else buf, if takes then accepted + taps[i].pcm else accepted)
  {
    assert taps[..i + 1][..i] == taps[..i];
  }

  /** A leg with room takes nothing exactly when nothing is brought to it. */
  lemma {:induction false} AdmittedNothing(buf: seq<real>, taps: seq<Tap>, leg: Side)
    requires |buf| < MAX_PENDING
    ensures Admitted(buf, taps, leg) == [] <==> Silent(taps, leg)
  {
    if taps != [] {
      var before, tap := taps[..|taps| - 1], taps[|taps| - 1];
      AdmittedNothing(buf, before, leg);
      assert forall i :: 0 <= i < |before| ==> taps[i] == before[i];
      if Silent(before, leg) { assert buf + [] == buf; }
    }
  }

  /** A leg with nothing left in its buffer has all it accepted in its lane. */
  lemma WholeLane(lane: seq<int>, mask: seq<bool>, buf: seq<real>, accepted: seq<real>)
    requires Leg(lane, mask, buf, accepted) && buf == []
    ensures Fed(lane, mask) == Quantized(accepted)
  {
  }
}
