/** The sender's write queue against the stream: what is queued, what has been transmitted and where. */
module SenderQueue {
  import opened Words
  import opened TcpTypes
  import opened Tcp
  import opened TcpOutput
  import opened TcpInput
  import opened Stream

  /** The stream and its FIN end below 2^32, so that no sequence number wraps. */
  predicate NoWrap(base: nat, c: seq<Skb>) {
    0 < base && base + |Flat(c)| + 1 < MOD32
  }

  /** `skb` is segment `k` of the stream, stamped with its sequence range if it has been transmitted. */
  predicate Holds(skb: Skb, c: seq<Skb>, base: nat, k: nat, sent: bool)
    requires k < |c|
  {
    && skb.payload == c[k].payload && skb.flags == c[k].flags && skb.options == []
    && if sent then skb.seqNo == Pos(base, c, k) && skb.endSeq == Pos(base, c, k + 1) else skb.seqNo == 0
  }

  /** The write queue is the tail of the stream: first `inflight` transmitted segments covering
      `snd_una..snd_nxt`, then segments not transmitted yet. */
  predicate Layout(s: Sock, c: seq<Skb>, base: nat, closed: bool) {
    && WellCut(c, closed) && NoWrap(base, c)
    && s.inflight <= |s.writeQ| <= |c| && s.inflight <= MAX_BURST
    && QueueHolds(s, c, base)
    && UnaPlaced(s, c, base, closed)
    && NxtPlaced(s, c, base, closed)
  }

  predicate QueueHolds(s: Sock, c: seq<Skb>, base: nat)
    requires |s.writeQ| <= |c|
  {
    forall i :: 0 <= i < |s.writeQ| ==> Holds(s.writeQ[i], c, base, |c| - |s.writeQ| + i, i < s.inflight)
  }

  predicate UnaPlaced(s: Sock, c: seq<Skb>, base: nat, closed: bool)
    requires |s.writeQ| <= |c|
  {
    || s.tcb.sndUna == Pos(base, c, |c| - |s.writeQ|)
    || (closed && s.writeQ == [] && s.tcb.sndUna == Pos(base, c, |c|) + 1)
  }

  predicate NxtPlaced(s: Sock, c: seq<Skb>, base: nat, closed: bool)
    requires s.inflight <= |s.writeQ| <= |c|
  {
    var k := |c| - |s.writeQ| + s.inflight;
    s.tcb.sndNxt == Pos(base, c, k) + if closed && k == |c| then 1 else 0
  }

  /** One retransmission timer, armed exactly while something is in flight, and something is in flight
      exactly while anything is queued. */
  predicate Armed(s: Sock) {
    && (s.inflight == 0 <==> s.writeQ == [])
    && (s.rtx.timer.Some? <==> s.inflight > 0)
    && (s.rtx.timer.Some? ==> s.rtx.timer.value.handler == RetransmissionTimeout)
    && s.rtx.strays == []
  }

  /** `p` carries segment `k`, flags included. */
  predicate Carries(p: Packet, c: seq<Skb>, base: nat, k: nat)
    requires k < |c|
  {
    p.seqNo == Pos(base, c, k) && p.payload == c[k].payload && p.flags == c[k].flags && p.options == []
  }

  /** A packet that occupies no sequence space and asks for nothing: an ACK, a SYN or a RST. */
  predicate Pure(p: Packet) {
    p.payload == [] && !p.flags.fin && !p.flags.psh
  }

  predicate GoodPacket(p: Packet, c: seq<Skb>, base: nat, nxt: nat) {
    || Pure(p)
    || exists k :: 0 <= k < |c| && Carries(p, c, base, k)
                   && Pos(base, c, k + 1) + (if c[k].flags.fin then 1 else 0) <= nxt
  }

  /** Every packet ever put on the wire, first sent or resent, carries the stream's bytes at its place. */
  predicate WireGood(s: Sock, c: seq<Skb>, base: nat) {
    forall i :: 0 <= i < |s.wire| ==> GoodPacket(s.wire[i], c, base, s.tcb.sndNxt)
  }

  lemma GoodExtends(p: Packet, c: seq<Skb>, x: Skb, base: nat, nxt: nat, nxt': nat)
    requires GoodPacket(p, c, base, nxt) && nxt <= nxt'
    ensures GoodPacket(p, c + [x], base, nxt')
  {
    if !Pure(p) {
      var k :| 0 <= k < |c| && Carries(p, c, base, k)
               && Pos(base, c, k + 1) + (if c[k].flags.fin then 1 else 0) <= nxt;
      PosExtend(base, c, x, k);
      PosExtend(base, c, x, k + 1);
      assert Carries(p, c + [x], base, k);
    }
  }

  lemma WireExtends(s: Sock, t: Sock, c: seq<Skb>, x: Skb, base: nat)
    requires WireGood(s, c, base) && s.tcb.sndNxt <= t.tcb.sndNxt && t.wire == s.wire
    ensures WireGood(t, c + [x], base)
  {
    forall i | 0 <= i < |t.wire| ensures GoodPacket(t.wire[i], c + [x], base, t.tcb.sndNxt) {
      GoodExtends(s.wire[i], c, x, base, s.tcb.sndNxt, t.tcb.sndNxt);
    }
  }

  lemma NoWrapPos(base: nat, c: seq<Skb>, k: nat)
    requires NoWrap(base, c) && k <= |c|
    ensures base <= Pos(base, c, k) <= Pos(base, c, |c|) == base + |Flat(c)| < MOD32 - 1
  {
    PosEnd(base, c);
    PosMonotone(base, c, 0, k);
    PosMonotone(base, c, k, |c|);
  }

  /** Transmitting segment `k` at its own position. */
  lemma SendNewIsGood(s: Sock, skb: Skb, c: seq<Skb>, base: nat, closed: bool, k: nat)
    requires WellCut(c, closed) && NoWrap(base, c) && k < |c|
    requires skb.payload == c[k].payload && skb.flags == c[k].flags && skb.options == []
    requires s.tcb.sndNxt == Pos(base, c, k)
    requires WireGood(s, c, base)
    ensures var t := SendNew(s, skb);
      && t == s.(wire := t.wire, tcb := s.tcb.(sndNxt := t.tcb.sndNxt)) && s.tcb.sndNxt <= t.tcb.sndNxt
      && WireGood(t, c, base)
      && t.tcb.sndNxt == Pos(base, c, k + 1) + (if closed && k + 1 == |c| then 1 else 0)
      && Stamp(skb, s.tcb.sndNxt).endSeq == Pos(base, c, k + 1)
  {
    PosNext(base, c, k);
    NoWrapPos(base, c, k);
    NoWrapPos(base, c, k + 1);
    var t := SendNew(s, skb);
    var p := t.wire[|s.wire|];
    assert t.wire == s.wire + [p];
    assert Carries(p, c, base, k);
    forall i | 0 <= i < |t.wire| ensures GoodPacket(t.wire[i], c, base, t.tcb.sndNxt) {
      if i < |s.wire| {
        assert t.wire[i] == s.wire[i];
      }
    }
  }

  /** Queueing one more segment keeps the layout exactly when nothing untransmitted is overtaken. */
  lemma QueueTransmitKeepsLayout(s: Sock, skb: Skb, now: nat, c: seq<Skb>, base: nat)
    requires Layout(s, c, base, false)
    requires WellFormed(skb) && NoWrap(base, c + [skb])
    ensures Layout(QueueTransmit(s, skb, now), c + [skb], base, skb.flags.fin)
            <==> s.inflight > 0 || s.writeQ == []
  {
    var t, d := QueueTransmit(s, skb, now), c + [skb];
    assert WellCut(d, skb.flags.fin);
    forall k | 0 <= k <= |c| ensures Pos(base, d, k) == Pos(base, c, k) { PosExtend(base, c, skb, k); }
    NoWrapPos(base, d, |c|);
    NoWrapPos(base, d, |d|);
    PosNext(base, d, |c|);
    if s.inflight == 0 && s.writeQ != [] {
      NoWrapPos(base, d, |d| - |t.writeQ|);
      assert t.writeQ[0] == s.writeQ[0];
      assert Holds(s.writeQ[0], c, base, |c| - |s.writeQ|, false);
      assert !Holds(t.writeQ[0], d, base, |d| - |t.writeQ|, true);
    } else {
      QueueTransmitPlaces(s, skb, now, c, base);
    }
  }

  lemma QueueTransmitEffect(s: Sock, skb: Skb, now: nat)
    requires s.inflight > 0 || s.writeQ == []
    requires s.inflight <= |s.writeQ|
    ensures var t := QueueTransmit(s, skb, now);
      && t.tcb.sndUna == s.tcb.sndUna
      && if s.writeQ == []
         then t.writeQ == [Stamp(skb, s.tcb.sndNxt)] && t.inflight == 1 && t.tcb.sndNxt == NextSeq(skb, s.tcb.sndNxt)
         else t.writeQ == s.writeQ + [skb] && t.inflight == s.inflight && t.tcb.sndNxt == s.tcb.sndNxt
  {

  }

  lemma QueueTransmitPlaces(s: Sock, skb: Skb, now: nat, c: seq<Skb>, base: nat)
    requires Layout(s, c, base, false)
    requires WellFormed(skb) && NoWrap(base, c + [skb])
    requires s.inflight > 0 || s.writeQ == []
    ensures Layout(QueueTransmit(s, skb, now), c + [skb], base, skb.flags.fin)
  {
    QueueTransmitEffect(s, skb, now);
    if s.writeQ == [] {
      FirstSegment(s, QueueTransmit(s, skb, now), skb, c, base);
    } else {
      LaterSegment(s, QueueTransmit(s, skb, now), skb, c, base);
    }
  }

  lemma FirstSegment(s: Sock, t: Sock, skb: Skb, c: seq<Skb>, base: nat)
    requires Layout(s, c, base, false) && s.writeQ == []
    requires WellFormed(skb) && NoWrap(base, c + [skb])
    requires t.writeQ == [Stamp(skb, s.tcb.sndNxt)] && t.inflight == 1
    requires t.tcb.sndUna == s.tcb.sndUna && t.tcb.sndNxt == NextSeq(skb, s.tcb.sndNxt)
    ensures Layout(t, c + [skb], base, skb.flags.fin)
  {
    var d := c + [skb];
    PosExtend(base, c, skb, |c|);
    NoWrapPos(base, d, |c|);
    NoWrapPos(base, d, |d|);
    PosNext(base, d, |c|);
    assert WellCut(d, skb.flags.fin);
    assert Holds(t.writeQ[0], d, base, |c|, true);
  }

  lemma LaterSegment(s: Sock, t: Sock, skb: Skb, c: seq<Skb>, base: nat)
    requires Layout(s, c, base, false) && s.inflight > 0
    requires WellFormed(skb) && NoWrap(base, c + [skb])
    requires t.writeQ == s.writeQ + [skb] && t.inflight == s.inflight
    requires t.tcb.sndUna == s.tcb.sndUna && t.tcb.sndNxt == s.tcb.sndNxt
    ensures Layout(t, c + [skb], base, skb.flags.fin)
  {
    PosExtend(base, c, skb, |c| - |s.writeQ|);
    PosExtend(base, c, skb, |c| - |s.writeQ| + s.inflight);
    AppendHolds(s, t, skb, c, base);
    assert WellCut(c + [skb], skb.flags.fin);
  }

  lemma AppendHolds(s: Sock, t: Sock, skb: Skb, c: seq<Skb>, base: nat)
    requires s.inflight <= |s.writeQ| <= |c| && QueueHolds(s, c, base)
    requires t.writeQ == s.writeQ + [skb] && t.inflight == s.inflight && WellFormed(skb)
    ensures QueueHolds(t, c + [skb], base)
  {
    forall i | 0 <= i < |t.writeQ|
      ensures Holds(t.writeQ[i], c + [skb], base, |c| + 1 - |t.writeQ| + i, i < t.inflight)
    {
      if i < |s.writeQ| {
        var k := |c| - |s.writeQ| + i;
        assert Holds(s.writeQ[i], c, base, k, i < s.inflight);
        PosExtend(base, c, skb, k);
        PosExtend(base, c, skb, k + 1);
      }
    }
  }

  // ----- acknowledgements -----

  /** An acknowledgement of the stream falls on a segment boundary, or covers the FIN. */
  predicate AckPoint(x: nat, c: seq<Skb>, base: nat, closed: bool) {
    || (exists m :: 0 <= m <= |c| && x == Pos(base, c, m))
    || (closed && x == Pos(base, c, |c|) + 1)
  }

  /** An acknowledgement point strictly between two neighbouring positions does not exist. */
  lemma AckPointBetween(x: nat, c: seq<Skb>, base: nat, closed: bool, k: nat)
    requires WellCut(c, closed) && k < |c| && AckPoint(x, c, base, closed)
    requires Pos(base, c, k) <= x < Pos(base, c, k + 1)
    ensures x == Pos(base, c, k)
  {
    PosMonotone(base, c, k + 1, |c|);
    var m :| 0 <= m <= |c| && x == Pos(base, c, m);
    if m < k {
      PosStrict(base, c, closed, m, k);
    } else if m > k {
      PosMonotone(base, c, k + 1, m);
    }
  }

  lemma CleanBounds(s: Sock, x: u32, c: seq<Skb>, base: nat)
    requires s.inflight <= |s.writeQ| <= |c| && QueueHolds(s, c, base) && 0 < base
    ensures var k, j := AckedPrefix(s.writeQ, x), |c| - |s.writeQ|;
      && k <= s.inflight
      && (k > 0 ==> Pos(base, c, j + k) <= x)
      && (k < s.inflight ==> x < Pos(base, c, j + k + 1))
  {
    hide Pos;
    var k, j := AckedPrefix(s.writeQ, x), |c| - |s.writeQ|;
    if s.inflight < |s.writeQ| {
      assert Holds(s.writeQ[s.inflight], c, base, j + s.inflight, false);
      assert !Acked(s.writeQ[s.inflight], x);
    }
    if k > 0 {
      assert Acked(s.writeQ[k - 1], x);
      assert Holds(s.writeQ[k - 1], c, base, j + k - 1, true);
    }
    if k < s.inflight {
      assert Holds(s.writeQ[k], c, base, j + k, true);
    }
  }

  /** What an acknowledgement removes from the queue has been transmitted and ends at the acknowledgement. */
  lemma CleanStopsAtAck(s: Sock, x: u32, c: seq<Skb>, base: nat, closed: bool)
    requires Layout(s, c, base, closed) && AckPoint(x, c, base, closed)
    requires s.tcb.sndUna < x <= s.tcb.sndNxt
    ensures var k, j := AckedPrefix(s.writeQ, x), |c| - |s.writeQ|;
      && k <= s.inflight
      && (k > 0 || s.writeQ == [])
      && (x == Pos(base, c, j + k) || (closed && j + k == |c| && x == Pos(base, c, |c|) + 1))
  {
    hide QueueHolds, Pos;
    var k, j := AckedPrefix(s.writeQ, x), |c| - |s.writeQ|;
    CleanBounds(s, x, c, base);
    PosMonotone(base, c, j, |c|);
    if k < s.inflight {
      PosMonotone(base, c, j + k + 1, |c|);
      AckPointBetween(x, c, base, closed, j + k);
    }
  }

  /** Removing what an acknowledgement covers leaves the queue laid out from the new `snd_una`. */
  lemma CleanKeepsLayout(s: Sock, t: Sock, x: u32, c: seq<Skb>, base: nat, closed: bool)
    requires Layout(s, c, base, closed) && AckPoint(x, c, base, closed)
    requires s.tcb.sndUna < x <= s.tcb.sndNxt
    requires var k := AckedPrefix(s.writeQ, x);
      && t.writeQ == s.writeQ[k..] && t.tcb.sndUna == x && t.tcb.sndNxt == s.tcb.sndNxt
      && t.inflight == if s.inflight >= k then s.inflight - k else 0
    ensures AckedPrefix(s.writeQ, x) <= s.inflight
    ensures Layout(t, c, base, closed)
    ensures |t.writeQ| < |s.writeQ| || s.writeQ == []
  {
    hide WellCut, Pos, QueueHolds, NoWrap;
    CleanStopsAtAck(s, x, c, base, closed);
    DropHolds(s, t, AckedPrefix(s.writeQ, x), c, base);
  }

  lemma DropHolds(s: Sock, t: Sock, k: nat, c: seq<Skb>, base: nat)
    requires k <= s.inflight <= |s.writeQ| <= |c| && QueueHolds(s, c, base)
    requires t.writeQ == s.writeQ[k..] && t.inflight == s.inflight - k
    ensures QueueHolds(t, c, base)
  {
    forall i | 0 <= i < |t.writeQ| ensures Holds(t.writeQ[i], c, base, |c| - |t.writeQ| + i, i < t.inflight) {
      assert Holds(s.writeQ[k + i], c, base, |c| - |s.writeQ| + k + i, k + i < s.inflight);
    }
  }

  // ----- sending what is queued -----

  /** Sending the untransmitted segments at positions `i..amount` of the queue. */
  lemma {:induction false} SendNextKeepsLayout(s: Sock, i: nat, amount: nat, c: seq<Skb>, base: nat, closed: bool)
    requires Layout(s, c, base, closed) && WireGood(s, c, base)
    requires i == s.inflight <= amount <= |s.writeQ| && amount <= MAX_BURST
    ensures var t := SendNextFrom(s, i, amount).(inflight := amount);
      && Layout(t, c, base, closed) && WireGood(t, c, base)
      && |t.writeQ| == |s.writeQ| && t.tcb == s.tcb.(sndNxt := t.tcb.sndNxt) && s.tcb.sndNxt <= t.tcb.sndNxt
      && t == s.(tcb := t.tcb, writeQ := t.writeQ, wire := t.wire, inflight := amount)
    decreases amount - i
  {
    hide SendNew, Pos, WellCut, NoWrap, GoodPacket;
    if i < amount {
      var k := |c| - |s.writeQ| + i;
      assert Holds(s.writeQ[i], c, base, k, false);
      SendNewIsGood(s, s.writeQ[i], c, base, closed, k);
      var s1 := SendNew(s, s.writeQ[i]).(writeQ := s.writeQ[i := Stamp(s.writeQ[i], s.tcb.sndNxt)]);
      StampKeepsLayout(s, s1.(inflight := i + 1), c, base, closed);
      SendNextKeepsLayout(s1.(inflight := i + 1), i + 1, amount, c, base, closed);
      SendNextIgnoresInflight(s1, i + 1, i + 1, amount);
    }
  }

  lemma {:induction false} SendNextIgnoresInflight(s: Sock, n: nat, i: nat, amount: nat)
    ensures SendNextFrom(s.(inflight := n), i, amount) == SendNextFrom(s, i, amount).(inflight := n)
    decreases amount - i
  {
    if i < amount && i < |s.writeQ| {
      SendNextIgnoresInflight(
        SendNew(s, s.writeQ[i]).(writeQ := s.writeQ[i := Stamp(s.writeQ[i], s.tcb.sndNxt)]), n, i + 1, amount);
    }
  }

  lemma StampKeepsLayout(s: Sock, t: Sock, c: seq<Skb>, base: nat, closed: bool)
    requires Layout(s, c, base, closed) && s.inflight < |s.writeQ| && s.inflight < MAX_BURST
    requires t.inflight == s.inflight + 1 && t.tcb.sndUna == s.tcb.sndUna
    requires t.writeQ == s.writeQ[s.inflight := Stamp(s.writeQ[s.inflight], s.tcb.sndNxt)]
    requires var k := |c| - |s.writeQ| + s.inflight;
      t.tcb.sndNxt == Pos(base, c, k + 1) + if closed && k + 1 == |c| then 1 else 0
    ensures Layout(t, c, base, closed)
  {
    hide WellCut;
    StampHolds(s, t, c, base);
  }

  lemma StampHolds(s: Sock, t: Sock, c: seq<Skb>, base: nat)
    requires s.inflight < |s.writeQ| <= |c| && QueueHolds(s, c, base) && NoWrap(base, c)
    requires s.tcb.sndNxt == Pos(base, c, |c| - |s.writeQ| + s.inflight)
    requires t.inflight == s.inflight + 1
    requires t.writeQ == s.writeQ[s.inflight := Stamp(s.writeQ[s.inflight], s.tcb.sndNxt)]
    ensures QueueHolds(t, c, base)
  {
    var j := |c| - |s.writeQ|;
    NoWrapPos(base, c, j + s.inflight + 1);
    PosNext(base, c, j + s.inflight);
    hide Pos;
    forall i | 0 <= i < |t.writeQ| ensures Holds(t.writeQ[i], c, base, j + i, i < t.inflight) {
      assert Holds(s.writeQ[i], c, base, j + i, i < s.inflight);
    }
  }

  // ----- retransmission -----

  /** The head of the queue is what `snd_una` points at, so resending it there repeats it faithfully. */
  lemma RetransmitIsGood(s: Sock, c: seq<Skb>, base: nat, closed: bool)
    requires Layout(s, c, base, closed) && WireGood(s, c, base) && s.inflight > 0
    ensures WireGood(Transmit(s, s.writeQ[0], s.tcb.sndUna), c, base)
    ensures Carries(PacketFor(s, s.writeQ[0], s.tcb.sndUna), c, base, |c| - |s.writeQ|)
    ensures s.tcb.sndUna == s.writeQ[0].seqNo
  {
    var j := |c| - |s.writeQ|;
    var p := PacketFor(s, s.writeQ[0], s.tcb.sndUna);
    assert Holds(s.writeQ[0], c, base, j, true);
    assert Carries(p, c, base, j);
    PosMonotone(base, c, j + 1, j + s.inflight);
    assert c[j].flags.fin ==> closed && j == |c| - 1;
    assert GoodPacket(p, c, base, s.tcb.sndNxt);
    var t := Transmit(s, s.writeQ[0], s.tcb.sndUna);
    forall i | 0 <= i < |t.wire| ensures GoodPacket(t.wire[i], c, base, t.tcb.sndNxt) {
      assert i < |s.wire| ==> t.wire[i] == s.wire[i];
    }
  }
}
