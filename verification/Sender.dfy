/** What every event keeps of a socket that sends a stream to a peer which sends only acknowledgements. */
module Sender {
  import opened Words
  import opened TcpTypes
  import opened Tcp
  import opened TcpOutput
  import opened TcpData
  import opened TcpInput
  import opened Host
  import opened Stream
  import opened SenderQueue

  /** The states in which queued data is sent and arriving data accepted. */
  predicate Live(s: Sock) {
    AcceptsText(s)
  }

  /** A live sender: its queue is laid out, its timer armed, its half closed exactly when a FIN is queued. */
  predicate Sending(s: Sock, c: seq<Skb>, base: nat, closed: bool, peer: u32) {
    && Live(s) && (closed <==> s.state != Established)
    && s.tcb.rcvNxt == peer
    && Layout(s, c, base, closed) && Armed(s)
  }

  /** A sender that gave up, was reset or was aborted: no retransmission timer will run again. */
  predicate Retired(s: Sock) {
    s.state in {Closing, TimeWait} && s.rtx.timer == None && s.rtx.strays == []
  }

  predicate SenderInv(s: Sock, c: seq<Skb>, base: nat, closed: bool, peer: u32) {
    WireGood(s, c, base) && (Sending(s, c, base, closed, peer) || Retired(s))
  }

  /** What the peer sends: segments without data or FIN that lie in sequence or are stale, whose
      acknowledgements fall on segment boundaries. */
  predicate GoodAck(p: Packet, c: seq<Skb>, base: nat, closed: bool, peer: u32) {
    && Pure(p) && p.seqNo <= peer
    && (p.flags.ack ==> AckPoint(p.ackSeq, c, base, closed))
  }

  // ----- packets that carry nothing -----

  lemma PureKeepsWire(s: Sock, t: Sock, p: Packet, c: seq<Skb>, base: nat)
    requires WireGood(s, c, base) && t.wire == s.wire + [p] && Pure(p) && s.tcb.sndNxt <= t.tcb.sndNxt
    ensures WireGood(t, c, base)
  {
    forall i | 0 <= i < |t.wire| ensures GoodPacket(t.wire[i], c, base, t.tcb.sndNxt) {
      assert i < |s.wire| ==> t.wire[i] == s.wire[i];
    }
  }

  lemma SendAckEffect(s: Sock)
    ensures var t := SendAck(s);
      && t == s.(sack := t.sack, wire := t.wire)
      && t.wire == (if s.state == Close then s.wire else s.wire + [AckPacket(s)])
    ensures Pure(AckPacket(s)) && AckPacket(s).seqNo == s.tcb.sndNxt && AckPacket(s).ackSeq == s.tcb.rcvNxt
  {
  }

  lemma SendAckKeepsWire(s: Sock, c: seq<Skb>, base: nat)
    requires WireGood(s, c, base)
    ensures WireGood(SendAck(s), c, base)
  {
    SendAckEffect(s);
    hide SendAck;
    if s.state != Close {
      PureKeepsWire(s, SendAck(s), AckPacket(s), c, base);
    }
  }

  // ----- acknowledgements arrive -----

  /** Between the clean-up and the next burst the queue may hold only untransmitted segments. */
  predicate Cleaned(s: Sock, c: seq<Skb>, base: nat, closed: bool, peer: u32) {
    && Live(s) && (closed <==> s.state != Established)
    && s.tcb.rcvNxt == peer
    && Layout(s, c, base, closed)
    && (s.rtx.timer.Some? <==> s.inflight > 0)
    && (s.rtx.timer.Some? ==> s.rtx.timer.value.handler == RetransmissionTimeout)
    && s.rtx.strays == []
  }

  lemma AckStageCleans(s: Sock, p: Packet, now: nat, c: seq<Skb>, base: nat, closed: bool, peer: u32)
    requires Sending(s, c, base, closed, peer) && AckPoint(p.ackSeq, c, base, closed)
    ensures var t := AckStage(s, p, now);
      && Cleaned(t, c, base, closed, peer)
      && t.wire == s.wire && t.state == s.state && t.tcb.sndNxt == s.tcb.sndNxt
      && (NewAck(s, p) ==> t.tcb.sndUna == p.ackSeq && (|t.writeQ| < |s.writeQ| || s.writeQ == []))
      && (!NewAck(s, p) ==> t == s)
  {
    if NewAck(s, p) {
      hide Layout;
      AckStageFields(s, p, now);
      var t := AckStage(s, p, now);
      hide AckStage;
      CleanKeepsLayout(s, t, p.ackSeq, c, base, closed);
      LayoutBounds(s, c, base, closed);
      LayoutBounds(t, c, base, closed);
    }
  }

  lemma LayoutBounds(s: Sock, c: seq<Skb>, base: nat, closed: bool)
    requires Layout(s, c, base, closed)
    ensures s.inflight <= |s.writeQ| <= |c| && s.inflight <= MAX_BURST
  {
  }

  lemma AckStageFields(s: Sock, p: Packet, now: nat)
    requires NewAck(s, p)
    ensures var t, k := AckStage(s, p, now), AckedPrefix(s.writeQ, p.ackSeq);
      && t == s.(tcb := s.tcb.(sndUna := p.ackSeq), writeQ := s.writeQ[k..], inflight := t.inflight, rtx := t.rtx)
      && t.inflight == (if s.inflight >= k then s.inflight - k else 0)
      && t.rtx.strays == s.rtx.strays
      && t.rtx.timer == if t.writeQ == [] || t.inflight == 0 then None else s.rtx.timer
  {
  }

  lemma LayoutSame(s: Sock, t: Sock, c: seq<Skb>, base: nat, closed: bool)
    requires Layout(s, c, base, closed)
    requires t.writeQ == s.writeQ && t.inflight == s.inflight
    requires t.tcb.sndUna == s.tcb.sndUna && t.tcb.sndNxt == s.tcb.sndNxt
    ensures Layout(t, c, base, closed)
  {
  }

  lemma WireSame(s: Sock, t: Sock, c: seq<Skb>, base: nat)
    requires WireGood(s, c, base) && t.wire == s.wire && s.tcb.sndNxt <= t.tcb.sndNxt
    ensures WireGood(t, c, base)
  {
    forall i | 0 <= i < |t.wire| ensures GoodPacket(t.wire[i], c, base, t.tcb.sndNxt) {
      assert GoodPacket(s.wire[i], c, base, s.tcb.sndNxt);
    }
  }

  lemma BurstSends(s: Sock, now: nat, c: seq<Skb>, base: nat, closed: bool, peer: u32)
    requires Cleaned(s, c, base, closed, peer) && WireGood(s, c, base) && s.inflight == 0 && s.writeQ != []
    ensures var t := Burst(s, now);
      && Sending(t, c, base, closed, peer) && WireGood(t, c, base)
      && |t.writeQ| == |s.writeQ| && t.tcb.sndUna == s.tcb.sndUna && s.tcb.sndNxt <= t.tcb.sndNxt
  {
    LayoutBounds(s, c, base, closed);
    hide WireGood, Layout, NoWrap;
    var pending := Min(|s.writeQ|, MAX_BURST);
    SendNextKeepsLayout(s, 0, pending, c, base, closed);
    var s2 := SendNext(s, pending).(inflight := pending);
    LayoutSame(s2, RearmRto(s2, now), c, base, closed);
    WireSame(s2, RearmRto(s2, now), c, base);
  }

  lemma AckPolicySends(s: Sock, p: Packet, now: nat, c: seq<Skb>, base: nat, closed: bool, peer: u32)
    requires Cleaned(s, c, base, closed, peer) && WireGood(s, c, base) && Pure(p)
    ensures var t := AckPolicy(s, p, now);
      && Sending(t, c, base, closed, peer) && WireGood(t, c, base)
      && |t.writeQ| == |s.writeQ| && t.tcb.sndUna == s.tcb.sndUna && s.tcb.sndNxt <= t.tcb.sndNxt
  {
    LayoutBounds(s, c, base, closed);
    var s1 := s.(delack := None);
    LayoutSame(s, s1, c, base, closed);
    WireSame(s, s1, c, base);
    hide WireGood, Layout, NoWrap;
    if s.inflight == 0 && s.writeQ != [] {
      BurstSends(s1, now, c, base, closed, peer);
      hide Burst, Sending;
    }
  }

  lemma SendAckKeepsSending(s: Sock, c: seq<Skb>, base: nat, closed: bool, peer: u32)
    requires SenderInv(s, c, base, closed, peer)
    ensures SenderInv(SendAck(s), c, base, closed, peer)
  {
    SendAckKeepsWire(s, c, base);
    SendAckEffect(s);
    hide SendAck, WireGood;
    if Sending(s, c, base, closed, peer) {
      LayoutSame(s, SendAck(s), c, base, closed);
    }
  }

  /** Everything `tcp_input_state` does after the ACK check, for a segment without text or FIN. */
  lemma ProcessPureSends(s: Sock, p: Packet, now: nat, c: seq<Skb>, base: nat, closed: bool, peer: u32)
    requires Cleaned(s, c, base, closed, peer) && WireGood(s, c, base)
    requires Pure(p) && p.seqNo == peer
    ensures var t := ProcessText(FinAcked(s, p), p, now);
      && Sending(t, c, base, closed, peer) && WireGood(t, c, base)
      && |t.writeQ| == |s.writeQ| && t.tcb.sndUna == s.tcb.sndUna && s.tcb.sndNxt <= t.tcb.sndNxt
  {
    var s1 := FinAcked(s, p);
    hide WireGood;
    LayoutSame(s, s1, c, base, closed);
    WireSame(s, s1, c, base);
    if s.state == FinWait1 {
      assert closed;
    }
    AckPolicySends(s1, p, now, c, base, closed, peer);
    hide Layout, AckPolicy;
    assert ProcessText(s1, p, now) == AckPolicy(s1, p, now);
  }

  lemma AckArrives(s: Sock, p: Packet, now: nat, c: seq<Skb>, base: nat, closed: bool, peer: u32)
    requires Sending(s, c, base, closed, peer) && WireGood(s, c, base)
    requires GoodAck(p, c, base, closed, peer) && p.flags.ack && p.seqNo == peer
    ensures var t := ProcessAck(s, p, now);
      && Sending(t, c, base, closed, peer) && WireGood(t, c, base)
      && |t.writeQ| <= |s.writeQ| && s.tcb.sndNxt <= t.tcb.sndNxt
      && (NewAck(s, p) && s.writeQ != [] ==> |t.writeQ| < |s.writeQ|)
  {
    AckStageCleans(s, p, now, c, base, closed, peer);
    hide Layout, WireGood, AckStage;
    var s1 := AckStage(s, p, now);
    WireSame(s, s1, c, base);
    ProcessPureSends(s1, p, now, c, base, closed, peer);
  }

  /** Any segment of a data-less peer keeps the sender in order, or retires it. */
  lemma InputKeepsSender(s: Sock, p: Packet, now: nat, c: seq<Skb>, base: nat, closed: bool, peer: u32)
    requires SenderInv(s, c, base, closed, peer) && GoodAck(p, c, base, closed, peer)
    ensures SenderInv(Input(s, p, now), c, base, closed, peer)
    ensures s.tcb.sndNxt <= Input(s, p, now).tcb.sndNxt
  {
    if Sending(s, c, base, closed, peer) {
      SendAckKeepsSending(s, c, base, closed, peer);
      if VerifySegment(s, p) && !p.flags.rst && !p.flags.syn && p.flags.ack {
        AckArrives(s, p, now, c, base, closed, peer);
        hide ProcessAck, SendAck, WireGood, Layout;
      } else if VerifySegment(s, p) && p.flags.rst {
        hide SendAck, WireGood, ProcessAck, Layout;
        WireSame(s, EnterTimeWait(s, now), c, base);
      } else {
        hide SendAck, ProcessAck, WireGood, Layout;
      }
    } else {
      InputKeepsRetired(s, p, now, c, base);
    }
  }

  lemma InputKeepsRetired(s: Sock, p: Packet, now: nat, c: seq<Skb>, base: nat)
    requires WireGood(s, c, base) && Retired(s) && Pure(p)
    ensures var t := Input(s, p, now); WireGood(t, c, base) && Retired(t) && t.tcb.sndNxt == s.tcb.sndNxt
  {
    if VerifySegment(s, p) && !p.flags.rst && !p.flags.syn && p.flags.ack {
      AckKeepsRetired(s, p, now, c, base);
      hide ProcessAck, WireGood;
    } else {
      SendAckKeepsWire(s, c, base);
      SendAckEffect(s);
      hide SendAck, WireGood, ProcessAck;
      WireSame(s, EnterTimeWait(s, now), c, base);
    }
  }

  lemma AckKeepsRetired(s: Sock, p: Packet, now: nat, c: seq<Skb>, base: nat)
    requires WireGood(s, c, base) && Retired(s) && Pure(p)
    ensures var t := ProcessAck(s, p, now); WireGood(t, c, base) && Retired(t) && t.tcb.sndNxt == s.tcb.sndNxt
  {
    var s1 := if s.state == TimeWait then s else AckStage(s, p, now);
    if s.state != TimeWait && NewAck(s, p) {
      AckStageFields(s, p, now);
    }
    hide AckStage, WireGood;
    WireSame(s, s1, c, base);
    FinAckedKeepsRetired(s1, p, c, base);
    hide FinAcked;
  }

  lemma FinAckedKeepsRetired(s: Sock, p: Packet, c: seq<Skb>, base: nat)
    requires WireGood(s, c, base) && Retired(s)
    ensures WireGood(FinAcked(s, p), c, base) && Retired(FinAcked(s, p))
    ensures FinAcked(s, p).tcb == s.tcb
  {
    var s1 := s.(inbox := s.inbox.(fin := true));
    WireSame(s, s1, c, base);
    SendAckKeepsWire(s1, c, base);
    SendAckEffect(s1);
    WireSame(s, s.(state := TimeWait), c, base);
    hide SendAck, WireGood;
  }

  // ----- the user writes and closes -----

  lemma {:induction false} SegmentizeCutsStream(buf: seq<byte>, mss: nat)
    requires mss > 0
    ensures var q := Segmentize(buf, mss);
      && Flat(q) == buf
      && forall k :: 0 <= k < |q| ==>
           && WellFormed(q[k]) && !q[k].flags.fin && 0 < |q[k].payload| <= mss
           && (q[k].flags.psh <==> k == |q| - 1)
  {
    if 0 < |buf| <= mss {
      FlatCons(Segmentize(buf, mss)[0], []);
    } else if |buf| > mss {
      SegmentizeCutsStream(buf[mss..], mss);
      FlatCons(Skb(0, 0, ACK_FLAGS, [], buf[..mss]), Segmentize(buf[mss..], mss));
      assert buf == buf[..mss] + buf[mss..];
    }
  }

  lemma QueueTransmitKeepsSender(s: Sock, skb: Skb, now: nat, c: seq<Skb>, base: nat)
    requires Layout(s, c, base, false) && Armed(s) && WireGood(s, c, base) && s.state != SynSent
    requires WellFormed(skb) && NoWrap(base, c + [skb])
    ensures var t := QueueTransmit(s, skb, now);
      && Layout(t, c + [skb], base, skb.flags.fin) && Armed(t) && WireGood(t, c + [skb], base)
      && t.state == s.state && t.tcb.rcvNxt == s.tcb.rcvNxt && s.tcb.sndNxt <= t.tcb.sndNxt
  {
    QueueTransmitPlaces(s, skb, now, c, base);
    hide Layout, WireGood;
    var t := QueueTransmit(s, skb, now);
    if s.writeQ == [] {
      FirstSegmentIsGood(s, skb, now, c, base);
    } else {
      WireExtends(s, t, c, skb, base);
    }
  }

  lemma FirstSegmentIsGood(s: Sock, skb: Skb, now: nat, c: seq<Skb>, base: nat)
    requires Layout(s, c, base, false) && WireGood(s, c, base) && s.writeQ == []
    requires WellFormed(skb) && NoWrap(base, c + [skb])
    ensures WireGood(QueueTransmit(s, skb, now), c + [skb], base)
    ensures s.tcb.sndNxt <= QueueTransmit(s, skb, now).tcb.sndNxt
  {
    var d, s1 := c + [skb], RearmRto(s, now);
    hide WireGood;
    WireExtends(s, s1, c, skb, base);
    PosExtend(base, c, skb, |c|);
    SendNewIsGood(s1, skb, d, base, skb.flags.fin, |c|);
    WireSame(SendNew(s1, skb), QueueTransmit(s, skb, now), d, base);
  }

  lemma {:induction false} QueueAllKeepsSender(
      s: Sock, skbs: seq<Skb>, now: nat, c: seq<Skb>, base: nat, peer: u32)
    requires Sending(s, c, base, false, peer) && WireGood(s, c, base)
    requires forall k :: 0 <= k < |skbs| ==> WellFormed(skbs[k]) && !skbs[k].flags.fin
    requires NoWrap(base, c + skbs)
    ensures var t := QueueAll(s, skbs, now);
      && Sending(t, c + skbs, base, false, peer) && WireGood(t, c + skbs, base)
      && s.tcb.sndNxt <= t.tcb.sndNxt
    decreases |skbs|
  {
    if skbs == [] {
      assert c + skbs == c;
    } else {
      var d, s1 := c + [skbs[0]], QueueTransmit(s, skbs[0], now);
      assert d + skbs[1..] == c + skbs;
      FlatAppend(d, skbs[1..]);
      QueueTransmitKeepsSender(s, skbs[0], now, c, base);
      hide QueueTransmit, Layout, WireGood;
      QueueAllKeepsSender(s1, skbs[1..], now, d, base, peer);
    }
  }

  // ----- timers and teardown -----

  lemma RtoKeepsSender(s: Sock, now: nat, c: seq<Skb>, base: nat, closed: bool, peer: u32)
    requires Sending(s, c, base, closed, peer) && WireGood(s, c, base) && s.rtx.timer.Some?
    ensures SenderInv(RetransmissionTimeoutFires(s, now), c, base, closed, peer)
    ensures s.tcb.sndNxt == RetransmissionTimeoutFires(s, now).tcb.sndNxt
    ensures s.rtx.rto <= MAX_RTO ==> Sending(RetransmissionTimeoutFires(s, now), c, base, closed, peer)
  {
    RetransmitIsGood(s, c, base, closed);
    assert s.state == Established ==> !s.writeQ[0].flags.fin by {
      assert Holds(s.writeQ[0], c, base, |c| - |s.writeQ|, true);
    }
    var t := RetransmissionTimeoutFires(s, now);
    hide WireGood;
    WireSame(Transmit(s, s.writeQ[0], s.tcb.sndUna), t, c, base);
    if s.rtx.rto <= MAX_RTO {
      LayoutSame(s, t, c, base, closed);
    }
    hide Layout;
  }

  lemma TeardownKeepsWire(s: Sock, c: seq<Skb>, base: nat)
    requires WireGood(s, c, base) && s.rtx.strays == []
    ensures WireGood(Done(s), c, base) && Retired(Done(s))
    ensures WireGood(Abort(s), c, base) && Retired(Abort(s))
    ensures Done(s).tcb == s.tcb && Abort(s).tcb.sndNxt == s.tcb.sndNxt
  {
    WireSame(s, Done(s), c, base);
    var s1 := SendReset(s);
    var rst := Skb(0, 0, Flags(false, false, true, false, false), [], []);
    PureKeepsWire(s, s1, PacketFor(s.(tcb := s.tcb.(sndUna := s.tcb.sndNxt)), rst, s.tcb.sndNxt), c, base);
    hide WireGood;
    WireSame(s1, Done(s1), c, base);
  }

  /** The segments that an event adds to the stream. */
  function NewSegments(s: Sock, e: Event): seq<Skb> {
    match e
    case WriteCall(buf) => if Writable(s) then Segmentize(buf, s.smss) else []
    case CloseRequest => if s.state == Established then [FIN_SKB] else []
    case _ => []
  }

  predicate Closes(s: Sock, e: Event) {
    e.CloseRequest? && s.state == Established
  }

  lemma WriteKeepsSender(s: Sock, buf: seq<byte>, now: nat, c: seq<Skb>, base: nat, closed: bool, peer: u32)
    requires SenderInv(s, c, base, closed, peer)
    requires NoWrap(base, c + NewSegments(s, WriteCall(buf)))
    ensures SenderInv(Write(s, buf, now), c + NewSegments(s, WriteCall(buf)), base, closed, peer)
    ensures s.tcb.sndNxt <= Write(s, buf, now).tcb.sndNxt
  {
    var more := NewSegments(s, WriteCall(buf));
    if Writable(s) {
      SegmentizeCutsStream(buf, s.smss);
      QueueAllKeepsSender(s, more, now, c, base, peer);
      var s1 := QueueAll(s, more, now);
      hide Layout, WireGood, QueueAll;
      LayoutSame(s1, Write(s, buf, now), c + more, base, closed);
      WireSame(s1, Write(s, buf, now), c + more, base);
    } else {
      assert c + more == c;
    }
  }

  lemma CloseKeepsSender(s: Sock, now: nat, c: seq<Skb>, base: nat, closed: bool, peer: u32)
    requires SenderInv(s, c, base, closed, peer)
    requires NoWrap(base, c + NewSegments(s, CloseRequest))
    ensures SenderInv(CloseCall(s, now), c + NewSegments(s, CloseRequest), base, closed || Closes(s, CloseRequest), peer)
    ensures s.tcb.sndNxt <= CloseCall(s, now).tcb.sndNxt
  {
    var t := CloseCall(s, now);
    hide WireGood;
    if s.state == Established {
      var s1 := s.(state := FinWait1);
      LayoutSame(s, s1, c, base, false);
      WireSame(s, s1, c, base);
      hide Layout;
      QueueTransmitKeepsSender(s1, FIN_SKB, now, c, base);
    } else {
      assert c + NewSegments(s, CloseRequest) == c;
      WireSame(s, t, c, base);
      if Sending(s, c, base, closed, peer) {
        LayoutSame(s, t, c, base, closed);
        hide Layout;
      }
    }
  }

  /** Reading touches only what is waiting for the reader, and the user timeout. */
  lemma ReadEffect(s: Sock, n: nat, blocking: bool, now: nat)
    ensures var t := Read(s, n, blocking, now).0; t == s.(inbox := t.inbox, linger := t.linger)
  {
    hide Dequeue;
  }

  lemma ReadKeepsSender(s: Sock, n: nat, blocking: bool, now: nat, c: seq<Skb>, base: nat, closed: bool, peer: u32)
    requires SenderInv(s, c, base, closed, peer)
    ensures SenderInv(Read(s, n, blocking, now).0, c, base, closed, peer)
    ensures s.tcb.sndNxt == Read(s, n, blocking, now).0.tcb.sndNxt
  {
    ReadEffect(s, n, blocking, now);
    var t := Read(s, n, blocking, now).0;
    hide WireGood, Read;
    WireSame(s, t, c, base);
    if Sending(s, c, base, closed, peer) {
      LayoutSame(s, t, c, base, closed);
    }
    hide Layout;
  }

  lemma DelackKeepsSender(s: Sock, c: seq<Skb>, base: nat, closed: bool, peer: u32)
    requires SenderInv(s, c, base, closed, peer)
    ensures SenderInv(DelackFires(s), c, base, closed, peer)
    ensures s.tcb.sndNxt == DelackFires(s).tcb.sndNxt
  {
    var s1 := s.(delacks := 0, delack := None);
    hide WireGood, SendAck;
    WireSame(s, s1, c, base);
    if Sending(s, c, base, closed, peer) {
      LayoutSame(s, s1, c, base, closed);
    }
    hide Layout;
    SendAckKeepsSending(s1, c, base, closed, peer);
  }

  lemma LingerKeepsSender(s: Sock, h: Handler, c: seq<Skb>, base: nat, closed: bool, peer: u32)
    requires SenderInv(s, c, base, closed, peer)
    ensures SenderInv(LingerFires(s, h), c, base, closed, peer)
    ensures s.tcb.sndNxt == LingerFires(s, h).tcb.sndNxt
  {
    hide WireGood, Layout, Abort, Done;
    WireSame(s, s.(linger := None), c, base);
    TeardownKeepsWire(s.(linger := None), c, base);
  }

  /** Whatever the user and the timers do, the sender keeps its stream in order. */
  lemma EventKeepsSender(s: Sock, e: Event, now: nat, c: seq<Skb>, base: nat, closed: bool, peer: u32)
    requires SenderInv(s, c, base, closed, peer) && !e.Arrival?
    requires NoWrap(base, c + NewSegments(s, e))
    ensures SenderInv(Step(s, e, now), c + NewSegments(s, e), base, closed || Closes(s, e), peer)
    ensures s.tcb.sndNxt <= Step(s, e, now).tcb.sndNxt
  {
    hide WireGood, Layout, Write, CloseCall, Read, Abort, RetransmissionTimeoutFires, DelackFires, LingerFires, NoWrap;
    if e.WriteCall? {
      WriteKeepsSender(s, e.buf, now, c, base, closed, peer);
    } else if e.CloseRequest? {
      CloseKeepsSender(s, now, c, base, closed, peer);
    } else {
      assert c + NewSegments(s, e) == c;
      OtherEventKeepsSender(s, e, now, c, base, closed, peer);
    }
  }

  lemma OtherEventKeepsSender(s: Sock, e: Event, now: nat, c: seq<Skb>, base: nat, closed: bool, peer: u32)
    requires SenderInv(s, c, base, closed, peer) && !e.Arrival? && !e.WriteCall? && !e.CloseRequest?
    ensures SenderInv(Step(s, e, now), c, base, closed, peer)
    ensures s.tcb.sndNxt == Step(s, e, now).tcb.sndNxt
  {
    hide WireGood, Layout, Read, Abort, RetransmissionTimeoutFires, DelackFires, LingerFires;
    match e {
      case ConnectCall(iss) =>
      case ReadCall(n, blocking) => ReadKeepsSender(s, n, blocking, now, c, base, closed, peer);
      case AbortRequest => TeardownKeepsWire(s, c, base);
      case RtoExpires =>
        if Due(s.rtx.timer, now) {
          RtoKeepsSender(s, now, c, base, closed, peer);
        }
      case StrayExpires(i) =>
      case DelackExpires => DelackKeepsSender(s, c, base, closed, peer);
      case LingerExpires =>
        if Due(s.linger, now) {
          LingerKeepsSender(s, s.linger.value.handler, c, base, closed, peer);
        }
    }
  }
}
