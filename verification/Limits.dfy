/** Where the code does not do what RFC 793 asks for: the exact conditions, and runs that show the failures. */
module Limits {
  import opened Words
  import opened TcpTypes
  import opened Tcp
  import opened TcpOutput
  import opened TcpData
  import opened TcpInput
  import opened Host
  import opened Stream
  import opened SenderQueue
  import opened Sender
  import opened Receiver
  import opened AckSource
  import opened Network
  import opened Invariants
  import Progress
  import Arrivals

  // ----- initial sequence numbers -----

  /** An active open ends established, with its SYN off the retransmission queue, exactly for initial
      sequence numbers other than 0 and 2^32 - 1. With 0 the test `seq > 0` in `tcp_clean_rto_queue` keeps
      the SYN queued for ever; with 2^32 - 1 the acknowledgement 0 is not above `iss`. */
  lemma HandshakeNeedsGoodIss(iss: u32, peer: u32, options: seq<byte>, now: nat)
    ensures var s := Opened(iss, peer, options, now);
      s.state == Established && s.writeQ == [] <==> GoodIss(iss)
  {
    hide ParseFrom, SynOptions, PacketFor, SacksAfter;
  }

  // ----- a receive window that reaches past 2^32 -----

  /** `tcp_verify_segment` compares without regard to wrap-around: some segment passes exactly while the right
      edge of the window is below 2^32. */
  lemma WindowAcceptsSome(s: Sock)
    ensures (exists p :: VerifySegment(s, p)) <==> s.tcb.rcvNxt + s.tcb.rcvWnd < MOD32
  {
    if s.tcb.rcvNxt + s.tcb.rcvWnd < MOD32 {
      assert VerifySegment(s, Packet(s.tcb.rcvNxt, 0, ACK_FLAGS, [], []));
    }
  }

  /** While the window is closed only a segment without data passes, and only the next in sequence. */
  lemma ClosedWindowTakesNoData(s: Sock, p: Packet)
    requires s.tcb.rcvWnd == 0
    ensures VerifySegment(s, p) <==> p.payload == [] && p.seqNo == s.tcb.rcvNxt
  {
  }

  /** Nothing received, and a window that nothing can pass. */
  predicate Deaf(s: Sock) {
    Open(s) && s.inbox.recvQ == [] && s.tcb.rcvNxt + s.tcb.rcvWnd >= MOD32
  }

  lemma DeafArrival(s: Sock, p: Packet, now: nat)
    requires Deaf(s)
    ensures Input(s, p, now) == s || Input(s, p, now) == SendAck(s)
  {
    hide SendAck, ProcessAck, EnterTimeWait, SynSentInput, SendReset;
  }

  lemma DeafRead(s: Sock, n: nat, blocking: bool, now: nat)
    requires Deaf(s)
    ensures var (t, data) := Read(s, n, blocking, now); Deaf(t) && t.tcb == s.tcb && data == []
  {
  }

  lemma DeafStep(s: Sock, e: Event, now: nat)
    requires Deaf(s)
    ensures Deaf(Step(s, e, now)) && Step(s, e, now).tcb.rcvNxt == s.tcb.rcvNxt && Delivered(s, e, now) == []
  {
    match e {
      case Arrival(p) =>
        DeafArrival(s, p, now);
        SendAckInbox(s);
        hide SendAck, Input;
      case ReadCall(n, blocking) =>
        DeafRead(s, n, blocking, now);
        hide Read, Deaf;
      case _ =>
        OtherEventInbox(s, e, now);
        hide Step;
    }
  }

  lemma {:induction false} DeafRun(s: Sock, trace: seq<(Event, nat)>)
    requires Deaf(s)
    ensures Deaf(Run(s, trace)) && Run(s, trace).tcb.rcvNxt == s.tcb.rcvNxt && ReadOver(s, trace) == []
  {
    if trace != [] {
      var n := |trace| - 1;
      DeafRun(s, trace[..n]);
      hide Step, Deaf, Delivered;
      DeafStep(Run(s, trace[..n]), trace[n].0, trace[n].1);
    }
  }

  /** A byte in sequence, pushed. */
  function ByteFor(s: Sock): Packet {
    Packet(s.tcb.rcvNxt, s.tcb.sndNxt, Flags(false, false, false, true, true), [], [0])
  }

  lemma ByteIsRead(s: Sock, iss: u32, peer: u32, now: nat)
    requires JustOpened(s, iss, peer) && peer + 1 + INITIAL_WINDOW < MOD32
    ensures ReadOver(s, [(Arrival(ByteFor(s)), now), (ReadCall(1, false), now)]) == [0]
  {
    ByteArrives(s, iss, peer, now);
    WaitingByte(Input(s, ByteFor(s), now), SkbOf(ByteFor(s)), now);
    hide *;
    ReadOverTwo(s, ByteFor(s), now);
  }

  lemma WaitingByte(t: Sock, skb: Skb, now: nat)
    requires t.state == Established && t.inbox.recvQ == [skb] && skb.payload == [0]
    ensures Read(t, 1, false, now).1 == [0]
  {
    assert Dequeue([skb], 1).0 == [0];
    hide Dequeue;
  }

  lemma ReadOverTwo(s: Sock, p: Packet, now: nat)
    ensures ReadOver(s, [(Arrival(p), now), (ReadCall(1, false), now)]) == Read(Input(s, p, now), 1, false, now).1
  {
    var trace: seq<(Event, nat)> := [(Arrival(p), now), (ReadCall(1, false), now)];
    var none: seq<(Event, nat)> := [];
    assert trace[..1] == [trace[0]] && trace[..1][..0] == none;
    assert Run(s, trace[..1]) == Input(s, p, now) by { hide Input; }
    hide Input, Read;
    assert ReadOver(s, trace[..1]) == [];
    assert ReadOver(s, trace) == [] + Read(Input(s, p, now), 1, false, now).1;
  }

  lemma ByteArrives(s: Sock, iss: u32, peer: u32, now: nat)
    requires JustOpened(s, iss, peer) && peer + 1 + INITIAL_WINDOW < MOD32
    ensures var t := Input(s, ByteFor(s), now); t.state == Established && t.inbox.recvQ == [SkbOf(ByteFor(s))]
  {
    var p := ByteFor(s);
    Progress.GoesToText(s, p, now);
    AcceptsByte(s, p);
    hide Input, TextStage, AckPolicy, ByteFor;
    AckPolicyInbox(TextStage(s, p), p, now);
  }

  lemma AcceptsByte(s: Sock, p: Packet)
    requires s.state == Established && s.tcb.rcvWnd > 0 && p.seqNo == s.tcb.rcvNxt && |p.payload| > 0
    requires s.inbox.recvQ == s.inbox.ofoQ == []
    ensures var t := TextStage(s, p); t.state == Established && t.inbox.recvQ == [SkbOf(p)]
  {
    var q := Arrivals.QueuesOf(s);
    assert q == Arrivals.Queues(p.seqNo, [], []) && SkbOf(p).seqNo == p.seqNo && AcceptsText(s) && Arrivals.CarriesText(s, p);
    assert Arrivals.QueuesOf(TextStage(s, p)).recvQ == TextStage(s, p).inbox.recvQ;
    hide *;
    TextKeepsUna(s, p);
    Arrivals.TextQueues(s, p);
    QueuedAlone(p.seqNo, SkbOf(p));
  }

  lemma QueuedAlone(nxt: u32, skb: Skb)
    requires skb.seqNo == nxt
    ensures Arrivals.Queueing(Arrivals.Queues(nxt, [], []), skb).recvQ == [skb]
  {
    assert [] + [skb] + [] == [skb];
  }

  /** So a connection receives anything at all, in whatever run, exactly when the peer's initial sequence number
      is not among the last 44478. The handshake completes either way. */
  lemma LateIssIsDeaf(s: Sock, iss: u32, peer: u32)
    requires JustOpened(s, iss, peer)
    ensures (exists trace :: ReadOver(s, trace) != []) <==> peer < MOD32 - 44_478
  {
    if peer + 1 + INITIAL_WINDOW < MOD32 {
      ByteIsRead(s, iss, peer, 0);
    } else {
      forall trace ensures ReadOver(s, trace) == [] {
        DeafRun(s, trace);
      }
    }
    hide ReadOver;
  }

  // ----- the peer closes while data is queued -----

  /** A FIN of the peer that acknowledges everything in flight. */
  function FinAck(s: Sock): Packet {
    Packet(s.tcb.rcvNxt, s.tcb.sndNxt, Flags(true, false, false, false, true), [], [])
  }

  /** The sender's queue after two writes: the first transmitted, the second waiting for its turn. */
  predicate TwoQueued(s: Sock, x: seq<byte>, y: seq<byte>, una: u32) {
    && s.state == Established && s.err == 0 && s.tcb.rcvWnd == INITIAL_WINDOW
    && s.tcb.rcvNxt + INITIAL_WINDOW < MOD32
    && 0 < una && una + |x| < MOD32 && s.tcb.sndUna == una && s.tcb.sndNxt == una + |x|
    && x != [] && s.inflight == 1 && |s.writeQ| == 2
    && s.writeQ[0].seqNo == una && s.writeQ[0].endSeq == una + |x|
    && s.writeQ[1].seqNo == 0 && s.writeQ[1].payload == y
  }

  lemma WriteOne(s: Sock, x: seq<byte>, now: nat)
    requires s.state == Established && s.err == 0 && 0 < |x| <= s.smss
    ensures var t, skb := Write(s, x, now), Skb(0, 0, Flags(false, false, false, true, true), [], x);
      && t.state == Established && t.err == 0 && t.smss == s.smss
      && t.tcb == s.tcb.(sndNxt := t.tcb.sndNxt)
      && if s.inflight == 0 then
           && t.inflight == 1 && t.writeQ == s.writeQ + [Stamp(skb, s.tcb.sndNxt)]
           && t.tcb.sndNxt == U32(s.tcb.sndNxt + |x|)
         else t.inflight == s.inflight && t.writeQ == s.writeQ + [skb] && t.tcb.sndNxt == s.tcb.sndNxt
    ensures Write(s, x, now).rtx == if s.writeQ == [] then RearmRto(s, now).rtx else s.rtx
  {
    var skb := Skb(0, 0, Flags(false, false, false, true, true), [], x);
    assert Segmentize(x, s.smss) == [skb];
    assert QueueAll(s, [skb], now) == QueueTransmit(s, skb, now);
    hide PacketFor, SacksAfter, RtoTimer;
  }

  /** Two writes on a connection that has just opened lead there. */
  lemma TwoWritesQueue(s: Sock, iss: u32, peer: u32, x: seq<byte>, y: seq<byte>, now: nat)
    requires JustOpened(s, iss, peer) && 0 < |x| <= s.smss && 0 < |y| <= s.smss
    requires iss + 1 + |x| < MOD32 && peer + 1 + INITIAL_WINDOW < MOD32
    ensures TwoQueued(Write(Write(s, x, now), y, now), x, y, iss + 1)
  {
    WriteOne(s, x, now);
    WriteOne(Write(s, x, now), y, now);
    hide Write;
  }

  lemma FinLeavesQueue(s: Sock, x: seq<byte>, y: seq<byte>, una: u32, now: nat)
    requires TwoQueued(s, x, y, una)
    ensures var t := Input(s, FinAck(s), now);
      && t.state == CloseWait && t.err == 0 && t.inflight == 0 && t.rtx.timer == None
      && t.writeQ == s.writeQ[1..] && t.tcb.sndNxt == s.tcb.sndNxt && t.smss == s.smss
  {
    var p := FinAck(s);
    assert AckedPrefix(s.writeQ, p.ackSeq) == 1 by {
      assert Acked(s.writeQ[0], p.ackSeq) && !Acked(s.writeQ[1], p.ackSeq);
    }
    hide AckedPrefix, PacketFor, SacksAfter, Rtt;
  }

  /** What is in flight has a retransmission timer (RFC 6298, section 5.1). */
  predicate Covered(s: Sock) {
    s.inflight > 0 ==> s.rtx.timer.Some?
  }

  /** Queueing arms the timer only if the queue is empty: a segment that it sends is covered exactly if the queue is,
      or something else is in flight. */
  lemma QueueTransmitKeepsCovered(s: Sock, skb: Skb, now: nat)
    requires FlightInv(s) && Covered(s)
    ensures Covered(QueueTransmit(s, skb, now)) <==> s.inflight > 0 || s.writeQ == []
  {
    hide PacketFor, SacksAfter, RtoTimer;
  }

  /** When the peer closes its half, what waits in the queue is not sent; and the next write overtakes it. The
      bytes `z` go out at the sequence number that belongs to `y`, and in flight without a timer. */
  lemma PeerFinReordersStream(s: Sock, x: seq<byte>, y: seq<byte>, z: seq<byte>, una: u32, now: nat)
    requires TwoQueued(s, x, y, una) && 0 < |z| <= s.smss
    ensures var t := Write(Input(s, FinAck(s), now), z, now);
      && |t.wire| > 0 && t.wire[|t.wire| - 1].seqNo == una + |x| && t.wire[|t.wire| - 1].payload == z
      && |t.writeQ| > 0 && t.writeQ[0].payload == y && t.writeQ[0].seqNo == 0
      && t.inflight == 1 && t.rtx.timer == None
  {
    FinLeavesQueue(s, x, y, una, now);
    var s1 := Input(s, FinAck(s), now);
    hide Input;
    var skb := Skb(0, 0, Flags(false, false, false, true, true), [], z);
    assert Segmentize(z, s1.smss) == [skb];
    assert QueueAll(s1, [skb], now) == QueueTransmit(s1, skb, now);
  }

  // ----- the FIN's own sequence number -----

  lemma FinTakesLastNumber(s: Sock, c: seq<Skb>, base: nat, peer: u32)
    requires Sending(s, c, base, true, peer) && s.inflight == |s.writeQ| > 0
    ensures s.tcb.sndNxt == Pos(base, c, |c|) + 1
    ensures |s.writeQ| <= |c| && QueueHolds(s, c, base) && 0 < base
  {
    hide Pos;
  }

  lemma AckStageQueue(s: Sock, p: Packet, now: nat)
    requires NewAck(s, p)
    ensures AckStage(s, p, now).writeQ == s.writeQ[AckedPrefix(s.writeQ, p.ackSeq)..]
    ensures AckStage(s, p, now).state == s.state
  {
    AckStageFields(s, p, now);
  }

  lemma EmptyQueueIsFinAcked(t: Sock, p: Packet)
    requires t.state == FinWait1
    ensures FinAcked(t, p).state == FinWait2 <==> t.writeQ == []
  {
  }

  /** A sender whose FIN is in flight enters `FIN_WAIT_2` exactly when its data is acknowledged, although the
      FIN is acknowledged only by `snd_nxt`, one further. */
  lemma FinWait2NeedsOnlyData(s: Sock, p: Packet, now: nat, c: seq<Skb>, base: nat, peer: u32)
    requires Sending(s, c, base, true, peer) && s.state == FinWait1 && s.inflight == |s.writeQ| > 0
    requires GoodAck(p, c, base, true, peer) && p.flags.ack && NewAck(s, p)
    ensures s.tcb.sndNxt == Pos(base, c, |c|) + 1
    ensures FinAcked(AckStage(s, p, now), p).state == FinWait2 <==> p.ackSeq >= Pos(base, c, |c|)
  {
    hide *;
    FinTakesLastNumber(s, c, base, peer);
    var k, j, t := AckedPrefix(s.writeQ, p.ackSeq), |c| - |s.writeQ|, AckStage(s, p, now);
    AckStageQueue(s, p, now);
    CleanBounds(s, p.ackSeq, c, base);
    EmptyQueueIsFinAcked(t, p);
    if k < s.inflight {
      PosMonotone(base, c, j + k + 1, |c|);
    }
  }

  // ----- options in front of the text -----

  /** The text of a segment is read from behind the fixed header: it is always right exactly when the segment
      has no options. */
  lemma TextNeedsNoOptions(sn: u32, ackNo: u32, flags: Flags, options: seq<byte>)
    ensures (forall x: seq<byte> :: Text(Packet(sn, ackNo, flags, options, x)) == x) <==> options == []
  {
    if options != [] {
      var x: seq<byte> := [if options[0] == 0 then 1 else 0];
      assert (options + x)[..1][0] == options[0] != x[0];
      assert Text(Packet(sn, ackNo, flags, options, x)) != x;
    }
  }
}
