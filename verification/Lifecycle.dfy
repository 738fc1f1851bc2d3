/** The connection states over every interleaving of user calls, segments and timers (RFC 793, section 3.2,
    figure 6). */
module Lifecycle {
  import opened Words
  import opened TcpTypes
  import opened Tcp
  import opened TcpOutput
  import opened TcpData
  import opened TcpInput
  import opened Host
  import opened Receiver

  /** How far a connection has come. */
  function Rank(st: TcpState): nat {
    match st
    case Close => 0
    case Listen => 0
    case SynSent => 1
    case SynReceived => 2
    case Established => 3
    case FinWait1 => 4
    case CloseWait => 4
    case FinWait2 => 5
    case LastAck => 5
    case Closing => 6
    case TimeWait => 6
  }

  // ----- what each stage does to the state -----

  lemma {:induction false} QueueAllState(s: Sock, skbs: seq<Skb>, now: nat)
    ensures var t := QueueAll(s, skbs, now); t.state == s.state && t.done == s.done && t.linger == s.linger
    decreases |skbs|
  {
    if skbs != [] {
      QueueTransmitState(s, skbs[0], now);
      hide QueueTransmit;
      QueueAllState(QueueTransmit(s, skbs[0], now), skbs[1..], now);
    }
  }

  lemma QueueTransmitState(s: Sock, skb: Skb, now: nat)
    ensures var t := QueueTransmit(s, skb, now); t.state == s.state && t.done == s.done && t.linger == s.linger
  {
    hide PacketFor, SacksAfter, RtoTimer;
  }

  lemma TextState(s: Sock, p: Packet)
    ensures var t := TextStage(s, p); t.state == s.state && t.done == s.done && t.linger == s.linger
  {
    hide CalculateSacks, InsertOrdered, PacketFor, SacksAfter, ReadyPrefix, Advance;
  }

  lemma AckPolicyState(s: Sock, p: Packet, now: nat)
    ensures var t := AckPolicy(s, p, now); t.state == s.state && t.done == s.done && t.linger == s.linger
  {
    SendNextInbox(s.(delack := None), 0, Min(|s.writeQ|, MAX_BURST));
    hide SendNext, PacketFor, SacksAfter, RtoTimer, Min;
  }

  /** An edge of figure 6. Both ends of a connection's life are the figure's CLOSED. */
  datatype Node = Closed | In(st: TcpState)

  predicate Edge(x: Node, y: Node) {
    || (x == Closed && y == In(SynSent))
    || (x.In? && y == Closed && x.st in {SynSent, LastAck, TimeWait})
    || (x.In? && y.In? &&
        match x.st
        case SynSent => y.st in {Established, SynReceived}
        case SynReceived => y.st in {Established, FinWait1}
        case Established => y.st in {FinWait1, CloseWait}
        case FinWait1 => y.st in {FinWait2, Closing}
        case FinWait2 => y.st == TimeWait
        case Closing => y.st == TimeWait
        case CloseWait => y.st == LastAck
        case _ => false)
  }

  /** At most two edges: one segment can both acknowledge and carry a FIN. */
  ghost predicate Path(x: Node, y: Node) {
    x == y || Edge(x, y) || exists z: Node :: Edge(x, z) && Edge(z, y)
  }

  /** `tcp_done` ends the connection although it leaves the state at `TCP_CLOSING`. */
  function NodeOf(s: Sock): Node {
    if s.done || s.state == Close then Closed else In(s.state)
  }

  /** A RST that passes the sequence check of an opened connection. */
  predicate ResetBy(s: Sock, p: Packet) {
    p.flags.rst && s.state !in {Close, Listen, SynSent} && VerifySegment(s, p)
  }

  /** The retransmission timeout after which nothing is sent any more. */
  predicate LastTimeout(s: Sock, h: Handler) {
    h != ConnectRto && s.writeQ != [] && s.rtx.rto > MAX_RTO
  }

  /** The steps that give a connection up instead of closing it. */
  predicate GivesUp(s: Sock, e: Event, now: nat) {
    match e
    case Arrival(p) => ResetBy(s, p)
    case AbortRequest => true
    case LingerExpires => Due(s.linger, now) && s.linger.value.handler == UserTimeout
    case RtoExpires => Due(s.rtx.timer, now) && LastTimeout(s, s.rtx.timer.value.handler)
    case StrayExpires(i) =>
      i < |s.rtx.strays| && s.rtx.strays[i].expires < now && LastTimeout(s, s.rtx.strays[i].handler)
    case CloseRequest => s.state == SynReceived
    case _ => false
  }

  /** Every state after `CLOSE` follows from an active open; the 2MSL timer runs in `TIME_WAIT` only. */
  predicate LifeInv(s: Sock) {
    && s.state != Listen
    && (s.done ==> s.state in {Closing, TimeWait})
    && (s.linger.Some? ==> s.linger.value.handler in {Linger, UserTimeout})
    && (s.linger.Some? && s.linger.value.handler == Linger ==> s.state == TimeWait)
  }

  /** One step of the connection: the state never moves down, and the connection does not come back to life. */
  predicate Forward(s: Sock, t: Sock) {
    Rank(s.state) <= Rank(t.state) && (s.done ==> t.done) && LifeInv(t)
  }

  ghost predicate Follows(s: Sock, t: Sock) {
    Path(NodeOf(s), NodeOf(t))
  }

  lemma FinForward(s: Sock, now: nat)
    requires LifeInv(s) && Open(s)
    ensures var t := FinStage(s, now);
      && Forward(s, t) && t.done == s.done && !AcceptsText(t)
      && (s.done || t.state == s.state || Edge(In(s.state), In(t.state))
          || (s.state == FinWait1 && t.state == TimeWait && s.writeQ == []))
  {
    hide PacketFor, SacksAfter;
  }

  lemma ProcessTextForward(s: Sock, p: Packet, now: nat)
    requires LifeInv(s) && Open(s) && (s.state == FinWait1 ==> s.writeQ != [])
    ensures var t := ProcessText(s, p, now);
      && Forward(s, t) && t.done == s.done
      && (s.done || t.state == s.state || Edge(In(s.state), In(t.state)))
      && (s.state == Established ==> t.state in {Established, CloseWait})
  {
    var s1 := TextStage(s, p);
    TextState(s, p);
    TextWriteQ(s, p);
    hide TextStage;
    FinForward(s1, now);
    AckPolicyState(s1, p, now);
    hide FinStage, AckPolicy;
  }

  lemma TextWriteQ(s: Sock, p: Packet)
    ensures TextStage(s, p).writeQ == s.writeQ
  {
    hide CalculateSacks, InsertOrdered, PacketFor, SacksAfter, ReadyPrefix, Advance;
  }

  lemma FinAckedForward(s: Sock, p: Packet)
    requires LifeInv(s) && Open(s)
    ensures var t := FinAcked(s, p);
      && Forward(s, t) && t.done == s.done && Open(t) && t.writeQ == s.writeQ
      && (t.state == s.state || (s.state == FinWait1 && t.state == FinWait2 && s.writeQ == [])
          || (s.state == Closing && t.state == TimeWait && s.writeQ == []))
      && (t.state == FinWait1 ==> t.writeQ != [])
  {
    hide PacketFor, SacksAfter;
  }

  lemma AckStageState(s: Sock, p: Packet, now: nat)
    ensures var t := AckStage(s, p, now); t.state == s.state && t.done == s.done && t.linger == s.linger
  {
    hide Rtt, AckedPrefix;
  }

  lemma SegmentForward(s: Sock, p: Packet, now: nat)
    requires LifeInv(s) && Open(s)
    ensures var t := ProcessText(FinAcked(s, p), p, now);
      && Forward(s, t) && Follows(s, t)
      && (s.state == Established && !s.done ==> !t.done && t.state in {Established, CloseWait})
  {
    FinAckedForward(s, p);
    var s1 := FinAcked(s, p);
    hide FinAcked, ProcessText, Path;
    ProcessTextForward(s1, p, now);
    PathRefl(NodeOf(s));
    JoinForward(s, s1, ProcessText(s1, p, now));
  }

  lemma JoinForward(s: Sock, s1: Sock, t: Sock)
    requires Open(s) && Open(s1) && Forward(s, s1) && Forward(s1, t)
    requires s.done == s1.done == t.done
    requires s1.state == s.state || (s.state == FinWait1 && s1.state == FinWait2)
             || (s.state == Closing && s1.state == TimeWait)
    requires s.done || t.state == s1.state || Edge(In(s1.state), In(t.state))
    ensures Forward(s, t) && Follows(s, t)
    ensures s.state == Established && !s.done ==> t.state in {Established, CloseWait, FinWait1}
  {
    hide LifeInv;
    if !s.done && s1.state != s.state && t.state != s1.state {
      TwoEdges(In(s.state), In(s1.state), In(t.state));
    }
  }

  lemma ProcessAckForward(s: Sock, p: Packet, now: nat)
    requires LifeInv(s) && Open(s)
    ensures var t := ProcessAck(s, p, now); Forward(s, t) && Follows(s, t)
    ensures var t := ProcessAck(s, p, now);
      s.state == Established && !s.done ==> !t.done && t.state in {Established, CloseWait}
  {
    var s1 := if s.state == TimeWait then s else AckStage(s, p, now);
    AckStageState(s, p, now);
    hide AckStage;
    SegmentForward(s1, p, now);
    PathRefl(NodeOf(s));
    if s.state == LastAck && !s.done {
      EdgeIsPath(In(LastAck), Closed);
    }
    hide ProcessText, FinAcked, Path;
  }

  lemma TwoEdges(x: Node, y: Node, z: Node)
    requires Edge(x, y) && Edge(y, z)
    ensures Path(x, z)
  {
  }

  lemma SynSentForward(s: Sock, p: Packet, now: nat)
    requires LifeInv(s) && s.state == SynSent
    ensures var t := SynSentInput(s, p, now); Forward(s, t) && (ResetBy(s, p) || Follows(s, t))
  {
    hide ParseFrom, PacketFor, SacksAfter, AckedPrefix, OptionsLen, AckSkb;
  }

  lemma InputForward(s: Sock, p: Packet, now: nat)
    requires LifeInv(s)
    ensures var t := Input(s, p, now); Forward(s, t) && (ResetBy(s, p) || Follows(s, t))
  {
    hide PacketFor, SacksAfter, Path;
    if s.state == SynSent {
      SynSentForward(s, p, now);
      hide SynSentInput;
    } else if Open(s) {
      OpenInputForward(s, p, now);
      hide Input;
    } else if s.state == SynReceived {
      SynReceivedForward(s, p, now);
      hide Input;
    }
    PathRefl(NodeOf(s));
  }

  lemma PathRefl(x: Node)
    ensures Path(x, x)
  {
  }

  lemma OpenInputForward(s: Sock, p: Packet, now: nat)
    requires LifeInv(s) && Open(s)
    ensures var t := Input(s, p, now); Forward(s, t) && (ResetBy(s, p) || Follows(s, t))
  {
    ProcessAckForward(s, p, now);
    AnswersForward(s, now);
    OpenInputCases(s, p, now);
    hide *;
  }

  lemma AnswersForward(s: Sock, now: nat)
    requires LifeInv(s) && Open(s)
    ensures Forward(s, s) && Follows(s, s)
    ensures Forward(s, SendAck(s)) && Follows(s, SendAck(s)) && Forward(s, EnterTimeWait(s, now))
  {
    PathRefl(NodeOf(s));
    hide PacketFor, SacksAfter, OptionsLen, Path;
  }

  lemma OpenInputCases(s: Sock, p: Packet, now: nat)
    requires Open(s)
    ensures var t := Input(s, p, now);
      t == s || t == SendAck(s) || t == ProcessAck(s, p, now) || (ResetBy(s, p) && t == EnterTimeWait(s, now))
  {
    hide VerifySegment, SendAck, ProcessAck, EnterTimeWait;
  }

  lemma SynReceivedForward(s: Sock, p: Packet, now: nat)
    requires LifeInv(s) && s.state == SynReceived
    ensures var t := Input(s, p, now); Forward(s, t) && (ResetBy(s, p) || Follows(s, t))
  {
    var s1 := s.(state := Established);
    hide ProcessAck, PacketFor, SacksAfter, Path;
    PathRefl(NodeOf(s));
    if VerifySegment(s, p) && !p.flags.rst && !p.flags.syn && p.flags.ack && s.tcb.sndUna <= p.ackSeq < s.tcb.sndNxt {
      ProcessAckForward(s1, p, now);
      TwoEdges(In(SynReceived), In(Established), In(CloseWait));
      EdgeIsPath(In(SynReceived), In(Established));
    }
  }

  // ----- calls and timers -----

  lemma ConnectForward(s: Sock, iss: u32, now: nat)
    requires LifeInv(s) && s.state == Close
    ensures var t := Connect(s, iss, now); t.state == SynSent && t.done == s.done && t.linger == s.linger
  {
    hide QueueTransmit;
    var s1 := s.(state := SynSent,
                 tcb := s.tcb.(iss := iss, sndUna := iss, sndNxt := iss, rcvNxt := 0, rcvWnd := INITIAL_WINDOW));
    QueueTransmitState(s1, SynSkb(s1), now);
  }

  lemma WriteForward(s: Sock, buf: seq<byte>, now: nat)
    requires LifeInv(s)
    ensures var t := Write(s, buf, now); Forward(s, t) && t.state == s.state && t.done == s.done
  {
    QueueAllState(s, Segmentize(buf, s.smss), now);
    hide QueueAll, Segmentize;
  }

  lemma ReadForward(s: Sock, n: nat, blocking: bool, now: nat)
    requires LifeInv(s)
    ensures var t := Read(s, n, blocking, now).0; Forward(s, t) && t.state == s.state && t.done == s.done
  {
    hide Dequeue;
  }

  lemma CloseForward(s: Sock, now: nat)
    requires LifeInv(s)
    ensures var t := CloseCall(s, now); Forward(s, t) && (s.state == SynReceived || Follows(s, t))
  {
    QueueTransmitState(s, FIN_SKB, now);
    QueueTransmitState(s.(state := FinWait1), FIN_SKB, now);
    hide QueueTransmit;
  }

  lemma RtoForward(s: Sock, h: Handler, now: nat)
    requires LifeInv(s)
    ensures var t := RunRtoHandler(s, h, now);
      Forward(s, t) && (LastTimeout(s, h) || Follows(s, t))
  {
    hide PacketFor, SacksAfter, RtoTimer, BackOff, Path;
    PathRefl(NodeOf(s));
    if h != ConnectRto && s.state in {CloseWait, Established} {
      EdgeIsPath(In(s.state), In(if s.state == CloseWait then LastAck else FinWait1));
    } else if h == ConnectRto && s.state == SynSent {
      EdgeIsPath(In(SynSent), Closed);
    }
  }

  lemma LingerForward(s: Sock, h: Handler)
    requires LifeInv(s) && h in {Linger, UserTimeout} && (h == Linger ==> s.state == TimeWait)
    ensures var t := LingerFires(s, h); Forward(s, t) && (h == UserTimeout || Follows(s, t))
  {
    hide PacketFor, SacksAfter;
  }

  /** Whatever happens, the connection moves up the order of its states; and unless the step gives the
      connection up, it follows figure 6. */
  lemma StepForward(s: Sock, e: Event, now: nat)
    requires LifeInv(s)
    ensures Forward(s, Step(s, e, now))
    ensures GivesUp(s, e, now) || Follows(s, Step(s, e, now))
  {
    hide Connect, Write, Read, CloseCall, Input, RunRtoHandler, PacketFor, SacksAfter, Path, LingerFires;
    PathRefl(NodeOf(s));
    match e {
      case ConnectCall(iss) =>
        if s.state == Close {
          ConnectForward(s, iss, now);
          EdgeIsPath(Closed, In(SynSent));
        }
      case WriteCall(buf) => WriteForward(s, buf, now);
      case ReadCall(n, blocking) => ReadForward(s, n, blocking, now);
      case CloseRequest => CloseForward(s, now);
      case Arrival(p) => InputForward(s, p, now);
      case RtoExpires => if Due(s.rtx.timer, now) { RtoForward(s, s.rtx.timer.value.handler, now); }
      case StrayExpires(i) =>
        if i < |s.rtx.strays| {
          RtoForward(s.(rtx := s.rtx.(strays := s.rtx.strays[..i] + s.rtx.strays[i + 1..])), s.rtx.strays[i].handler, now);
        }
      case LingerExpires => if Due(s.linger, now) { LingerForward(s, s.linger.value.handler); }
      case _ =>
    }
  }

  lemma EdgeIsPath(x: Node, y: Node)
    requires Edge(x, y)
    ensures Path(x, y)
  {
  }

  /** Over any run from a fresh socket the state only moves up, from every point of the run to every later one. */
  lemma {:induction false} StatesOnlyAdvance(trace: seq<(Event, nat)>, i: nat)
    requires i <= |trace|
    ensures LifeInv(Run(FRESH, trace)) && LifeInv(Run(FRESH, trace[..i]))
    ensures Rank(Run(FRESH, trace[..i]).state) <= Rank(Run(FRESH, trace).state)
    ensures Run(FRESH, trace[..i]).done ==> Run(FRESH, trace).done
  {
    if i == |trace| {
      assert trace[..i] == trace;
      if i > 0 {
        StatesOnlyAdvance(trace[..i - 1], i - 1);
        hide Step;
        StepForward(Run(FRESH, trace[..i - 1]), trace[i - 1].0, trace[i - 1].1);
      }
    } else {
      var n := |trace| - 1;
      StatesOnlyAdvance(trace[..n], i);
      assert trace[..n][..i] == trace[..i];
      hide Step;
      StepForward(Run(FRESH, trace[..n]), trace[n].0, trace[n].1);
    }
  }

  /** The last two states are never left, take no data from the peer and none from the user. */
  lemma ClosedStatesAbsorb(s: Sock, e: Event, now: nat)
    requires LifeInv(s) && s.state in {Closing, TimeWait}
    ensures var t := Step(s, e, now);
      && t.state in {Closing, TimeWait}
      && t.inbox.recvQ == s.inbox.recvQ && Delivered(s, e, now) == []
      && NewData(s, e) == []
  {
    StepForward(s, e, now);
    hide Path, Forward;
    if e.Arrival? {
      ClosedInputKeepsQueue(s, e.p, now);
    } else if !e.ReadCall? {
      OtherEventInbox(s, e, now);
    }
    hide Input;
    assert Rank(s.state) <= Rank(Step(s, e, now).state) by { RankOf(s, Step(s, e, now)); }
    hide Step;
  }

  lemma RankOf(s: Sock, t: Sock)
    requires Forward(s, t)
    ensures Rank(s.state) <= Rank(t.state)
  {
  }

  /** The bytes that a call to write puts into the stream. */
  function NewData(s: Sock, e: Event): seq<byte> {
    if e.WriteCall? && Writable(s) then e.buf else []
  }

  lemma ClosedInputKeepsQueue(s: Sock, p: Packet, now: nat)
    requires s.state in {Closing, TimeWait}
    ensures Input(s, p, now).inbox.recvQ == s.inbox.recvQ
  {
    var s1 := if s.state == TimeWait then s else AckStage(s, p, now);
    AckStageInbox(s, p, now);
    hide AckStage;
    FinAckedInbox(s1, p);
    var s2 := FinAcked(s1, p);
    hide FinAcked;
    FinQueue(s2, now);
    SendAckInbox(s);
    hide FinStage, SendAck, AckPolicy, DataQueue;
  }

  lemma FinQueue(s: Sock, now: nat)
    ensures FinStage(s, now).inbox.recvQ == s.inbox.recvQ && !AcceptsText(FinStage(s, now))
  {
    hide PacketFor, SacksAfter;
  }

  // ----- LAST_ACK -----

  /** The handler resends a FIN. */
  predicate ResendsFin(s: Sock, h: Handler) {
    h != ConnectRto && s.writeQ != [] && s.writeQ[0].flags.fin && s.rtx.rto <= MAX_RTO
  }

  /** A retransmission timer fires and its handler resends a FIN. */
  predicate FinTimesOut(s: Sock, e: Event, now: nat) {
    match e
    case RtoExpires => Due(s.rtx.timer, now) && ResendsFin(s, s.rtx.timer.value.handler)
    case StrayExpires(i) =>
      i < |s.rtx.strays| && s.rtx.strays[i].expires < now && ResendsFin(s, s.rtx.strays[i].handler)
    case _ => false
  }

  lemma HandlerLastAck(s: Sock, h: Handler, now: nat)
    requires s.state != LastAck
    ensures RunRtoHandler(s, h, now).state == LastAck <==> s.state == CloseWait && ResendsFin(s, h)
  {
    hide PacketFor, SacksAfter, RtoTimer, BackOff;
  }

  lemma InputLastAck(s: Sock, p: Packet, now: nat)
    requires s.state != LastAck
    ensures Input(s, p, now).state != LastAck
  {
    var s1 := if s.state == SynReceived then s.(state := Established) else s;
    AckLastAck(s, p, now);
    AckLastAck(s1, p, now);
    SendAckInbox(s);
    OpeningLastAck(s, p, now);
    hide ProcessAck, SendAck, SynSentInput, SendReset, VerifySegment;
  }

  lemma OpeningLastAck(s: Sock, p: Packet, now: nat)
    ensures SendReset(s).state == s.state && (s.state == SynSent ==> SynSentInput(s, p, now).state != LastAck)
  {
    hide PacketFor, SacksAfter, OptionsLen, ParseFrom, AckedPrefix;
  }

  lemma AckLastAck(s: Sock, p: Packet, now: nat)
    requires s.state != LastAck
    ensures ProcessAck(s, p, now).state != LastAck
  {
    var s1 := if s.state == TimeWait then s else AckStage(s, p, now);
    AckStageState(s, p, now);
    hide AckStage;
    StageLastAck(s1, p, now);
    TextLastAck(FinAcked(s1, p), p, now);
    hide FinAcked, ProcessText;
  }

  lemma StageLastAck(s: Sock, p: Packet, now: nat)
    ensures (FinAcked(s, p).state == LastAck || FinStage(s, now).state == LastAck) ==> s.state == LastAck
  {
    hide PacketFor, SacksAfter, OptionsLen;
  }

  lemma TextLastAck(s: Sock, p: Packet, now: nat)
    requires s.state != LastAck
    ensures ProcessText(s, p, now).state != LastAck
  {
    var s1 := TextStage(s, p);
    TextState(s, p);
    StageLastAck(s1, p, now);
    AckPolicyState(s1, p, now);
    AckPolicyState(FinStage(s1, now), p, now);
    hide TextStage, FinStage, AckPolicy;
  }

  /** RFC 793 moves a connection to LAST_ACK when it is closed in CLOSE_WAIT. Here the FIN is queued and the state
      stays: LAST_ACK is entered exactly when a timeout resends a FIN in CLOSE_WAIT. */
  lemma LastAckNeedsTimeout(s: Sock, e: Event, now: nat)
    requires s.state != LastAck
    ensures Step(s, e, now).state == LastAck <==> s.state == CloseWait && FinTimesOut(s, e, now)
  {
    hide Connect, Write, Read, CloseCall, Input, RunRtoHandler, Abort, DelackFires, LingerFires, ResendsFin;
    match e {
      case Arrival(p) => InputLastAck(s, p, now);
      case RtoExpires => if Due(s.rtx.timer, now) { HandlerLastAck(s, s.rtx.timer.value.handler, now); }
      case StrayExpires(i) =>
        if i < |s.rtx.strays| {
          var s1 := s.(rtx := s.rtx.(strays := s.rtx.strays[..i] + s.rtx.strays[i + 1..]));
          HandlerLastAck(s1, s.rtx.strays[i].handler, now);
          StrayResendsFin(s, s1, s.rtx.strays[i].handler);
        }
      case _ => CallLastAck(s, e, now); hide Step;
    }
  }

  lemma StrayResendsFin(s: Sock, t: Sock, h: Handler)
    requires t == s.(rtx := s.rtx.(strays := t.rtx.strays))
    ensures ResendsFin(s, h) <==> ResendsFin(t, h)
  {
  }

  lemma CallLastAck(s: Sock, e: Event, now: nat)
    requires s.state != LastAck && !e.Arrival? && !e.RtoExpires? && !e.StrayExpires?
    ensures Step(s, e, now).state != LastAck
  {
    hide PacketFor, SacksAfter, OptionsLen, Dequeue, SynSkb;
    match e {
      case WriteCall(buf) =>
        QueueAllState(s, Segmentize(buf, s.smss), now);
        hide QueueAll, Segmentize;
      case CloseRequest =>
        QueueTransmitState(s, FIN_SKB, now);
        QueueTransmitState(s.(state := FinWait1), FIN_SKB, now);
        hide QueueTransmit;
      case _ =>
    }
  }

  /** So a socket that has closed second, and whose FIN is acknowledged before any timeout, never gets there: in every
      run LAST_ACK comes after a step that resends a FIN. */
  lemma {:induction false} LastAckAfterTimeout(trace: seq<(Event, nat)>)
    requires Run(FRESH, trace).state == LastAck
    ensures exists n :: 0 <= n < |trace| && Run(FRESH, trace[..n]).state == CloseWait
                        && FinTimesOut(Run(FRESH, trace[..n]), trace[n].0, trace[n].1)
  {
    if trace != [] {
      var n := |trace| - 1;
      hide Step, FinTimesOut;
      if Run(FRESH, trace[..n]).state == LastAck {
        LastAckAfterTimeout(trace[..n]);
        var m :| 0 <= m < n && Run(FRESH, trace[..n][..m]).state == CloseWait
                 && FinTimesOut(Run(FRESH, trace[..n][..m]), trace[..n][m].0, trace[..n][m].1);
        assert trace[..n][..m] == trace[..m];
      } else {
        LastAckNeedsTimeout(Run(FRESH, trace[..n]), trace[n].0, trace[n].1);
      }
    }
  }

  /** The acknowledgement of such a FIN leaves nothing queued, no timer, and the state CLOSE_WAIT. */
  lemma AckedFinStaysInCloseWait(s: Sock, p: Packet, now: nat)
    requires s.state == CloseWait && s.inflight == 1 && |s.writeQ| == 1 && Acked(s.writeQ[0], p.ackSeq)
    requires VerifySegment(s, p) && p.flags == ACK_FLAGS && p.payload == [] && NewAck(s, p)
    ensures var t := Input(s, p, now); t.state == CloseWait && t.writeQ == [] && t.rtx.timer == None
  {
    assert AckedPrefix(s.writeQ, p.ackSeq) == 1;
    hide AckedPrefix, Rtt, PacketFor, SacksAfter;
  }

  // ----- the end of TIME_WAIT -----

  function TimeWaitTimer(now: nat): Timer {
    Timer(now + 60_000, Linger)
  }

  lemma FinLingers(s: Sock, now: nat)
    ensures var t := FinStage(s, now);
      if s.state == FinWait2 || (s.state == FinWait1 && s.writeQ == [])
      then t.state == TimeWait && t.linger == Some(TimeWaitTimer(now))
      else t.linger == s.linger && (t.state == TimeWait ==> s.state == TimeWait)
  {
    hide PacketFor, SacksAfter, OptionsLen;
  }

  lemma ProcessTextLingers(s: Sock, p: Packet, now: nat)
    ensures var t := ProcessText(s, p, now);
      if s.state == TimeWait then t.linger == s.linger
      else t.state == TimeWait ==> t.linger == Some(TimeWaitTimer(now)) && s.state in {FinWait1, FinWait2}
  {
    var s1 := TextStage(s, p);
    TextState(s, p);
    FinLingers(s1, now);
    AckPolicyState(s1, p, now);
    AckPolicyState(FinStage(s1, now), p, now);
    hide TextStage, FinStage, AckPolicy;
  }

  lemma FinAckedLingers(s: Sock, p: Packet)
    ensures var t := FinAcked(s, p);
      t.linger == s.linger && (t.state == TimeWait <==> s.state == TimeWait || (s.state == Closing && s.writeQ == []))
  {
    hide PacketFor, SacksAfter, OptionsLen;
  }

  lemma ProcessAckLingers(s: Sock, p: Packet, now: nat)
    requires s.state != TimeWait && s.linger != Some(TimeWaitTimer(now))
    ensures var t := ProcessAck(s, p, now);
      t.state == TimeWait ==> (t.linger == Some(TimeWaitTimer(now)) <==> s.state != Closing)
  {
    var s1 := AckStage(s, p, now);
    AckStageState(s, p, now);
    FinAckedLingers(s1, p);
    ProcessTextLingers(FinAcked(s1, p), p, now);
    FinAckedState(s1, p);
    hide AckStage, FinAcked, ProcessText;
  }

  lemma FinAckedState(s: Sock, p: Packet)
    ensures FinAcked(s, p).state == Closing ==> s.state == Closing
    ensures s.state == Closing ==> FinAcked(s, p).state in {Closing, TimeWait}
  {
    hide PacketFor, SacksAfter, OptionsLen;
  }

  /** RFC 793: a connection stays in TIME_WAIT for 60 seconds. A segment that moves it there starts that timer
      exactly when the connection does not come from CLOSING, unless the segment is a RST; coming from CLOSING
      only the user timeout is left to end it. */
  lemma TimeWaitIsTimed(s: Sock, p: Packet, now: nat)
    requires LifeInv(s) && Open(s) && s.state != TimeWait && Input(s, p, now).state == TimeWait
    ensures Input(s, p, now).linger == Some(TimeWaitTimer(now)) <==> p.flags.rst || s.state != Closing
  {
    ProcessAckLingers(s, p, now);
    SendAckInbox(s);
    InputKinds(s, p, now);
    hide *;
  }

  lemma InputKinds(s: Sock, p: Packet, now: nat)
    requires LifeInv(s) && Open(s) && s.state != TimeWait
    ensures s.linger != Some(TimeWaitTimer(now)) && EnterTimeWait(s, now).linger == Some(TimeWaitTimer(now))
    ensures var t := Input(s, p, now);
      || t == s || t == SendAck(s)
      || (p.flags.rst && t == EnterTimeWait(s, now)) || (!p.flags.rst && t == ProcessAck(s, p, now))
  {
    hide VerifySegment, SendAck, ProcessAck;
  }
}
