/** How connections end and what their users are told: the user timeout, errors, resets, closing, and what is
    stopped at the end. */
module Endings {
  import opened Words
  import opened TcpTypes
  import opened Tcp
  import opened TcpOutput
  import opened TcpData
  import opened TcpInput
  import opened Host
  import opened Sender
  import opened Receiver
  import opened Arrivals
  import opened Lifecycle
  import opened Invariants
  import opened Flights
  import opened Reading
  import Timing

  // ----- the user timeout -----

  /** The read returns to its caller. */
  predicate Returns(s: Sock, n: nat, blocking: bool) {
    var got := |Flat(s.inbox.recvQ)|;
    && s.state !in {Close, Closing, LastAck, TimeWait}
    && !(s.state == CloseWait && s.inbox.recvQ == [] && s.inbox.fin)
    && (n == 0 || s.inbox.psh || PushUsedUp(s.inbox.recvQ, n) || s.inbox.fin || got >= n || (!blocking && got > 0))
  }

  /** The user makes use of the connection, or it has just opened. */
  predicate Uses(s: Sock, e: Event, now: nat) {
    match e
    case WriteCall(buf) => s.err == 0 && s.state in {Established, CloseWait}
    case ReadCall(n, blocking) => Returns(s, n, blocking)
    case Arrival(p) => s.state == SynSent && Step(s, e, now).state == Established
    case _ => false
  }

  lemma ReadLinger(s: Sock, n: nat, blocking: bool, now: nat)
    ensures Step(s, ReadCall(n, blocking), now).linger == if Returns(s, n, blocking) then UsedAt(now) else s.linger
  {
    DequeueTakesFront(s.inbox.recvQ, n);
    DequeueReportsPush(s.inbox.recvQ, n);
    hide Dequeue, Flat, PushUsedUp;
  }

  lemma ProcessTextLinger(s: Sock, p: Packet, now: nat)
    ensures var t := ProcessText(s, p, now); t.linger == s.linger || Over(t)
  {
    var s1 := TextStage(s, p);
    TextState(s, p);
    FinLingers(s1, now);
    AckPolicyState(s1, p, now);
    AckPolicyState(FinStage(s1, now), p, now);
    hide TextStage, FinStage, AckPolicy;
  }

  lemma ProcessAckLinger(s: Sock, p: Packet, now: nat)
    ensures var t := ProcessAck(s, p, now); t.linger == s.linger || Over(t)
  {
    var s1 := if s.state == TimeWait then s else AckStage(s, p, now);
    AckStageState(s, p, now);
    FinAckedLingers(s1, p);
    ProcessTextLinger(FinAcked(s1, p), p, now);
    hide AckStage, FinAcked, ProcessText;
  }

  lemma OpenLinger(s: Sock, p: Packet, now: nat)
    requires s.state !in {Close, Listen, SynSent}
    ensures var t := Input(s, p, now); t.linger == s.linger || Over(t)
  {
    OpenInput(s, p, now);
    ProcessAckLinger(s, p, now);
    ProcessAckLinger(s.(state := Established), p, now);
    SendAckEffect(s);
    hide Input, ProcessAck, SendAck;
  }

  lemma OpeningLinger(s: Sock, p: Packet, now: nat)
    requires s.state in {Close, Listen, SynSent}
    ensures var t := Input(s, p, now);
      !Over(t) ==> t.linger == if s.state == SynSent && t.state == Established then UsedAt(now) else s.linger
  {
    hide PacketFor, SacksAfter, OptionsLen, ParseFrom, AckedPrefix;
  }

  lemma CallLinger(s: Sock, e: Event, now: nat)
    requires SocketInv(s) && !e.Arrival? && !e.ReadCall?
    ensures var t := Step(s, e, now); !Over(t) ==> t.linger == if Uses(s, e, now) then UsedAt(now) else s.linger
  {
    NoStrays(s);
    hide PacketFor, SacksAfter, OptionsLen, RtoTimer, SynSkb;
    match e {
      case WriteCall(buf) =>
        QueueAllState(s, Segmentize(buf, s.smss), now);
        hide QueueAll, Segmentize;
      case CloseRequest =>
        QueueTransmitState(s, FIN_SKB, now);
        QueueTransmitState(s.(state := FinWait1), FIN_SKB, now);
        hide QueueTransmit;
      case _ =>
    }
  }

  lemma StepLinger(s: Sock, e: Event, now: nat)
    requires SocketInv(s)
    ensures var t := Step(s, e, now); !Over(t) ==> t.linger == if Uses(s, e, now) then UsedAt(now) else s.linger
  {
    if e.Arrival? {
      if s.state in {Close, Listen, SynSent} {
        OpeningLinger(s, e.p, now);
      } else {
        OpenLinger(s, e.p, now);
      }
      hide Input;
    } else if e.ReadCall? {
      ReadLinger(s, e.n, e.blocking, now);
      hide Step, Returns;
    } else {
      CallLinger(s, e, now);
      hide Step, Uses;
    }
  }

  /** When the connection was last used in the run. */
  function LastUse(trace: seq<(Event, nat)>): Option<nat> {
    if trace == [] then None
    else
      var n := |trace| - 1;
      if Uses(Run(FRESH, trace[..n]), trace[n].0, trace[n].1) then Some(trace[n].1) else LastUse(trace[..n])
  }

  /** In every run, until the connection is over, the user timeout runs for three minutes from the last use. */
  lemma {:induction false} UserTimeoutFollowsUse(trace: seq<(Event, nat)>)
    ensures var s := Run(FRESH, trace);
      Over(s) || s.linger == match LastUse(trace) case None => None case Some(at) => UsedAt(at)
  {
    if trace != [] {
      var n := |trace| - 1;
      UserTimeoutFollowsUse(trace[..n]);
      RunKeepsInv(trace[..n]);
      StatesOnlyAdvance(trace[..n], n);
      var s := Run(FRESH, trace[..n]);
      hide Step, SocketInv, LifeInv, Uses, Over, UsedAt;
      if Over(s) {
        OverStays(s, trace[n].0, trace[n].1);
      } else {
        StepLinger(s, trace[n].0, trace[n].1);
      }
    }
  }

  // ----- resets -----

  const RST_FLAGS := Flags(false, false, true, false, false)

  /** The RSTs among the packets sent. */
  function Resets(wire: seq<Packet>): seq<Packet> {
    if wire == [] then []
    else
      var n := |wire| - 1;
      Resets(wire[..n]) + if wire[n].flags.rst then [wire[n]] else []
  }

  lemma ResetsMore(wire: seq<Packet>, p: Packet)
    ensures Resets(wire + [p]) == Resets(wire) + if p.flags.rst then [p] else []
  {
    assert (wire + [p])[..|wire|] == wire;
  }

  predicate NoneResets(q: seq<Skb>) {
    forall i :: 0 <= i < |q| ==> !q[i].flags.rst
  }

  /** Nothing queued is a RST, and none has been sent in between. */
  predicate Quietly(s: Sock, t: Sock) {
    Resets(t.wire) == Resets(s.wire) && (NoneResets(s.writeQ) ==> NoneResets(t.writeQ))
  }

  lemma TransmitQuietly(s: Sock, skb: Skb, sn: u32)
    requires !skb.flags.rst
    ensures Resets(Transmit(s, skb, sn).wire) == Resets(s.wire) && Transmit(s, skb, sn).writeQ == s.writeQ
  {
    ResetsMore(s.wire, PacketFor(s, skb, sn));
    hide Resets, OptionsAfter, SacksAfter;
  }

  lemma SendAckQuietly(s: Sock)
    ensures Quietly(s, SendAck(s)) && SendAck(s).writeQ == s.writeQ
  {
    TransmitQuietly(s, AckSkb(s), s.tcb.sndNxt);
    hide Transmit, Resets;
  }

  lemma {:induction false} SendNextQuietly(s: Sock, i: nat, amount: nat)
    requires NoneResets(s.writeQ)
    ensures Quietly(s, SendNextFrom(s, i, amount))
    decreases amount - i
  {
    if i < amount && i < |s.writeQ| {
      var t := SendQueued(s, i);
      TransmitQuietly(s, s.writeQ[i], s.tcb.sndNxt);
      assert Quietly(s, t) by { hide Transmit, Resets, NextSeq; }
      hide SendQueued, Resets;
      SendNextQuietly(t, i + 1, amount);
    }
  }

  lemma QueueTransmitQuietly(s: Sock, skb: Skb, now: nat)
    requires !skb.flags.rst
    ensures Quietly(s, QueueTransmit(s, skb, now))
  {
    TransmitQuietly(if s.writeQ == [] then RearmRto(s, now) else s, skb, s.tcb.sndNxt);
    hide Transmit, Resets, RtoTimer, NextSeq;
  }

  lemma {:induction false} QueueAllQuietly(s: Sock, skbs: seq<Skb>, now: nat)
    requires NoneResets(skbs)
    ensures Quietly(s, QueueAll(s, skbs, now))
    decreases |skbs|
  {
    if skbs != [] {
      QueueTransmitQuietly(s, skbs[0], now);
      hide QueueTransmit, Resets;
      QueueAllQuietly(QueueTransmit(s, skbs[0], now), skbs[1..], now);
    }
  }

  lemma {:induction false} SegmentsAreNoResets(buf: seq<byte>, mss: Mss)
    ensures NoneResets(Segmentize(buf, mss))
  {
    if |buf| > mss {
      SegmentsAreNoResets(buf[mss..], mss);
    }
  }

  lemma AckPolicyQuietly(s: Sock, p: Packet, now: nat)
    requires NoneResets(s.writeQ)
    ensures Quietly(s, AckPolicy(s, p, now))
  {
    SendNextQuietly(s.(delack := None), 0, Min(|s.writeQ|, MAX_BURST));
    SendAckQuietly(s.(delacks := 0, delack := None));
    hide SendNextFrom, SendAck, Resets, RtoTimer;
  }

  lemma AckStageQuietly(s: Sock, p: Packet, now: nat)
    ensures Quietly(s, AckStage(s, p, now))
  {
    hide Rtt, Resets;
  }

  lemma StagesQuietly(s: Sock, p: Packet, now: nat)
    ensures Quietly(s, FinAcked(s, p)) && Quietly(s, TextStage(s, p)) && Quietly(s, FinStage(s, now))
  {
    FinAckedQuietly(s, p);
    TextQuietly(s, p);
    FinQuietly(s, now);
    hide *;
  }

  lemma FinAckedQuietly(s: Sock, p: Packet)
    ensures Quietly(s, FinAcked(s, p))
  {
    SendAckQuietly(s.(inbox := s.inbox.(fin := true)));
    hide SendAck, Resets;
  }

  lemma FinQuietly(s: Sock, now: nat)
    ensures Quietly(s, FinStage(s, now))
  {
    SendAckQuietly(s.(tcb := s.tcb.(rcvNxt := U32(s.tcb.rcvNxt + 1)), inbox := s.inbox.(fin := true, pollIn := true)));
    hide SendAck, Resets;
  }

  lemma TextQuietly(s: Sock, p: Packet)
    ensures Quietly(s, TextStage(s, p))
  {
    var skb := SkbOf(p);
    var q := InsertOrdered(s.inbox.ofoQ, skb);
    SendAckQuietly(s.(inbox := s.inbox.(ofoQ := q), sack := if s.sack.ok then CalculateSacks(s.sack, q) else s.sack));
    hide SendAck, Resets, CalculateSacks, InsertOrdered, ReadyPrefix, Advance;
  }

  lemma ProcessTextQuietly(s: Sock, p: Packet, now: nat)
    requires NoneResets(s.writeQ)
    ensures Quietly(s, ProcessText(s, p, now))
  {
    var s1 := TextStage(s, p);
    StagesQuietly(s, p, now);
    StagesQuietly(s1, p, now);
    AckPolicyQuietly(s1, p, now);
    hide TextStage, FinStage, FinAcked, AckPolicy, Resets, NoneResets;
    Timing.FinEnds(s1, now);
  }

  lemma ProcessAckQuietly(s: Sock, p: Packet, now: nat)
    requires NoneResets(s.writeQ)
    ensures Quietly(s, ProcessAck(s, p, now))
  {
    var s1 := if s.state == TimeWait then s else AckStage(s, p, now);
    AckStageQuietly(s, p, now);
    StagesQuietly(s1, p, now);
    hide AckStage, FinAcked, FinStage, TextStage, ProcessText, Resets, NoneResets;
    ProcessTextQuietly(FinAcked(s1, p), p, now);
  }

  /** The RST goes out at `snd_nxt`, with everything sent so far given up as acknowledged. */
  function ResetOf(s: Sock): Packet {
    Packet(s.tcb.sndNxt, s.tcb.rcvNxt, RST_FLAGS, [], [])
  }

  lemma SendResetEffect(s: Sock)
    ensures var t := SendReset(s);
      && t.wire == s.wire + [ResetOf(s)] && t.tcb == s.tcb.(sndUna := s.tcb.sndNxt) && t.writeQ == s.writeQ
      && t.state == s.state
  {
  }

  /** What is answered or ended by a RST. */
  predicate SendsReset(s: Sock, e: Event, now: nat) {
    match e
    case Arrival(p) => s.state == Close && !p.flags.rst
    case AbortRequest => true
    case LingerExpires => Due(s.linger, now) && s.linger.value.handler == UserTimeout
    case _ => false
  }

  lemma ArrivalQuietly(s: Sock, p: Packet, now: nat)
    requires NoneResets(s.writeQ) && s.state != Close
    ensures Quietly(s, Input(s, p, now))
  {
    if s.state == SynSent {
      SynSentQuietly(s, p, now);
      hide SynSentInput, Resets;
    } else if s.state != Listen {
      OpenInput(s, p, now);
      ProcessAckQuietly(s, p, now);
      ProcessAckQuietly(s.(state := Established), p, now);
      SendAckQuietly(s);
      hide Input, ProcessAck, SendAck, Resets;
    }
  }

  lemma SynSentQuietly(s: Sock, p: Packet, now: nat)
    requires s.state == SynSent
    ensures Quietly(s, SynSentInput(s, p, now))
  {
    LearnSynQuietly(s, p);
    EstablishQuietly(LearnSyn(s, p), p, now);
    hide LearnSyn, Establish, Resets;
  }

  lemma LearnSynQuietly(s: Sock, p: Packet)
    ensures Quietly(s, LearnSyn(s, p)) && LearnSyn(s, p).wire == s.wire
  {
    hide Resets;
  }

  lemma EstablishQuietly(s: Sock, p: Packet, now: nat)
    ensures Quietly(s, Establish(s, p, now))
  {
    SendAckQuietly(EnterEstablished(s));
    hide SendAck, ParseFrom, Resets;
  }

  lemma HandlerQuietly(s: Sock, h: Handler, now: nat)
    requires NoneResets(s.writeQ)
    ensures Quietly(s, RunRtoHandler(s, h, now))
  {
    if s.writeQ != [] {
      TransmitQuietly(s, s.writeQ[0], s.tcb.sndUna);
      TransmitQuietly(DropFired(s), s.writeQ[0], s.tcb.sndUna);
    }
    hide Transmit, Resets, RtoTimer, BackOff;
  }

  lemma ConnectQuietly(s: Sock, iss: u32, now: nat)
    ensures Quietly(s, Connect(s, iss, now))
  {
    var s1 := s.(state := SynSent,
                 tcb := s.tcb.(iss := iss, sndUna := iss, sndNxt := iss, rcvNxt := 0, rcvWnd := INITIAL_WINDOW));
    QueueTransmitQuietly(s1, SynSkb(s1), now);
    hide QueueTransmit, Resets, SynOptions;
  }

  lemma CloseQuietly(s: Sock, now: nat)
    ensures Quietly(s, CloseCall(s, now))
  {
    QueueTransmitQuietly(s, FIN_SKB, now);
    QueueTransmitQuietly(s.(state := FinWait1), FIN_SKB, now);
    hide QueueTransmit, Resets;
  }

  lemma WriteQuietly(s: Sock, buf: seq<byte>, now: nat)
    ensures Quietly(s, Write(s, buf, now))
  {
    SegmentsAreNoResets(buf, s.smss);
    QueueAllQuietly(s, Segmentize(buf, s.smss), now);
    hide QueueAll, Segmentize, Resets;
  }

  /** What `SendsReset` promises of the step from `s` to `t`. */
  predicate ResetRule(s: Sock, e: Event, now: nat, t: Sock) {
    if SendsReset(s, e, now) then
      && t.wire == s.wire + [ResetOf(s)] && t.tcb == s.tcb.(sndUna := s.tcb.sndNxt) && NoneResets(t.writeQ)
      && (if e.Arrival? then t.state == Close else t.done)
    else Quietly(s, t) && NoneResets(t.writeQ)
  }

  lemma ResetArrival(s: Sock, p: Packet, now: nat)
    requires NoneResets(s.writeQ)
    ensures ResetRule(s, Arrival(p), now, Input(s, p, now))
  {
    SendResetEffect(s);
    if s.state != Close {
      ArrivalQuietly(s, p, now);
      hide Input, Resets;
    } else {
      hide SendReset, Resets;
    }
  }

  lemma AbortResets(s: Sock)
    requires NoneResets(s.writeQ)
    ensures var t := Abort(s);
      && t.wire == s.wire + [ResetOf(s)] && t.tcb == s.tcb.(sndUna := s.tcb.sndNxt) && t.writeQ == s.writeQ && t.done
  {
    SendResetEffect(s);
    hide SendReset;
  }

  lemma ResetCall(s: Sock, e: Event, now: nat)
    requires SocketInv(s) && NoneResets(s.writeQ) && !e.Arrival?
    ensures ResetRule(s, e, now, Step(s, e, now))
  {
    NoStrays(s);
    AbortResets(s);
    AbortResets(s.(linger := None));
    hide SocketInv, Resets, NoneResets, Abort, Connect, Write, CloseCall, Read, RunRtoHandler, DelackFires;
    match e {
      case ConnectCall(iss) => ConnectQuietly(s, iss, now);
      case WriteCall(buf) => WriteQuietly(s, buf, now);
      case ReadCall(n, blocking) => ReadFrame(s, n, blocking, now);
      case CloseRequest => CloseQuietly(s, now);
      case RtoExpires => if Due(s.rtx.timer, now) { HandlerQuietly(s, s.rtx.timer.value.handler, now); }
      case DelackExpires => DelackQuietly(s);
      case _ =>
    }
  }

  /** In every step, a RST is sent in these three cases and in no other, at most one, and as the last packet; a RST that
      the socket sends of its own accord ends the connection. */
  lemma StepResets(s: Sock, e: Event, now: nat)
    requires SocketInv(s) && NoneResets(s.writeQ)
    ensures NoneResets(Step(s, e, now).writeQ)
    ensures Resets(Step(s, e, now).wire) == Resets(s.wire) + if SendsReset(s, e, now) then [ResetOf(s)] else []
    ensures SendsReset(s, e, now) ==>
      && Step(s, e, now).wire == s.wire + [ResetOf(s)] && Step(s, e, now).tcb == s.tcb.(sndUna := s.tcb.sndNxt)
      && (if e.Arrival? then Step(s, e, now).state == Close else Step(s, e, now).done)
  {
    ResetsMore(s.wire, ResetOf(s));
    if e.Arrival? {
      ResetArrival(s, e.p, now);
      hide Input, SocketInv, Resets, NoneResets, SendsReset;
    } else {
      ResetCall(s, e, now);
      hide Step, SocketInv, Resets, NoneResets, SendsReset;
    }
  }

  lemma DelackQuietly(s: Sock)
    ensures Quietly(s, DelackFires(s))
  {
    SendAckQuietly(s.(delacks := 0, delack := None));
    hide SendAck, Resets;
  }

  lemma {:induction false} RunResets(trace: seq<(Event, nat)>)
    ensures NoneResets(Run(FRESH, trace).writeQ) && SocketInv(Run(FRESH, trace))
  {
    RunKeepsInv(trace);
    if trace != [] {
      var n := |trace| - 1;
      RunResets(trace[..n]);
      hide Step, SocketInv, NoneResets;
      StepResets(Run(FRESH, trace[..n]), trace[n].0, trace[n].1);
    }
  }

  /** Over every run: which RSTs are sent, and what they say. */
  lemma ResetsAreSent(trace: seq<(Event, nat)>, e: Event, now: nat)
    ensures var s, t := Run(FRESH, trace), Step(Run(FRESH, trace), e, now);
      && Resets(t.wire) == Resets(s.wire) + (if SendsReset(s, e, now) then [ResetOf(s)] else [])
      && (SendsReset(s, e, now) ==>
            && t.wire == s.wire + [ResetOf(s)] && t.tcb.sndUna == t.tcb.sndNxt == s.tcb.sndNxt
            && (if e.Arrival? then t.state == Close else t.done))
  {
    RunResets(trace);
    hide Run, Step, SocketInv, NoneResets, Resets, SendsReset, ResetOf;
    StepResets(Run(FRESH, trace), e, now);
  }

  /** So a connection that its user has not touched for three minutes is reset, and not before. */
  lemma UnusedIsReset(trace: seq<(Event, nat)>, now: nat)
    requires !Over(Run(FRESH, trace))
    ensures var s, t := Run(FRESH, trace), Step(Run(FRESH, trace), LingerExpires, now);
      if LastUse(trace).Some? && now > LastUse(trace).value + 180_000 then t.done && t.wire == s.wire + [ResetOf(s)]
      else t == s
  {
    var s := Run(FRESH, trace);
    UserTimeoutFollowsUse(trace);
    ResetsAreSent(trace, LingerExpires, now);
    hide Run, LastUse, LingerFires, Resets;
  }

  // ----- errors -----

  /** A retransmission timeout after which the connection is given up: the fifth for a SYN, and one with an RTO above a
      minute for anything else. */
  predicate TimesOut(s: Sock, e: Event, now: nat) {
    && e == RtoExpires && Due(s.rtx.timer, now)
    && if s.rtx.timer.value.handler == ConnectRto then s.state == SynSent && s.rtx.backoff >= 4
       else s.writeQ != [] && s.rtx.rto > 60_000
  }

  /** A call to close a connection that is already closed or closing. */
  predicate ClosesInVain(s: Sock, e: Event) {
    e == CloseRequest && s.state in {Close, FinWait1, FinWait2, Closing, LastAck, TimeWait}
  }

  lemma ProcessAckErr(s: Sock, p: Packet, now: nat)
    ensures ProcessAck(s, p, now).err == s.err
  {
    var s1 := if s.state == TimeWait then s else AckStage(s, p, now);
    StageErr(s1, p, now);
    AckStageErr(s, p, now);
    TextErr(FinAcked(s1, p), p, now);
    hide AckStage, FinAcked, ProcessText;
  }

  lemma AckStageErr(s: Sock, p: Packet, now: nat)
    ensures AckStage(s, p, now).err == s.err
  {
    hide Rtt, AckedPrefix;
  }

  lemma StageErr(s: Sock, p: Packet, now: nat)
    ensures FinAcked(s, p).err == FinStage(s, now).err == s.err
  {
    hide PacketFor, SacksAfter, OptionsLen;
  }

  lemma TextErr(s: Sock, p: Packet, now: nat)
    ensures ProcessText(s, p, now).err == s.err
  {
    var s1 := TextStage(s, p);
    assert s1.err == s.err by {
      hide CalculateSacks, InsertOrdered, PacketFor, SacksAfter, ReadyPrefix, Advance, OptionsLen;
    }
    StageErr(s1, p, now);
    PolicyErr(s1, p, now);
    PolicyErr(FinStage(s1, now), p, now);
    hide TextStage, FinStage, AckPolicy;
  }

  lemma PolicyErr(s: Sock, p: Packet, now: nat)
    ensures AckPolicy(s, p, now).err == s.err
  {
    SendNextInbox(s.(delack := None), 0, Min(|s.writeQ|, MAX_BURST));
    hide SendNext, PacketFor, SacksAfter, RtoTimer, Min;
  }

  lemma ArrivalErr(s: Sock, p: Packet, now: nat)
    ensures var t := Input(s, p, now);
      t.err == if s.state == SynSent && t.state == Established then 0
               else if s.state == SynSent && p.flags.rst && t.state == Closing then -111
               else s.err
  {
    if s.state in {Close, Listen, SynSent} {
      OpeningErr(s, p, now);
    } else {
      OpenInput(s, p, now);
      ProcessAckErr(s, p, now);
      ProcessAckErr(s.(state := Established), p, now);
      SendAckEffect(s);
      hide ProcessAck, SendAck;
    }
    hide Input;
  }

  lemma OpeningErr(s: Sock, p: Packet, now: nat)
    requires s.state in {Close, Listen, SynSent}
    ensures var t := Input(s, p, now);
      t.err == if s.state == SynSent && t.state == Established then 0
               else if s.state == SynSent && p.flags.rst && t.state == Closing then -111
               else s.err
  {
    LearnSynErr(s, p);
    EstablishErr(LearnSyn(s, p), p, now);
    hide PacketFor, SacksAfter, LearnSyn, Establish;
  }

  lemma LearnSynErr(s: Sock, p: Packet)
    ensures LearnSyn(s, p).err == s.err && LearnSyn(s, p).state == s.state
  {
    hide AckedPrefix;
  }

  lemma EstablishErr(s: Sock, p: Packet, now: nat)
    ensures Establish(s, p, now).err == 0 && Establish(s, p, now).state == Established
    ensures Establish(s, p, now).done == s.done
  {
    hide PacketFor, SacksAfter, OptionsLen, ParseFrom;
  }

  lemma {:induction false} QueueAllErr(s: Sock, skbs: seq<Skb>, now: nat)
    ensures QueueAll(s, skbs, now).err == s.err
    decreases |skbs|
  {
    if skbs != [] {
      QueueTransmitErr(s, skbs[0], now);
      hide QueueTransmit;
      QueueAllErr(QueueTransmit(s, skbs[0], now), skbs[1..], now);
    }
  }

  lemma QueueTransmitErr(s: Sock, skb: Skb, now: nat)
    ensures QueueTransmit(s, skb, now).err == s.err
  {
    hide PacketFor, SacksAfter, RtoTimer;
  }

  lemma CallErr(s: Sock, e: Event, now: nat)
    requires SocketInv(s) && !e.Arrival?
    ensures Step(s, e, now).err ==
            if e.ConnectCall? && s.state == Close then -115
            else if TimesOut(s, e, now) then -110
            else if ClosesInVain(s, e) then -9
            else s.err
  {
    NoStrays(s);
    hide PacketFor, SacksAfter, OptionsLen, RtoTimer, SynSkb, Connect, Read, SocketInv, SendReset;
    match e {
      case WriteCall(buf) =>
        QueueAllErr(s, Segmentize(buf, s.smss), now);
        hide QueueAll, Segmentize;
      case CloseRequest =>
        QueueTransmitErr(s, FIN_SKB, now);
        QueueTransmitErr(s.(state := FinWait1), FIN_SKB, now);
        hide QueueTransmit;
      case ReadCall(n, blocking) => ReadFrame(s, n, blocking, now);
      case AbortRequest => ResetErr(s);
      case LingerExpires => ResetErr(s.(linger := None));
      case _ =>
    }
  }

  lemma ResetErr(s: Sock)
    ensures SendReset(s).err == s.err
  {
    hide PacketFor, SacksAfter;
  }

  /** What the error of a socket says, over every run: the open is under way; it has succeeded; the peer refused it;
      nobody has answered for too long; or the socket was closed twice. Nothing else touches it. */
  lemma ErrorsAreTold(trace: seq<(Event, nat)>, e: Event, now: nat)
    ensures var s, t := Run(FRESH, trace), Step(Run(FRESH, trace), e, now);
      t.err == if e.ConnectCall? && s.state == Close then -115
               else if e.Arrival? && s.state == SynSent && t.state == Established then 0
               else if e.Arrival? && s.state == SynSent && e.p.flags.rst && t.state == Closing then -111
               else if TimesOut(s, e, now) then -110
               else if ClosesInVain(s, e) then -9
               else s.err
  {
    var s := Run(FRESH, trace);
    RunKeepsInv(trace);
    hide Run, SocketInv, TimesOut;
    if e.Arrival? {
      ArrivalErr(s, e.p, now);
      NoTimeout(s, e, now);
      hide Input;
    } else {
      CallErr(s, e, now);
      hide Step;
    }
  }

  lemma NoTimeout(s: Sock, e: Event, now: nat)
    requires e != RtoExpires
    ensures !TimesOut(s, e, now)
  {
  }

  /** The retransmission timeout of a connection, in every run: the head of the queue goes out once more in any case;
      above a minute that was the last time, otherwise the RTO doubles and the timer runs for it, and a FIN takes
      the connection to the state that follows its own. */
  lemma TimeoutGivesUp(trace: seq<(Event, nat)>, now: nat)
    requires var s := Run(FRESH, trace); Due(s.rtx.timer, now) && s.rtx.timer.value.handler != ConnectRto
    ensures var s, t := Run(FRESH, trace), Step(Run(FRESH, trace), RtoExpires, now);
      && s.writeQ != [] && |t.wire| == |s.wire| + 1
      && (var p := t.wire[|s.wire|];
          p.seqNo == s.tcb.sndUna && p.payload == s.writeQ[0].payload && p.flags == s.writeQ[0].flags)
      && if s.rtx.rto > 60_000 then t.done && t.err == -110 && t.rtx.timer == None
         else t.done == s.done && t.rtx.rto == 2 * s.rtx.rto
              && t.rtx.timer == Some(Timer(now + 2 * s.rtx.rto, RetransmissionTimeout))
              && t.state == (if !s.writeQ[0].flags.fin then s.state else match s.state case CloseWait => LastAck
                                                                                       case Established => FinWait1
                                                                                       case _ => s.state)
  {
    RunKeepsInv(trace);
    hide Run, OptionsAfter, SacksAfter;
  }

  // ----- closing -----

  /** The queue before the call, and a segment that is a FIN and nothing else. */
  predicate FinQueued(s: Sock, t: Sock) {
    && |t.writeQ| == |s.writeQ| + 1 && t.writeQ[..|s.writeQ|] == s.writeQ
    && t.writeQ[|s.writeQ|].flags == Flags(true, false, false, false, true) && t.writeQ[|s.writeQ|].payload == []
    && if s.inflight == 0 then
         && |t.wire| == |s.wire| + 1 && t.inflight == 1 && t.tcb == s.tcb.(sndNxt := U32(s.tcb.sndNxt + 1))
         && t.wire[|s.wire|].flags.fin && t.wire[|s.wire|].seqNo == s.tcb.sndNxt
       else t.wire == s.wire && t.inflight == s.inflight && t.tcb == s.tcb
  }

  /** Closing by state: give up an open that has not succeeded, send a FIN behind everything written, or fail. */
  lemma CloseDoes(s: Sock, now: nat)
    ensures var t := Step(s, CloseRequest, now);
      match s.state
      case Listen => t.done
      case SynSent => t.done
      case SynReceived => t.done
      case Established => t.state == FinWait1 && FinQueued(s, t)
      case CloseWait => t.state == CloseWait && FinQueued(s, t)
      case _ => t == s.(err := -9)
  {
    QueueFinEffect(s, now);
    QueueFinEffect(s.(state := FinWait1), now);
    hide QueueFin;
  }

  lemma QueueFinEffect(s: Sock, now: nat)
    ensures var t := QueueFin(s, now); t.state == s.state && FinQueued(s, t)
  {
    hide OptionsAfter, SacksAfter, RtoTimer;
  }

  // ----- what is written is queued -----

  /** A write adds its bytes to the queue, once and at its end, exactly while the connection can send and no error is
      pending. */
  lemma WriteTakes(s: Sock, buf: seq<byte>, now: nat)
    ensures var t := Step(s, WriteCall(buf), now);
      && t.state == s.state && t.err == s.err
      && Flat(t.writeQ) == Flat(s.writeQ) + if s.err == 0 && s.state in {Established, CloseWait} then buf else []
  {
    WriteIs(s, buf, now);
    var q := Segmentize(buf, s.smss);
    SegmentizeCutsStream(buf, s.smss);
    assert Flat(s.writeQ) + [] == Flat(s.writeQ);
    hide *;
    QueueAllFlat(s, q, now);
    QueueAllErr(s, q, now);
    QueueAllState(s, q, now);
  }

  lemma WriteIs(s: Sock, buf: seq<byte>, now: nat)
    ensures var t, u := Step(s, WriteCall(buf), now), QueueAll(s, Segmentize(buf, s.smss), now);
      if s.err == 0 && s.state in {Established, CloseWait}
      then t.writeQ == u.writeQ && t.state == u.state && t.err == u.err
      else t == s
  {
    hide QueueAll, Segmentize;
  }

  lemma {:induction false} QueueAllFlat(s: Sock, skbs: seq<Skb>, now: nat)
    ensures Flat(QueueAll(s, skbs, now).writeQ) == Flat(s.writeQ) + Flat(skbs)
    decreases |skbs|
  {
    if skbs != [] {
      QueueTransmitFlat(s, skbs[0], now);
      hide QueueTransmit;
      QueueAllFlat(QueueTransmit(s, skbs[0], now), skbs[1..], now);
      assert Flat(s.writeQ) + skbs[0].payload + Flat(skbs[1..]) == Flat(s.writeQ) + (skbs[0].payload + Flat(skbs[1..]));
    } else {
      assert Flat(s.writeQ) + [] == Flat(s.writeQ);
    }
  }

  lemma QueueTransmitFlat(s: Sock, skb: Skb, now: nat)
    ensures Flat(QueueTransmit(s, skb, now).writeQ) == Flat(s.writeQ) + skb.payload
  {
    FlatSnoc(s.writeQ, skb);
    FlatSnoc(s.writeQ, Stamp(skb, s.tcb.sndNxt));
    hide PacketFor, SacksAfter, RtoTimer, Flat;
  }

  // ----- what is stopped at the end -----

  /** No timer runs, and nothing waits out of order. */
  predicate Stopped(t: Sock) {
    t.rtx.timer == None && t.delack == None && t.linger == None && t.inbox.ofoQ == []
  }

  /** The step ends the connection: `tcp_done` runs. */
  predicate EndsNow(s: Sock, t: Sock) {
    t.done && !s.done
  }

  /** Only the timer of 60 seconds runs. */
  predicate Lingers(t: Sock, now: nat) {
    t.rtx.timer == None && t.delack == None && t.linger == Some(Timer(now + 60_000, Linger))
  }

  lemma TextStops(s: Sock, p: Packet, now: nat)
    requires s.state !in {Closing, TimeWait}
    ensures var t := ProcessText(s, p, now); t.done == s.done && (t.state == TimeWait ==> Lingers(t, now))
  {
    var s1 := TextStage(s, p);
    TextState(s, p);
    FinStops(s1, now);
    Timing.FinEnds(s1, now);
    AckPolicyState(s1, p, now);
    hide TextStage, FinStage, AckPolicy;
  }

  lemma FinStops(s: Sock, now: nat)
    requires s.state !in {Closing, TimeWait}
    ensures var t := FinStage(s, now); t.done == s.done && (t.state == TimeWait ==> Lingers(t, now))
  {
    hide PacketFor, SacksAfter, OptionsLen;
  }

  lemma AckStops(s: Sock, p: Packet, now: nat)
    requires s.state !in {Closing, TimeWait}
    ensures var t := ProcessAck(s, p, now); (EndsNow(s, t) ==> Stopped(t)) && (t.state == TimeWait ==> Lingers(t, now))
  {
    var s1 := AckStage(s, p, now);
    AckStageState(s, p, now);
    FinAckedStops(s1, p);
    hide AckStage, FinAcked, ProcessText;
    TextStops(FinAcked(s1, p), p, now);
  }

  lemma FinAckedStops(s: Sock, p: Packet)
    requires s.state !in {Closing, TimeWait}
    ensures var t := FinAcked(s, p); t.state !in {Closing, TimeWait} && t.done == s.done
  {
  }

  lemma ArrivalStops(s: Sock, p: Packet, now: nat)
    requires s.state !in {Closing, TimeWait}
    ensures var t := Input(s, p, now); (EndsNow(s, t) ==> Stopped(t)) && (t.state == TimeWait ==> Lingers(t, now))
  {
    if s.state in {Close, Listen, SynSent} {
      LearnSynErr(s, p);
      LearnSynDone(s, p);
      EstablishErr(LearnSyn(s, p), p, now);
      hide PacketFor, SacksAfter, LearnSyn, Establish;
    } else {
      OpenInput(s, p, now);
      AckStops(s, p, now);
      AckStops(s.(state := Established), p, now);
      SendAckEffect(s);
      hide Input, ProcessAck, SendAck;
    }
  }

  lemma LearnSynDone(s: Sock, p: Packet)
    ensures LearnSyn(s, p).done == s.done
  {
    hide AckedPrefix;
  }

  lemma CallStops(s: Sock, e: Event, now: nat)
    requires !e.Arrival?
    ensures var t := Step(s, e, now); (EndsNow(s, t) ==> Stopped(t)) && (t.state == TimeWait ==> s.state == TimeWait)
  {
    DoneStops(s);
    DoneStops(s.(linger := None));
    hide PacketFor, SacksAfter, OptionsLen, RtoTimer, SynSkb, Read, RunRtoHandler, QueueAll, Segmentize, Done, Abort;
    match e {
      case WriteCall(buf) => QueueAllState(s, Segmentize(buf, s.smss), now);
      case CloseRequest =>
        QueueTransmitState(s, FIN_SKB, now);
        QueueTransmitState(s.(state := FinWait1), FIN_SKB, now);
        hide QueueTransmit;
      case ReadCall(n, blocking) => ReadFrame(s, n, blocking, now);
      case RtoExpires => if Due(s.rtx.timer, now) { HandlerStops(s, s.rtx.timer.value.handler, now); }
      case StrayExpires(i) =>
        if i < |s.rtx.strays| {
          var s1 := s.(rtx := s.rtx.(strays := s.rtx.strays[..i] + s.rtx.strays[i + 1..]));
          HandlerStops(s1, s.rtx.strays[i].handler, now);
        }
      case ConnectCall(iss) => ConnectStops(s, iss, now); hide Connect;
      case _ =>
    }
  }

  lemma DoneStops(s: Sock)
    ensures Stopped(Done(s)) && Stopped(Abort(s)) && Done(s).state == Abort(s).state == Closing
  {
    hide PacketFor, SacksAfter;
  }

  lemma HandlerStops(s: Sock, h: Handler, now: nat)
    ensures var t := RunRtoHandler(s, h, now);
      (EndsNow(s, t) ==> Stopped(t)) && (t.state == TimeWait ==> s.state == TimeWait)
  {
    hide PacketFor, SacksAfter, RtoTimer;
  }

  lemma ConnectStops(s: Sock, iss: u32, now: nat)
    ensures Connect(s, iss, now).state == SynSent && Connect(s, iss, now).done == s.done
  {
    hide PacketFor, SacksAfter, RtoTimer, SynSkb;
  }

  /** Whatever ends a connection stops all its timers and frees what waits out of order; whatever brings it to
      TIME_WAIT, other than the last acknowledgement in CLOSING, leaves one timer of 60 seconds. */
  lemma EndStopsTimers(s: Sock, e: Event, now: nat)
    requires s.state !in {Closing, TimeWait}
    ensures var t := Step(s, e, now); (EndsNow(s, t) ==> Stopped(t)) && (t.state == TimeWait ==> Lingers(t, now))
  {
    if e.Arrival? {
      ArrivalStops(s, e.p, now);
      hide Input;
    } else {
      CallStops(s, e, now);
      hide Step;
    }
  }

  // ----- segments that are not taken -----

  /** An opened connection answers a segment outside its window by an ACK, except a RST; inside it, a RST resets, and a
      SYN, or a segment without an acknowledgement, has no effect at all. */
  lemma RefusedSegments(s: Sock, p: Packet, now: nat)
    requires s.state !in {Close, Listen, SynSent}
    ensures var t := Input(s, p, now);
      if VerifySegment(s, p) then
        && (p.flags.rst ==> t.state == TimeWait && t.wire == s.wire && t.tcb == s.tcb)
        && (!p.flags.rst && (p.flags.syn || !p.flags.ack) ==> t == s)
      else if p.flags.rst then t == s
      else
        && t == s.(wire := t.wire, sack := t.sack) && |t.wire| == |s.wire| + 1
        && var a := t.wire[|s.wire|];
           a.flags == ACK_FLAGS && a.seqNo == s.tcb.sndNxt && a.ackSeq == s.tcb.rcvNxt && a.payload == []
  {
    SendAckEffect(s);
    assert AckPacket(s).flags == ACK_FLAGS && AckPacket(s).payload == [];
    hide SendAck, AckPacket, ProcessAck, VerifySegment;
  }

  // ----- after the end -----

  /** In TIME_WAIT the socket stays, and answers: a segment outside the window, such as a FIN sent again, and one in
      sequence once everything of its own is acknowledged. */
  lemma TimeWaitAnswers(s: Sock, p: Packet, now: nat)
    requires s.state == TimeWait && !p.flags.rst
    ensures var t := Input(s, p, now);
      && t.state == TimeWait
      && (!VerifySegment(s, p) || (!p.flags.syn && p.flags.ack && p.seqNo == s.tcb.rcvNxt && s.writeQ == []) ==>
            |t.wire| > |s.wire| && t.wire[|t.wire| - 1].flags == ACK_FLAGS && t.wire[|t.wire| - 1].ackSeq == t.tcb.rcvNxt)
  {
    RefusedSegments(s, p, now);
    OpenInput(s, p, now);
    TimeWaitText(s, p, now);
    hide Input, ProcessAck, VerifySegment, SendAck, EnterTimeWait;
  }

  lemma TimeWaitText(s: Sock, p: Packet, now: nat)
    requires s.state == TimeWait
    ensures var t := ProcessAck(s, p, now);
      && t.state == TimeWait
      && (p.seqNo == s.tcb.rcvNxt && s.writeQ == [] ==>
            |t.wire| > |s.wire| && t.wire[|t.wire| - 1].flags == ACK_FLAGS && t.wire[|t.wire| - 1].ackSeq == t.tcb.rcvNxt)
  {
    var s2 := FinAcked(s, p);
    TimeWaitAck(s, p);
    TimeWaitFin(s2, now);
    assert ProcessText(s2, p, now) == if p.flags.fin && p.seqNo == s2.tcb.rcvNxt then FinStage(s2, now) else s2 by {
      hide FinStage, DataQueue, AckPolicy, FinAcked;
      TimeWaitFin(s2, now);
    }
    hide ProcessText, FinStage, FinAcked;
  }

  lemma TimeWaitAck(s: Sock, p: Packet)
    requires s.state == TimeWait
    ensures var t := FinAcked(s, p);
      && t.state == TimeWait && t.tcb == s.tcb && t.writeQ == s.writeQ && |t.wire| >= |s.wire|
      && (p.seqNo == s.tcb.rcvNxt && s.writeQ == [] ==>
            |t.wire| > |s.wire| && t.wire[|t.wire| - 1].flags == ACK_FLAGS && t.wire[|t.wire| - 1].ackSeq == t.tcb.rcvNxt)
  {
    var s1 := s.(inbox := s.inbox.(fin := true));
    SendAckEffect(s1);
    assert AckPacket(s1).flags == ACK_FLAGS;
    hide SendAck, AckPacket;
  }

  lemma TimeWaitFin(s: Sock, now: nat)
    requires s.state == TimeWait
    ensures var t := FinStage(s, now);
      && t.state == TimeWait && |t.wire| > |s.wire|
      && t.wire[|t.wire| - 1].flags == ACK_FLAGS && t.wire[|t.wire| - 1].ackSeq == t.tcb.rcvNxt
  {
    var s1 := s.(tcb := s.tcb.(rcvNxt := U32(s.tcb.rcvNxt + 1)), inbox := s.inbox.(fin := true, pollIn := true));
    SendAckEffect(s1);
    assert AckPacket(s1).flags == ACK_FLAGS;
    hide SendAck, AckPacket;
  }
}
