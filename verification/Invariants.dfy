/** What every event keeps of every socket, whatever the peer sends and whatever the user does: limits on
    what is in flight, at most one live retransmission timer, a SACK array that is empty between steps, and
    readiness that agrees with the receive queue. */
module Invariants {
  import opened Words
  import opened TcpTypes
  import opened Tcp
  import opened TcpOutput
  import opened TcpData
  import opened TcpInput
  import opened Host
  import opened Sender
  import opened Receiver
  import opened Sacks

  predicate FlightInv(s: Sock) {
    && s.inflight <= MAX_BURST && s.inflight <= |s.writeQ|
    && (s.rtx.timer.Some? ==> s.inflight > 0)
    && s.rtx.strays == []
  }

  predicate SackInv(s: Sock) {
    Cleared(s.sack) && forall i :: 0 <= i < |s.inbox.ofoQ| ==> s.inbox.ofoQ[i].seqNo > 0
  }

  /** Until the peer's FIN is processed, POLLIN is set exactly when data waits for the reader. */
  predicate ReadyInv(s: Sock) {
    AcceptsText(s) ==> (s.inbox.pollIn <==> s.inbox.recvQ != []) && !s.inbox.fin
  }

  /** Nothing is queued before the connection has opened. */
  predicate EarlyInv(s: Sock) {
    && (s.state in {Close, Listen, SynSent, SynReceived} ==> s.inbox == Inbox([], [], false, false, false))
    && (s.state == Close ==> s.writeQ == [] && s.inflight == 0)
  }

  predicate SocketInv(s: Sock) {
    FlightInv(s) && SackInv(s) && ReadyInv(s) && EarlyInv(s)
  }

  lemma NoStrays(s: Sock)
    requires SocketInv(s)
    ensures s.rtx.strays == []
  {
  }

  // ----- sending -----

  lemma TransmitKeepsSack(s: Sock, skb: Skb, sn: u32)
    requires Cleared(s.sack)
    ensures Transmit(s, skb, sn).sack == s.sack
  {
    ClearedReportsNothing(s.sack);
  }

  lemma SendAckKeeps(s: Sock)
    requires SocketInv(s)
    ensures SocketInv(SendAck(s)) && SendAck(s) == s.(wire := SendAck(s).wire)
  {
    TransmitKeepsSack(s, AckSkb(s), s.tcb.sndNxt);
    hide PacketFor, SacksAfter;
  }

  lemma QueueTransmitKeeps(s: Sock, skb: Skb, now: nat)
    requires SocketInv(s) && s.state != Close
    ensures SocketInv(QueueTransmit(s, skb, now)) && QueueTransmit(s, skb, now).state == s.state
  {
    TransmitKeepsSack(if s.writeQ == [] then RearmRto(s, now) else s, skb, s.tcb.sndNxt);
    hide PacketFor, SacksAfter, RtoTimer;
  }

  lemma {:induction false} QueueAllKeeps(s: Sock, skbs: seq<Skb>, now: nat)
    requires SocketInv(s) && s.state != Close
    ensures SocketInv(QueueAll(s, skbs, now)) && QueueAll(s, skbs, now).state == s.state
    decreases |skbs|
  {
    if skbs != [] {
      QueueTransmitKeeps(s, skbs[0], now);
      hide QueueTransmit, SocketInv;
      QueueAllKeeps(QueueTransmit(s, skbs[0], now), skbs[1..], now);
    }
  }

  lemma {:induction false} SendNextKeeps(s: Sock, i: nat, amount: nat)
    requires Cleared(s.sack)
    ensures var t := SendNextFrom(s, i, amount); t.sack == s.sack && |t.writeQ| == |s.writeQ|
    decreases amount - i
  {
    if i < amount && i < |s.writeQ| {
      TransmitKeepsSack(s, s.writeQ[i], s.tcb.sndNxt);
      hide PacketFor, SacksAfter, NextSeq, Cleared;
      SendNextKeeps(
        SendNew(s, s.writeQ[i]).(writeQ := s.writeQ[i := Stamp(s.writeQ[i], s.tcb.sndNxt)]), i + 1, amount);
    }
  }

  lemma AckPolicyKeeps(s: Sock, p: Packet, now: nat)
    requires SocketInv(s) && s.state != Close
    ensures SocketInv(AckPolicy(s, p, now))
  {
    var s1 := s.(delacks := 0, delack := None);
    SendAckKeeps(s1);
    SendNextKeeps(s.(delack := None), 0, Min(|s.writeQ|, MAX_BURST));
    SendNextInbox(s.(delack := None), 0, Min(|s.writeQ|, MAX_BURST));
    hide SendNextFrom, SendAck, RtoTimer, Cleared;
  }

  // ----- receiving -----

  lemma {:induction false} InsertKeepsPositive(q: seq<Skb>, i: nat, skb: Skb)
    requires i <= |q| && skb.seqNo > 0 && forall j :: 0 <= j < |q| ==> q[j].seqNo > 0
    ensures var r := InsertFrom(q, i, skb); r != [] && forall j :: 0 <= j < |r| ==> r[j].seqNo > 0
    decreases |q| - i
  {
    if i < |q| {
      InsertKeepsPositive(q, i + 1, skb);
    }
  }

  lemma DeferKeepsInv(s: Sock, skb: Skb)
    requires SocketInv(s) && s.state != Close && skb.seqNo > 0 && AcceptsText(s)
    ensures SocketInv(Defer(s, skb)) && Defer(s, skb).state == s.state
  {
    var q := InsertOrdered(s.inbox.ofoQ, skb);
    InsertKeepsPositive(s.inbox.ofoQ, 0, skb);
    if s.sack.ok {
      CalculateFills(s.sack, q);
      var x := CalculateSacks(s.sack, q);
      SackFillsReservedSpace(x, x.len);
    } else {
      ClearedReportsNothing(s.sack);
    }
    hide OptionsLen, OptionsAfter, SacksAfter, CalculateSacks, InsertFrom, Filled, Cleared;
  }

  lemma AcceptKeepsInv(s: Sock, skb: Skb)
    requires SocketInv(s) && AcceptsText(s)
    ensures SocketInv(Accept(s, skb)) && Accept(s, skb).state == s.state
  {
    ConsumeKeeps(s.(tcb := s.tcb.(rcvNxt := U32(s.tcb.rcvNxt + |skb.payload|)),
                    inbox := s.inbox.(recvQ := s.inbox.recvQ + [skb])));
    hide ConsumeOfo, Cleared;
  }

  lemma ConsumeKeeps(s: Sock)
    ensures var t := ConsumeOfo(s);
      && t == s.(tcb := t.tcb, inbox := t.inbox)
      && t.inbox == s.inbox.(recvQ := t.inbox.recvQ, ofoQ := t.inbox.ofoQ)
      && |t.inbox.recvQ| >= |s.inbox.recvQ|
      && forall i :: 0 <= i < |t.inbox.ofoQ| ==> t.inbox.ofoQ[i] in s.inbox.ofoQ
  {
    hide ReadyPrefix, Advance;
  }

  lemma TextKeepsInv(s: Sock, p: Packet)
    requires SocketInv(s) && s.tcb.rcvNxt <= p.seqNo
    ensures SocketInv(TextStage(s, p)) && TextStage(s, p).state == s.state
  {
    if AcceptsText(s) {
      AcceptKeepsInv(s, SkbOf(p));
      if p.seqNo != s.tcb.rcvNxt {
        DeferKeepsInv(s, SkbOf(p));
      }
    }
    hide Accept, Defer, SocketInv;
  }

  lemma FinKeepsInv(s: Sock, now: nat)
    requires SocketInv(s) && Open(s)
    ensures SocketInv(FinStage(s, now)) && FinStage(s, now).state != Close
  {
    var s1 := s.(tcb := s.tcb.(rcvNxt := U32(s.tcb.rcvNxt + 1)), inbox := s.inbox.(fin := true, pollIn := true));
    TransmitKeepsSack(s1, AckSkb(s1), s1.tcb.sndNxt);
    hide PacketFor, SacksAfter, Cleared;
  }

  lemma ProcessTextKeepsInv(s: Sock, p: Packet, now: nat)
    requires SocketInv(s) && Open(s) && s.tcb.rcvNxt <= p.seqNo
    ensures SocketInv(ProcessText(s, p, now))
  {
    var s1 := TextStage(s, p);
    TextKeepsInv(s, p);
    FinKeepsInv(s1, now);
    hide TextStage, FinStage, SocketInv;
    AckPolicyKeeps(s1, p, now);
    AckPolicyKeeps(FinStage(s1, now), p, now);
    hide AckPolicy;
  }

  lemma AckStageKeepsInv(s: Sock, p: Packet, now: nat)
    requires SocketInv(s)
    ensures var t := AckStage(s, p, now); SocketInv(t) && t.state == s.state && t.tcb.rcvNxt == s.tcb.rcvNxt
  {
    hide Rtt, Cleared;
    assert Rtt(s.rtx, now).timer == s.rtx.timer && Rtt(s.rtx, now).strays == s.rtx.strays by { RttKeepsTimer(s.rtx, now); }
  }

  lemma RttKeepsTimer(x: Rtx, now: nat)
    ensures Rtt(x, now).timer == x.timer && Rtt(x, now).strays == x.strays
  {
  }

  lemma FinAckedKeepsInv(s: Sock, p: Packet)
    requires SocketInv(s) && Open(s)
    ensures var t := FinAcked(s, p); SocketInv(t) && Open(t) && t.tcb == s.tcb
  {
    if s.state == TimeWait {
      SendAckKeeps(s.(inbox := s.inbox.(fin := true)));
    }
    hide SendAck, Cleared;
  }

  lemma DoneKeepsInv(s: Sock)
    requires FlightInv(s) && Cleared(s.sack)
    ensures SocketInv(Done(s))
  {
    hide Cleared;
  }

  lemma ProcessAckKeepsInv(s: Sock, p: Packet, now: nat)
    requires SocketInv(s) && Open(s) && s.tcb.rcvNxt <= p.seqNo
    ensures SocketInv(ProcessAck(s, p, now))
  {
    AckStageKeepsInv(s, p, now);
    var s1 := if s.state == TimeWait then s else AckStage(s, p, now);
    hide AckStage;
    FinAckedKeepsInv(s1, p);
    DoneKeepsInv(s1);
    hide FinAcked, Done, SocketInv;
    ProcessTextKeepsInv(FinAcked(s1, p), p, now);
    hide ProcessText;
  }

  // ----- opening -----

  lemma EstablishKeepsInv(s: Sock, p: Packet, now: nat)
    requires SocketInv(s) && s.state == SynSent
    ensures SocketInv(Establish(s, p, now))
  {
    SendAckKeeps(s.(state := Established, tcb := s.tcb.(sndUna := s.tcb.sndNxt), rtx := s.rtx.(backoff := 0, rto := 1000)));
    hide SendAck, ParseFrom;
  }

  lemma LearnSynKeepsInv(s: Sock, p: Packet)
    requires SocketInv(s)
    ensures SocketInv(LearnSyn(s, p)) && LearnSyn(s, p).state == s.state
  {
    hide Cleared;
  }

  lemma SynSentKeepsInv(s: Sock, p: Packet, now: nat)
    requires SocketInv(s) && s.state == SynSent
    ensures SocketInv(SynSentInput(s, p, now))
  {
    LearnSynKeepsInv(s, p);
    EstablishKeepsInv(LearnSyn(s, p), p, now);
    DoneKeepsInv(s);
    hide LearnSyn, Establish, Done, Cleared;
  }

  lemma InputKeepsInv(s: Sock, p: Packet, now: nat)
    requires SocketInv(s)
    ensures SocketInv(Input(s, p, now))
  {
    if s.state == SynSent {
      SynSentKeepsInv(s, p, now);
      hide SynSentInput, SocketInv;
    } else if s.state == Close {
      SendResetKeeps(s);
      hide SendReset, SocketInv;
    } else if s.state != Listen {
      ArrivalKeepsInv(s, p, now);
    }
  }

  lemma SendResetKeeps(s: Sock)
    requires SocketInv(s)
    ensures SocketInv(SendReset(s))
  {
    hide PacketFor, Cleared;
  }

  lemma ArrivalKeepsInv(s: Sock, p: Packet, now: nat)
    requires SocketInv(s) && s.state !in {Close, Listen, SynSent}
    ensures SocketInv(Input(s, p, now))
  {
    var s1 := if s.state == SynReceived then s.(state := Established) else s;
    if s.tcb.rcvNxt <= p.seqNo {
      ProcessAckKeepsInv(s1, p, now);
    }
    SendAckKeeps(s);
    hide ProcessAck, SendAck, Cleared;
    assert SocketInv(EnterTimeWait(s, now));
    hide SocketInv;
  }

  // ----- calls and timers -----

  lemma ConnectKeepsInv(s: Sock, iss: u32, now: nat)
    requires SocketInv(s) && s.state == Close
    ensures SocketInv(Connect(s, iss, now).(err := -EINPROGRESS))
  {
    var s1 := s.(state := SynSent,
                 tcb := s.tcb.(iss := iss, sndUna := iss, sndNxt := iss, rcvNxt := 0, rcvWnd := INITIAL_WINDOW));
    QueueTransmitKeeps(s1, SynSkb(s1), now);
    hide QueueTransmit, Cleared;
  }

  lemma {:induction false} DequeueSuffix(q: seq<Skb>, n: nat)
    ensures var (data, rest, psh) := Dequeue(q, n); rest != [] ==> q != []
  {
  }

  lemma ReadKeepsInv(s: Sock, n: nat, blocking: bool, now: nat)
    requires SocketInv(s)
    ensures SocketInv(Read(s, n, blocking, now).0)
  {
    DequeueSuffix(s.inbox.recvQ, n);
    assert s.inbox.recvQ == [] ==> Dequeue(s.inbox.recvQ, n) == ([], [], false);
    hide Dequeue, Cleared;
  }

  lemma RtoKeepsInv(s: Sock, h: Handler, now: nat)
    requires SocketInv(s) && s.rtx.timer.Some?
    ensures SocketInv(RunRtoHandler(s, h, now))
  {
    if s.writeQ != [] {
      TransmitKeepsSack(s, s.writeQ[0], s.tcb.sndUna);
      TransmitKeepsSack(DropFired(s), s.writeQ[0], s.tcb.sndUna);
    }
    hide PacketFor, SacksAfter, Cleared, RtoTimer;
  }

  lemma CloseKeepsInv(s: Sock, now: nat)
    requires SocketInv(s)
    ensures SocketInv(CloseCall(s, now))
  {
    if s.state != Close {
      QueueTransmitKeeps(s, FIN_SKB, now);
    }
    if s.state == Established {
      QueueTransmitKeeps(s.(state := FinWait1), FIN_SKB, now);
    }
    DoneKeepsInv(s);
    hide QueueTransmit, Done, Cleared;
  }

  lemma AbortKeepsInv(s: Sock)
    requires SocketInv(s)
    ensures SocketInv(Abort(s))
  {
    SendResetKeeps(s);
    DoneKeepsInv(SendReset(s));
    hide Done, SendReset;
  }

  lemma StepKeepsInv(s: Sock, e: Event, now: nat)
    requires SocketInv(s)
    ensures SocketInv(Step(s, e, now))
  {
    hide Connect, Write, Read, CloseCall, Abort, Input, RunRtoHandler, DelackFires, LingerFires, SocketInv;
    match e {
      case ConnectCall(iss) => if s.state == Close { ConnectKeepsInv(s, iss, now); }
      case WriteCall(buf) => WriteKeepsInv(s, buf, now);
      case ReadCall(n, blocking) => ReadKeepsInv(s, n, blocking, now);
      case CloseRequest => CloseKeepsInv(s, now);
      case AbortRequest => AbortKeepsInv(s);
      case Arrival(p) => InputKeepsInv(s, p, now);
      case _ => TimerKeepsInv(s, e, now);
    }
  }

  lemma WriteKeepsInv(s: Sock, buf: seq<byte>, now: nat)
    requires SocketInv(s)
    ensures SocketInv(Write(s, buf, now))
  {
    if Writable(s) {
      QueueAllKeeps(s, Segmentize(buf, s.smss), now);
    }
    hide QueueAll, Segmentize, Cleared;
  }

  lemma TimerKeepsInv(s: Sock, e: Event, now: nat)
    requires SocketInv(s) && (e.RtoExpires? || e.StrayExpires? || e.DelackExpires? || e.LingerExpires?)
    ensures SocketInv(Step(s, e, now))
  {
    hide RunRtoHandler, SendAck, Abort, Done, Cleared;
    match e {
      case RtoExpires => if Due(s.rtx.timer, now) { RtoKeepsInv(s, s.rtx.timer.value.handler, now); }
      case StrayExpires(i) =>
      case DelackExpires => SendAckKeeps(s.(delacks := 0, delack := None));
      case LingerExpires =>
        AbortKeepsInv(s.(linger := None));
        DoneKeepsInv(s.(linger := None));
      case _ =>
    }
  }

  /** Every state that a socket can reach, under any events at all, satisfies the invariant. */
  lemma {:induction false} RunKeepsInv(trace: seq<(Event, nat)>)
    ensures SocketInv(Run(FRESH, trace))
  {
    if trace != [] {
      var n := |trace| - 1;
      RunKeepsInv(trace[..n]);
      hide Step, SocketInv;
      StepKeepsInv(Run(FRESH, trace[..n]), trace[n].0, trace[n].1);
    }
  }
}
