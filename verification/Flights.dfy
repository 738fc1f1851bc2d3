/** What a round-trip sample is worth. `tcp_rtt` computes it from the expiry time of the timer and the present
    RTO; here every run of a socket is recorded beside it: when the timer of the present flight was armed, and
    for how long. */
module Flights {
  import opened Words
  import opened TcpTypes
  import opened Tcp
  import opened TcpOutput
  import opened TcpData
  import opened TcpInput
  import opened Host
  import opened Sender
  import opened Receiver
  import opened Arrivals
  import opened Lifecycle
  import opened Invariants
  import opened Timing
  import Network
  import opened Limits

  // ----- the history -----

  /** When the timer was last armed, for how long, and whether a sample has been taken since. */
  datatype Flight = Flight(armedAt: nat, armedFor: nat, measured: bool)

  /** The segment ends a flight and the next burst leaves with it. */
  predicate Bursts(s: Sock, p: Packet, now: nat) {
    && PassesChecks(s, p) && s.state in {SynReceived, Established, FinWait1, FinWait2}
    && p.seqNo == s.tcb.rcvNxt && !p.flags.fin
    && AckStage(s, p, now).inflight == 0 && AckStage(s, p, now).writeQ != []
  }

  /** The handler of the timer resends and arms it again. */
  predicate Resends(s: Sock) {
    && s.rtx.timer.Some? && s.writeQ != []
    && if s.rtx.timer.value.handler == ConnectRto then s.state == SynSent && s.rtx.backoff <= CONN_RETRIES
       else s.rtx.rto <= MAX_RTO
  }

  /** The step arms the retransmission timer. */
  predicate Arms(s: Sock, e: Event, now: nat) {
    match e
    case ConnectCall(iss) => s.state == Close
    case WriteCall(buf) => Writable(s) && buf != [] && s.writeQ == []
    case CloseRequest => s.state in {Established, CloseWait} && s.writeQ == []
    case Arrival(p) => Bursts(s, p, now)
    case RtoExpires => Due(s.rtx.timer, now) && Resends(s)
    case _ => false
  }

  /** A call that queues behind waiting data while nothing is in flight: it sends at once and arms nothing. */
  predicate Overtakes(s: Sock, e: Event) {
    && s.inflight == 0 && s.writeQ != []
    && match e
       case WriteCall(buf) => Writable(s) && buf != []
       case CloseRequest => s.state in {Established, CloseWait}
       case _ => false
  }

  /** The timer of the SYN fires after the handshake is over: `tcp_connect_rto` drops it. */
  predicate LosesTimer(s: Sock, e: Event, now: nat) {
    e.RtoExpires? && Due(s.rtx.timer, now) && s.rtx.timer.value.handler == ConnectRto && s.state != SynSent
  }

  predicate Strands(s: Sock, e: Event, now: nat) {
    Overtakes(s, e) || LosesTimer(s, e, now)
  }

  /** The connection is over: nothing is resent any more. */
  predicate Over(s: Sock) {
    s.done || s.state == TimeWait
  }

  function Duration(s: Sock): nat {
    if s.state == SynSent then Shl(SYN_BACKOFF, s.rtx.backoff) else s.rtx.rto
  }

  function Record(h: Flight, s: Sock, e: Event, now: nat): Flight {
    if Arms(s, e, now) then Flight(now, Duration(Step(s, e, now)), false)
    else if e.Arrival? && Takes(s, e.p, now) then h.(measured := true)
    else h
  }

  function FlightOf(s: Sock, trace: seq<(Event, nat)>): Flight {
    if trace == [] then Flight(0, 0, false)
    else
      var n := |trace| - 1;
      Record(FlightOf(s, trace[..n]), Run(s, trace[..n]), trace[n].0, trace[n].1)
  }

  /** The timer agrees with the record, and until the first sample so does the RTO. */
  predicate Timed(s: Sock, h: Flight) {
    s.rtx.timer.Some? ==>
      && s.rtx.timer.value.expires == h.armedAt + h.armedFor
      && (s.rtx.timer.value.handler != ConnectRto ==> s.state != SynSent && (h.measured || s.rtx.rto == h.armedFor))
  }

  // ----- what a step does to the timer -----

  predicate FreshTimer(t: Sock, now: nat) {
    t.rtx.timer == Some(Timer(now + Duration(t), if t.state == SynSent then ConnectRto else RetransmissionTimeout))
  }

  /** Nothing joins the flight, and its timer goes on unless nothing is left to time. */
  predicate GoesOn(s: Sock, t: Sock) {
    && t.inflight <= s.inflight
    && (t.rtx.timer == s.rtx.timer || (t.rtx.timer == None && (t.inflight == 0 || Over(t))))
  }

  /** Something is in flight and the timer is gone. */
  predicate Stranded(s: Sock, t: Sock) {
    && t.rtx.timer == None && t.inflight > 0 && t.rtx.rto == s.rtx.rto && (t.state == SynSent ==> s.state == SynSent)
    && t.inflight == if s.inflight == 0 then 1 else s.inflight
  }

  predicate SameClock(s: Sock, t: Sock) {
    GoesOn(s, t) && t.rtx.rto == s.rtx.rto && (t.state == SynSent ==> s.state == SynSent)
  }

  predicate Untouched(s: Sock, t: Sock) {
    t.rtx == s.rtx && t.state == s.state && t.inflight == s.inflight
  }

  lemma QueueTransmitClock(s: Sock, skb: Skb, now: nat)
    requires FlightInv(s)
    ensures var t := QueueTransmit(s, skb, now);
      && t.state == s.state && FlightInv(t) && t.writeQ != [] && Duration(t) == Duration(s)
      && if s.writeQ == [] then FreshTimer(t, now) && t.inflight > 0
         else if s.inflight == 0 then Stranded(s, t) && t.rtx == s.rtx
         else Untouched(s, t) && t.inflight > 0
  {
    hide PacketFor, SacksAfter, Shl;
  }

  lemma {:induction false} QueueAllClock(s: Sock, skbs: seq<Skb>, now: nat)
    requires FlightInv(s)
    ensures var t := QueueAll(s, skbs, now);
      && t.state == s.state
      && if s.writeQ == [] && skbs != [] then FreshTimer(t, now)
         else if s.inflight == 0 && skbs != [] then Stranded(s, t)
         else Untouched(s, t)
    decreases |skbs|
  {
    if skbs != [] {
      QueueTransmitClock(s, skbs[0], now);
      hide QueueTransmit, FlightInv, Shl;
      QueueAllClock(QueueTransmit(s, skbs[0], now), skbs[1..], now);
    }
  }

  lemma AckStageClock(s: Sock, p: Packet, now: nat)
    requires FlightInv(s)
    ensures var t := AckStage(s, p, now);
      && t.state == s.state && t.inflight <= s.inflight
      && (t.rtx.timer == s.rtx.timer || (t.rtx.timer == None && t.inflight == 0))
      && t.rtx.rto == (if NewAck(s, p) then Rtt(s.rtx, now) else s.rtx).rto
  {
    RttKeepsTimer(s.rtx, now);
    hide Rtt, AckedPrefix;
  }

  lemma FinAckedClock(s: Sock, p: Packet)
    ensures var t := FinAcked(s, p);
      && t.rtx == s.rtx && t.inflight == s.inflight && t.writeQ == s.writeQ && (AcceptsText(t) <==> AcceptsText(s))
      && (t.state == SynSent ==> s.state == SynSent)
  {
    hide PacketFor, SacksAfter, OptionsLen;
  }

  lemma TextClock(s: Sock, p: Packet)
    ensures var t := TextStage(s, p);
      t.rtx == s.rtx && t.inflight == s.inflight && t.writeQ == s.writeQ && t.state == s.state
  {
    hide CalculateSacks, InsertOrdered, PacketFor, SacksAfter, ReadyPrefix, Advance, OptionsLen;
  }

  lemma FinClock(s: Sock, now: nat)
    requires s.state != SynSent
    ensures var t := FinStage(s, now);
      SameClock(s, t) && t.state != SynSent
  {
    hide PacketFor, SacksAfter, OptionsLen;
  }

  lemma BurstClock(s: Sock, now: nat)
    requires s.state != SynSent
    ensures FreshTimer(Burst(s, now), now) && Burst(s, now).state == s.state
  {
    SendNextInbox(s, 0, Min(|s.writeQ|, MAX_BURST));
    hide SendNextFrom, Shl, Min;
  }

  lemma AckOrDelayClock(s: Sock, p: Packet, now: nat)
    ensures Untouched(s, AckOrDelay(s, p, now))
  {
    hide PacketFor, SacksAfter, OptionsLen;
  }

  lemma AckPolicyClock(s: Sock, p: Packet, now: nat)
    requires s.state != SynSent
    ensures var t := AckPolicy(s, p, now);
      && t.state == s.state
      && if s.inflight == 0 && s.writeQ != [] then FreshTimer(t, now) else Untouched(s, t)
  {
    BurstClock(s.(delack := None), now);
    AckOrDelayClock(s.(delack := None), p, now);
    hide Burst, AckOrDelay;
  }

  /** A burst leaves exactly with a segment in sequence, without a FIN, that finds nothing in flight. */
  lemma ProcessTextClock(s: Sock, p: Packet, now: nat)
    requires s.state != SynSent
    ensures var t := ProcessText(s, p, now);
      && t.state != SynSent
      && if p.seqNo == s.tcb.rcvNxt && !p.flags.fin && AcceptsText(s) && s.inflight == 0 && s.writeQ != []
         then FreshTimer(t, now) else SameClock(s, t)
  {
    var s1 := TextStage(s, p);
    TextClock(s, p);
    FinClock(s1, now);
    FinEnds(s1, now);
    AckPolicyClock(s1, p, now);
    hide TextStage, FinStage, AckPolicy, FreshTimer;
  }

  lemma ProcessAckClock(s: Sock, p: Packet, now: nat)
    requires FlightInv(s) && s.state != SynSent && (s.state == TimeWait || s.tcb.sndUna <= p.ackSeq <= s.tcb.sndNxt)
    ensures var t := ProcessAck(s, p, now);
      && t.state != SynSent
      && if p.seqNo == s.tcb.rcvNxt && !p.flags.fin && AcceptsText(s)
            && AckStage(s, p, now).inflight == 0 && AckStage(s, p, now).writeQ != []
         then FreshTimer(t, now)
         else GoesOn(s, t) && t.rtx.rto == (if s.state != TimeWait && NewAck(s, p) then Rtt(s.rtx, now) else s.rtx).rto
  {
    var s1 := if s.state == TimeWait then s else AckStage(s, p, now);
    AckStageClock(s, p, now);
    AckStageKeeps(s, p, now);
    FinAckedClock(s1, p);
    FinAckedKeeps(s1, p);
    ProcessTextClock(FinAcked(s1, p), p, now);
    hide AckStage, FinAcked, ProcessText, FreshTimer, Rtt, FlightInv;
  }

  predicate KeepsClock(s: Sock, t: Sock, taken: bool) {
    && GoesOn(s, t) && (t.state == SynSent ==> s.state == SynSent)
    && (t.rtx.rto == s.rtx.rto || s.state == SynSent || taken)
  }

  lemma OpenClock(s: Sock, p: Packet, now: nat)
    requires FlightInv(s) && s.state !in {Close, Listen, SynSent}
    ensures var t := Input(s, p, now);
      if Bursts(s, p, now) then FreshTimer(t, now) else KeepsClock(s, t, Takes(s, p, now))
  {
    var s1 := if s.state == SynReceived then s.(state := Established) else s;
    OpenInput(s, p, now);
    hide Input;
    if PassesChecks(s, p) {
      ProcessAckClock(s1, p, now);
      SameStage(s, s1, p, now);
    } else if s.state != TimeWait && !(s.tcb.sndUna <= p.ackSeq <= s.tcb.sndNxt) {
      StaleAck(s, p, now);
    }
    SendAckInbox(s);
    SendAckClock(s);
    hide ProcessAck, SendAck, AckStage, FreshTimer, VerifySegment, Measure;
  }

  lemma SendAckClock(s: Sock)
    ensures Untouched(s, SendAck(s))
  {
    hide PacketFor, SacksAfter, OptionsLen;
  }

  lemma OpeningClock(s: Sock, p: Packet, now: nat)
    requires FlightInv(s) && s.state in {Close, Listen, SynSent}
    ensures KeepsClock(s, Input(s, p, now), false)
  {
    if s.state == SynSent {
      SynSentClock(s, p, now);
    }
    hide PacketFor, SacksAfter, SynSentInput;
  }

  lemma SynSentClock(s: Sock, p: Packet, now: nat)
    requires FlightInv(s) && s.state == SynSent
    ensures KeepsClock(s, SynSentInput(s, p, now), false)
  {
    LearnSynClock(s, p);
    EstablishClock(LearnSyn(s, p), p, now);
    hide PacketFor, SacksAfter, LearnSyn, Establish;
  }

  lemma LearnSynClock(s: Sock, p: Packet)
    requires FlightInv(s)
    ensures GoesOn(s, LearnSyn(s, p))
  {
    hide AckedPrefix;
  }

  lemma EstablishClock(s: Sock, p: Packet, now: nat)
    ensures var t := Establish(s, p, now);
      t.rtx.timer == s.rtx.timer && t.inflight == s.inflight && t.state == Established && t.done == s.done
  {
    hide PacketFor, SacksAfter, OptionsLen, ParseFrom;
  }

  lemma TimeoutClock(s: Sock, now: nat)
    requires FlightInv(s) && s.rtx.timer.Some? && (s.rtx.timer.value.handler != ConnectRto ==> s.state != SynSent)
    ensures var t := RunRtoHandler(s, s.rtx.timer.value.handler, now);
      if Resends(s) then FreshTimer(t, now)
      else if s.rtx.timer.value.handler == ConnectRto && s.state != SynSent then Stranded(s, t)
      else KeepsClock(s, t, false)
  {
    hide PacketFor, SacksAfter, Shl;
  }

  lemma ConnectClock(s: Sock, iss: u32, now: nat)
    requires FlightInv(s) && s.writeQ == []
    ensures FreshTimer(Connect(s, iss, now).(err := -EINPROGRESS), now)
  {
    var s1 := s.(state := SynSent,
                 tcb := s.tcb.(iss := iss, sndUna := iss, sndNxt := iss, rcvNxt := 0, rcvWnd := INITIAL_WINDOW));
    QueueTransmitClock(s1, SynSkb(s1), now);
    hide QueueTransmit, SynSkb, Shl;
  }

  lemma WriteClock(s: Sock, buf: seq<byte>, now: nat)
    requires FlightInv(s)
    ensures var t := Write(s, buf, now);
      if Writable(s) && buf != [] && s.writeQ == [] then FreshTimer(t, now)
      else if Overtakes(s, WriteCall(buf)) then Stranded(s, t)
      else KeepsClock(s, t, false)
  {
    QueueAllClock(s, Segmentize(buf, s.smss), now);
    assert Segmentize(buf, s.smss) == [] <==> buf == [];
    hide QueueAll, Segmentize, Shl;
  }

  lemma CloseClock(s: Sock, now: nat)
    requires FlightInv(s)
    ensures var t := CloseCall(s, now);
      if s.state in {Established, CloseWait} && s.writeQ == [] then FreshTimer(t, now)
      else if Overtakes(s, CloseRequest) then Stranded(s, t)
      else KeepsClock(s, t, false)
  {
    QueueTransmitClock(s, FIN_SKB, now);
    QueueTransmitClock(s.(state := FinWait1), FIN_SKB, now);
    hide QueueTransmit, Shl;
  }

  lemma ReadClock(s: Sock, n: nat, blocking: bool, now: nat)
    ensures KeepsClock(s, Read(s, n, blocking, now).0, false)
  {
    ReadFrame(s, n, blocking, now);
    hide Read;
  }

  lemma EndingClock(s: Sock, h: Handler)
    ensures KeepsClock(s, Abort(s), false) && KeepsClock(s, LingerFires(s, h), false)
  {
    hide PacketFor, SacksAfter;
  }

  lemma DelackClock(s: Sock)
    ensures KeepsClock(s, DelackFires(s), false)
  {
    SendAckClock(s.(delacks := 0, delack := None));
    hide SendAck;
  }

  lemma IdleClock(s: Sock)
    ensures KeepsClock(s, s, false)
  {
  }

  lemma CallClock(s: Sock, e: Event, now: nat)
    requires SocketInv(s) && !e.Arrival? && !e.RtoExpires?
    ensures var t := Step(s, e, now);
      if Arms(s, e, now) then FreshTimer(t, now)
      else if Overtakes(s, e) then Stranded(s, t)
      else KeepsClock(s, t, false)
  {
    NoStrays(s);
    assert FlightInv(s) && (s.state == Close ==> s.writeQ == []);
    IdleClock(s);
    hide Connect, Write, CloseCall, Read, Abort, DelackFires, LingerFires;
    hide SocketInv, FlightInv, Stranded, FreshTimer, KeepsClock;
    match e {
      case ConnectCall(iss) =>
        if s.state == Close {
          ConnectClock(s, iss, now);
        }
      case WriteCall(buf) => WriteClock(s, buf, now);
      case CloseRequest => CloseClock(s, now);
      case ReadCall(n, blocking) => ReadClock(s, n, blocking, now);
      case AbortRequest => EndingClock(s, Linger);
      case LingerExpires => EndingClock(s, if s.linger.Some? then s.linger.value.handler else Linger);
      case DelackExpires => DelackClock(s);
      case StrayExpires(i) =>
    }
  }

  // ----- the record over a run -----

  lemma StepClock(s: Sock, e: Event, now: nat, h: Flight)
    requires SocketInv(s) && Timed(s, h)
    ensures var t := Step(s, e, now);
      if Arms(s, e, now) then FreshTimer(t, now)
      else if Strands(s, e, now) then Stranded(s, t)
      else KeepsClock(s, t, e.Arrival? && Takes(s, e.p, now))
  {
    assert FlightInv(s);
    hide Input, FreshTimer, Takes, Bursts, Resends, SocketInv, FlightInv, Stranded;
    match e {
      case Arrival(p) =>
        if s.state in {Close, Listen, SynSent} {
          OpeningClock(s, p, now);
          NotBursting(s, p, now);
        } else {
          OpenClock(s, p, now);
        }
      case RtoExpires => if Due(s.rtx.timer, now) { TimeoutClock(s, now); } hide RunRtoHandler;
      case _ => CallClock(s, e, now); hide Step;
    }
  }

  lemma NotBursting(s: Sock, p: Packet, now: nat)
    requires s.state in {Close, Listen, SynSent}
    ensures !Bursts(s, p, now) && !Takes(s, p, now)
  {
  }

  /** The expiry time is the time of arming plus the duration armed for, and the RTO is still the one armed with
      until a sample is taken. */
  lemma StepTimed(s: Sock, e: Event, now: nat, h: Flight)
    requires SocketInv(s) && Timed(s, h)
    ensures Timed(Step(s, e, now), Record(h, s, e, now))
  {
    StepClock(s, e, now, h);
    hide Step, Arms, Takes, SocketInv, Shl;
  }

  lemma {:induction false} RunTimed(trace: seq<(Event, nat)>)
    ensures Timed(Run(FRESH, trace), FlightOf(FRESH, trace))
  {
    if trace != [] {
      var n := |trace| - 1;
      RunTimed(trace[..n]);
      RunKeepsInv(trace[..n]);
      hide Step, SocketInv, Timed, Record;
      StepTimed(Run(FRESH, trace[..n]), trace[n].0, trace[n].1, FlightOf(FRESH, trace[..n]));
    }
  }

  /** In every run a retransmission timeout does nothing until the duration armed for has passed since the arming. */
  lemma TimeoutIsNotEarly(trace: seq<(Event, nat)>, now: nat)
    ensures var s, h := Run(FRESH, trace), FlightOf(FRESH, trace);
      && (Step(s, RtoExpires, now) != s ==> s.rtx.timer.Some? && now > h.armedAt + h.armedFor)
      && (s.rtx.timer.Some? && now > h.armedAt + h.armedFor ==>
            Step(s, RtoExpires, now) == RunRtoHandler(s, s.rtx.timer.value.handler, now))
  {
    RunTimed(trace);
    hide Run, FlightOf, RunRtoHandler;
  }

  /** The next burst is of at most three segments, and takes all that is queued if it is no more. */
  lemma BurstIsOfThree(s: Sock, p: Packet, now: nat)
    requires Bursts(s, p, now)
    ensures var t := Input(s, p, now);
      t.inflight == (if |t.writeQ| < 3 then |t.writeQ| else 3) && |t.wire| == |s.wire| + t.inflight
  {
    var s1 := if s.state == SynReceived then s.(state := Established) else s;
    var s2 := AckStage(s1, p, now);
    OpenInput(s, p, now);
    SameStage(s, s1, p, now);
    AckStageInbox(s1, p, now);
    StageWire(s1, p, now);
    FinAckedClock(s2, p);
    FinAckedInbox(s2, p);
    assert ProcessAck(s1, p, now) == ProcessText(FinAcked(s2, p), p, now) by { hide ProcessText, AckStage, FinAcked; }
    hide Input, ProcessAck, AckStage, FinAcked, ProcessText, VerifySegment;
    BurstText(FinAcked(s2, p), p, now);
  }

  lemma StageWire(s: Sock, p: Packet, now: nat)
    ensures AckStage(s, p, now).wire == s.wire
    ensures AcceptsText(s) ==> FinAcked(AckStage(s, p, now), p).wire == s.wire
  {
    hide Rtt, AckedPrefix, PacketFor, SacksAfter;
  }

  lemma BurstText(s: Sock, p: Packet, now: nat)
    requires AcceptsText(s) && p.seqNo == s.tcb.rcvNxt && !p.flags.fin && s.inflight == 0 && s.writeQ != []
    ensures var t := ProcessText(s, p, now);
      t.inflight == (if |t.writeQ| < 3 then |t.writeQ| else 3) && |t.wire| == |s.wire| + t.inflight
  {
    var s1 := TextStage(s, p);
    TextClock(s, p);
    assert s1.wire == s.wire by {
      hide CalculateSacks, InsertOrdered, PacketFor, SacksAfter, ReadyPrefix, Advance, OptionsLen;
    }
    BurstPackets(s1.(delack := None), 0, Min(|s1.writeQ|, 3));
    SendNextInbox(s1.(delack := None), 0, Min(|s1.writeQ|, 3));
    hide TextStage, SendNextFrom, RtoTimer;
  }

  lemma {:induction false} BurstPackets(s: Sock, i: nat, amount: nat)
    requires i <= amount <= |s.writeQ|
    ensures var t := SendNextFrom(s, i, amount); |t.wire| == |s.wire| + amount - i && |t.writeQ| == |s.writeQ|
    decreases amount - i
  {
    if i < amount {
      var t := SendQueued(s, i);
      assert |t.wire| == |s.wire| + 1 && |t.writeQ| == |s.writeQ| by { hide PacketFor, SacksAfter, NextSeq; }
      hide SendQueued;
      BurstPackets(t, i + 1, amount);
    }
  }

  /** Between two armings nothing joins what is in flight, unless a call overtakes waiting data: a flight leaves as a
      whole when its timer is armed, or it is one segment without a timer. */
  lemma NothingJoinsFlight(trace: seq<(Event, nat)>, e: Event, now: nat)
    ensures var s := Run(FRESH, trace); var t := Step(s, e, now);
      t.inflight > s.inflight && !Arms(s, e, now) <==> Overtakes(s, e)
  {
    var s := Run(FRESH, trace);
    RunTimed(trace);
    RunKeepsInv(trace);
    StepClock(s, e, now, FlightOf(FRESH, trace));
    assert LosesTimer(s, e, now) ==> s.inflight > 0;
    assert Overtakes(s, e) ==> !Arms(s, e, now);
    hide Run, Step, Arms, SocketInv, FlightOf, Takes, FreshTimer;
  }

  /** What is in flight keeps its retransmission timer, as long as the connection lasts, exactly over the steps that
      neither overtake waiting data nor lose the timer of the SYN. */
  lemma FlightStaysCovered(trace: seq<(Event, nat)>, e: Event, now: nat)
    requires var s := Run(FRESH, trace); Covered(s) && !Over(Step(s, e, now))
    ensures var s := Run(FRESH, trace); Covered(Step(s, e, now)) <==> !Strands(s, e, now)
  {
    var s := Run(FRESH, trace);
    RunTimed(trace);
    RunKeepsInv(trace);
    StepKeepsInv(s, e, now);
    StepClock(s, e, now, FlightOf(FRESH, trace));
    assert Strands(s, e, now) ==> !Arms(s, e, now);
    hide Run, Step, Arms, SackInv, ReadyInv, EarlyInv, FlightOf, Takes, Strands;
  }

  lemma TimeWaitInput(s: Sock, p: Packet, now: nat)
    requires s.state == TimeWait
    ensures Input(s, p, now).state == TimeWait
  {
    hide PacketFor, SacksAfter, OptionsLen, VerifySegment, AckOrDelay, Burst, DataQueue;
  }

  lemma OverStays(s: Sock, e: Event, now: nat)
    requires LifeInv(s) && Over(s)
    ensures Over(Step(s, e, now))
  {
    StepForward(s, e, now);
    if e.Arrival? && s.state == TimeWait {
      TimeWaitInput(s, e.p, now);
      hide Input;
    } else if s.state == TimeWait {
      hide PacketFor, SacksAfter, OptionsLen, Dequeue, QueueAll;
    } else {
      hide Step, Path;
    }
  }

  /** No step of the run strands what is in flight. */
  predicate NoneStrands(trace: seq<(Event, nat)>) {
    forall n :: 0 <= n < |trace| ==> !Strands(Run(FRESH, trace[..n]), trace[n].0, trace[n].1)
  }

  /** So in a run without such a step, what is in flight has its timer until the connection is over. */
  lemma {:induction false} RunStaysCovered(trace: seq<(Event, nat)>)
    requires NoneStrands(trace)
    ensures Covered(Run(FRESH, trace)) || Over(Run(FRESH, trace))
  {
    if trace != [] {
      var n := |trace| - 1;
      assert NoneStrands(trace[..n]) by {
        assert forall m :: 0 <= m < n ==> trace[..n][..m] == trace[..m];
      }
      RunStaysCovered(trace[..n]);
      StatesOnlyAdvance(trace[..n], n);
      var s, e, now := Run(FRESH, trace[..n]), trace[n].0, trace[n].1;
      hide Step, LifeInv, Strands, Over, Covered;
      if Over(s) {
        OverStays(s, e, now);
      } else if !Over(Step(s, e, now)) {
        FlightStaysCovered(trace[..n], e, now);
      }
    }
  }

  /** The round-trip sample over every run. The estimators change exactly when an acknowledgement is measured, and
      then by a sample that misses the time since the flight left by what the RTO has changed by in between. So
      the first sample of a flight armed with the RTO is the elapsed time, and a later one is wrong by the
      difference of the two RTOs. */
  lemma SampleOfFlight(trace: seq<(Event, nat)>, p: Packet, now: nat)
    requires Takes(Run(FRESH, trace), p, now)
    ensures var s, h := Run(FRESH, trace), FlightOf(FRESH, trace);
      && SameEpisode(Measure(s.rtx, RttSample(s.rtx, now)), Input(s, p, now).rtx)
      && RttSample(s.rtx, now) == (now - h.armedAt) + (s.rtx.rto - h.armedFor)
      && (s.rtx.timer.value.handler != ConnectRto && !h.measured ==> RttSample(s.rtx, now) == now - h.armedAt)
  {
    RunTimed(trace);
    ArrivalMeasures(Run(FRESH, trace), p, now);
    hide Run, Input, FlightOf, Measure, SameEpisode, PassesChecks;
  }

  /** Both ends open at once: the peer's SYN without an acknowledgement arrives while ours is in flight. */
  const CROSSING: seq<(Event, nat)> :=
    [(ConnectCall(1), 0)] + [(Arrival(Packet(1, 0, Flags(false, true, false, false, false), [], [])), 0)]

  /** Then the timer of the SYN fires after the handshake has moved on, and leaves the SYN in flight without one. */
  lemma CrossingSynIsStranded()
    ensures var s := Run(FRESH, CROSSING); var t := Step(s, RtoExpires, 501);
      && Covered(s) && LosesTimer(s, RtoExpires, 501)
      && t.state == SynReceived && t.inflight == 1 && t.rtx.timer == None
  {
    var p, syn := CROSSING[1].0.p, Connect(FRESH, 1, 0).(err := -EINPROGRESS);
    CrossingRuns();
    SynInFlightTimer();
    Network.ConnectSendsSyn(1, 0);
    CrossingSyn(syn, p);
    hide Run, Connect, Input, CROSSING;
  }

  lemma CrossingRuns()
    ensures Run(FRESH, CROSSING) == Input(Connect(FRESH, 1, 0).(err := -EINPROGRESS), CROSSING[1].0.p, 0)
  {
    var first, second := CROSSING[0], CROSSING[1];
    RunOne(FRESH, first);
    RunOne(Step(FRESH, first.0, 0), second);
    RunSplit(FRESH, [first], [second]);
    hide Run, Connect, Input;
  }

  lemma SynInFlightTimer()
    ensures var s := Connect(FRESH, 1, 0);
      s.state == SynSent && s.inflight == 1 && s.rtx.timer == Some(Timer(500, ConnectRto))
  {
    Network.ConnectSendsSyn(1, 0);
    ConnectClock(FRESH, 1, 0);
    assert Connect(FRESH, 1, 0).rtx.backoff == 0 by { hide PacketFor, SacksAfter; }
    assert Shl(SYN_BACKOFF, 0) == 500;
    hide Connect;
  }

  lemma CrossingSyn(s: Sock, p: Packet)
    requires s.state == SynSent && p.flags == Flags(false, true, false, false, false)
    requires s.tcb.sndUna <= s.tcb.iss
    ensures var t := Input(s, p, 0); t.state == SynReceived && t.inflight == s.inflight && t.rtx == s.rtx
  {
    hide PacketFor, SacksAfter;
  }

  // ----- a run in which a sample is wrong -----

  function AckOf(ackNo: u32): Packet {
    Packet(2, ackNo, ACK_FLAGS, [], [])
  }

  /** A connection opened with initial sequence numbers 1, four writes of one byte, and two acknowledgements. */
  const OPENING: seq<(Event, nat)> :=
    [(ConnectCall(1), 0), (Arrival(Network.SynAck(1, 1, [])), 0)]
  const ONE_BYTE := (WriteCall([0]), 0)
  const FOUR_BYTES: seq<(Event, nat)> := OPENING + [ONE_BYTE] + [ONE_BYTE] + [ONE_BYTE] + [ONE_BYTE]
  const BURSTING: seq<(Event, nat)> := FOUR_BYTES + [(Arrival(AckOf(3)), 100)]
  const DISTORTING: seq<(Event, nat)> := BURSTING + [(Arrival(AckOf(4)), 150)]

  predicate OneByteAt(skb: Skb, sn: u32) {
    |skb.payload| == 1 && !skb.flags.fin && skb.seqNo == sn && (sn > 0 ==> skb.endSeq == sn + 1)
  }

  /** `n` bytes queued from number `una`, of which the first `f` are in flight. */
  predicate BytesQueued(s: Sock, una: u32, n: nat, f: nat, x: Rtx) {
    && s.state == Established && s.err == 0 && una <= 100 && f <= n <= 4
    && s.tcb == Tcb(1, 1, una, una + f, 2, INITIAL_WINDOW) && s.rtx == x
    && s.inflight == f && |s.writeQ| == n
    && forall i :: 0 <= i < n ==> OneByteAt(s.writeQ[i], if i < f then una + i else 0)
  }

  lemma RunOpens()
    ensures BytesQueued(Run(FRESH, OPENING), 2, 0, 0, Rtx(0, 0, 0, 1000, None, []))
  {
    var s := Connect(FRESH, 1, 0).(err := -EINPROGRESS);
    Network.ConnectSendsSyn(1, 0);
    Network.SynAckOpens(s, 1, 1, [], 0);
    assert OPENING[..1] == [OPENING[0]] && OPENING[..1][..0] == [];
    assert Run(FRESH, OPENING[..1]) == Step(FRESH, OPENING[0].0, 0) == s by { RunOne(FRESH, OPENING[0]); }
    hide Input, Connect, Network.SynInFlight;
  }

  lemma RunMore(s: Sock, trace: seq<(Event, nat)>, x: (Event, nat))
    ensures Run(s, trace + [x]) == Step(Run(s, trace), x.0, x.1)
    ensures FlightOf(s, trace + [x]) == Record(FlightOf(s, trace), Run(s, trace), x.0, x.1)
  {
    assert (trace + [x])[..|trace|] == trace;
    hide Step, Record;
  }

  lemma ByteWritten(s: Sock, n: nat, x: Rtx)
    requires BytesQueued(s, 2, n, if n == 0 then 0 else 1, x) && n < 4 && (n == 0 ==> x.timer == None)
    ensures BytesQueued(Write(s, [0], 0), 2, n + 1, 1,
                        if n == 0 then x.(timer := Some(Timer(x.rto, RetransmissionTimeout))) else x)
  {
    Limits.WriteOne(s, [0], 0);
    hide Write;
  }

  /** An acknowledgement of the first byte in flight. */
  lemma ByteAcked(s: Sock, una: u32, n: nat, f: nat, x: Rtx, now: nat)
    requires una < 100 && BytesQueued(s, una, n, f, x) && una > 0 && 0 < f && Samples(x, now)
    ensures Takes(s, AckOf(una + 1), now)
    ensures Input(s, AckOf(una + 1), now) == AckPolicy(AckStage(s, AckOf(una + 1), now), AckOf(una + 1), now)
    ensures BytesQueued(AckStage(s, AckOf(una + 1), now), una + 1, n - 1, f - 1,
                        if f == 1 then StopTimer(Rtt(x, now)) else Rtt(x, now))
  {
    AckOne(s.writeQ, una);
    ByteAckedQueue(s, una, n, f, x, now);
    AckOnEstablished(s, AckOf(una + 1), now);
    hide *;
  }

  lemma ByteAckedQueue(s: Sock, una: u32, n: nat, f: nat, x: Rtx, now: nat)
    requires una < 100 && BytesQueued(s, una, n, f, x) && una > 0 && 0 < f && Samples(x, now)
    requires AckedPrefix(s.writeQ, una + 1) == 1
    ensures Takes(s, AckOf(una + 1), now)
    ensures BytesQueued(AckStage(s, AckOf(una + 1), now), una + 1, n - 1, f - 1,
                        if f == 1 then StopTimer(Rtt(x, now)) else Rtt(x, now))
  {
    hide AckedPrefix, Rtt;
  }

  lemma AckOnEstablished(s: Sock, p: Packet, now: nat)
    requires s.state == Established && s.tcb.rcvNxt == p.seqNo && s.tcb.rcvNxt + s.tcb.rcvWnd < MOD32
    requires p.flags == ACK_FLAGS && p.payload == [] && NewAck(s, p)
    ensures Input(s, p, now) == AckPolicy(AckStage(s, p, now), p, now)
  {
    AckStageFields(s, p, now);
    AckStageKeeps(s, p, now);
    hide AckStage, AckPolicy, PacketFor, SacksAfter;
  }

  lemma AckOne(q: seq<Skb>, una: u32)
    requires 0 < una < 100 && q != [] && OneByteAt(q[0], una)
    requires |q| > 1 ==> OneByteAt(q[1], una + 1) || OneByteAt(q[1], 0)
    ensures AckedPrefix(q, una + 1) == 1
  {
  }

  function SampleAt(s: Sock, now: nat): int {
    if s.rtx.timer.Some? then RttSample(s.rtx, now) else 0
  }

  lemma ByteLeaves(s: Sock, i: nat, una: u32)
    requires s.tcb.sndNxt == una + i && una <= 100 && i < |s.writeQ| <= 3 && OneByteAt(s.writeQ[i], 0)
    ensures var t := SendQueued(s, i);
      && |t.writeQ| == |s.writeQ| && t.tcb.sndNxt == una + i + 1 && OneByteAt(t.writeQ[i], una + i)
      && forall k :: 0 <= k < |s.writeQ| && k != i ==> t.writeQ[k] == s.writeQ[k]
  {
    hide PacketFor, SacksAfter;
  }

  lemma {:induction false} BytesLeave(s: Sock, i: nat, una: u32)
    requires s.tcb.sndNxt == una + i && una <= 100 && i <= |s.writeQ| <= 3
    requires forall k :: 0 <= k < |s.writeQ| ==> OneByteAt(s.writeQ[k], if k < i then una + k else 0)
    ensures var t := SendNextFrom(s, i, |s.writeQ|);
      && |t.writeQ| == |s.writeQ| && t.tcb.sndNxt == una + |s.writeQ|
      && forall k :: 0 <= k < |s.writeQ| ==> OneByteAt(t.writeQ[k], una + k)
    decreases |s.writeQ| - i
  {
    if i < |s.writeQ| {
      var t := SendQueued(s, i);
      ByteLeaves(s, i, una);
      hide SendQueued, OneByteAt;
      BytesLeave(t, i + 1, una);
    }
  }

  lemma BytesBurst(s: Sock, una: u32, n: nat, x: Rtx, now: nat)
    requires BytesQueued(s, una, n, 0, x) && 0 < n <= 3 && x.timer == None
    ensures BytesQueued(AckPolicy(s, AckOf(una), now), una, n, n, x.(timer := Some(Timer(now + x.rto, RetransmissionTimeout))))
  {
    SendNextInbox(s.(delack := None), 0, n);
    BytesLeave(s.(delack := None), 0, una);
    hide SendNextFrom;
  }

  lemma BytesWait(s: Sock, una: u32, n: nat, f: nat, x: Rtx, now: nat)
    requires BytesQueued(s, una, n, f, x) && f > 0
    ensures BytesQueued(AckPolicy(s, AckOf(una), now), una, n, f, x)
  {
    hide PacketFor, SacksAfter;
  }

  const FIRST := Rtx(0, 0, 0, 1000, Some(Timer(1000, RetransmissionTimeout)), [])
  const SECOND := Rtx(0, 100, 50, 300, Some(Timer(400, RetransmissionTimeout)), [])
  const THIRD := Rtx(0, 93, 50, 293, Some(Timer(400, RetransmissionTimeout)), [])

  lemma FourWritten()
    ensures BytesQueued(Run(FRESH, FOUR_BYTES), 2, 4, 1, FIRST)
  {
    RunOpens();
    hide Run, Write, BytesQueued, FlightOf, Record;
    RunMore(FRESH, OPENING, ONE_BYTE);
    RunMore(FRESH, OPENING + [ONE_BYTE], ONE_BYTE);
    RunMore(FRESH, OPENING + [ONE_BYTE] + [ONE_BYTE], ONE_BYTE);
    RunMore(FRESH, OPENING + [ONE_BYTE] + [ONE_BYTE] + [ONE_BYTE], ONE_BYTE);
    ByteWritten(Run(FRESH, OPENING), 0, Rtx(0, 0, 0, 1000, None, []));
    ByteWritten(Run(FRESH, OPENING + [ONE_BYTE]), 1, FIRST);
    ByteWritten(Run(FRESH, OPENING + [ONE_BYTE] + [ONE_BYTE]), 2, FIRST);
    ByteWritten(Run(FRESH, OPENING + [ONE_BYTE] + [ONE_BYTE] + [ONE_BYTE]), 3, FIRST);
  }

  lemma SecondFlight(s: Sock)
    requires BytesQueued(s, 2, 4, 1, FIRST)
    ensures BytesQueued(Input(s, AckOf(3), 100), 3, 3, 3, SECOND)
  {
    ByteAcked(s, 2, 4, 1, FIRST, 100);
    assert StopTimer(Rtt(FIRST, 100)) == Rtx(0, 100, 50, 300, None, []);
    hide Input, AckPolicy, AckStage, Rtt;
    BytesBurst(AckStage(s, AckOf(3), 100), 3, 3, Rtx(0, 100, 50, 300, None, []), 100);
  }

  lemma SecondFlightBursts(s: Sock)
    requires BytesQueued(s, 2, 4, 1, FIRST)
    ensures Bursts(s, AckOf(3), 100)
  {
    ByteAcked(s, 2, 4, 1, FIRST, 100);
    hide Input, AckPolicy, AckStage, Rtt;
  }

  lemma SecondSample(s: Sock)
    requires BytesQueued(s, 3, 3, 3, SECOND)
    ensures BytesQueued(Input(s, AckOf(4), 150), 4, 2, 2, THIRD) && !Bursts(s, AckOf(4), 150)
  {
    ByteAcked(s, 3, 3, 3, SECOND, 150);
    assert Rtt(SECOND, 150) == THIRD;
    hide Input, AckPolicy, AckStage, Rtt;
    BytesWait(AckStage(s, AckOf(4), 150), 4, 2, 2, THIRD, 150);
  }

  lemma ThirdSample(s: Sock)
    requires BytesQueued(s, 4, 2, 2, THIRD)
    ensures Takes(s, AckOf(5), 220) && SampleAt(s, 220) == 113
  {
    ByteAcked(s, 4, 2, 2, THIRD, 220);
    hide Input, AckPolicy, AckStage, Rtt, Takes;
  }

  /** The flight is recorded when the burst leaves, and the sample that follows does not change the time. */
  lemma RecordsBurst(h: Flight, s: Sock, t: Sock, p: Packet, q: Packet, now: nat, later: nat)
    requires Bursts(s, p, now) && !Bursts(t, q, later)
    ensures Record(Record(h, s, Arrival(p), now), t, Arrival(q), later).armedAt == now
  {
    hide Bursts, Takes, Step, Duration;
  }

  /** A run in which it happens. The third byte is acknowledged 120 ms after its flight left, but measured as
      113, because the second byte's sample has lowered the RTO from 300 to 293. */
  lemma LaterSampleIsWrong()
    ensures var s, h := Run(FRESH, DISTORTING), FlightOf(FRESH, DISTORTING);
      Takes(s, AckOf(5), 220) && SampleAt(s, 220) == 113 && 220 - h.armedAt == 120
  {
    FourWritten();
    var s := Run(FRESH, FOUR_BYTES);
    var t := Step(s, Arrival(AckOf(3)), 100);
    assert t == Input(s, AckOf(3), 100) && Step(t, Arrival(AckOf(4)), 150) == Input(t, AckOf(4), 150);
    assert DISTORTING == BURSTING + [(Arrival(AckOf(4)), 150)] && BURSTING == FOUR_BYTES + [(Arrival(AckOf(3)), 100)];
    hide *;
    SecondFlight(s);
    SecondFlightBursts(s);
    SecondSample(t);
    ThirdSample(Input(t, AckOf(4), 150));
    RunMore(FRESH, FOUR_BYTES, (Arrival(AckOf(3)), 100));
    RunMore(FRESH, BURSTING, (Arrival(AckOf(4)), 150));
    RecordsBurst(FlightOf(FRESH, FOUR_BYTES), s, t, AckOf(3), AckOf(4), 100, 150);
  }
}
