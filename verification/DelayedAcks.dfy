/** When arriving data is acknowledged (RFC 1122, section 4.2.3.2), over whole runs of a socket. */
module DelayedAcks {
  import opened Words
  import opened TcpTypes
  import opened Tcp
  import opened TcpOutput
  import opened TcpData
  import opened TcpInput
  import opened Host
  import opened Receiver
  import opened Arrivals
  import Progress
  import opened Lifecycle
  import opened Invariants
  import opened Sender

  // ----- every second full-sized segment -----

  /** The socket accepts text, or will when the segment in hand has completed the handshake. */
  predicate Accepting(s: Sock) {
    s.state in {SynReceived, Established, FinWait1, FinWait2}
  }

  /** A full-sized segment, the next in sequence, that the socket takes. */
  predicate FullSized(s: Sock, e: Event) {
    e.Arrival? && Accepting(s) && PassesChecks(s, e.p) && e.p.seqNo == s.tcb.rcvNxt && |e.p.payload| > 1000
  }

  /** The last packet that the step sends acknowledges everything received. */
  predicate Acknowledges(s: Sock, t: Sock) {
    |t.wire| > |s.wire| && t.wire[|t.wire| - 1].flags.ack && t.wire[|t.wire| - 1].ackSeq == t.tcb.rcvNxt
  }

  /** Only a SYN goes without an acknowledgement, and it is in flight as long as it is queued. */
  predicate QueuedAcks(q: seq<Skb>, inflight: nat) {
    forall i :: inflight <= i < |q| ==> q[i].flags.ack
  }

  /** At most one full-sized segment is unacknowledged, and whatever is sent from the queue acknowledges. */
  predicate AckInv(s: Sock) {
    s.delacks <= 1 && QueuedAcks(s.writeQ, s.inflight)
  }

  /** A socket that knows of a full-sized segment which it has not acknowledged, or one that is past accepting
      text. */
  predicate Owing(s: Sock) {
    Open(s) && (AcceptsText(s) ==> s.delacks == 1)
  }

  predicate SameCount(s: Sock, t: Sock) {
    && t.state == s.state && t.writeQ == s.writeQ && t.inflight == s.inflight
    && t.delacks == s.delacks && t.delack == s.delack
  }

  // ----- what each stage sends -----

  lemma SendAckQuiet(s: Sock)
    requires s.state != Close
    ensures SameCount(s, SendAck(s)) && Acknowledges(s, SendAck(s)) && SendAck(s).tcb == s.tcb
  {
    assert AckPacket(s).flags == ACK_FLAGS && AckPacket(s).ackSeq == s.tcb.rcvNxt;
    SendAckEffect(s);
    hide SendAck, AckPacket;
  }

  lemma SendQueuedAcks(s: Sock, i: nat)
    requires i < |s.writeQ| && QueuedAcks(s.writeQ, i)
    ensures var t := SendQueued(s, i);
      && QueuedAcks(t.writeQ, i) && |t.writeQ| == |s.writeQ| && t.writeQ[i].flags.ack
      && Acknowledges(s, t) && t.tcb.rcvNxt == s.tcb.rcvNxt
  {
    hide OptionsAfter, SacksAfter, NextSeq;
  }

  lemma SendNextTurn(s: Sock, i: nat, amount: nat)
    requires i <= amount <= |s.writeQ|
    ensures SendNextFrom(s, i, amount) == if i < amount then SendNextFrom(SendQueued(s, i), i + 1, amount) else s
  {
    hide SendQueued;
  }

  lemma {:induction false} SendNextAcks(s: Sock, i: nat, amount: nat)
    requires i <= amount <= |s.writeQ| && QueuedAcks(s.writeQ, i)
    ensures var t := SendNextFrom(s, i, amount);
      && QueuedAcks(t.writeQ, i) && t.tcb.rcvNxt == s.tcb.rcvNxt
      && (if i < amount then Acknowledges(s, t) else t == s)
    decreases amount - i
  {
    hide *;
    SendNextTurn(s, i, amount);
    if i < amount {
      var t := SendQueued(s, i);
      SendQueuedAcks(s, i);
      OneFewer(t.writeQ, i);
      SendNextAcks(t, i + 1, amount);
      SendNextFlag(t, i + 1, amount, i);
      var u := SendNextFrom(t, i + 1, amount);
      OneFewer(u.writeQ, i);
      AcknowledgesLater(s, t, u);
    }
  }

  lemma OneFewer(q: seq<Skb>, i: nat)
    requires i < |q|
    ensures QueuedAcks(q, i) <==> q[i].flags.ack && QueuedAcks(q, i + 1)
  {
  }

  lemma AcknowledgesFrom(s: Sock, s1: Sock, t: Sock)
    requires |s.wire| <= |s1.wire|
    ensures Acknowledges(s1, t) ==> Acknowledges(s, t)
  {
  }

  lemma AcknowledgesLater(s: Sock, t: Sock, u: Sock)
    requires Acknowledges(s, t) && (Acknowledges(t, u) || u == t)
    ensures Acknowledges(s, u)
  {
  }

  /** The segments before position `i` stay as they are. */
  lemma {:induction false} SendNextFlag(s: Sock, i: nat, amount: nat, k: nat)
    requires k < i <= amount <= |s.writeQ|
    ensures var t := SendNextFrom(s, i, amount); |t.writeQ| == |s.writeQ| && t.writeQ[k] == s.writeQ[k]
    decreases amount - i
  {
    if i < amount {
      hide PacketFor, SacksAfter, NextSeq;
      SendNextFlag(SendQueued(s, i), i + 1, amount, k);
    }
  }

  lemma BurstAcks(s: Sock, now: nat)
    requires s.writeQ != [] && s.inflight == 0 && QueuedAcks(s.writeQ, 0)
    ensures var t := Burst(s, now);
      && Acknowledges(s, t) && t.state == s.state && t.delacks == s.delacks && t.delack == s.delack
      && QueuedAcks(t.writeQ, t.inflight)
  {
    SendNextAcks(s, 0, Min(|s.writeQ|, MAX_BURST));
    SendNextInbox(s, 0, Min(|s.writeQ|, MAX_BURST));
    hide SendNextFrom, RtoTimer;
  }

  /** Text in sequence sends nothing by itself; out of sequence it is acknowledged at once. */
  lemma TextCounts(s: Sock, p: Packet)
    ensures var t := TextStage(s, p);
      && SameCount(s, t) && |t.wire| >= |s.wire|
      && (p.seqNo == s.tcb.rcvNxt ==> t.wire == s.wire)
  {
    hide CalculateSacks, InsertOrdered, PacketFor, SacksAfter, ReadyPrefix, Advance, OptionsLen;
  }

  /** A taken FIN is acknowledged at once, and the socket accepts no text afterwards. */
  lemma FinCounts(s: Sock, now: nat)
    requires Open(s)
    ensures var t := FinStage(s, now);
      && Acknowledges(s, t) && t.delacks == s.delacks && t.writeQ == s.writeQ && t.inflight == s.inflight
      && Open(t) && !AcceptsText(t)
  {
    SendAckQuiet(s.(tcb := s.tcb.(rcvNxt := U32(s.tcb.rcvNxt + 1)), inbox := s.inbox.(fin := true, pollIn := true)));
    hide SendAck;
  }

  /** A pushed segment and every second full-sized one are acknowledged at once. */
  predicate AtOnce(s: Sock, p: Packet) {
    p.flags.psh || (|p.payload| > 1000 && s.delacks == 1)
  }

  /** The timer that a segment not acknowledged at once leaves. */
  function DelackAfter(p: Packet, now: nat): Option<Timer> {
    if p.payload != [] then Some(Timer(now + DELACK_MS, SendDelack)) else None
  }

  /** Nothing is sent, a full-sized segment is counted, and the timer runs from now, or not at all. */
  predicate Delays(s: Sock, t: Sock, p: Packet, now: nat) {
    && t.wire == s.wire && t.delack == DelackAfter(p, now)
    && t.delacks == s.delacks + if |p.payload| > 1000 then 1 else 0
  }

  lemma AckOrDelayCounts(s: Sock, p: Packet, now: nat)
    requires s.state != Close && s.delacks <= 1 && s.delack == None
    ensures var t := AckOrDelay(s, p, now);
      && t.state == s.state && t.writeQ == s.writeQ && t.inflight == s.inflight && t.delacks <= 1
      && if AtOnce(s, p) then Acknowledges(s, t) && t.delacks == 0 && t.delack == None else Delays(s, t, p, now)
  {
    SendAckQuiet(s.(delacks := 0));
    hide SendAck;
  }

  /** Nothing is in flight and more is queued: the next burst acknowledges. */
  predicate BurstDue(s: Sock) {
    s.inflight == 0 && s.writeQ != []
  }

  lemma AckPolicyCounts(s: Sock, p: Packet, now: nat)
    requires s.state != Close && AckInv(s)
    ensures var t := AckPolicy(s, p, now);
      && t.state == s.state && AckInv(t)
      && if BurstDue(s) then Acknowledges(s, t) && t.delacks == s.delacks && t.delack == None
         else if AtOnce(s, p) then Acknowledges(s, t) && t.delacks == 0 && t.delack == None
         else Delays(s, t, p, now)
  {
    var s1 := s.(delack := None);
    if BurstDue(s) {
      BurstAcks(s1, now);
    } else {
      AckOrDelayCounts(s1, p, now);
    }
    hide Burst, AckOrDelay, QueuedAcks;
  }

  lemma AckStageCounts(s: Sock, p: Packet, now: nat)
    ensures var t := AckStage(s, p, now);
      && t.state == s.state && t.wire == s.wire && t.delacks == s.delacks && t.delack == s.delack
      && (QueuedAcks(s.writeQ, s.inflight) ==> QueuedAcks(t.writeQ, t.inflight))
  {
    hide Rtt;
  }

  lemma FinAckedCounts(s: Sock, p: Packet)
    requires Open(s)
    ensures var t := FinAcked(s, p);
      && Open(t) && t.writeQ == s.writeQ && t.inflight == s.inflight && t.delacks == s.delacks && t.delack == s.delack
      && (AcceptsText(t) <==> AcceptsText(s)) && (AcceptsText(s) ==> t.wire == s.wire) && t.tcb == s.tcb
  {
    SendAckQuiet(s.(inbox := s.inbox.(fin := true)));
    hide SendAck;
  }

  // ----- every event -----

  /** What a segment that has passed the checks does to the pending acknowledgement of a socket that accepts text.
      `burst` says that its acknowledgement has ended a flight behind which more is queued. */
  predicate Counts(s: Sock, t: Sock, p: Packet, burst: bool, now: nat) {
    if p.seqNo != s.tcb.rcvNxt then t.delacks == s.delacks && t.delack == s.delack
    else if p.flags.fin then Acknowledges(s, t) && t.delacks == s.delacks
    else if burst then Acknowledges(s, t) && t.delacks == s.delacks && t.delack == None
    else if AtOnce(s, p) then Acknowledges(s, t) && t.delacks == 0 && t.delack == None
    else Delays(s, t, p, now)
  }

  lemma ProcessTextCounts(s: Sock, p: Packet, now: nat)
    requires AckInv(s) && Open(s)
    ensures var t := ProcessText(s, p, now);
      && AckInv(t) && Open(t)
      && (AcceptsText(t) ==> AcceptsText(s) && !(p.flags.fin && p.seqNo == s.tcb.rcvNxt))
      && (if AcceptsText(s) then Counts(s, t, p, BurstDue(s), now) else t.delacks == s.delacks)
  {
    var s1 := TextStage(s, p);
    TextCounts(s, p);
    FinCounts(s1, now);
    AckPolicyCounts(s1, p, now);
    AcknowledgesFrom(s, s1, ProcessText(s, p, now));
    hide TextStage, FinStage, AckPolicy, QueuedAcks, Acknowledges, DelackAfter;
  }

  lemma ProcessAckCounts(s: Sock, p: Packet, now: nat)
    requires AckInv(s) && Open(s)
    ensures var t := ProcessAck(s, p, now);
      && AckInv(t) && Open(t) && (AcceptsText(t) ==> AcceptsText(s))
      && (if AcceptsText(s)
          then s.tcb.sndUna <= p.ackSeq <= s.tcb.sndNxt ==> Counts(s, t, p, BurstDue(AckStage(s, p, now)), now)
          else t.delacks == s.delacks)
      && (AcceptsText(t) && s.tcb.sndUna <= p.ackSeq <= s.tcb.sndNxt ==> !(p.flags.fin && p.seqNo == s.tcb.rcvNxt))
  {
    var s1 := if s.state == TimeWait then s else AckStage(s, p, now);
    AckStageCounts(s, p, now);
    AckStageInbox(s, p, now);
    FinAckedCounts(s1, p);
    hide AckStage, QueuedAcks, FinAcked, ProcessText, Counts, BurstDue;
    ProcessTextCounts(FinAcked(s1, p), p, now);
    CountsFrom(s, FinAcked(s1, p), ProcessText(FinAcked(s1, p), p, now), p, BurstDue(s1), now);
    SameBurst(s1, FinAcked(s1, p));
  }

  lemma SameBurst(s: Sock, t: Sock)
    requires t.writeQ == s.writeQ && t.inflight == s.inflight
    ensures BurstDue(s) <==> BurstDue(t)
  {
  }

  /** What comes before the text sends nothing and counts nothing. */
  lemma CountsFrom(s: Sock, s1: Sock, t: Sock, p: Packet, burst: bool, now: nat)
    requires AcceptsText(s) ==> s1.wire == s.wire
    requires s1.delacks == s.delacks && s1.delack == s.delack && s1.tcb.rcvNxt == s.tcb.rcvNxt
    ensures AcceptsText(s) ==> (Counts(s, t, p, burst, now) <==> Counts(s1, t, p, burst, now))
  {
  }

  lemma CheckedCounts(s: Sock, p: Packet, now: nat)
    requires PassesChecks(s, p) && AckInv(s)
    ensures var t := Input(s, p, now);
      && AckInv(t) && Open(t)
      && (AcceptsText(t) ==> Accepting(s) && !(p.flags.fin && p.seqNo == s.tcb.rcvNxt))
      && (if Accepting(s) then Counts(s, t, p, BurstDue(AckStage(s, p, now)), now) else t.delacks == s.delacks)
  {
    var s1 := if s.state == SynReceived then s.(state := Established) else s;
    OpenInput(s, p, now);
    hide Input, VerifySegment, AckStage, ProcessAck, Counts, QueuedAcks;
    ProcessAckCounts(s1, p, now);
    if Accepting(s) {
      CountsFrom(s1, s, ProcessAck(s1, p, now), p, BurstDue(AckStage(s1, p, now)), now);
      SameStage(s, s1, p, now);
    }
  }

  /** A segment that fails a check leaves the pending acknowledgement as it is, or ends the connection. */
  lemma UncheckedCounts(s: Sock, p: Packet, now: nat)
    requires s.state !in {Close, Listen, SynSent} && !PassesChecks(s, p) && AckInv(s)
    ensures var t := Input(s, p, now);
      && AckInv(t) && (t.state == s.state || t.state == TimeWait)
      && t.delacks == s.delacks && (t.state == s.state && s.state != TimeWait ==> t.delack == s.delack)
  {
    OpenInput(s, p, now);
    if s.state != TimeWait && !(s.tcb.sndUna <= p.ackSeq <= s.tcb.sndNxt) {
      StaleAck(s, p, now);
    }
    SendAckQuiet(s);
    TimeWaitCounts(s, now);
    hide Input, ProcessAck, SendAck, PassesChecks, EnterTimeWait, Acknowledges, QueuedAcks;
  }

  lemma TimeWaitCounts(s: Sock, now: nat)
    ensures var t := EnterTimeWait(s, now);
      t.state == TimeWait && t.delacks == s.delacks && t.writeQ == s.writeQ && t.inflight == s.inflight
  {
  }

  lemma OpeningCounts(s: Sock, p: Packet, now: nat)
    requires s.state in {Close, Listen, SynSent} && AckInv(s)
    ensures AckInv(Input(s, p, now)) && Input(s, p, now).delacks == s.delacks
  {
    LearnSynQueued(s, p);
    EstablishQuiet(LearnSyn(s, p), p, now);
    hide LearnSyn, Establish, PacketFor, SacksAfter;
  }

  lemma LearnSynQueued(s: Sock, p: Packet)
    ensures var t := LearnSyn(s, p);
      t.delacks == s.delacks && t.state == s.state && (QueuedAcks(s.writeQ, s.inflight) ==> QueuedAcks(t.writeQ, t.inflight))
  {
  }

  lemma EstablishQuiet(s: Sock, p: Packet, now: nat)
    ensures var t := Establish(s, p, now);
      t.delacks == s.delacks && t.state == Established && t.writeQ == s.writeQ && t.inflight == s.inflight
  {
    hide PacketFor, SacksAfter, ParseFrom, OptionsLen;
  }

  // ----- calls and timers -----

  /** Besides the queue invariant: what is pending stays so, or is acknowledged. */
  predicate KeepsPending(s: Sock, t: Sock) {
    AckInv(t) && (AcceptsText(t) ==> (t.delacks == s.delacks && t.delack == s.delack) || Acknowledges(s, t))
  }

  lemma {:induction false} SegmentsAck(buf: seq<byte>, mss: Mss)
    ensures forall i :: 0 <= i < |Segmentize(buf, mss)| ==> Segmentize(buf, mss)[i].flags.ack
  {
    if |buf| > mss {
      SegmentsAck(buf[mss..], mss);
    }
  }

  lemma QueueTransmitCounts(s: Sock, skb: Skb, now: nat)
    requires QueuedAcks(s.writeQ, s.inflight) && (skb.flags.ack || s.writeQ == []) && s.inflight <= |s.writeQ|
    ensures var t := QueueTransmit(s, skb, now);
      && QueuedAcks(t.writeQ, t.inflight) && t.inflight <= |t.writeQ|
      && t.delacks == s.delacks && t.delack == s.delack && t.state == s.state
  {
    hide PacketFor, SacksAfter, RtoTimer;
  }

  lemma {:induction false} QueueAllCounts(s: Sock, skbs: seq<Skb>, now: nat)
    requires QueuedAcks(s.writeQ, s.inflight) && s.inflight <= |s.writeQ|
    requires forall i :: 0 <= i < |skbs| ==> skbs[i].flags.ack
    ensures var t := QueueAll(s, skbs, now);
      QueuedAcks(t.writeQ, t.inflight) && t.delacks == s.delacks && t.delack == s.delack && t.state == s.state
    decreases |skbs|
  {
    if skbs != [] {
      QueueTransmitCounts(s, skbs[0], now);
      hide QueueTransmit, QueuedAcks;
      QueueAllCounts(QueueTransmit(s, skbs[0], now), skbs[1..], now);
    }
  }

  lemma ConnectCounts(s: Sock, iss: u32, now: nat)
    requires SocketInv(s) && AckInv(s) && s.state == Close
    ensures var t := Connect(s, iss, now); AckInv(t) && t.state == SynSent
  {
    var s1 := s.(state := SynSent,
                 tcb := s.tcb.(iss := iss, sndUna := iss, sndNxt := iss, rcvNxt := 0, rcvWnd := INITIAL_WINDOW));
    QueueTransmitCounts(s1, SynSkb(s1), now);
    hide QueueTransmit, QueuedAcks, SynSkb;
  }

  lemma WriteCounts(s: Sock, buf: seq<byte>, now: nat)
    requires SocketInv(s) && AckInv(s)
    ensures KeepsPending(s, Write(s, buf, now))
  {
    SegmentsAck(buf, s.smss);
    QueueAllCounts(s, Segmentize(buf, s.smss), now);
    hide QueueAll, Segmentize, QueuedAcks, Acknowledges;
  }

  lemma CloseCounts(s: Sock, now: nat)
    requires SocketInv(s) && AckInv(s)
    ensures KeepsPending(s, CloseCall(s, now))
  {
    QueueTransmitCounts(s, FIN_SKB, now);
    QueueTransmitCounts(s.(state := FinWait1), FIN_SKB, now);
    hide QueueTransmit, QueuedAcks, Acknowledges;
  }

  lemma HandlerCounts(s: Sock, h: Handler, now: nat)
    requires AckInv(s)
    ensures KeepsPending(s, RunRtoHandler(s, h, now))
  {
    hide PacketFor, SacksAfter, RtoTimer, Acknowledges;
  }

  lemma ReadCounts(s: Sock, n: nat, blocking: bool, now: nat)
    ensures SameCount(s, Read(s, n, blocking, now).0) && Read(s, n, blocking, now).0.wire == s.wire
  {
    ReadFrame(s, n, blocking, now);
    hide Read;
  }

  lemma EndedCounts(s: Sock)
    requires AckInv(s)
    ensures KeepsPending(s, Done(s)) && KeepsPending(s, Abort(s))
  {
    hide PacketFor, SacksAfter, Acknowledges;
  }

  lemma DelackCounts(s: Sock)
    requires AckInv(s)
    ensures KeepsPending(s, DelackFires(s))
  {
    var s1 := s.(delacks := 0, delack := None);
    if s.state != Close {
      SendAckQuiet(s1);
    }
    assert s.state == Close ==> SendAck(s1) == s1 by { hide PacketFor; }
    hide SendAck, QueuedAcks;
  }

  lemma CallCounts(s: Sock, e: Event, now: nat)
    requires SocketInv(s) && AckInv(s) && !e.Arrival?
    ensures KeepsPending(s, Step(s, e, now))
  {
    NoStrays(s);
    hide Connect, Write, CloseCall, RunRtoHandler, SocketInv, Acknowledges, QueuedAcks, Read, Abort, Done, DelackFires;
    match e {
      case ConnectCall(iss) => if s.state == Close { ConnectCounts(s, iss, now); }
      case WriteCall(buf) => WriteCounts(s, buf, now);
      case CloseRequest => CloseCounts(s, now);
      case RtoExpires => if Due(s.rtx.timer, now) { HandlerCounts(s, s.rtx.timer.value.handler, now); }
      case StrayExpires(i) =>
      case ReadCall(n, blocking) => ReadCounts(s, n, blocking, now);
      case DelackExpires => DelackCounts(s);
      case AbortRequest => EndedCounts(s);
      case LingerExpires => EndedCounts(s.(linger := None));
    }
  }

  // ----- over a run -----

  /** An arrival keeps the invariant, and a count of one until an acknowledgement is sent. */
  lemma ArrivalCounts(s: Sock, p: Packet, now: nat)
    requires AckInv(s) && s.state != Listen
    ensures var t := Input(s, p, now);
      && AckInv(t)
      && (Owing(s) ==> Owing(t) || Acknowledges(s, t))
      && (FullSized(s, Arrival(p)) ==> Acknowledges(s, t) || (!Owing(s) && Owing(t)))
  {
    if s.state in {Close, SynSent} {
      OpeningCounts(s, p, now);
    } else if PassesChecks(s, p) {
      CheckedCounts(s, p, now);
    } else {
      UncheckedCounts(s, p, now);
    }
    hide Input, Acknowledges, PassesChecks, QueuedAcks, DelackAfter, BurstDue, AckStage;
  }

  /** One step: a segment not yet acknowledged stays known until an acknowledgement is sent, and the second one is
      acknowledged by the step that takes it. */
  lemma StepAcks(s: Sock, e: Event, now: nat)
    requires SocketInv(s) && LifeInv(s) && AckInv(s)
    ensures var t := Step(s, e, now); AckInv(t) && (Owing(s) ==> Owing(t) || Acknowledges(s, t))
    ensures FullSized(s, e) ==> Acknowledges(s, Step(s, e, now)) || (!Owing(s) && Owing(Step(s, e, now)))
  {
    if e.Arrival? {
      ArrivalCounts(s, e.p, now);
      hide Input, Owing, FullSized, Acknowledges, AckInv;
    } else {
      CallCounts(s, e, now);
      StepForward(s, e, now);
      RankOf(s, Step(s, e, now));
      if Open(s) {
        UnaFollowsAcks(s, e, now);
      }
      hide Step, Path, SocketInv, LifeInv, Acknowledges, PassesChecks, QueuedAcks;
    }
  }

  lemma RunStep(trace: seq<(Event, nat)>, n: nat)
    requires n < |trace|
    ensures Run(FRESH, trace[..n + 1]) == Step(Run(FRESH, trace[..n]), trace[n].0, trace[n].1)
  {
    assert trace[..n + 1][..n] == trace[..n];
    hide Step;
  }

  /** What every socket satisfies at every point of every run. */
  predicate InRun(s: Sock) {
    SocketInv(s) && LifeInv(s) && AckInv(s)
  }

  lemma {:induction false} RunAcks(trace: seq<(Event, nat)>)
    ensures InRun(Run(FRESH, trace))
  {
    RunKeepsInv(trace);
    StatesOnlyAdvance(trace, |trace|);
    if trace != [] {
      var n := |trace| - 1;
      RunAcks(trace[..n]);
      hide Step, SocketInv, LifeInv, AckInv;
      StepAcks(Run(FRESH, trace[..n]), trace[n].0, trace[n].1);
    }
  }

  /** The `n`-th step of the run acknowledges everything received by then. */
  predicate AcksAt(trace: seq<(Event, nat)>, n: nat) {
    n < |trace| && Acknowledges(Run(FRESH, trace[..n]), Run(FRESH, trace[..n + 1]))
  }

  /** The `n`-th step takes a full-sized segment. */
  predicate FullSizedAt(trace: seq<(Event, nat)>, n: nat) {
    n < |trace| && FullSized(Run(FRESH, trace[..n]), trace[n].0)
  }

  lemma StepAcksAt(trace: seq<(Event, nat)>, n: nat)
    requires n < |trace|
    ensures Owing(Run(FRESH, trace[..n])) ==> Owing(Run(FRESH, trace[..n + 1])) || AcksAt(trace, n)
    ensures FullSizedAt(trace, n) ==> AcksAt(trace, n) || (!Owing(Run(FRESH, trace[..n])) && Owing(Run(FRESH, trace[..n + 1])))
  {
    RunStep(trace, n);
    RunAcks(trace[..n]);
    hide Run, Step, Owing, SocketInv, LifeInv, AckInv, Acknowledges, FullSized;
    StepAcks(Run(FRESH, trace[..n]), trace[n].0, trace[n].1);
  }

  lemma {:induction false} OwesUntilAcknowledged(trace: seq<(Event, nat)>, i: nat, j: nat)
    requires i <= j <= |trace| && Owing(Run(FRESH, trace[..i]))
    ensures Owing(Run(FRESH, trace[..j])) || exists n :: i <= n < j && AcksAt(trace, n)
    decreases j
  {
    hide Run, Owing, AcksAt;
    if i < j {
      OwesUntilAcknowledged(trace, i, j - 1);
      StepAcksAt(trace, j - 1);
    }
  }

  /** Of any two full-sized segments that a socket takes, in any run, one is acknowledged at once or another
      acknowledgement of everything received is sent between them, whatever else arrives, is read, written or
      expires meanwhile. */
  lemma EverySecondSegment(trace: seq<(Event, nat)>, i: nat, j: nat)
    requires i < j && FullSizedAt(trace, i) && FullSizedAt(trace, j)
    ensures exists n :: i <= n <= j && AcksAt(trace, n)
  {
    assert j < |trace|;
    hide *;
    StepAcksAt(trace, i);
    if !AcksAt(trace, i) {
      OwesUntilAcknowledged(trace, i + 1, j);
      StepAcksAt(trace, j);
    }
  }

  // ----- no acknowledgement too many -----

  /** The segment gets as far as the choice between an ACK now and an ACK later. */
  predicate ReachesChoice(s: Sock, p: Packet, now: nat) {
    && PassesChecks(s, p) && Accepting(s) && p.seqNo == s.tcb.rcvNxt && !p.flags.fin
    && !BurstDue(AckStage(s, p, now))
  }

  /** The step answers: the choice has fallen on an ACK now, or the delayed-ACK timer fires. */
  predicate Answers(s: Sock, e: Event, now: nat) {
    match e
    case Arrival(p) => ReachesChoice(s, p, now) && |Step(s, e, now).wire| > |s.wire|
    case DelackExpires => Due(s.delack, now)
    case _ => false
  }

  /** The step takes a full-sized segment that is subject to that choice. */
  predicate CountsFull(s: Sock, e: Event, now: nat) {
    e.Arrival? && ReachesChoice(s, e.p, now) && |e.p.payload| > 1000
  }

  /** How many such segments the run has taken since the last answer. */
  function FullSinceAnswer(trace: seq<(Event, nat)>): nat {
    if trace == [] then 0
    else
      var n := |trace| - 1;
      var s := Run(FRESH, trace[..n]);
      if Answers(s, trace[n].0, trace[n].1) then 0
      else FullSinceAnswer(trace[..n]) + if CountsFull(s, trace[n].0, trace[n].1) then 1 else 0
  }

  lemma ChoiceIsMade(s: Sock, p: Packet, now: nat)
    requires AckInv(s) && ReachesChoice(s, p, now)
    ensures Answers(s, Arrival(p), now) <==> AtOnce(s, p)
    ensures Answers(s, Arrival(p), now) ==> Acknowledges(s, Input(s, p, now))
    ensures Input(s, p, now).delacks ==
            if AtOnce(s, p) then 0 else s.delacks + if |p.payload| > 1000 then 1 else 0
  {
    CheckedCounts(s, p, now);
    hide Input, PassesChecks, QueuedAcks, AckStage, BurstDue, DelackAfter;
  }

  lemma OtherArrivalCounts(s: Sock, p: Packet, now: nat)
    requires AckInv(s) && !ReachesChoice(s, p, now)
    ensures Input(s, p, now).delacks == s.delacks
  {
    if s.state in {Close, Listen, SynSent} {
      OpeningCounts(s, p, now);
    } else if PassesChecks(s, p) {
      CheckedCounts(s, p, now);
    } else {
      UncheckedCounts(s, p, now);
    }
    hide Input, PassesChecks, QueuedAcks, AckStage, BurstDue, DelackAfter, Acknowledges;
  }

  /** Of the calls and timers only the delayed ACK itself changes the count. */
  lemma CallKeepsCount(s: Sock, e: Event, now: nat)
    requires SocketInv(s) && AckInv(s) && !e.Arrival?
    ensures Step(s, e, now).delacks == if e == DelackExpires && Due(s.delack, now) then 0 else s.delacks
  {
    NoStrays(s);
    hide Connect, Write, CloseCall, RunRtoHandler, SocketInv, QueuedAcks, Read, SendAck, SendReset;
    match e {
      case ConnectCall(iss) => if s.state == Close { ConnectCounts(s, iss, now); ConnectKeepsCount(s, iss, now); }
      case WriteCall(buf) => QueueAllDelacks(s, Segmentize(buf, s.smss), now); WriteDelacks(s, buf, now);
      case CloseRequest => CloseDelacks(s, now);
      case RtoExpires => if Due(s.rtx.timer, now) { HandlerDelacks(s, s.rtx.timer.value.handler, now); }
      case StrayExpires(i) =>
      case ReadCall(n, blocking) => ReadFrame(s, n, blocking, now);
      case DelackExpires => SendAckEffect(s.(delacks := 0, delack := None));
      case AbortRequest => ResetDelacks(s);
      case LingerExpires => ResetDelacks(s.(linger := None));
    }
  }

  lemma ConnectKeepsCount(s: Sock, iss: u32, now: nat)
    ensures Connect(s, iss, now).delacks == s.delacks
  {
    hide PacketFor, SacksAfter, RtoTimer, SynSkb;
  }

  lemma {:induction false} QueueAllDelacks(s: Sock, skbs: seq<Skb>, now: nat)
    ensures QueueAll(s, skbs, now).delacks == s.delacks
    decreases |skbs|
  {
    if skbs != [] {
      QueueTransmitDelacks(s, skbs[0], now);
      hide QueueTransmit;
      QueueAllDelacks(QueueTransmit(s, skbs[0], now), skbs[1..], now);
    }
  }

  lemma QueueTransmitDelacks(s: Sock, skb: Skb, now: nat)
    ensures QueueTransmit(s, skb, now).delacks == s.delacks
  {
    hide PacketFor, SacksAfter, RtoTimer;
  }

  lemma WriteDelacks(s: Sock, buf: seq<byte>, now: nat)
    requires QueueAll(s, Segmentize(buf, s.smss), now).delacks == s.delacks
    ensures Write(s, buf, now).delacks == s.delacks
  {
    hide QueueAll, Segmentize;
  }

  lemma CloseDelacks(s: Sock, now: nat)
    ensures CloseCall(s, now).delacks == s.delacks
  {
    QueueTransmitDelacks(s, FIN_SKB, now);
    QueueTransmitDelacks(s.(state := FinWait1), FIN_SKB, now);
    hide QueueTransmit;
  }

  lemma HandlerDelacks(s: Sock, h: Handler, now: nat)
    ensures RunRtoHandler(s, h, now).delacks == s.delacks
  {
    hide PacketFor, SacksAfter, RtoTimer, BackOff;
  }

  lemma ResetDelacks(s: Sock)
    ensures SendReset(s).delacks == s.delacks
  {
    hide PacketFor, SacksAfter;
  }

  /** The field counts what its name says, over every run. */
  lemma {:induction false} DelacksIsFullSinceAnswer(trace: seq<(Event, nat)>)
    ensures Run(FRESH, trace).delacks == FullSinceAnswer(trace) <= 1
  {
    RunAcks(trace);
    if trace != [] {
      var n := |trace| - 1;
      DelacksIsFullSinceAnswer(trace[..n]);
      RunAcks(trace[..n]);
      hide Step, SocketInv, LifeInv;
      StepCounts(Run(FRESH, trace[..n]), trace[n].0, trace[n].1);
      hide AckInv, Answers, CountsFull;
    }
  }

  lemma StepCounts(s: Sock, e: Event, now: nat)
    requires SocketInv(s) && AckInv(s)
    ensures Step(s, e, now).delacks ==
            if Answers(s, e, now) then 0 else s.delacks + if CountsFull(s, e, now) then 1 else 0
  {
    if e.Arrival? {
      if ReachesChoice(s, e.p, now) {
        ChoiceIsMade(s, e.p, now);
      } else {
        OtherArrivalCounts(s, e.p, now);
      }
      hide Input, AtOnce, ReachesChoice;
    } else {
      CallKeepsCount(s, e, now);
      hide Step;
    }
  }

  /** Exactly when a segment in sequence is acknowledged at once, where nothing else calls for it: if it is pushed, or
      if it is the second full-sized one since the last such acknowledgement or the last delayed one. */
  lemma SecondIsAcknowledged(trace: seq<(Event, nat)>, p: Packet, now: nat)
    requires ReachesChoice(Run(FRESH, trace), p, now)
    ensures var s := Run(FRESH, trace); var t := Input(s, p, now);
      if p.flags.psh || (|p.payload| > 1000 && FullSinceAnswer(trace) == 1) then Acknowledges(s, t) else t.wire == s.wire
  {
    var s := Run(FRESH, trace);
    RunAcks(trace);
    DelacksIsFullSinceAnswer(trace);
    CheckedCounts(s, p, now);
    hide Run, FullSinceAnswer, Input, PassesChecks, SocketInv, LifeInv, QueuedAcks, AckStage, BurstDue, Acknowledges;
  }

  // ----- how long an acknowledgement can be delayed -----

  /** The segment is taken in sequence and nothing about it calls for an acknowledgement at once. */
  predicate TakenQuietly(s: Sock, p: Packet, now: nat) {
    && PassesChecks(s, p) && p.seqNo == s.tcb.rcvNxt && !p.flags.fin && !AtOnce(s, p)
    && !BurstDue(AckStage(s, p, now))
  }

  /** What becomes of a pending acknowledgement: a quiet segment with data starts its timer anew, one without data,
      such as a pure acknowledgement, stops it for good, and any other segment leaves it or sends it. */
  lemma PendingAfterArrival(s: Sock, p: Packet, now: nat)
    requires AckInv(s) && Accepting(s) && AcceptsText(Input(s, p, now))
    ensures var t := Input(s, p, now);
      if TakenQuietly(s, p, now) then t.wire == s.wire && t.delack == DelackAfter(p, now)
      else Acknowledges(s, t) || t.delack == s.delack
  {
    if PassesChecks(s, p) {
      CheckedCounts(s, p, now);
    } else {
      UncheckedCounts(s, p, now);
    }
    hide Input, Acknowledges, PassesChecks, QueuedAcks, DelackAfter, BurstDue, AckStage, AtOnce;
  }

  /** An arrival loses the pending acknowledgement, neither sending it nor leaving its timer, exactly if it is taken
      quietly and has no data; and it leaves the acknowledgement as it was, or sends it, exactly if it is not taken
      quietly, or starts the same timer in the same tick. */
  lemma PendingIsLost(trace: seq<(Event, nat)>, p: Packet, now: nat)
    requires var s := Run(FRESH, trace); Accepting(s) && s.delack.Some? && AcceptsText(Input(s, p, now))
    ensures var s := Run(FRESH, trace); var t := Input(s, p, now);
      && (t.delack == None && t.wire == s.wire <==> TakenQuietly(s, p, now) && p.payload == [])
      && (t.delack == s.delack || Acknowledges(s, t) <==> TakenQuietly(s, p, now) ==> DelackAfter(p, now) == s.delack)
  {
    RunAcks(trace);
    PendingAfterArrival(Run(FRESH, trace), p, now);
    hide Run, Input, TakenQuietly, SocketInv, LifeInv, AckInv;
  }

  /** Data in sequence is acknowledged at once or starts the timer. */
  lemma DataIsAnswered(trace: seq<(Event, nat)>, p: Packet, now: nat)
    requires var s := Run(FRESH, trace); Accepting(s) && PassesChecks(s, p) && p.seqNo == s.tcb.rcvNxt && p.payload != []
    ensures var s := Run(FRESH, trace); var t := Input(s, p, now);
      if TakenQuietly(s, p, now) then t.wire == s.wire && t.delack == Some(Timer(now + 200, SendDelack))
      else Acknowledges(s, t) && (p.flags.fin || t.delack == None)
  {
    RunAcks(trace);
    CheckedCounts(Run(FRESH, trace), p, now);
    hide Run, Input, PassesChecks, Acknowledges, SocketInv, LifeInv, QueuedAcks, AckStage, BurstDue;
  }

  // ----- over a run: when the timer started for an acknowledgement sends it -----

  /** The `n`-th step takes a segment quietly. */
  predicate QuietAt(trace: seq<(Event, nat)>, n: nat) {
    n < |trace| && trace[n].0.Arrival? && TakenQuietly(Run(FRESH, trace[..n]), trace[n].0.p, trace[n].1)
  }

  predicate NoneQuiet(trace: seq<(Event, nat)>, i: nat, j: nat) {
    forall n :: i <= n < j ==> !QuietAt(trace, n)
  }

  predicate NoneAcks(trace: seq<(Event, nat)>, i: nat, j: nat) {
    forall n :: i <= n < j ==> !AcksAt(trace, n)
  }

  lemma StepAccepts(s: Sock, e: Event, now: nat)
    requires Open(s) && LifeInv(s)
    ensures Open(Step(s, e, now)) && (AcceptsText(Step(s, e, now)) ==> AcceptsText(s))
  {
    UnaFollowsAcks(s, e, now);
    StepForward(s, e, now);
    RankOf(s, Step(s, e, now));
    hide Step, Path;
  }

  /** One step that sends no acknowledgement leaves the timer, unless it takes a segment quietly. */
  lemma StepPending(trace: seq<(Event, nat)>, n: nat)
    requires n < |trace| && Open(Run(FRESH, trace[..n])) && !AcksAt(trace, n)
    ensures var s, t := Run(FRESH, trace[..n]), Run(FRESH, trace[..n + 1]);
      && Open(t) && (AcceptsText(t) ==> AcceptsText(s))
      && (AcceptsText(t) ==>
            t.delack == if QuietAt(trace, n) then DelackAfter(trace[n].0.p, trace[n].1) else s.delack)
  {
    RunStep(trace, n);
    RunAcks(trace[..n]);
    hide Run, Step, Open, AcceptsText, Acknowledges, TakenQuietly;
    Pending(Run(FRESH, trace[..n]), trace[n].0, trace[n].1);
  }

  lemma Pending(s: Sock, e: Event, now: nat)
    requires InRun(s) && Open(s)
    ensures var t := Step(s, e, now);
      && Open(t) && (AcceptsText(t) ==> AcceptsText(s))
      && (AcceptsText(t) && !Acknowledges(s, t) ==>
            t.delack == if e.Arrival? && TakenQuietly(s, e.p, now) then DelackAfter(e.p, now) else s.delack)
  {
    StepAccepts(s, e, now);
    StepIsInput(s, e, now);
    if e.Arrival? {
      if AcceptsText(Input(s, e.p, now)) {
        PendingAfterArrival(s, e.p, now);
      }
    } else {
      CallCounts(s, e, now);
    }
    hide Step, Input, SocketInv, LifeInv, QueuedAcks, Acknowledges, TakenQuietly;
  }

  lemma StepIsInput(s: Sock, e: Event, now: nat)
    ensures e.Arrival? ==> Step(s, e, now) == Input(s, e.p, now)
  {
    hide Input;
  }

  /** The steps happen so late that a timer which one of them starts is not yet due at `tick`. */
  predicate NotDueBy(trace: seq<(Event, nat)>, i: nat, j: nat, tick: nat) {
    j <= |trace| && forall n :: i <= n < j ==> trace[n].1 + DELACK_MS >= tick
  }

  /** As long as nothing is acknowledged, the timer is the one started, or later or gone, exactly as no segment or
      some segment has been taken quietly. */
  lemma {:induction false} PendingOver(trace: seq<(Event, nat)>, i: nat, j: nat, timer: Timer, tick: nat)
    requires i <= j && NotDueBy(trace, i, j, tick) && NoneAcks(trace, i, j)
    requires Open(Run(FRESH, trace[..i])) && Run(FRESH, trace[..i]).delack == Some(timer)
    ensures var t := Run(FRESH, trace[..j]);
      && Open(t)
      && (AcceptsText(t) ==> if NoneQuiet(trace, i, j) then t.delack == Some(timer) else !Due(t.delack, tick))
    decreases j
  {
    hide Run, AcksAt, QuietAt, AcceptsText;
    if i < j {
      PendingOver(trace, i, j - 1, timer, tick);
      StepPending(trace, j - 1);
      assert NoneQuiet(trace, i, j) <==> NoneQuiet(trace, i, j - 1) && !QuietAt(trace, j - 1);
    }
  }

  /** The timer's tick sends the acknowledgement exactly if the timer is due. */
  lemma TickAcks(trace: seq<(Event, nat)>, j: nat)
    requires j < |trace| && trace[j].0 == DelackExpires && Open(Run(FRESH, trace[..j]))
    ensures AcksAt(trace, j) <==> Due(Run(FRESH, trace[..j]).delack, trace[j].1)
  {
    var s := Run(FRESH, trace[..j]);
    RunStep(trace, j);
    SendAckQuiet(s.(delacks := 0, delack := None));
    hide Run, SendAck;
  }

  /** A started timer sends its acknowledgement on time, at the tick that finds it due, if and only if no segment has
      been taken quietly since: with data it puts the timer off, without data it stops it. */
  lemma AckIsOnTime(trace: seq<(Event, nat)>, i: nat, j: nat)
    requires i <= j < |trace| && trace[j].0 == DelackExpires && Due(Run(FRESH, trace[..i]).delack, trace[j].1)
    requires NotDueBy(trace, i, j, trace[j].1) && NoneAcks(trace, i, j)
    requires Open(Run(FRESH, trace[..i])) && AcceptsText(Run(FRESH, trace[..j]))
    ensures AcksAt(trace, j) <==> NoneQuiet(trace, i, j)
  {
    hide Run, AcksAt, NoneQuiet, NoneAcks, NotDueBy;
    PendingOver(trace, i, j, Run(FRESH, trace[..i]).delack.value, trace[j].1);
    TickAcks(trace, j);
  }

  // ----- the two failing families -----

  /** One byte in sequence, not pushed. */
  function SmallByte(s: Sock): Packet {
    Packet(s.tcb.rcvNxt, s.tcb.sndNxt, ACK_FLAGS, [], [0])
  }

  predicate Idle(s: Sock) {
    && s.state == Established && s.writeQ == [] && s.inflight == 0 && s.tcb.sndUna == s.tcb.sndNxt
    && s.tcb.rcvWnd == INITIAL_WINDOW && s.inbox.ofoQ == []
  }

  lemma SmallByteWaits(s: Sock, now: nat)
    requires Idle(s) && s.tcb.rcvNxt + 1 + INITIAL_WINDOW < MOD32
    ensures var t := Input(s, SmallByte(s), now);
      && Idle(t) && t.wire == s.wire && t.tcb.rcvNxt == s.tcb.rcvNxt + 1
      && t.delack == Some(Timer(now + DELACK_MS, SendDelack))
  {
    var p := SmallByte(s);
    Progress.GoesToText(s, p, now);
    var s1 := TextStage(s, p);
    assert s1 == s.(tcb := s.tcb.(rcvNxt := s.tcb.rcvNxt + 1),
                    inbox := s.inbox.(recvQ := s.inbox.recvQ + [SkbOf(p)], pollIn := true)) by {
      assert s.inbox.recvQ + [SkbOf(p)] + [] == s.inbox.recvQ + [SkbOf(p)];
    }
    hide Input, TextStage, SendAck;
  }

  /** `n` such bytes, one every 200 ms. */
  function Trickle(s: Sock, n: nat): seq<(Event, nat)> {
    if n == 0 then [] else Trickle(s, n - 1) + [(Arrival(SmallByte(Run(s, Trickle(s, n - 1)))), n * DELACK_MS)]
  }

  lemma TrickleRuns(s: Sock, n: nat)
    ensures Run(s, Trickle(s, 0)) == s
    ensures n > 0 ==>
      var before := Run(s, Trickle(s, n - 1)); Run(s, Trickle(s, n)) == Input(before, SmallByte(before), n * DELACK_MS)
  {
    hide Input, SmallByte;
    if n > 0 {
      var before, x := Trickle(s, n - 1), (Arrival(SmallByte(Run(s, Trickle(s, n - 1)))), n * DELACK_MS);
      RunSplit(s, before, [x]);
      RunOne(Run(s, before), x);
    }
  }

  /** The code's own comment asks for a delay of less than half a second, but each unpushed segment of at most 1000
      bytes starts the timer anew before it is due: a peer that sends a byte every 200 ms is not acknowledged
      in any number of them. */
  lemma {:induction false} AckCanBePutOff(s: Sock, n: nat)
    requires Idle(s) && s.tcb.rcvNxt + n + INITIAL_WINDOW < MOD32
    ensures var t := Run(s, Trickle(s, n));
      && Idle(t) && t.wire == s.wire && t.tcb.rcvNxt == s.tcb.rcvNxt + n
      && (n > 0 ==> t.delack.Some? && !Due(t.delack, (n + 1) * DELACK_MS))
  {
    TrickleRuns(s, n);
    hide Run, Trickle, Input, SmallByte;
    if n > 0 {
      AckCanBePutOff(s, n - 1);
      SmallByteWaits(Run(s, Trickle(s, n - 1)), n * DELACK_MS);
      hide Idle;
    }
  }

  /** An acknowledgement in sequence that has no data. */
  function PureAck(s: Sock): Packet {
    Packet(s.tcb.rcvNxt, s.tcb.sndNxt, ACK_FLAGS, [], [])
  }

  /** Neither the peer sends, nor does the user write or close. */
  predicate Undisturbed(e: Event) {
    e.ReadCall? || e.DelackExpires? || e.RtoExpires? || e.StrayExpires?
  }

  predicate Silent(s: Sock) {
    s.state == Established && s.writeQ == [] && s.delack == None
  }

  lemma PureAckStops(s: Sock, now: nat)
    requires Idle(s) && s.tcb.rcvNxt + INITIAL_WINDOW < MOD32
    ensures var t := Input(s, PureAck(s), now); Silent(t) && t.wire == s.wire && t.tcb.rcvNxt == s.tcb.rcvNxt
  {
    Progress.GoesToText(s, PureAck(s), now);
    hide Input, SendAck;
  }

  lemma StaysSilent(s: Sock, e: Event, now: nat)
    requires Silent(s) && Undisturbed(e)
    ensures var t := Step(s, e, now); Silent(t) && t.wire == s.wire && t.tcb.rcvNxt == s.tcb.rcvNxt
  {
    if e.ReadCall? {
      ReadFrame(s, e.n, e.blocking, now);
      hide Read;
    }
  }

  lemma {:induction false} SilentRun(s: Sock, rest: seq<(Event, nat)>)
    requires Silent(s) && forall i :: 0 <= i < |rest| ==> Undisturbed(rest[i].0)
    ensures var t := Run(s, rest); Silent(t) && t.wire == s.wire && t.tcb.rcvNxt == s.tcb.rcvNxt
  {
    if rest != [] {
      var n := |rest| - 1;
      SilentRun(s, rest[..n]);
      hide Step, Silent, Undisturbed;
      StaysSilent(Run(s, rest[..n]), rest[n].0, rest[n].1);
    }
  }

  /** A byte and then a pure acknowledgement: whatever timers run and whatever is read afterwards, the byte is never
      acknowledged. */
  lemma {:induction false} AckIsLost(s: Sock, now: nat, later: nat, rest: seq<(Event, nat)>)
    requires Idle(s) && s.tcb.rcvNxt + 1 + INITIAL_WINDOW < MOD32
    requires forall i :: 0 <= i < |rest| ==> Undisturbed(rest[i].0)
    ensures var s1 := Input(s, SmallByte(s), now);
      var t := Run(s, [(Arrival(SmallByte(s)), now)] + [(Arrival(PureAck(s1)), later)] + rest);
      s1.delack.Some? && t.wire == s.wire && t.tcb.rcvNxt == s.tcb.rcvNxt + 1 && t.delack == None
  {
    var s1 := Input(s, SmallByte(s), now);
    var first, second := (Arrival(SmallByte(s)), now), (Arrival(PureAck(s1)), later);
    SmallByteWaits(s, now);
    RunSplit(s, [first] + [second], rest);
    RunSplit(s, [first], [second]);
    RunOne(s, first);
    RunOne(s1, second);
    hide Run, Input, SmallByte, PureAck;
    PureAckStops(s1, later);
    SilentRun(Input(s1, PureAck(s1), later), rest);
  }
}
