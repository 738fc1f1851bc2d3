/** What one arriving segment does to the queues of a socket, whatever its state: which of the checks of
    `tcp_input_state` it passes, and what has become of the queues when it leaves. */
module Arrivals {
  import opened Words
  import opened TcpTypes
  import opened Tcp
  import opened TcpOutput
  import opened TcpData
  import opened TcpInput
  import opened Host
  import opened Receiver
  import opened Lifecycle

  // ----- the queues -----

  datatype Queues = Queues(rcvNxt: u32, recvQ: seq<Skb>, ofoQ: seq<Skb>)

  function QueuesOf(s: Sock): Queues {
    Queues(s.tcb.rcvNxt, s.inbox.recvQ, s.inbox.ofoQ)
  }

  function Released(q: Queues): Queues {
    var k := ReadyPrefix(q.rcvNxt, q.ofoQ);
    Queues(Advance(q.rcvNxt, q.ofoQ[..k]), q.recvQ + q.ofoQ[..k], q.ofoQ[k..])
  }

  /** A segment of text: in sequence it is received, with what it releases; otherwise it is put aside. */
  function Queueing(q: Queues, skb: Skb): Queues {
    if skb.seqNo == q.rcvNxt then Released(Queues(U32(q.rcvNxt + |skb.payload|), q.recvQ + [skb], q.ofoQ))
    else q.(ofoQ := InsertOrdered(q.ofoQ, skb))
  }

  lemma ReleasedIsConsumeOfo(s: Sock)
    ensures QueuesOf(ConsumeOfo(s)) == Released(QueuesOf(s))
  {
    hide ReadyPrefix, Advance;
  }

  lemma AcceptQueues(s: Sock, skb: Skb)
    requires skb.seqNo == s.tcb.rcvNxt
    ensures QueuesOf(Accept(s, skb)) == Queueing(QueuesOf(s), skb) && Accept(s, skb).tcb.rcvWnd == s.tcb.rcvWnd
  {
    ReleasedIsConsumeOfo(s.(tcb := s.tcb.(rcvNxt := U32(s.tcb.rcvNxt + |skb.payload|)),
                            inbox := s.inbox.(recvQ := s.inbox.recvQ + [skb])));
    hide Released, ReadyPrefix, Advance;
  }

  lemma DeferQueues(s: Sock, skb: Skb)
    requires skb.seqNo != s.tcb.rcvNxt
    ensures QueuesOf(Defer(s, skb)) == Queueing(QueuesOf(s), skb) && Defer(s, skb).tcb.rcvWnd == s.tcb.rcvWnd
  {
    hide CalculateSacks, InsertOrdered, OptionsLen, PacketFor, SacksAfter;
  }

  lemma DataQueueQueues(s: Sock, skb: Skb)
    requires s.tcb.rcvWnd > 0
    ensures QueuesOf(DataQueue(s, skb)) == Queueing(QueuesOf(s), skb)
  {
    hide Accept, Defer, Queueing;
    if skb.seqNo == s.tcb.rcvNxt {
      AcceptQueues(s, skb);
    } else {
      DeferQueues(s, skb);
    }
  }

  // ----- the checks -----

  /** The acknowledgement is neither stale nor ahead of what was sent. */
  predicate AckInOrder(s: Sock, p: Packet) {
    s.tcb.sndUna <= p.ackSeq <= s.tcb.sndNxt && (s.state == SynReceived ==> p.ackSeq < s.tcb.sndNxt)
  }

  predicate PassesChecks(s: Sock, p: Packet) {
    && s.state !in {Close, Listen, SynSent} && VerifySegment(s, p)
    && !p.flags.rst && !p.flags.syn && p.flags.ack
    && (s.state == TimeWait || AckInOrder(s, p))
  }

  predicate CarriesText(s: Sock, p: Packet) {
    s.tcb.rcvWnd > 0 && (p.flags.psh || |p.payload| > 0)
  }

  /** The segment passes every check in a state that accepts text, and has some. */
  predicate ReachesText(s: Sock, p: Packet) {
    PassesChecks(s, p) && s.state in {SynReceived, Established, FinWait1, FinWait2} && CarriesText(s, p)
  }

  /** The acknowledgement that `LAST_ACK` was waiting for. */
  predicate ClosesLast(s: Sock, p: Packet, now: nat) {
    s.state == LastAck && AckStage(s, p, now).writeQ == []
  }

  function WithFin(q: Queues, taken: bool): Queues {
    if taken then q.(rcvNxt := U32(q.rcvNxt + 1)) else q
  }

  predicate RefusesSyn(s: Sock, p: Packet) {
    p.flags.ack && (p.ackSeq <= s.tcb.iss || p.ackSeq > s.tcb.sndNxt || p.ackSeq < s.tcb.sndUna)
  }

  /** The queues and the `rcv_nxt` that an arrival leaves. */
  function QueuesAfter(s: Sock, p: Packet, now: nat): Queues {
    var q := QueuesOf(s);
    if s.state == SynSent then
      if RefusesSyn(s, p) then q
      else if p.flags.rst then q.(ofoQ := [])
      else if p.flags.syn then q.(rcvNxt := U32(p.seqNo + 1))
      else q
    else if !PassesChecks(s, p) then q
    else if ClosesLast(s, p, now) then q.(ofoQ := [])
    else WithFin(if ReachesText(s, p) then Queueing(q, SkbOf(p)) else q, p.flags.fin && p.seqNo == s.tcb.rcvNxt)
  }

  // ----- stage by stage -----

  lemma TextQueues(s: Sock, p: Packet)
    ensures var t := TextStage(s, p);
      QueuesOf(t) == if AcceptsText(s) && CarriesText(s, p) then Queueing(QueuesOf(s), SkbOf(p)) else QueuesOf(s)
  {
    if s.tcb.rcvWnd > 0 {
      DataQueueQueues(s, SkbOf(p));
    }
    hide Accept, Defer, Queueing;
  }

  lemma FinQueues(s: Sock, now: nat)
    ensures QueuesOf(FinStage(s, now)) == WithFin(QueuesOf(s), true)
  {
    hide OptionsLen, PacketFor, SacksAfter;
  }

  lemma AckPolicyQueues(s: Sock, p: Packet, now: nat)
    ensures QueuesOf(AckPolicy(s, p, now)) == QueuesOf(s)
  {
    AckPolicyInbox(s, p, now);
    hide AckPolicy;
  }

  lemma ProcessTextQueues(s: Sock, p: Packet, now: nat)
    ensures QueuesOf(ProcessText(s, p, now)) ==
            WithFin(if AcceptsText(s) && CarriesText(s, p) then Queueing(QueuesOf(s), SkbOf(p)) else QueuesOf(s),
                    p.flags.fin && p.seqNo == s.tcb.rcvNxt)
  {
    var s1 := TextStage(s, p);
    TextQueues(s, p);
    FinQueues(s1, now);
    AckPolicyQueues(s1, p, now);
    AckPolicyQueues(FinStage(s1, now), p, now);
    hide TextStage, FinStage, AckPolicy, Queueing;
  }

  lemma AckedQueues(s: Sock, p: Packet, now: nat)
    ensures var s1 := if s.state == TimeWait then s else AckStage(s, p, now); var t := FinAcked(s1, p);
      && QueuesOf(t) == QueuesOf(s) && t.tcb.rcvWnd == s.tcb.rcvWnd && (AcceptsText(t) <==> AcceptsText(s))
  {
    AckStageInbox(s, p, now);
    FinAckedInbox(AckStage(s, p, now), p);
    FinAckedInbox(s, p);
    hide AckStage, FinAcked;
  }

  lemma ProcessAckQueues(s: Sock, p: Packet, now: nat)
    requires s.state == TimeWait || s.tcb.sndUna <= p.ackSeq <= s.tcb.sndNxt
    ensures QueuesOf(ProcessAck(s, p, now)) ==
            if ClosesLast(s, p, now) then QueuesOf(s).(ofoQ := [])
            else WithFin(if AcceptsText(s) && CarriesText(s, p) then Queueing(QueuesOf(s), SkbOf(p)) else QueuesOf(s),
                         p.flags.fin && p.seqNo == s.tcb.rcvNxt)
  {
    var s1 := if s.state == TimeWait then s else AckStage(s, p, now);
    AckStageInbox(s, p, now);
    AckedQueues(s, p, now);
    ProcessTextQueues(FinAcked(s1, p), p, now);
    hide AckStage, FinAcked, ProcessText, Queueing, WithFin;
  }

  /** The ACK stage does not look at the state. */
  lemma SameStage(s: Sock, s1: Sock, p: Packet, now: nat)
    requires s1 == s.(state := s1.state)
    ensures var t, t1 := AckStage(s, p, now), AckStage(s1, p, now);
      t.inflight == t1.inflight && t.writeQ == t1.writeQ
  {
    hide Rtt, AckedPrefix;
  }

  /** An acknowledgement out of order ends the processing. */
  lemma StaleAck(s: Sock, p: Packet, now: nat)
    requires s.state != TimeWait && !(s.tcb.sndUna <= p.ackSeq <= s.tcb.sndNxt)
    ensures ProcessAck(s, p, now) == s
  {
  }

  lemma SynSentQueues(s: Sock, p: Packet, now: nat)
    requires s.state == SynSent
    ensures QueuesAfter(s, p, now) == QueuesOf(SynSentInput(s, p, now))
  {
    EstablishQueues(LearnSyn(s, p), p, now);
    hide Establish, PacketFor, SacksAfter, AckedPrefix;
  }

  lemma EstablishQueues(s: Sock, p: Packet, now: nat)
    ensures QueuesOf(Establish(s, p, now)) == QueuesOf(s)
  {
    hide ParseFrom, OptionsLen, PacketFor, SacksAfter;
  }

  lemma CheckedQueues(s: Sock, p: Packet, now: nat)
    requires PassesChecks(s, p)
    ensures QueuesAfter(s, p, now) ==
            QueuesOf(ProcessAck(if s.state == SynReceived then s.(state := Established) else s, p, now))
  {
    var s1 := if s.state == SynReceived then s.(state := Established) else s;
    assert s1 == s || (s1 == s.(state := Established) && s.state == SynReceived);
    ProcessAckQueues(s1, p, now);
    hide ProcessAck, Queueing, WithFin, VerifySegment, AckStage;
  }

  lemma UncheckedQueues(s: Sock, p: Packet, now: nat)
    requires s.state !in {Close, Listen, SynSent} && !PassesChecks(s, p)
    ensures QueuesOf(Input(s, p, now)) == QueuesOf(s)
  {
    OpenInput(s, p, now);
    if s.state != TimeWait && !(s.tcb.sndUna <= p.ackSeq <= s.tcb.sndNxt) {
      StaleAck(s, p, now);
    }
    SendAckInbox(s);
    hide Input, ProcessAck, SendAck, PassesChecks;
  }

  lemma OpenQueues(s: Sock, p: Packet, now: nat)
    requires s.state !in {Close, Listen, SynSent}
    ensures QueuesAfter(s, p, now) == QueuesOf(Input(s, p, now))
  {
    OpenInput(s, p, now);
    if PassesChecks(s, p) {
      CheckedQueues(s, p, now);
    } else {
      UncheckedQueues(s, p, now);
    }
    hide Input, ProcessAck, PassesChecks, QueuesOf, ClosesLast, ReachesText;
  }

  lemma OpenInput(s: Sock, p: Packet, now: nat)
    requires s.state !in {Close, Listen, SynSent}
    ensures var t, s1 := Input(s, p, now), if s.state == SynReceived then s.(state := Established) else s;
      if PassesChecks(s, p) then t == ProcessAck(s1, p, now)
      else t == s || t == SendAck(s) || t == EnterTimeWait(s, now)
           || (t == ProcessAck(s, p, now) && s.state != TimeWait && !(s.tcb.sndUna <= p.ackSeq <= s.tcb.sndNxt))
  {
    hide ProcessAck, SendAck, VerifySegment, EnterTimeWait;
  }

  /** The queues and `rcv_nxt` after any arrival: the text is queued exactly when the segment passes the checks
      in a state that accepts text, and `rcv_nxt` counts a FIN exactly when it is taken. */
  lemma InputQueues(s: Sock, p: Packet, now: nat)
    ensures QueuesOf(Input(s, p, now)) == QueuesAfter(s, p, now)
  {
    if s.state == SynSent {
      SynSentQueues(s, p, now);
      hide SynSentInput, QueuesAfter;
    } else if s.state in {Close, Listen} {
      hide PacketFor, SacksAfter, Queueing;
    } else {
      OpenQueues(s, p, now);
      hide Input, QueuesAfter;
    }
  }

  // ----- everything else -----

  /** A retransmission handler that gives the connection up. */
  predicate HandlerFinishes(s: Sock, h: Handler) {
    if h == ConnectRto then s.state == SynSent && s.rtx.backoff > CONN_RETRIES
    else s.writeQ != [] && s.rtx.rto > MAX_RTO
  }

  /** The call or the timer runs `tcp_done`. */
  predicate Finishes(s: Sock, e: Event, now: nat) {
    match e
    case AbortRequest => true
    case CloseRequest => s.state in {Listen, SynSent, SynReceived}
    case LingerExpires => Due(s.linger, now)
    case RtoExpires => Due(s.rtx.timer, now) && HandlerFinishes(s, s.rtx.timer.value.handler)
    case StrayExpires(i) =>
      i < |s.rtx.strays| && s.rtx.strays[i].expires < now && HandlerFinishes(s, s.rtx.strays[i].handler)
    case _ => false
  }

  lemma HandlerQueues(s: Sock, h: Handler, now: nat)
    ensures var t := RunRtoHandler(s, h, now);
      && QueuesOf(t) == (if HandlerFinishes(s, h) then QueuesOf(s).(ofoQ := []) else QueuesOf(s))
      && t.tcb.rcvWnd == s.tcb.rcvWnd
      && (t.state == s.state || (HandlerFinishes(s, h) && t.state == Closing) || Open(s))
  {
    hide PacketFor, SacksAfter, OptionsLen, RtoTimer;
  }

  lemma ConnectQueues(s: Sock, iss: u32, now: nat)
    ensures var t := Connect(s, iss, now); QueuesOf(t) == QueuesOf(s).(rcvNxt := 0) && t.tcb.rcvWnd == INITIAL_WINDOW
  {
    hide PacketFor, SacksAfter, RtoTimer, SynSkb;
  }

  lemma SendingQueues(s: Sock, buf: seq<byte>, now: nat)
    ensures QueuesOf(Write(s, buf, now)) == QueuesOf(s)
    ensures QueuesOf(CloseCall(s, now)) ==
            if s.state in {Listen, SynSent, SynReceived} then QueuesOf(s).(ofoQ := []) else QueuesOf(s)
  {
    QueueAllInbox(s, Segmentize(buf, s.smss), now);
    QueueTransmitInbox(s.(state := FinWait1), FIN_SKB, now);
    QueueTransmitInbox(s, FIN_SKB, now);
    hide QueueAll, Segmentize, QueueTransmit;
  }

  lemma EndingQueues(s: Sock)
    ensures QueuesOf(Abort(s)) == QueuesOf(s).(ofoQ := [])
    ensures forall h :: QueuesOf(LingerFires(s, h)) == QueuesOf(s).(ofoQ := [])
    ensures QueuesOf(DelackFires(s)) == QueuesOf(s)
  {
    SendAckInbox(s.(delacks := 0, delack := None));
    hide PacketFor, SacksAfter, OptionsLen, SendAck;
  }

  /** The queues after anything but an arrival and a read: `tcp_done` empties the out-of-order queue, an active
      open starts at `rcv_nxt` 0, and nothing else touches them. */
  lemma CallQueues(s: Sock, e: Event, now: nat)
    requires !e.Arrival? && !e.ReadCall?
    ensures QueuesOf(Step(s, e, now)) ==
            if Finishes(s, e, now) then QueuesOf(s).(ofoQ := [])
            else if e.ConnectCall? && s.state == Close then QueuesOf(s).(rcvNxt := 0)
            else QueuesOf(s)
  {
    hide Connect, Write, CloseCall, Abort, DelackFires, LingerFires, RunRtoHandler, HandlerFinishes;
    match e {
      case ConnectCall(iss) => ConnectQueues(s, iss, now);
      case WriteCall(buf) => SendingQueues(s, buf, now);
      case CloseRequest => SendingQueues(s, [], now);
      case RtoExpires =>
        if Due(s.rtx.timer, now) {
          HandlerQueues(s, s.rtx.timer.value.handler, now);
        }
      case StrayExpires(i) =>
        if i < |s.rtx.strays| {
          var h := s.rtx.strays[i].handler;
          HandlerQueues(s.(rtx := s.rtx.(strays := s.rtx.strays[..i] + s.rtx.strays[i + 1..])), h, now);
          StraysAside(s, i, h);
        }
      case _ => EndingQueues(s);
    }
  }

  lemma StraysAside(s: Sock, i: nat, h: Handler)
    requires i < |s.rtx.strays|
    ensures HandlerFinishes(s.(rtx := s.rtx.(strays := s.rtx.strays[..i] + s.rtx.strays[i + 1..])), h) <==>
            HandlerFinishes(s, h)
  {
  }

  /** `tcp_read` gets as far as the receive queue. */
  predicate Dequeues(s: Sock, n: nat) {
    Readable(s) && n > 0 && !(s.state == CloseWait && s.inbox.recvQ == [] && s.inbox.fin)
  }

  lemma ReadQueues(s: Sock, n: nat, blocking: bool, now: nat)
    ensures var (t, data) := Read(s, n, blocking, now);
      if Dequeues(s, n) then
        QueuesOf(t) == QueuesOf(s).(recvQ := Dequeue(s.inbox.recvQ, n).1) && data == Dequeue(s.inbox.recvQ, n).0
      else QueuesOf(t) == QueuesOf(s) && data == []
  {
    hide Dequeue;
  }

  // ----- the receive window is open -----

  /** While text may be accepted, now or after the handshake, the window is not 0. */
  predicate WindowOpen(s: Sock) {
    s.state in {SynSent, SynReceived, Established, FinWait1, FinWait2} ==> s.tcb.rcvWnd > 0
  }

  /** `tcp_data_queue` frees the buffer of such a segment, and `tcp_input_state` frees it again. */
  predicate FreedTwice(s: Sock, p: Packet) {
    && PassesChecks(s, p) && s.tcb.rcvWnd == 0
    && s.state in {SynReceived, Established, FinWait1, FinWait2} && (p.flags.psh || |p.payload| > 0)
  }

  lemma NeverFreedTwice(trace: seq<(Event, nat)>, p: Packet)
    ensures !FreedTwice(Run(FRESH, trace), p)
  {
    RunKeepsWindow(trace);
    hide Run, PassesChecks;
  }

  lemma ProcessAckWindow(s: Sock, p: Packet, now: nat)
    ensures ProcessAck(s, p, now).tcb.rcvWnd == s.tcb.rcvWnd
  {
    var s1 := if s.state == TimeWait then s else AckStage(s, p, now);
    AckStageInbox(s, p, now);
    FinAckedInbox(s1, p);
    ProcessTextKeepsUna(FinAcked(s1, p), p, now);
    hide AckStage, FinAcked, ProcessText;
  }

  lemma ArrivalWindow(s: Sock, p: Packet, now: nat)
    requires s.state !in {Close, Listen, SynSent}
    ensures Input(s, p, now).tcb.rcvWnd == s.tcb.rcvWnd
  {
    OpenInput(s, p, now);
    ProcessAckWindow(if s.state == SynReceived then s.(state := Established) else s, p, now);
    ProcessAckWindow(s, p, now);
    SendAckInbox(s);
    hide Input, ProcessAck, SendAck;
  }

  lemma OpeningWindow(s: Sock, p: Packet, now: nat)
    requires s.state in {Close, Listen, SynSent}
    ensures Input(s, p, now).tcb.rcvWnd == s.tcb.rcvWnd && (s.state != SynSent ==> Input(s, p, now).state == s.state)
  {
    EstablishWindow(LearnSyn(s, p), p, now);
    hide PacketFor, SacksAfter, Establish, AckedPrefix;
  }

  lemma EstablishWindow(s: Sock, p: Packet, now: nat)
    ensures Establish(s, p, now).tcb.rcvWnd == s.tcb.rcvWnd
  {
    hide PacketFor, SacksAfter, OptionsLen, ParseFrom;
  }

  lemma OtherWindow(s: Sock, e: Event, now: nat)
    requires WindowOpen(s) && !Open(s) && !e.Arrival?
    ensures WindowOpen(Step(s, e, now))
  {
    hide PacketFor, SacksAfter, OptionsLen, RtoTimer, Dequeue, SynSkb, QueueAll;
    match e {
      case ConnectCall(iss) => ConnectQueues(s, iss, now); hide Connect;
      case RtoExpires =>
        if Due(s.rtx.timer, now) {
          HandlerQueues(s, s.rtx.timer.value.handler, now);
        }
        hide RunRtoHandler;
      case StrayExpires(i) =>
        if i < |s.rtx.strays| {
          HandlerQueues(s.(rtx := s.rtx.(strays := s.rtx.strays[..i] + s.rtx.strays[i + 1..])), s.rtx.strays[i].handler, now);
        }
        hide RunRtoHandler;
      case _ => hide QueueTransmit;
    }
  }

  lemma StepKeepsWindow(s: Sock, e: Event, now: nat)
    requires WindowOpen(s) && LifeInv(s)
    ensures WindowOpen(Step(s, e, now))
  {
    StepForward(s, e, now);
    RankOf(s, Step(s, e, now));
    hide Input;
    if e.Arrival? {
      if s.state in {Close, Listen, SynSent} {
        OpeningWindow(s, e.p, now);
      } else {
        ArrivalWindow(s, e.p, now);
      }
    } else if !Open(s) {
      OtherWindow(s, e, now);
    }
    if Open(s) {
      UnaFollowsAcks(s, e, now);
    }
    hide Step, Path;
  }

  lemma {:induction false} RunKeepsWindow(trace: seq<(Event, nat)>)
    ensures WindowOpen(Run(FRESH, trace))
  {
    if trace != [] {
      var n := |trace| - 1;
      RunKeepsWindow(trace[..n]);
      StatesOnlyAdvance(trace[..n], n);
      hide Step, WindowOpen, LifeInv;
      StepKeepsWindow(Run(FRESH, trace[..n]), trace[n].0, trace[n].1);
    }
  }
}
