/** The transfer is never stuck: from every reachable state one timeout, one delivery in each direction and
    at most one delayed acknowledgement move it forward. */
module Progress {
  import opened Words
  import opened TcpTypes
  import opened Tcp
  import opened TcpOutput
  import opened TcpData
  import opened TcpInput
  import opened Host
  import opened Stream
  import opened SenderQueue
  import opened Sender
  import opened Receiver
  import opened AckSource
  import opened Network

  /** The last packet sent acknowledges everything received. */
  predicate Reported(s: Sock) {
    && s.wire != []
    && var p := s.wire[|s.wire| - 1];
       p.flags == ACK_FLAGS && p.ackSeq == s.tcb.rcvNxt && p.seqNo == s.tcb.sndNxt
  }

  /** Everything received has been acknowledged, or will be when the delayed-ACK timer fires. */
  predicate Reports(s: Sock) {
    Reported(s) || s.delack.Some?
  }

  lemma SendAckReports(s: Sock)
    requires s.state != Close
    ensures Reported(SendAck(s)) && SendAck(s).tcb == s.tcb && SendAck(s).state == s.state
  {
    SendAckEffect(s);
    assert AckPacket(s).flags == ACK_FLAGS;
    hide SendAck, AckPacket;
  }

  lemma PolicyReports(s: Sock, p: Packet, now: nat)
    requires s.state == Established && s.inflight == 0 && s.writeQ == [] && p.payload != []
    ensures var t := AckPolicy(s, p, now); Reports(t) && t.tcb == s.tcb && t.state == s.state
  {
    SendAckReports(s.(delacks := 0, delack := None));
    hide SendAck;
  }

  lemma FinReports(s: Sock, p: Packet, now: nat)
    requires s.state == Established && p.flags.fin && !p.flags.psh && p.payload == []
    requires p.seqNo == s.tcb.rcvNxt && s.tcb.rcvNxt + 1 < MOD32
    ensures var t := ProcessText(s, p, now);
      t.state == CloseWait && t.tcb.rcvNxt > p.seqNo && Reports(t)
  {
    SendAckReports(s.(tcb := s.tcb.(rcvNxt := U32(s.tcb.rcvNxt + 1)), inbox := s.inbox.(fin := true, pollIn := true)));
    hide SendAck, AckPolicy, Reported, DataQueue;
  }

  lemma DataReports(s: Sock, p: Packet, now: nat, g: Ground, read: seq<byte>)
    requires Receiving(s, g, read) && Sound(g) && s.state == Established
    requires p.seqNo == s.tcb.rcvNxt && p.payload != [] && !p.flags.fin
    requires GoodPacket(p, g.c, g.base, g.nxt)
    ensures var t := ProcessText(s, p, now);
      t.state == Established && t.tcb.rcvNxt > p.seqNo && Reports(t)
  {
    GoodPacketFits(p, g);
    NoWrapPos(g.base, g.c, |g.c|);
    AcceptKeepsAcking(s, SkbOf(p), g, read);
    PolicyReports(TextStage(s, p), p, now);
    hide Accept, AckPolicy, Received, GoodPacket, Flat, Pos, FinStage, Reports;
  }

  /** A packet that repeats what the receiver is waiting for advances it; either way the receiver reports. */
  lemma InSequenceReports(s: Sock, p: Packet, now: nat, g: Ground, read: seq<byte>, k: nat)
    requires Receiving(s, g, read) && Sound(g) && s.state == Established
    requires k < |g.c| && Carries(p, g.c, g.base, k) && GoodPacket(p, g.c, g.base, g.nxt)
    requires p.seqNo == s.tcb.rcvNxt && s.tcb.rcvNxt + 1 < MOD32
    ensures var t := ProcessText(s, p, now);
      t.state in {Established, CloseWait} && t.tcb.rcvNxt > p.seqNo && Reports(t)
  {
    assert WellFormed(g.c[k]);
    hide ProcessText, Receiving, Reports, GoodPacket, Pos;
    if p.flags.fin {
      FinReports(s, p, now);
    } else {
      DataReports(s, p, now, g, read);
    }
  }

  lemma RepeatReports(s: Sock, p: Packet, now: nat, g: Ground, read: seq<byte>, k: nat)
    requires Receiving(s, g, read) && Sound(g) && s.state in {Established, CloseWait}
    requires k < |g.c| && Carries(p, g.c, g.base, k) && GoodPacket(p, g.c, g.base, g.nxt)
    requires p.seqNo <= s.tcb.rcvNxt && p.ackSeq == g.me && s.tcb.rcvNxt + INITIAL_WINDOW < MOD32
    ensures var t := Input(s, p, now);
      t.state in {Established, CloseWait} && t.tcb.rcvNxt > p.seqNo && Reports(t)
  {
    assert WellFormed(g.c[k]) && s.tcb.rcvWnd == INITIAL_WINDOW;
    if p.seqNo == s.tcb.rcvNxt {
      InSequenceIsOpen(s, p, g, read, k);
      hide Receiving, Sound, GoodPacket, Pos;
      InSequenceReports(s, p, now, g, read, k);
      GoesToText(s, p, now);
      hide ProcessText, Input, Reports;
    } else {
      hide Receiving, Sound, GoodPacket, Pos, WellFormed;
      StaleReports(s, p, now);
      hide Input, Reports;
    }
  }

  lemma InSequenceIsOpen(s: Sock, p: Packet, g: Ground, read: seq<byte>, k: nat)
    requires Receiving(s, g, read) && Sound(g) && s.state in {Established, CloseWait}
    requires k < |g.c| && Carries(p, g.c, g.base, k) && p.seqNo == s.tcb.rcvNxt
    ensures s.state == Established && s.writeQ == [] && s.tcb.sndUna == s.tcb.sndNxt == g.me
  {
    PosMonotone(g.base, g.c, k, |g.c|);
    hide Flat, Pos;
  }

  /** A segment in sequence that acknowledges nothing new is processed for its text at once. */
  lemma GoesToText(s: Sock, p: Packet, now: nat)
    requires s.state == Established && s.writeQ == [] && p.ackSeq == s.tcb.sndUna == s.tcb.sndNxt
    requires p.seqNo == s.tcb.rcvNxt && s.tcb.rcvWnd == INITIAL_WINDOW && s.tcb.rcvNxt + INITIAL_WINDOW < MOD32
    requires p.flags.ack && !p.flags.syn && !p.flags.rst
    ensures Input(s, p, now) == ProcessText(s, p, now)
  {
    hide ProcessText, SendAck;
  }

  lemma StaleReports(s: Sock, p: Packet, now: nat)
    requires s.state in {Established, CloseWait} && p.seqNo < s.tcb.rcvNxt && !p.flags.rst
    ensures var t := Input(s, p, now); Reports(t) && t.tcb == s.tcb && t.state == s.state
  {
    SendAckReports(s);
    hide SendAck, Reported;
  }

  /** How long until the timer is due. */
  function Until(t: Option<Timer>, now: nat): nat {
    if t.Some? && t.value.expires >= now then t.value.expires - now + 1 else 0
  }

  /** Data or a FIN is unacknowledged, the sender has not backed off to the limit, and the receiver still
      receives. Neither receive window may reach past 2^32, because `tcp_verify_segment` would wrap. */
  predicate Waiting(sys: System) {
    && Live(sys.a) && sys.a.writeQ != [] && sys.a.rtx.rto <= MAX_RTO
    && sys.b.state in {Established, CloseWait}
    && sys.base + |sys.written| + 1 + INITIAL_WINDOW < MOD32
    && sys.me + INITIAL_WINDOW < MOD32
  }

  // The schedule: the retransmission timer fires, the retransmission is delivered, the delayed-ACK timer
  // fires if it is armed, and the latest acknowledgement is delivered.

  function Resent(sys: System): System {
    Apply(Apply(sys, Pass(Until(sys.a.rtx.timer, sys.clock))), AtSender(RtoExpires))
  }

  function Repeated(sys: System): System {
    Apply(Resent(sys), ToReceiver(|sys.a.wire|))
  }

  function Answered(sys: System): System {
    Apply(Apply(Repeated(sys), Pass(Until(Repeated(sys).b.delack, Repeated(sys).clock))), AtReceiver(DelackExpires))
  }

  function Rescue(sys: System): seq<Action> {
    [Pass(Until(sys.a.rtx.timer, sys.clock)), AtSender(RtoExpires), ToReceiver(|sys.a.wire|),
     Pass(Until(Repeated(sys).b.delack, Repeated(sys).clock)), AtReceiver(DelackExpires),
     ToSender(if Answered(sys).b.wire == [] then 0 else |Answered(sys).b.wire| - 1)]
  }

  lemma RtoResends(s: Sock, now: nat, c: seq<Skb>, base: nat, closed: bool, peer: u32)
    requires Sending(s, c, base, closed, peer) && WireGood(s, c, base)
    requires Due(s.rtx.timer, now) && s.rtx.rto <= MAX_RTO
    ensures var t, p := Step(s, RtoExpires, now), PacketFor(s, s.writeQ[0], s.tcb.sndUna);
      && t.tcb == s.tcb && t.writeQ == s.writeQ && Live(t) && t.wire == s.wire + [p]
      && p.ackSeq == peer && p.seqNo == s.tcb.sndUna && Carries(p, c, base, |c| - |s.writeQ|)
  {
    RetransmitIsGood(s, c, base, closed);
    assert s.state == Established ==> !s.writeQ[0].flags.fin by {
      assert Holds(s.writeQ[0], c, base, |c| - |s.writeQ|, true);
    }
    hide Layout, WireGood, Carries, Holds, OptionsAfter, SacksAfter;
  }

  lemma ResentState(sys: System)
    requires Inv(sys) && Waiting(sys)
    ensures var t := Resent(sys);
      && t == sys.(a := t.a, clock := t.clock)
      && t.a.tcb == sys.a.tcb && t.a.writeQ == sys.a.writeQ && Live(t.a)
      && |t.a.wire| == |sys.a.wire| + 1
      && var p := t.a.wire[|sys.a.wire|];
         && p.ackSeq == sys.me && p.seqNo == sys.a.tcb.sndUna
         && Carries(p, sys.c, sys.base, |sys.c| - |sys.a.writeQ|)
  {
    var s1 := Apply(sys, Pass(Until(sys.a.rtx.timer, sys.clock)));
    assert s1 == sys.(clock := s1.clock);
    hide Layout, WireGood, Receiving, Carries, Step;
    RtoResends(sys.a, s1.clock, sys.c, sys.base, sys.closed, sys.me);
    assert sys.c + [] == sys.c;
    assert sys.written + [] == sys.written;
  }

  lemma ResentInv(sys: System)
    requires Inv(sys) && Waiting(sys)
    ensures Inv(Resent(sys))
  {
    ResentState(sys);
    hide Step, Inv, NewSegments;
    var s1 := Apply(sys, Pass(Until(sys.a.rtx.timer, sys.clock)));
    ApplyKeepsInv(sys, Pass(Until(sys.a.rtx.timer, sys.clock)));
    assert Apply(s1, AtSender(RtoExpires)).written == sys.written;
    ApplyKeepsInv(s1, AtSender(RtoExpires));
  }

  lemma QueueFits(sys: System)
    requires Inv(sys) && Live(sys.a)
    ensures |sys.a.writeQ| <= |sys.c|
  {
  }

  /** The retransmission is on the wire, and the receiver can use it. */
  lemma ResentReady(sys: System)
    requires Inv(sys) && Waiting(sys)
    ensures var t, i := Resent(sys), |sys.a.wire|;
      && Inv(t) && FitsSpace(t) && t == sys.(a := t.a, clock := t.clock) && sys.a.writeQ != []
      && t.b.state in {Established, CloseWait} && |sys.a.writeQ| <= |sys.c| && i < |t.a.wire|
      && Carries(t.a.wire[i], t.c, t.base, |sys.c| - |sys.a.writeQ|)
      && t.a.wire[i].seqNo == sys.a.tcb.sndUna <= t.b.tcb.rcvNxt && t.a.wire[i].ackSeq == t.me
      && t.b.tcb.rcvNxt + INITIAL_WINDOW < MOD32
  {
    ResentState(sys);
    ResentInv(sys);
    RcvBound(sys);
    QueueFits(sys);
    hide Resent, Carries, Inv;
  }

  lemma DeliveryEffect(sys: System, i: nat)
    requires i < |sys.a.wire|
    ensures var t := Apply(sys, ToReceiver(i));
      t == sys.(b := Step(sys.b, Arrival(sys.a.wire[i]), sys.clock), read := t.read)
  {
    hide Step, Delivered;
  }

  lemma RepeatedIs(sys: System)
    ensures Repeated(sys) == Apply(Resent(sys), ToReceiver(|sys.a.wire|))
  {
    hide Apply, Resent;
  }

  lemma RepeatedState(sys: System)
    requires Inv(sys) && Waiting(sys)
    ensures var t := Repeated(sys);
      && Inv(t) && t.a == Resent(sys).a && t.c == sys.c && t.base == sys.base && t.me == sys.me
      && t.closed == sys.closed && t.written == sys.written
      && t.b.state in {Established, CloseWait} && t.b.tcb.rcvNxt > sys.a.tcb.sndUna && Reports(t.b)
  {
    hide *;
    var s1, i := Resent(sys), |sys.a.wire|;
    RepeatedIs(sys);
    ResentReady(sys);
    DeliveryEffect(s1, i);
    SpaceStays(s1, ToReceiver(i));
    ApplyKeepsInv(s1, ToReceiver(i));
    DeliveryReports(s1, i, |sys.c| - |sys.a.writeQ|);
  }

  lemma SpaceStays(sys: System, act: Action)
    requires FitsSpace(sys) && act.ToReceiver?
    ensures FitsSpace(Apply(sys, act))
  {
    hide Step, Delivered;
  }

  lemma DeliveryReports(sys: System, i: nat, k: nat)
    requires Inv(sys) && sys.b.state in {Established, CloseWait}
    requires i < |sys.a.wire| && k < |sys.c| && Carries(sys.a.wire[i], sys.c, sys.base, k)
    requires sys.a.wire[i].seqNo <= sys.b.tcb.rcvNxt && sys.a.wire[i].ackSeq == sys.me
    requires sys.b.tcb.rcvNxt + INITIAL_WINDOW < MOD32
    ensures var t := Step(sys.b, Arrival(sys.a.wire[i]), sys.clock);
      t.state in {Established, CloseWait} && t.tcb.rcvNxt > sys.a.wire[i].seqNo && Reports(t)
  {
    var p, g := sys.a.wire[i], GroundOf(sys);
    assert GoodPacket(p, g.c, g.base, g.nxt);
    hide SenderInv, Receiving, Sound, Reports, Carries, GoodPacket, Input;
    RepeatReports(sys.b, p, sys.clock, g, sys.read, k);
  }

  /** The receiver never gets ahead of the stream and its FIN. */
  lemma RcvBound(sys: System)
    requires Inv(sys)
    ensures sys.b.tcb.rcvNxt <= sys.base + |sys.written| + 1
    ensures Live(sys.a) ==> sys.a.tcb.sndUna <= sys.b.tcb.rcvNxt <= sys.a.tcb.sndNxt
  {
    var g, x := GroundOf(sys), sys.b.tcb.rcvNxt;
    PosEnd(g.base, g.c);
    if x in Ends(g) {
      var k: nat :| k <= |g.c| && Pos(g.base, g.c, k) <= g.nxt && x == Pos(g.base, g.c, k);
      PosMonotone(g.base, g.c, k, |g.c|);
    }
    hide SenderInv, Ends, Received, Flat;
  }

  lemma DelackAnswers(s: Sock, now: nat)
    requires Reports(s) && s.state != Close && (s.delack.Some? ==> Due(s.delack, now))
    ensures var t := Step(s, DelackExpires, now); Reported(t) && t.tcb == s.tcb && t.state == s.state
  {
    SendAckReports(s.(delacks := 0, delack := None));
    hide SendAck, Reported;
  }

  lemma AnsweredState(sys: System)
    requires Inv(sys) && Waiting(sys)
    ensures var t := Answered(sys);
      && Inv(t) && t.a == Resent(sys).a && t.c == sys.c && t.base == sys.base && t.me == sys.me
      && t.closed == sys.closed && t.written == sys.written
      && t.b.tcb.rcvNxt > sys.a.tcb.sndUna && Reported(t.b)
  {
    RepeatedState(sys);
    hide Repeated, Resent, Inv, Reports, Reported, Step;
    WaitAnswers(Repeated(sys));
  }

  lemma AnswerIsReady(sys: System)
    requires Inv(sys) && Waiting(sys)
    ensures var t := Answered(sys);
      && Inv(t) && FitsSpace(t) && Live(t.a) && t.a.writeQ != [] && Reported(t.b)
      && t.b.tcb.rcvNxt > t.a.tcb.sndUna && t.me + INITIAL_WINDOW < MOD32
      && t.a.writeQ == sys.a.writeQ && t.written == sys.written && t.b.wire != []
  {
    AnsweredState(sys);
    ResentState(sys);
    hide Answered, Resent, Inv, Carries;
  }

  lemma WaitAnswers(sys: System)
    requires Inv(sys) && FitsSpace(sys) && Reports(sys.b) && sys.b.state != Close
    ensures var t := Apply(Apply(sys, Pass(Until(sys.b.delack, sys.clock))), AtReceiver(DelackExpires));
      && Inv(t) && t == sys.(b := t.b, clock := t.clock, read := t.read)
      && t.b.tcb == sys.b.tcb && t.b.state == sys.b.state && Reported(t.b)
  {
    hide Inv, Reports, Reported, Step;
    var wait := Pass(Until(sys.b.delack, sys.clock));
    var s1 := Apply(sys, wait);
    ApplyKeepsInv(sys, wait);
    ApplyKeepsInv(s1, AtReceiver(DelackExpires));
    DelackAnswers(sys.b, s1.clock);
  }

  /** The newest acknowledgement takes at least the head segment off the queue. */
  lemma AckShortens(s: Sock, p: Packet, now: nat, g: Ground)
    requires Sending(s, g.c, g.base, g.closed, g.me) && WireGood(s, g.c, g.base) && s.writeQ != []
    requires SourceAck(p, g) && p.seqNo == g.me && p.flags == ACK_FLAGS
    requires s.tcb.sndUna < p.ackSeq <= s.tcb.sndNxt && g.me + s.tcb.rcvWnd < MOD32
    ensures var t := Input(s, p, now); |t.writeQ| < |s.writeQ| && Live(t)
  {
    AckArrives(s, p, now, g.c, g.base, g.closed, g.me);
    SendingIsLive(s, ProcessAck(s, p, now), g);
    ReachesAck(s, p, now);
    hide *;
  }

  lemma SendingIsLive(s: Sock, t: Sock, g: Ground)
    requires Sending(s, g.c, g.base, g.closed, g.me)
    ensures Live(s) && s.tcb.rcvNxt == g.me && (Sending(t, g.c, g.base, g.closed, g.me) ==> Live(t))
  {
    hide Layout;
  }

  lemma ReachesAck(s: Sock, p: Packet, now: nat)
    requires Live(s) && p.seqNo == s.tcb.rcvNxt && s.tcb.rcvNxt + s.tcb.rcvWnd < MOD32
    requires p.flags == ACK_FLAGS && p.payload == []
    ensures Input(s, p, now) == ProcessAck(s, p, now)
  {
    hide ProcessAck;
  }

  lemma AnswerArrives(sys: System)
    requires Inv(sys) && FitsSpace(sys) && Live(sys.a) && sys.a.writeQ != [] && Reported(sys.b)
    requires sys.b.tcb.rcvNxt > sys.a.tcb.sndUna && sys.me + INITIAL_WINDOW < MOD32
    ensures var t := Apply(sys, ToSender(|sys.b.wire| - 1));
      Inv(t) && |t.a.writeQ| < |sys.a.writeQ| && Live(t.a) && t.c == sys.c && t.written == sys.written
  {
    var g, i := GroundOf(sys), |sys.b.wire| - 1;
    RcvBound(sys);
    AnswerIsGood(sys);
    ArrivalFrame(sys, i);
    hide Inv, Apply, Input, WireGood, Sending, SourceAck;
    assert FitsSpace(Apply(sys, ToSender(i)));
    ApplyKeepsInv(sys, ToSender(i));
    AckShortens(sys.a, sys.b.wire[i], sys.clock, g);
  }

  lemma ArrivalFrame(sys: System, i: nat)
    requires i < |sys.b.wire|
    ensures Apply(sys, ToSender(i)) == sys.(a := Input(sys.a, sys.b.wire[i], sys.clock))
  {
    hide Input;
    assert sys.written + [] == sys.written;
    assert sys.c + [] == sys.c;
  }

  lemma AnswerIsGood(sys: System)
    requires Inv(sys) && Reported(sys.b) && Live(sys.a)
    ensures Sending(sys.a, sys.c, sys.base, sys.closed, sys.me) && WireGood(sys.a, sys.c, sys.base)
    ensures sys.a.tcb.rcvWnd == INITIAL_WINDOW
    ensures SourceAck(sys.b.wire[|sys.b.wire| - 1], GroundOf(sys))
    ensures sys.b.wire[|sys.b.wire| - 1].seqNo == sys.me
  {
    hide Layout, WireGood, Received, Ends, SourceAck;
  }

  /** Progress. From every state satisfying the invariant, hence from every reachable one, a schedule of six
      actions strictly shortens the sender's write queue. */
  lemma NeverStuck(sys: System)
    requires Inv(sys) && Waiting(sys)
    ensures var t := Exec(sys, Rescue(sys));
      Inv(t) && |t.a.writeQ| < |sys.a.writeQ| && Live(t.a) && t.written == sys.written
  {
    hide *;
    AnswerIsReady(sys);
    AnswerArrives(Answered(sys));
    RescueRuns(sys);
  }

  lemma RescueRuns(sys: System)
    ensures Exec(sys, Rescue(sys)) ==
            Apply(Answered(sys), ToSender(if Answered(sys).b.wire == [] then 0 else |Answered(sys).b.wire| - 1))
  {
    var acts := Rescue(sys);
    hide Apply, Answered, Repeated;
    assert forall k :: 0 < k <= 6 ==> acts[..k][..k - 1] == acts[..k - 1];
    assert Exec(sys, acts[..1]) == Apply(sys, acts[0]);
    assert Exec(sys, acts[..2]) == Apply(Exec(sys, acts[..1]), acts[1]);
    assert Exec(sys, acts[..3]) == Apply(Exec(sys, acts[..2]), acts[2]);
    assert Exec(sys, acts[..4]) == Apply(Exec(sys, acts[..3]), acts[3]);
    assert Exec(sys, acts[..5]) == Apply(Exec(sys, acts[..4]), acts[4]);
    assert acts[..6] == acts;
    RescueUnfolds(sys);
  }

  lemma RescueUnfolds(sys: System)
    ensures var acts := Rescue(sys);
      Answered(sys) == Apply(Apply(Apply(Apply(Apply(sys, acts[0]), acts[1]), acts[2]), acts[3]), acts[4])
  {
    hide Apply;
  }

  lemma {:induction false} ExecAppend(sys: System, p: seq<Action>, q: seq<Action>)
    ensures Exec(sys, p + q) == Exec(Exec(sys, p), q)
  {
    hide Apply;
    if q == [] {
      assert p + q == p;
    } else {
      var n := |q| - 1;
      assert (p + q)[..|p + q| - 1] == p + q[..n];
      ExecAppend(sys, p, q[..n]);
    }
  }

  /** No run can reach a state from which the transfer cannot go on. */
  lemma NoRunGetsStuck(start: System, acts: seq<Action>)
    requires Initial(start) && Waiting(Exec(start, acts))
    ensures exists more :: |Exec(start, acts + more).a.writeQ| < |Exec(start, acts).a.writeQ|
  {
    var sys := Exec(start, acts);
    assert FitsSpace(sys);
    hide *;
    ReachableInv(start, acts);
    NeverStuck(sys);
    ExecAppend(start, acts, Rescue(sys));
  }
}
