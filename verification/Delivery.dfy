/** Everything that was written can still be delivered: the network holds a copy of every segment in flight, so
    deliveries and acknowledgements alone, without a timeout, empty the sender's queue. */
module Delivery {
  import opened Words
  import opened TcpTypes
  import opened Tcp
  import opened TcpOutput
  import opened TcpData
  import opened TcpInput
  import opened Host
  import opened Stream
  import opened SenderQueue
  import opened Sender
  import opened Receiver
  import opened AckSource
  import opened Arrivals
  import opened Network
  import opened Progress

  // ----- what is in flight has been sent -----

  /** A packet with the segment `skb`, sent by a socket that had received everything below `ack`. */
  predicate CopyOf(p: Packet, skb: Skb, ack: u32) {
    && p.seqNo == skb.seqNo && p.payload == skb.payload && p.flags == skb.flags && p.ackSeq == ack
    && (skb.options == [] ==> p.options == [])
  }

  predicate Copied(wire: seq<Packet>, skb: Skb, ack: u32) {
    exists j :: 0 <= j < |wire| && CopyOf(wire[j], skb, ack)
  }

  /** The first `n` queued segments have each been put on the wire. */
  predicate Sent(wire: seq<Packet>, q: seq<Skb>, n: nat, ack: u32) {
    n <= |q| && forall i :: 0 <= i < n ==> Copied(wire, q[i], ack)
  }

  predicate OnWire(s: Sock, ack: u32) {
    s.tcb.rcvNxt == ack && Sent(s.wire, s.writeQ, s.inflight, ack)
  }

  lemma SentLater(wire: seq<Packet>, wire': seq<Packet>, q: seq<Skb>, n: nat, ack: u32)
    requires Sent(wire, q, n, ack) && wire <= wire'
    ensures Sent(wire', q, n, ack)
  {
    forall i | 0 <= i < n ensures Copied(wire', q[i], ack) {
      var j :| 0 <= j < |wire| && CopyOf(wire[j], q[i], ack);
      assert wire'[j] == wire[j];
    }
  }

  lemma SendNewCopies(s: Sock, skb: Skb)
    ensures var t := SendNew(s, skb);
      && s.wire <= t.wire && Copied(t.wire, Stamp(skb, s.tcb.sndNxt), s.tcb.rcvNxt)
      && t.writeQ == s.writeQ && t.inflight == s.inflight && t.tcb.rcvNxt == s.tcb.rcvNxt
  {
    var t := SendNew(s, skb);
    assert CopyOf(t.wire[|s.wire|], Stamp(skb, s.tcb.sndNxt), s.tcb.rcvNxt);
    hide NextSeq, SacksAfter;
  }

  lemma {:induction false} SendNextCopies(s: Sock, i: nat, amount: nat, ack: u32)
    requires s.tcb.rcvNxt == ack && Sent(s.wire, s.writeQ, i, ack) && i <= amount <= |s.writeQ|
    ensures var t := SendNextFrom(s, i, amount); t.tcb.rcvNxt == ack && Sent(t.wire, t.writeQ, amount, ack)
    decreases amount - i
  {
    if i < amount {
      var t := SendQueued(s, i);
      SendNewCopies(s, s.writeQ[i]);
      SentLater(s.wire, t.wire, s.writeQ, i, ack);
      hide SendNew, Copied;
      assert Sent(t.wire, t.writeQ, i + 1, ack);
      hide SendQueued;
      SendNextCopies(t, i + 1, amount, ack);
    }
  }

  lemma QueueTransmitCopies(s: Sock, skb: Skb, now: nat, ack: u32)
    requires OnWire(s, ack) && (s.inflight > 0 || s.writeQ == [])
    ensures var t := QueueTransmit(s, skb, now); OnWire(t, ack) && t.inflight > 0
  {
    var s1 := if s.writeQ == [] then RearmRto(s, now) else s;
    SendNewCopies(s1, skb);
    SentLater(s.wire, QueueTransmit(s, skb, now).wire, s.writeQ, s.inflight, ack);
    hide SendNew, Copied, RtoTimer;
  }

  lemma {:induction false} QueueAllCopies(s: Sock, skbs: seq<Skb>, now: nat, ack: u32)
    requires OnWire(s, ack) && (s.inflight > 0 || s.writeQ == [])
    ensures OnWire(QueueAll(s, skbs, now), ack)
    decreases |skbs|
  {
    if skbs != [] {
      QueueTransmitCopies(s, skbs[0], now, ack);
      hide QueueTransmit, OnWire;
      QueueAllCopies(QueueTransmit(s, skbs[0], now), skbs[1..], now, ack);
    }
  }

  /** Sending something else leaves the copies where they are. */
  lemma SameCopies(s: Sock, t: Sock, ack: u32)
    requires OnWire(s, ack) && s.wire <= t.wire && t.writeQ == s.writeQ && t.inflight == s.inflight
    requires t.tcb.rcvNxt == s.tcb.rcvNxt
    ensures OnWire(t, ack)
  {
    SentLater(s.wire, t.wire, s.writeQ, s.inflight, ack);
  }

  lemma SendAckCopies(s: Sock, ack: u32)
    requires OnWire(s, ack)
    ensures OnWire(SendAck(s), ack)
  {
    SendAckEffect(s);
    hide SendAck, OnWire;
    SameCopies(s, SendAck(s), ack);
  }

  lemma AckStageCopies(s: Sock, p: Packet, now: nat, ack: u32)
    requires OnWire(s, ack)
    ensures OnWire(AckStage(s, p, now), ack)
  {
    if NewAck(s, p) {
      AckStageFields(s, p, now);
      var t, k := AckStage(s, p, now), AckedPrefix(s.writeQ, p.ackSeq);
      hide AckStage, Copied;
      forall i | 0 <= i < t.inflight ensures Copied(t.wire, t.writeQ[i], ack) {
        assert t.writeQ[i] == s.writeQ[k + i];
      }
    }
  }

  lemma FinAckedCopies(s: Sock, p: Packet, ack: u32)
    requires OnWire(s, ack)
    ensures OnWire(FinAcked(s, p), ack)
  {
    SendAckCopies(s.(inbox := s.inbox.(fin := true)), ack);
    hide SendAck, Sent;
  }

  lemma BurstCopies(s: Sock, now: nat, ack: u32)
    requires OnWire(s, ack) && s.inflight == 0
    ensures OnWire(Burst(s, now), ack)
  {
    SendNextCopies(s, 0, Min(|s.writeQ|, MAX_BURST), ack);
    hide SendNextFrom, Sent, RtoTimer;
  }

  lemma AckPolicyCopies(s: Sock, p: Packet, now: nat, ack: u32)
    requires OnWire(s, ack)
    ensures OnWire(AckPolicy(s, p, now), ack)
  {
    SendAckCopies(s.(delacks := 0, delack := None), ack);
    if s.inflight == 0 {
      BurstCopies(s.(delack := None), now, ack);
    }
    hide SendAck, Burst, Sent;
  }

  lemma ProcessAckCopies(s: Sock, p: Packet, now: nat, ack: u32)
    requires OnWire(s, ack) && Pure(p)
    ensures Live(ProcessAck(s, p, now)) ==> OnWire(ProcessAck(s, p, now), ack)
  {
    var s1 := if s.state == TimeWait then s else AckStage(s, p, now);
    AckStageCopies(s, p, now, ack);
    hide AckStage, OnWire;
    FinAckedCopies(s1, p, ack);
    AckPolicyCopies(FinAcked(s1, p), p, now, ack);
    hide FinAcked, AckPolicy;
  }

  lemma InputCopies(s: Sock, p: Packet, now: nat, ack: u32)
    requires OnWire(s, ack) && Pure(p) && Live(s)
    ensures Live(Input(s, p, now)) ==> OnWire(Input(s, p, now), ack)
  {
    ProcessAckCopies(s, p, now, ack);
    SendAckCopies(s, ack);
    OpenInput(s, p, now);
    hide Input, ProcessAck, SendAck, OnWire, VerifySegment;
  }

  /** Every step of a live sender keeps a copy of each segment in flight on the wire. */
  lemma StepCopies(s: Sock, e: Event, now: nat, ack: u32)
    requires Live(s) && Armed(s) && OnWire(s, ack) && (e.Arrival? ==> Pure(e.p))
    ensures Live(Step(s, e, now)) ==> OnWire(Step(s, e, now), ack)
  {
    hide OnWire, Input, QueueAll, QueueTransmit, Dequeue;
    match e {
      case WriteCall(buf) =>
        Unhindered(s, ack);
        QueueAllCopies(s, Segmentize(buf, s.smss), now, ack);
        if Writable(s) {
          SameCopies(QueueAll(s, Segmentize(buf, s.smss), now), Write(s, buf, now), ack);
        }
      case ReadCall(n, blocking) =>
        ReadEffect(s, n, blocking, now);
        hide Read;
        SameCopies(s, Step(s, e, now), ack);
      case CloseRequest =>
        Unhindered(s, ack);
        SameCopies(s, s.(state := FinWait1), ack);
        QueueTransmitCopies(s.(state := FinWait1), FIN_SKB, now, ack);
        SameCopies(s, s.(err := -EBADF), ack);
      case Arrival(p) => InputCopies(s, p, now, ack);
      case RtoExpires => RtoCopies(s, now, ack);
      case DelackExpires => SendAckCopies(DelackCleared(s, ack), ack); hide SendAck;
      case _ =>
    }
  }

  lemma Unhindered(s: Sock, ack: u32)
    requires Armed(s) && OnWire(s, ack)
    ensures s.inflight > 0 || s.writeQ == []
  {
  }

  function DelackCleared(s: Sock, ack: u32): (t: Sock)
    requires OnWire(s, ack)
    ensures OnWire(t, ack)
  {
    s.(delacks := 0, delack := None)
  }

  lemma RtoCopies(s: Sock, now: nat, ack: u32)
    requires Live(s) && Armed(s) && OnWire(s, ack)
    ensures Live(Step(s, RtoExpires, now)) ==> OnWire(Step(s, RtoExpires, now), ack)
  {
    var t := Step(s, RtoExpires, now);
    assert Live(t) ==> s.wire <= t.wire && t.writeQ == s.writeQ && t.inflight == s.inflight && t.tcb.rcvNxt == s.tcb.rcvNxt by {
      hide PacketFor, SacksAfter, OnWire, BackOff;
    }
    hide Step, OnWire;
    if Live(t) {
      SameCopies(s, t, ack);
    }
  }

  // ----- the composed system -----

  predicate Stocked(sys: System) {
    Live(sys.a) ==> OnWire(sys.a, sys.me)
  }

  lemma SourcePure(sys: System, i: nat)
    requires Inv(sys) && i < |sys.b.wire|
    ensures Pure(sys.b.wire[i])
  {
    WireAcknowledges(sys, i);
    hide Inv;
  }

  lemma LiveArmed(sys: System)
    requires Inv(sys) && Live(sys.a)
    ensures Armed(sys.a)
  {
    hide Layout, WireGood, Receiving;
  }

  lemma SenderStocked(sys: System, e: Event)
    requires Inv(sys) && Stocked(sys) && (e.Arrival? ==> Pure(e.p))
    ensures Stocked(SenderDoes(sys, e))
  {
    hide Inv, Step, OnWire, Armed, NewSegments;
    if Live(SenderDoes(sys, e).a) {
      LiveBefore(sys, e);
      LiveArmed(sys);
      StepCopies(sys.a, e, sys.clock, sys.me);
    }
  }

  lemma ApplyStocked(sys: System, act: Action)
    requires Inv(sys) && Stocked(sys)
    ensures Stocked(Apply(sys, act))
  {
    hide Inv, Stocked, SenderDoes, Step, Delivered;
    match act {
      case AtSender(e) => if !e.Arrival? { SenderStocked(sys, e); }
      case ToSender(i) =>
        if i < |sys.b.wire| {
          SourcePure(sys, i);
          SenderStocked(sys, Arrival(sys.b.wire[i]));
        }
      case _ => SenderIdle(sys, Apply(sys, act));
    }
  }

  lemma SenderIdle(sys: System, t: System)
    requires Stocked(sys) && t.a == sys.a && t.me == sys.me
    ensures Stocked(t)
  {
  }

  lemma {:induction false} ExecStocked(sys: System, acts: seq<Action>)
    requires Inv(sys) && FitsSpace(Exec(sys, acts)) && Stocked(sys)
    ensures Stocked(Exec(sys, acts))
  {
    hide Apply, Inv, Stocked;
    if acts != [] {
      var n := |acts| - 1;
      SpaceShrinks(Exec(sys, acts[..n]), acts[n]);
      ExecStocked(sys, acts[..n]);
      ExecKeepsInv(sys, acts[..n]);
      ApplyStocked(Exec(sys, acts[..n]), acts[n]);
    }
  }

  lemma InitialStocked(sys: System)
    requires Initial(sys)
    ensures Stocked(sys)
  {
  }

  // ----- one round: deliver a copy of the head segment, answer it, deliver the answer -----

  /** The sender transfers data, the receiver receives, and neither window reaches past 2^32. */
  predicate Running(sys: System) {
    && Live(sys.a) && sys.b.state in {Established, CloseWait}
    && sys.base + |sys.written| + 1 + INITIAL_WINDOW < MOD32
    && sys.me + INITIAL_WINDOW < MOD32
  }

  lemma HeadIsOnWire(sys: System) returns (j: nat)
    requires Inv(sys) && Stocked(sys) && Running(sys) && sys.a.writeQ != []
    ensures j < |sys.a.wire| && |sys.a.writeQ| <= |sys.c|
    ensures Carries(sys.a.wire[j], sys.c, sys.base, |sys.c| - |sys.a.writeQ|) && sys.a.wire[j].ackSeq == sys.me
    ensures sys.a.wire[j].seqNo == sys.a.tcb.sndUna <= sys.b.tcb.rcvNxt
    ensures sys.b.tcb.rcvNxt + INITIAL_WINDOW < MOD32
  {
    LiveArmed(sys);
    RcvBound(sys);
    QueueFits(sys);
    HeadHeld(sys);
    hide Inv, Holds;
    assert Copied(sys.a.wire, sys.a.writeQ[0], sys.me);
    j :| 0 <= j < |sys.a.wire| && CopyOf(sys.a.wire[j], sys.a.writeQ[0], sys.me);
    HeadCarried(sys, j);
  }

  lemma HeadHeld(sys: System)
    requires Inv(sys) && Live(sys.a) && sys.a.inflight > 0 && 0 < |sys.a.writeQ| <= |sys.c|
    ensures Holds(sys.a.writeQ[0], sys.c, sys.base, |sys.c| - |sys.a.writeQ|, true)
    ensures sys.a.tcb.sndUna == sys.a.writeQ[0].seqNo
  {
    hide Receiving, WireGood, Pos;
  }

  lemma HeadCarried(sys: System, j: nat)
    requires j < |sys.a.wire| && 0 < |sys.a.writeQ| <= |sys.c|
    requires Holds(sys.a.writeQ[0], sys.c, sys.base, |sys.c| - |sys.a.writeQ|, true)
    requires CopyOf(sys.a.wire[j], sys.a.writeQ[0], sys.me)
    ensures Carries(sys.a.wire[j], sys.c, sys.base, |sys.c| - |sys.a.writeQ|)
  {
  }

  /** Invariant, stock and a transfer that goes on. */
  predicate Going(sys: System) {
    Inv(sys) && Stocked(sys) && Running(sys)
  }

  function CopyDelivered(sys: System, j: nat): System {
    Apply(sys, ToReceiver(j))
  }

  function AnswerSent(sys: System): System {
    Apply(Apply(sys, Pass(Until(sys.b.delack, sys.clock))), AtReceiver(DelackExpires))
  }

  function AnswerTaken(sys: System): System {
    Apply(sys, ToSender(if sys.b.wire == [] then 0 else |sys.b.wire| - 1))
  }

  lemma GoingIs(sys: System)
    ensures Going(sys) <==> Inv(sys) && Stocked(sys) && Running(sys)
    ensures Running(sys) ==> FitsSpace(sys) && Live(sys.a) && sys.b.state in {Established, CloseWait}
    ensures Running(sys) ==> sys.me + INITIAL_WINDOW < MOD32
  {
    hide Inv, Stocked, Live;
  }

  lemma StillRunning(sys: System, t: System)
    requires Running(sys) && Live(t.a) && t.b.state in {Established, CloseWait}
    requires t.base == sys.base && t.me == sys.me && t.written == sys.written
    ensures Running(t)
  {
  }

  lemma CopyArrives(sys: System) returns (j: nat)
    requires Going(sys) && sys.a.writeQ != []
    ensures var t := CopyDelivered(sys, j);
      && Going(t) && t == sys.(b := t.b, read := t.read)
      && t.b.tcb.rcvNxt > t.a.tcb.sndUna && Reports(t.b)
  {
    hide *;
    GoingIs(sys);
    j := HeadIsOnWire(sys);
    CopyIsUsed(sys, j);
  }

  lemma CopyIsUsed(sys: System, j: nat)
    requires Going(sys) && 0 < |sys.a.writeQ| <= |sys.c| && j < |sys.a.wire|
    requires Carries(sys.a.wire[j], sys.c, sys.base, |sys.c| - |sys.a.writeQ|) && sys.a.wire[j].ackSeq == sys.me
    requires sys.a.wire[j].seqNo == sys.a.tcb.sndUna <= sys.b.tcb.rcvNxt && sys.b.tcb.rcvNxt + INITIAL_WINDOW < MOD32
    ensures var t := CopyDelivered(sys, j);
      && Going(t) && t == sys.(b := t.b, read := t.read)
      && t.b.tcb.rcvNxt > t.a.tcb.sndUna && Reports(t.b)
  {
    var t := CopyDelivered(sys, j);
    assert t == Apply(sys, ToReceiver(j));
    hide *;
    GoingIs(sys);
    DeliveryReports(sys, j, |sys.c| - |sys.a.writeQ|);
    DeliveryEffect(sys, j);
    SpaceStays(sys, ToReceiver(j));
    ApplyKeepsInv(sys, ToReceiver(j));
    ApplyStocked(sys, ToReceiver(j));
    StillRunning(sys, t);
    GoingIs(t);
  }

  lemma CopyAnswered(sys: System)
    requires Going(sys) && Reports(sys.b)
    ensures var t := AnswerSent(sys);
      && Going(t) && t == sys.(b := t.b, clock := t.clock, read := t.read)
      && t.b.tcb == sys.b.tcb && Reported(t.b)
  {
    var s1, t := Apply(sys, Pass(Until(sys.b.delack, sys.clock))), AnswerSent(sys);
    assert t == Apply(s1, AtReceiver(DelackExpires));
    GoingIs(sys);
    assert FitsSpace(s1);
    hide *;
    WaitAnswers(sys);
    ApplyKeepsInv(sys, Pass(Until(sys.b.delack, sys.clock)));
    ApplyStocked(sys, Pass(Until(sys.b.delack, sys.clock)));
    ApplyStocked(s1, AtReceiver(DelackExpires));
    StillRunning(sys, t);
    GoingIs(t);
  }

  lemma CopyTaken(sys: System)
    requires Going(sys) && Reported(sys.b) && sys.a.writeQ != [] && sys.b.tcb.rcvNxt > sys.a.tcb.sndUna
    ensures var t := AnswerTaken(sys);
      Going(t) && |t.a.writeQ| < |sys.a.writeQ| && t.written == sys.written && t.read == sys.read
  {
    var i, t := |sys.b.wire| - 1, AnswerTaken(sys);
    assert sys.b.wire != [];
    assert t == Apply(sys, ToSender(i));
    GoingIs(sys);
    hide *;
    AnswerArrives(sys);
    ArrivalFrame(sys, i);
    ApplyStocked(sys, ToSender(i));
    StillRunning(sys, t);
    GoingIs(t);
  }

  /** The sender is left alone: neither its user nor its timers act. */
  predicate SenderRests(acts: seq<Action>) {
    forall i :: 0 <= i < |acts| ==> !acts[i].AtSender?
  }

  function Round(sys: System, j: nat): (acts: seq<Action>)
    ensures SenderRests(acts)
  {
    var s1 := CopyDelivered(sys, j);
    var s2 := AnswerSent(s1);
    [ToReceiver(j), Pass(Until(s1.b.delack, s1.clock)), AtReceiver(DelackExpires),
     ToSender(if s2.b.wire == [] then 0 else |s2.b.wire| - 1)]
  }

  lemma RoundRuns(sys: System, j: nat)
    ensures Exec(sys, Round(sys, j)) == AnswerTaken(AnswerSent(CopyDelivered(sys, j)))
  {
    hide Apply;
    var acts := Round(sys, j);
    assert forall k :: 0 < k <= 4 ==> acts[..k][..k - 1] == acts[..k - 1];
    assert Exec(sys, acts[..1]) == Apply(sys, acts[0]);
    assert Exec(sys, acts[..2]) == Apply(Exec(sys, acts[..1]), acts[1]);
    assert Exec(sys, acts[..3]) == Apply(Exec(sys, acts[..2]), acts[2]);
    assert acts[..4] == acts;
  }

  /** One round takes at least the head segment off the sender's queue. */
  lemma RoundShortens(sys: System) returns (acts: seq<Action>)
    requires Going(sys) && sys.a.writeQ != []
    ensures SenderRests(acts)
    ensures var t := Exec(sys, acts); Going(t) && |t.a.writeQ| < |sys.a.writeQ| && t.written == sys.written
  {
    hide *;
    var j := CopyArrives(sys);
    CopyAnswered(CopyDelivered(sys, j));
    CopyTaken(AnswerSent(CopyDelivered(sys, j)));
    acts := Round(sys, j);
    RoundRuns(sys, j);
  }

  lemma {:induction false} RoundsFinish(sys: System) returns (acts: seq<Action>)
    requires Going(sys)
    ensures SenderRests(acts)
    ensures var t := Exec(sys, acts); Going(t) && t.a.writeQ == [] && t.written == sys.written
    decreases |sys.a.writeQ|
  {
    if sys.a.writeQ == [] {
      acts := [];
    } else {
      hide *;
      Resting();
      var one := RoundShortens(sys);
      var more := RoundsFinish(Exec(sys, one));
      acts := one + more;
      ExecAppend(sys, one, more);
    }
  }

  lemma Resting()
    ensures forall p, q :: SenderRests(p) && SenderRests(q) ==> SenderRests(p + q)
  {
  }

  // ----- reading what was delivered -----

  lemma ReadsAll(s: Sock, now: nat)
    requires s.state in {Established, CloseWait}
    ensures var (t, data) := Read(s, |Flat(s.inbox.recvQ)| + 1, false, now);
      data == Flat(s.inbox.recvQ)
  {
    DequeueTakesFront(s.inbox.recvQ, |Flat(s.inbox.recvQ)| + 1);
    var (data, rest, psh) := Dequeue(s.inbox.recvQ, |Flat(s.inbox.recvQ)| + 1);
    assert data == Flat(s.inbox.recvQ)[..|data|];
    hide Dequeue;
  }

  /** A read of more than there is ends the transfer. */
  function LastRead(sys: System): Action {
    AtReceiver(ReadCall(|Flat(sys.b.inbox.recvQ)| + 1, false))
  }

  lemma LastReadTakes(sys: System)
    requires sys.b.state in {Established, CloseWait}
    ensures var t := Apply(sys, LastRead(sys));
      t == sys.(b := t.b, read := sys.read + Flat(sys.b.inbox.recvQ))
  {
    ReadsAll(sys.b, sys.clock);
    hide Read;
  }

  // ----- the theorem -----

  /** Completion. From every reachable state in which the sender is live and the receiver receives, deliveries of
      packets already sent, reads and delayed acknowledgements alone, without the sender's user or timers, lead to an
      empty write queue and a reader that has been given every byte written. */
  lemma EverythingIsDelivered(start: System, acts: seq<Action>)
    requires Initial(start) && Running(Exec(start, acts))
    ensures exists more :: var t := Exec(start, acts + more);
      SenderRests(more) && t.a.writeQ == [] && t.written == Exec(start, acts).written && t.read == t.written
  {
    var sys := Exec(start, acts);
    GoingIs(sys);
    Resting();
    hide *;
    ReachableInv(start, acts);
    InitialStocked(start);
    ExecStocked(start, acts);
    var rounds := RoundsFinish(sys);
    var t := Exec(sys, rounds);
    GoingIs(t);
    AcknowledgedMeansDelivered(t);
    LastReadTakes(t);
    ExecOne(t, LastRead(t));
    ReadRests(t);
    var more := rounds + [LastRead(t)];
    ExecAppend(sys, rounds, [LastRead(t)]);
    ExecAppend(start, acts, more);
  }

  lemma ReadRests(sys: System)
    ensures SenderRests([LastRead(sys)])
  {
  }

  lemma ExecOne(sys: System, act: Action)
    ensures Exec(sys, [act]) == Apply(sys, act)
  {
    hide Apply;
    assert [act][..0] == [];
  }
}
