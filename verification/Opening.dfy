/** The active open over whole runs: the SYN that goes out, how often it is resent, when it is given up, and what
    either end learns from its options. */
module Opening {
  import opened Words
  import opened TcpTypes
  import opened Tcp
  import opened TcpOutput
  import opened TcpData
  import opened TcpInput
  import opened Host
  import opened Receiver
  import opened Arrivals
  import opened Sender
  import opened Lifecycle
  import opened Sacks
  import opened Invariants
  import opened Network
  import Options

  // ----- the SYN on the wire -----

  const SYN_FLAGS := Flags(false, true, false, false, false)

  /** An MSS of 1460, and SACK-permitted if the socket allows SACK. */
  function SynBytes(sackOk: bool): seq<byte> {
    if sackOk then [2, 4, 5, 180, 1, 1, 4, 2] else [2, 4, 5, 180]
  }

  function SynPacket(iss: u32, sackOk: bool): Packet {
    Packet(iss, 0, SYN_FLAGS, SynBytes(sackOk), [])
  }

  /** The SYNs among the packets sent. */
  function Syns(wire: seq<Packet>): seq<Packet> {
    if wire == [] then []
    else
      var n := |wire| - 1;
      Syns(wire[..n]) + if wire[n].flags.syn then [wire[n]] else []
  }

  lemma SynsMore(wire: seq<Packet>, p: Packet)
    ensures Syns(wire + [p]) == Syns(wire) + if p.flags.syn then [p] else []
  {
    assert (wire + [p])[..|wire|] == wire;
  }

  predicate Copies(syns: seq<Packet>, n: nat, syn: Packet) {
    |syns| == n && forall i :: 0 <= i < n ==> syns[i] == syn
  }

  /** The queued SYN, with the sequence number that it was sent with. */
  predicate SynQueued(s: Sock) {
    && s.inflight == 1 && |s.writeQ| == 1
    && s.writeQ[0] == Skb(s.tcb.iss, s.tcb.iss, SYN_FLAGS, SynBytes(s.sack.ok), [])
  }

  predicate Awaits(s: Sock) {
    && s.tcb.sndUna == s.tcb.iss && s.tcb.sndNxt == U32(s.tcb.iss + 1) && s.tcb.rcvNxt == 0
    && s.tcb.irs == 0 && s.tcb.rcvWnd == INITIAL_WINDOW && s.rtx.srtt == s.rtx.rttvar == 0
    && SynQueued(s) && s.rtx.timer.Some? && s.rtx.timer.value.handler == ConnectRto && s.rtx.backoff <= 4
    && Copies(Syns(s.wire), s.rtx.backoff + 1, SynPacket(s.tcb.iss, s.sack.ok))
  }

  /** Before the call nothing has been sent that opens a connection; after it, only that. */
  predicate OpeningInv(s: Sock) {
    && (s.state == Close ==> Syns(s.wire) == [] && s.rtx.backoff == s.rtx.srtt == s.rtx.rttvar == s.tcb.irs == 0)
    && (s.state == SynSent ==> Awaits(s))
  }

  lemma RoomIsKept(x: Sack, room: seq<byte>)
    requires Cleared(x)
    ensures OptionsAfter(x, room) == room && SacksAfter(x, room) == x
  {
    ClearedReportsNothing(x);
  }

  lemma ConnectSends(s: Sock, iss: u32, now: nat)
    requires SocketInv(s) && s.state == Close && s.rtx.backoff == 0
    ensures var t := Connect(s, iss, now);
      && t == s.(state := SynSent, inflight := 1, writeQ := [Skb(iss, iss, SYN_FLAGS, SynBytes(s.sack.ok), [])],
                 tcb := s.tcb.(iss := iss, sndUna := iss, sndNxt := U32(iss + 1), rcvNxt := 0, rcvWnd := INITIAL_WINDOW),
                 rtx := s.rtx.(timer := Some(Timer(now + 500, ConnectRto))),
                 wire := s.wire + [SynPacket(iss, s.sack.ok)])
  {
    var s1 := s.(state := SynSent,
                 tcb := s.tcb.(iss := iss, sndUna := iss, sndNxt := iss, rcvNxt := 0, rcvWnd := INITIAL_WINDOW));
    var skb := SynSkb(s1);
    assert skb == Skb(0, 0, SYN_FLAGS, SynBytes(s.sack.ok), []);
    RoomIsKept(s.sack, skb.options);
    assert s.writeQ == [] && s.inflight == 0 && s.rtx.timer == None;
    assert Shl(SYN_BACKOFF, 0) == 500;
    assert s.writeQ + [Stamp(skb, iss)] == [Stamp(skb, iss)];
    hide OptionsAfter, SacksAfter, Cleared, Shl, SynSkb, SynBytes;
  }

  lemma ConnectAwaits(s: Sock, iss: u32, now: nat)
    requires SocketInv(s) && OpeningInv(s) && s.state == Close
    ensures var t := Connect(s, iss, now);
      && Awaits(t) && t.state == SynSent && t.tcb.iss == iss && t.sack == s.sack && t.smss == s.smss && t.rtx.backoff == 0
      && t.wire == s.wire + [SynPacket(iss, s.sack.ok)] && t.rtx.timer == Some(Timer(now + 500, ConnectRto))
  {
    ConnectSends(s, iss, now);
    SynsMore(s.wire, SynPacket(iss, s.sack.ok));
    hide Connect, Syns, SocketInv, SynBytes;
  }

  /** How long the timer runs for each SYN: doubled from half a second. */
  function SynWait(backoff: nat): nat {
    match backoff
    case 0 => 500
    case 1 => 1000
    case 2 => 2000
    case 3 => 4000
    case _ => 8000
  }

  lemma SynWaits(k: nat)
    requires k <= 4
    ensures Shl(SYN_BACKOFF, k) == SynWait(k)
  {
    assert Shl(SYN_BACKOFF, 2) == 2000;
    assert Shl(SYN_BACKOFF, 4) == 8000;
  }

  /** A timeout in SYN_SENT sends the SYN once more and waits twice as long, four times; the fifth gives up. */
  lemma TimeoutResends(s: Sock, now: nat)
    requires SocketInv(s) && s.state == SynSent && Awaits(s)
    ensures var t := ConnectRtoFires(s, now);
      if s.rtx.backoff <= 3 then
        && Awaits(t) && t.state == SynSent && t.tcb == s.tcb && t.rtx.backoff == s.rtx.backoff + 1
        && t.sack == s.sack && t.smss == s.smss
        && t.wire == s.wire + [SynPacket(s.tcb.iss, s.sack.ok)]
        && t.rtx.timer == Some(Timer(now + SynWait(s.rtx.backoff + 1), ConnectRto))
      else t.state == Closing && t.done && t.err == -ETIMEDOUT && t.wire == s.wire
  {
    SynWaits(if s.rtx.backoff <= 3 then s.rtx.backoff + 1 else 0);
    RoomIsKept(s.sack, s.writeQ[0].options);
    SynsMore(s.wire, SynPacket(s.tcb.iss, s.sack.ok));
    hide Syns, OptionsAfter, SacksAfter, Cleared, Shl, SynWait;
  }

  // ----- every event -----

  lemma ArrivalOpening(s: Sock, p: Packet, now: nat)
    requires OpeningInv(s)
    ensures var t := Input(s, p, now);
      && (t.state == SynSent ==> t == s)
      && (t.state == Close ==> s.state == Close && Syns(t.wire) == Syns(s.wire) && t.rtx == s.rtx && t.tcb.irs == s.tcb.irs)
  {
    if s.state == Close {
      SynsMore(s.wire, ResetPacket(s));
      hide Syns;
    } else if s.state == SynSent {
      SynSentLeaves(s, p, now);
      hide SynSentInput, OpeningInv;
    } else if s.state != Listen {
      LaterArrival(s, p, now);
      hide Input, OpeningInv;
    }
  }

  /** The RST that answers a segment to a closed socket. */
  function ResetPacket(s: Sock): Packet {
    PacketFor(s, Skb(0, 0, Flags(false, false, true, false, false), [], []), s.tcb.sndNxt)
  }

  lemma SynSentLeaves(s: Sock, p: Packet, now: nat)
    requires s.state == SynSent
    ensures var t := SynSentInput(s, p, now); t == s || t.state in {Established, SynReceived, Closing}
  {
    hide PacketFor, SacksAfter, OptionsLen, ParseFrom, AckedPrefix;
  }

  lemma LaterArrival(s: Sock, p: Packet, now: nat)
    requires s.state !in {Close, Listen, SynSent}
    ensures Input(s, p, now).state !in {Close, Listen, SynSent}
  {
    var s1 := if s.state == SynReceived then s.(state := Established) else s;
    OpenInput(s, p, now);
    LaterAck(s, p, now);
    LaterAck(s1, p, now);
    SendAckEffect(s);
    hide Input, ProcessAck, SendAck;
  }

  lemma LaterAck(s: Sock, p: Packet, now: nat)
    requires s.state !in {Close, Listen, SynSent}
    ensures ProcessAck(s, p, now).state !in {Close, Listen, SynSent}
  {
    var s1 := if s.state == TimeWait then s else AckStage(s, p, now);
    AckStageState(s, p, now);
    LaterStages(s1, p, now);
    hide AckStage, FinAcked, ProcessText;
    LaterText(FinAcked(s1, p), p, now);
  }

  lemma LaterText(s: Sock, p: Packet, now: nat)
    requires s.state !in {Close, Listen, SynSent}
    ensures ProcessText(s, p, now).state !in {Close, Listen, SynSent}
  {
    var s1 := TextStage(s, p);
    TextState(s, p);
    LaterStages(s1, p, now);
    AckPolicyState(s1, p, now);
    AckPolicyState(FinStage(s1, now), p, now);
    hide TextStage, FinStage, AckPolicy;
  }

  lemma LaterStages(s: Sock, p: Packet, now: nat)
    requires s.state !in {Close, Listen, SynSent}
    ensures FinAcked(s, p).state !in {Close, Listen, SynSent} && FinStage(s, now).state !in {Close, Listen, SynSent}
  {
    hide PacketFor, SacksAfter, OptionsLen;
  }

  /** The part of the socket that the opening is about. */
  predicate SameOpening(s: Sock, t: Sock) {
    && t.state == s.state && t.tcb == s.tcb && t.rtx == s.rtx && t.writeQ == s.writeQ && t.inflight == s.inflight
    && Syns(t.wire) == Syns(s.wire) && t.sack == s.sack && t.smss == s.smss
  }

  lemma CallOpening(s: Sock, e: Event, now: nat)
    requires SocketInv(s) && OpeningInv(s) && s.state in {Close, SynSent}
    requires !e.Arrival? && !e.RtoExpires? && (e.ConnectCall? ==> s.state != Close)
    ensures var t := Step(s, e, now); SameOpening(s, t) || t.state == Closing
  {
    NoStrays(s);
    hide Syns, Read, SocketInv, OpeningInv, SendReset;
    match e {
      case ReadCall(n, blocking) => ReadFrame(s, n, blocking, now);
      case DelackExpires => DelackOpening(s);
      case _ =>
    }
  }

  lemma DelackOpening(s: Sock)
    requires SocketInv(s)
    ensures SameOpening(s, DelackFires(s))
  {
    var s1 := s.(delacks := 0, delack := None);
    SendAckKeeps(s1);
    SynsMore(s.wire, AckPacket(s1));
    SendAckEffect(s1);
    assert !AckPacket(s1).flags.syn;
    hide SendAck, AckPacket, Syns, SocketInv;
  }

  lemma StepOpening(s: Sock, e: Event, now: nat)
    requires SocketInv(s) && OpeningInv(s) && LifeInv(s)
    ensures OpeningInv(Step(s, e, now))
  {
    hide SocketInv, Syns, Input, Connect, Awaits, Copies;
    if e.Arrival? {
      ArrivalOpening(s, e.p, now);
    } else if s.state !in {Close, SynSent} {
      StepForward(s, e, now);
      RankOf(s, Step(s, e, now));
      hide Step, Path;
    } else if e.ConnectCall? && s.state == Close {
      ConnectAwaits(s, e.iss, now);
      ErrAside(Connect(s, e.iss, now), -EINPROGRESS);
    } else if e.RtoExpires? {
      RtoOpening(s, now);
    } else {
      CallOpening(s, e, now);
      if Step(s, e, now).state != Closing {
        SameAwaits(s, Step(s, e, now));
      }
      hide Step;
    }
  }

  lemma ErrAside(s: Sock, err: int)
    ensures Awaits(s.(err := err)) <==> Awaits(s)
  {
  }

  lemma SameAwaits(s: Sock, t: Sock)
    requires SameOpening(s, t)
    ensures Awaits(s) <==> Awaits(t)
  {
    hide Syns;
  }

  lemma RtoOpening(s: Sock, now: nat)
    requires SocketInv(s) && OpeningInv(s) && s.state in {Close, SynSent}
    ensures OpeningInv(Step(s, RtoExpires, now))
  {
    if Due(s.rtx.timer, now) && s.state == SynSent {
      TimeoutResends(s, now);
    }
    hide ConnectRtoFires, Syns, Copies;
  }

  lemma {:induction false} RunOpening(trace: seq<(Event, nat)>)
    ensures var s := Run(FRESH, trace); OpeningInv(s) && SocketInv(s) && LifeInv(s)
  {
    RunKeepsInv(trace);
    StatesOnlyAdvance(trace, |trace|);
    if trace != [] {
      var n := |trace| - 1;
      RunOpening(trace[..n]);
      hide Step, SocketInv, LifeInv, OpeningInv;
      StepOpening(Run(FRESH, trace[..n]), trace[n].0, trace[n].1);
    }
  }

  // ----- losing SYNs -----

  /** In every run: a timeout in SYN_SENT puts one more SYN on the wire, the same as the first, and waits for 1, 2, 4
      and then 8 seconds; the fifth sends nothing and ends the connection with a timeout. */
  lemma SynIsResent(trace: seq<(Event, nat)>, now: nat)
    requires var s := Run(FRESH, trace); s.state == SynSent && Due(s.rtx.timer, now)
    ensures var s := Run(FRESH, trace); var t := Step(s, RtoExpires, now);
      if s.rtx.backoff <= 3 then
        && t.state == SynSent && t.rtx.backoff == s.rtx.backoff + 1
        && t.wire == s.wire + [SynPacket(s.tcb.iss, s.sack.ok)]
        && t.rtx.timer == Some(Timer(now + SynWait(s.rtx.backoff + 1), ConnectRto))
      else t.state == Closing && t.done && t.err == -ETIMEDOUT && t.wire == s.wire
  {
    RunOpening(trace);
    hide Run, SocketInv, Syns, Copies, SynWait, SynQueued, SynPacket;
    ResendStep(Run(FRESH, trace), now);
  }

  lemma ResendStep(s: Sock, now: nat)
    requires SocketInv(s) && s.state == SynSent && Awaits(s) && Due(s.rtx.timer, now)
    ensures Step(s, RtoExpires, now) == ConnectRtoFires(s, now)
    ensures var t := ConnectRtoFires(s, now);
      if s.rtx.backoff <= 3 then
        && t.state == SynSent && t.tcb == s.tcb && t.rtx.backoff == s.rtx.backoff + 1
        && t.sack == s.sack && t.smss == s.smss
        && t.wire == s.wire + [SynPacket(s.tcb.iss, s.sack.ok)]
        && t.rtx.timer == Some(Timer(now + SynWait(s.rtx.backoff + 1), ConnectRto))
      else t.state == Closing && t.done && t.err == -ETIMEDOUT && t.wire == s.wire
  {
    TimeoutResends(s, now);
    hide ConnectRtoFires, SocketInv, Syns, Copies, SynWait, SynQueued, SynPacket;
  }

  /** The step is a timeout of a socket in SYN_SENT. */
  predicate SynTimesOut(s: Sock, e: Event, now: nat) {
    e == RtoExpires && s.state == SynSent && Due(s.rtx.timer, now)
  }

  function SynTimeouts(trace: seq<(Event, nat)>): nat {
    if trace == [] then 0
    else
      var n := |trace| - 1;
      SynTimeouts(trace[..n]) + if SynTimesOut(Run(FRESH, trace[..n]), trace[n].0, trace[n].1) then 1 else 0
  }

  /** The back-off count in SYN_SENT, and what it means that it is not there any more. */
  predicate TimedOut(s: Sock, k: nat) {
    && (s.state == Close ==> k == 0)
    && (s.state == SynSent ==> k == s.rtx.backoff <= 4)
    && k <= 5 && (k == 5 ==> s.done)
  }

  lemma StepTimesOut(s: Sock, e: Event, now: nat, k: nat)
    requires SocketInv(s) && OpeningInv(s) && LifeInv(s) && TimedOut(s, k)
    ensures TimedOut(Step(s, e, now), k + if SynTimesOut(s, e, now) then 1 else 0)
  {
    StepForward(s, e, now);
    RankOf(s, Step(s, e, now));
    DoneStays(s, Step(s, e, now));
    hide SocketInv, Syns, Input, Connect, Copies, Path, SynQueued;
    if SynTimesOut(s, e, now) {
      TimeoutResends(s, now);
      hide ConnectRtoFires, SynWait;
    } else if s.state !in {Close, SynSent} {
      hide Step;
    } else if e.Arrival? {
      ArrivalOpening(s, e.p, now);
    } else if e.ConnectCall? && s.state == Close {
      ConnectAwaits(s, e.iss, now);
    } else if !e.RtoExpires? {
      CallOpening(s, e, now);
      hide Step;
    } else {
      NoTimerBefore(s);
    }
  }

  lemma NoTimerBefore(s: Sock)
    requires SocketInv(s)
    ensures s.state == Close ==> s.rtx.timer == None
  {
  }

  lemma DoneStays(s: Sock, t: Sock)
    requires Forward(s, t)
    ensures s.done ==> t.done
  {
  }

  /** Over every run: in SYN_SENT the wire holds one SYN more than there were timeouts, all alike; there are never more
      than five timeouts, and after the fifth the connection is over. */
  lemma {:induction false} SynsOnWire(trace: seq<(Event, nat)>)
    ensures var s, k := Run(FRESH, trace), SynTimeouts(trace);
      && k <= 5 && (k == 5 ==> s.done)
      && (s.state == SynSent ==> Copies(Syns(s.wire), k + 1, SynPacket(s.tcb.iss, s.sack.ok)) && k == s.rtx.backoff)
  {
    TimeoutsCount(trace);
    RunOpening(trace);
    hide Run, SynTimeouts, Syns, Copies, SocketInv;
  }

  lemma {:induction false} TimeoutsCount(trace: seq<(Event, nat)>)
    ensures TimedOut(Run(FRESH, trace), SynTimeouts(trace))
  {
    if trace != [] {
      var n := |trace| - 1;
      TimeoutsCount(trace[..n]);
      RunOpening(trace[..n]);
      hide Step, SocketInv, OpeningInv, LifeInv, TimedOut, SynTimesOut;
      StepTimesOut(Run(FRESH, trace[..n]), trace[n].0, trace[n].1, SynTimeouts(trace[..n]));
    }
  }

  // ----- any of the SYNs opens the connection -----

  /** What a listening peer answers to a SYN. */
  function Answer(syn: Packet, peer: u32, options: seq<byte>): Packet {
    Packet(peer, U32(syn.seqNo + 1), Flags(false, true, false, false, true), options, [])
  }

  /** Nothing has been sent but what the open sends. */
  predicate OnlySyns(s: Sock) {
    Syns(s.wire) == s.wire
  }

  lemma AwaitsIsInFlight(s: Sock)
    requires SocketInv(s) && s.state == SynSent && Awaits(s) && OnlySyns(s) && GoodIss(s.tcb.iss)
    ensures SynInFlight(s, s.tcb.iss) && forall i :: 0 <= i < |s.wire| ==> s.wire[i].seqNo == s.tcb.iss
  {
    hide Syns;
  }

  /** In every run, as long as the socket waits, the answer to any SYN that it has sent, the first or a resent one, opens
      the connection; so it does not matter how many of them the network has lost. */
  lemma AnySynOpens(trace: seq<(Event, nat)>, i: nat, peer: u32, options: seq<byte>, now: nat)
    requires var s := Run(FRESH, trace); s.state == SynSent && OnlySyns(s) && GoodIss(s.tcb.iss) && i < |s.wire|
    requires GoodIss(peer)
    ensures var s := Run(FRESH, trace);
      JustOpened(Run(FRESH, trace + [(Arrival(Answer(s.wire[i], peer, options)), now)]), s.tcb.iss, peer)
  {
    var s := Run(FRESH, trace);
    var x := (Arrival(Answer(s.wire[i], peer, options)), now);
    RunOpening(trace);
    RunSplit(FRESH, trace, [x]);
    RunOne(s, x);
    AwaitsIsInFlight(s);
    assert Answer(s.wire[i], peer, options) == SynAck(s.tcb.iss, peer, options);
    assert Step(s, x.0, now) == Input(s, x.0.p, now) by { hide Input; }
    assert s.rtx.srtt == s.rtx.rttvar == 0 by { hide Run; }
    hide *;
    SynAckOpens(s, s.tcb.iss, peer, options, now);
  }

  /** If every SYN so far is lost, the next timeout puts another on the wire, whose answer opens the connection. */
  lemma LostSynsAreSurvived(trace: seq<(Event, nat)>, tick: nat, peer: u32, options: seq<byte>)
    requires var s := Run(FRESH, trace);
      s.state == SynSent && OnlySyns(s) && GoodIss(s.tcb.iss) && Due(s.rtx.timer, tick) && s.rtx.backoff <= 3
    requires GoodIss(peer)
    ensures var s, t := Run(FRESH, trace), Run(FRESH, trace + [(RtoExpires, tick)]);
      && |t.wire| == |s.wire| + 1 && t.wire[|s.wire|].flags == SYN_FLAGS
      && JustOpened(Run(FRESH, trace + [(RtoExpires, tick)] + [(Arrival(Answer(t.wire[|s.wire|], peer, options)), tick)]),
                    s.tcb.iss, peer)
  {
    var s, timeout := Run(FRESH, trace), (RtoExpires, tick);
    RunOpening(trace);
    RunSplit(FRESH, trace, [timeout]);
    RunOne(s, timeout);
    SynsMore(s.wire, SynPacket(s.tcb.iss, s.sack.ok));
    assert Awaits(s) && SocketInv(s) by { hide Run; }
    hide Run, Awaits, SocketInv, LifeInv, Syns, SynWait, Input, Step, GoodIss, SynBytes;
    ResendStep(s, tick);
    AnySynOpens(trace + [timeout], |s.wire|, peer, options, tick);
  }

  /** Two sockets opened with each other in this way are a state to which the results about transfers apply. */
  lemma RetriedOpenIsInitial(a: Sock, b: Sock, issA: u32, issB: u32, now: nat)
    requires JustOpened(a, issA, issB) && JustOpened(b, issB, issA) && GoodIss(issA) && GoodIss(issB)
    ensures Initial(System(a, b, now, [], false, [], [], issA + 1, issB + 1))
  {
    hide JustOpened;
  }

  // ----- what a waiting socket does with a segment -----

  /** A socket in SYN_SENT acts on a segment if its acknowledgement, if any, is of the SYN: a RST refuses the
      connection, a SYN with it opens it, a SYN without it leaves both ends half open, and anything else is ignored. */
  lemma SynSentDecides(s: Sock, p: Packet, now: nat)
    requires SocketInv(s) && s.state == SynSent && Awaits(s) && GoodIss(s.tcb.iss)
    ensures var t, ofSyn := Input(s, p, now), p.ackSeq == s.tcb.iss + 1;
      if p.flags.ack && !ofSyn then t == s
      else if p.flags.rst then t.state == Closing && t.done && t.err == -111 && t.wire == s.wire
      else if !p.flags.syn then t == s
      else if p.flags.ack then
        && t.state == Established && t.err == 0 && t.tcb.rcvNxt == U32(p.seqNo + 1)
        && |t.wire| == |s.wire| + 1
        && var a := t.wire[|s.wire|]; a.flags == ACK_FLAGS && a.seqNo == s.tcb.iss + 1 && a.ackSeq == U32(p.seqNo + 1)
      else
        && t.state == SynReceived && t.wire == s.wire && t.rtx == s.rtx && t.inflight == s.inflight
        && t.tcb == s.tcb.(rcvNxt := U32(p.seqNo + 1), irs := p.seqNo)
  {
    LearnSynTcb(s, p);
    EstablishAcknowledges(LearnSyn(s, p), p, now);
    hide LearnSyn, Establish, SocketInv, Syns, Copies, SynBytes, PacketFor, SacksAfter;
    assert !p.flags.ack ==> LearnSyn(s, p) == s.(tcb := s.tcb.(rcvNxt := U32(p.seqNo + 1), irs := p.seqNo)) by {
      LearnSynWithoutAck(s, p);
    }
  }

  /** An open that succeeds starts with an RTO of one second and no back-off, however often the SYN was resent, and for
      every initial sequence number. */
  lemma OpenStartsAfresh(s: Sock, p: Packet, now: nat)
    requires s.state == SynSent
    ensures var t := Input(s, p, now); t.state == Established ==> t.rtx.backoff == 0 && t.rtx.rto == 1000
  {
    EstablishStarts(LearnSyn(s, p), p, now);
    hide LearnSyn, Establish, PacketFor, SacksAfter;
  }

  lemma EstablishStarts(s: Sock, p: Packet, now: nat)
    ensures Establish(s, p, now).rtx.backoff == 0 && Establish(s, p, now).rtx.rto == 1000
  {
    hide PacketFor, SacksAfter, OptionsLen, ParseFrom;
  }

  lemma LearnSynWithoutAck(s: Sock, p: Packet)
    ensures !p.flags.ack ==> LearnSyn(s, p) == s.(tcb := s.tcb.(rcvNxt := U32(p.seqNo + 1), irs := p.seqNo))
  {
  }

  lemma LearnSynTcb(s: Sock, p: Packet)
    ensures var t := LearnSyn(s, p);
      && t.tcb == s.tcb.(rcvNxt := U32(p.seqNo + 1), irs := p.seqNo, sndUna := if p.flags.ack then p.ackSeq else s.tcb.sndUna)
      && t.wire == s.wire && t.state == s.state
  {
    hide AckedPrefix;
  }

  lemma EstablishAcknowledges(s: Sock, p: Packet, now: nat)
    ensures var t := Establish(s, p, now);
      && t.state == Established && t.err == 0 && t.tcb == s.tcb.(sndUna := s.tcb.sndNxt)
      && |t.wire| == |s.wire| + 1
      && var a := t.wire[|s.wire|]; a.flags == ACK_FLAGS && a.seqNo == s.tcb.sndNxt && a.ackSeq == s.tcb.rcvNxt
  {
    SendAckEffect(EnterEstablished(s));
    assert AckPacket(EnterEstablished(s)).flags == ACK_FLAGS;
    hide SendAck, AckPacket, ParseFrom;
  }

  /** The two ends of the send sequence space while the SYN is unacknowledged. */
  predicate HalfOpen(s: Sock) {
    s.state == SynReceived ==> s.tcb.sndUna == s.tcb.iss && s.tcb.sndNxt == U32(s.tcb.iss + 1)
  }

  lemma StepHalfOpen(s: Sock, e: Event, now: nat)
    requires SocketInv(s) && OpeningInv(s) && LifeInv(s) && HalfOpen(s)
    ensures HalfOpen(Step(s, e, now))
  {
    StepForward(s, e, now);
    RankOf(s, Step(s, e, now));
    hide SocketInv, Syns, Copies, SynQueued, Path;
    if Rank(s.state) > Rank(SynReceived) {
      hide Step;
    } else if e.Arrival? {
      ArrivalHalfOpen(s, e.p, now);
      hide Input;
    } else {
      CallHalfOpen(s, e, now);
      hide Step;
    }
  }

  lemma ArrivalHalfOpen(s: Sock, p: Packet, now: nat)
    requires HalfOpen(s) && OpeningInv(s) && LifeInv(s) && Rank(s.state) <= Rank(SynReceived)
    ensures HalfOpen(Input(s, p, now))
  {
    if s.state == SynReceived {
      HalfOpenStays(s, p, now);
      hide Input;
    } else if s.state == SynSent {
      EntersHalfOpen(s, p, now);
      hide SynSentInput;
    } else {
      hide PacketFor, SacksAfter;
    }
  }

  lemma EntersHalfOpen(s: Sock, p: Packet, now: nat)
    requires s.state == SynSent && s.tcb.sndNxt == U32(s.tcb.iss + 1)
    ensures HalfOpen(SynSentInput(s, p, now))
  {
    LearnSynTcb(s, p);
    EstablishAcknowledges(LearnSyn(s, p), p, now);
    hide LearnSyn, Establish, PacketFor, SacksAfter;
  }

  lemma HalfOpenStays(s: Sock, p: Packet, now: nat)
    requires s.state == SynReceived && LifeInv(s)
    ensures Input(s, p, now).state == SynReceived ==> Input(s, p, now).tcb == s.tcb
  {
    var s1 := s.(state := Established);
    ProcessAckForward(s1, p, now);
    RankOf(s1, ProcessAck(s1, p, now));
    if !(s.tcb.sndUna <= p.ackSeq <= s.tcb.sndNxt) {
      StaleAck(s, p, now);
    }
    OpenInput(s, p, now);
    SendAckEffect(s);
    hide Input, ProcessAck, SendAck, PassesChecks, Path;
  }

  lemma CallHalfOpen(s: Sock, e: Event, now: nat)
    requires HalfOpen(s) && !e.Arrival? && Rank(s.state) <= Rank(SynReceived)
    ensures HalfOpen(Step(s, e, now))
  {
    hide PacketFor, SacksAfter, OptionsLen, RtoTimer, Connect, SendReset, Read;
    match e {
      case ReadCall(n, blocking) => ReadFrame(s, n, blocking, now);
      case ConnectCall(iss) => ConnectState(s, iss, now);
      case _ =>
    }
  }

  lemma ConnectState(s: Sock, iss: u32, now: nat)
    ensures Connect(s, iss, now).state == SynSent
  {
    hide PacketFor, SacksAfter, RtoTimer, SynSkb;
  }

  lemma {:induction false} RunHalfOpen(trace: seq<(Event, nat)>)
    ensures HalfOpen(Run(FRESH, trace))
  {
    if trace != [] {
      var n := |trace| - 1;
      RunHalfOpen(trace[..n]);
      RunOpening(trace[..n]);
      hide Step, SocketInv, OpeningInv, LifeInv, HalfOpen;
      StepHalfOpen(Run(FRESH, trace[..n]), trace[n].0, trace[n].1);
    }
  }

  /** When two SYNs cross, neither end answers, and in SYN_RECEIVED the acknowledgement that RFC 793 asks for is
      refused: only a RST, or an acknowledgement of nothing, ends that state. The test in the code is
      `ack_seq < snd_nxt`, which leaves just `iss`. */
  lemma SynReceivedNeedsOldAck(trace: seq<(Event, nat)>, p: Packet, now: nat)
    requires Run(FRESH, trace).state == SynReceived && GoodIss(Run(FRESH, trace).tcb.iss)
    ensures var s := Run(FRESH, trace);
      Input(s, p, now).state != SynReceived <==>
      VerifySegment(s, p) && (p.flags.rst || (!p.flags.syn && p.flags.ack && p.ackSeq == s.tcb.iss))
  {
    var s := Run(FRESH, trace);
    RunHalfOpen(trace);
    RunOpening(trace);
    hide Run, SocketInv, OpeningInv;
    HalfOpenInput(s, p, now);
    hide Input, VerifySegment;
  }

  lemma HalfOpenInput(s: Sock, p: Packet, now: nat)
    requires s.state == SynReceived && LifeInv(s)
    ensures Input(s, p, now).state != SynReceived <==>
            VerifySegment(s, p) && (p.flags.rst || (!p.flags.syn && p.flags.ack && s.tcb.sndUna <= p.ackSeq < s.tcb.sndNxt))
  {
    var s1 := s.(state := Established);
    ProcessAckForward(s1, p, now);
    RankOf(s1, ProcessAck(s1, p, now));
    SendAckEffect(s);
    hide ProcessAck, SendAck, VerifySegment, Path;
  }

  // ----- what the options of the SYN bring about -----

  /** The bytes of the SYN that a new socket sends: MSS 1460, two fillers, SACK-permitted. */
  lemma FirstSyn(iss: u32, now: nat)
    ensures var t := Step(FRESH, ConnectCall(iss), now);
      && t.state == SynSent && |t.wire| == 1
      && t.wire[0] == Packet(iss, 0, SYN_FLAGS, [2, 4, 5, 180, 1, 1, 4, 2], [])
  {
    RunOpening([]);
    ConnectAwaits(FRESH, iss, now);
    hide Connect, Awaits, SocketInv, Syns;
  }

  lemma SynBytesAreOptions(sackOk: bool)
    ensures SynBytes(sackOk) == SynOptions(1460, sackOk)
  {
  }

  /** A SYN+ACK that acknowledges the SYN makes the socket established and is parsed for its options. */
  lemma AnswerIsParsed(s: Sock, p: Packet, now: nat)
    requires SocketInv(s) && s.state == SynSent && Awaits(s) && GoodIss(s.tcb.iss)
    requires p.flags == Flags(false, true, false, false, true) && p.ackSeq == s.tcb.iss + 1
    ensures var t, u := Input(s, p, now), ParseOpts(s, p);
      t.state == Established && t.smss == u.smss && t.sack == u.sack
  {
    LearnSynKeepsSack(s, p);
    hide ParseFrom, PacketFor, SacksAfter, OptionsLen, Syns, Cleared, AckedPrefix, LearnSyn, SynBytes;
    EstablishParses(LearnSyn(s, p), p, now);
    hide Establish;
  }

  lemma LearnSynKeepsSack(s: Sock, p: Packet)
    requires p.flags.ack
    ensures var t := LearnSyn(s, p); t.sack == s.sack && t.smss == s.smss && t.tcb.sndUna == p.ackSeq && t.tcb.iss == s.tcb.iss
  {
    hide AckedPrefix;
  }

  lemma EstablishParses(s: Sock, p: Packet, now: nat)
    requires Cleared(s.sack)
    ensures var t, u := Establish(s, p, now), ParseOpts(s, p); t.state == Established && t.smss == u.smss && t.sack == u.sack
  {
    TransmitKeepsSack(EnterEstablished(s), AckSkb(EnterEstablished(s)), s.tcb.sndNxt);
    hide ParseFrom, PacketFor, SacksAfter, OptionsLen, Cleared;
  }

  /** Two sockets that are opening: if the options of a SYN of one come to the other with the answer to its own SYN, it
      is established with an MSS of 1460, and SACK with up to four blocks exactly if both ends allow it. */
  lemma SynOptionsAreLearnt(a: Sock, b: Sock, i: nat, p: Packet, now: nat)
    requires OpeningInv(a) && a.state == SynSent && i < |Syns(a.wire)|
    requires SocketInv(b) && OpeningInv(b) && b.state == SynSent && GoodIss(b.tcb.iss)
    requires p == Packet(Syns(a.wire)[i].seqNo, b.tcb.iss + 1, Flags(false, true, false, false, true),
                         Syns(a.wire)[i].options, [])
    ensures var t := Input(b, p, now);
      && t.state == Established && t.smss == 1460
      && (t.sack.ok <==> a.sack.ok && b.sack.ok) && (t.sack.ok ==> t.sack.allowed == 4)
  {
    assert p.options == SynBytes(a.sack.ok);
    SynBytesAreOptions(a.sack.ok);
    AnswerIsParsed(b, p, now);
    hide *;
    Options.SynOptionsParseBack(b, p, 1460, a.sack.ok);
  }

  /** In a run of this stack both ends do. */
  lemma OpenAgrees(ta: seq<(Event, nat)>, tb: seq<(Event, nat)>, i: nat, p: Packet, now: nat)
    requires var a, b := Run(FRESH, ta), Run(FRESH, tb);
      && a.state == b.state == SynSent && GoodIss(b.tcb.iss) && i < |Syns(a.wire)|
      && p == Packet(Syns(a.wire)[i].seqNo, b.tcb.iss + 1, Flags(false, true, false, false, true),
                     Syns(a.wire)[i].options, [])
    ensures var t := Input(Run(FRESH, tb), p, now);
      t.state == Established && t.smss == 1460 && t.sack.ok && t.sack.allowed == 4
  {
    RunOpening(ta);
    RunOpening(tb);
    SackUntilOpen(ta);
    SackUntilOpen(tb);
    hide *;
    SynOptionsAreLearnt(Run(FRESH, ta), Run(FRESH, tb), i, p, now);
  }

  /** SACK is not ruled out before the peer's options are known. */
  lemma {:induction false} SackUntilOpen(trace: seq<(Event, nat)>)
    ensures Run(FRESH, trace).state in {Close, SynSent} ==> Run(FRESH, trace).sack.ok && Run(FRESH, trace).smss == 536
  {
    if trace != [] {
      var n := |trace| - 1;
      SackUntilOpen(trace[..n]);
      RunOpening(trace[..n]);
      hide Step, SocketInv, OpeningInv, LifeInv;
      StepSack(Run(FRESH, trace[..n]), trace[n].0, trace[n].1);
    }
  }

  lemma StepSack(s: Sock, e: Event, now: nat)
    requires SocketInv(s) && OpeningInv(s) && LifeInv(s)
    ensures var t := Step(s, e, now);
      t.state in {Close, SynSent} ==> s.state in {Close, SynSent} && t.sack.ok == s.sack.ok && t.smss == s.smss
  {
    hide Step, Path, SocketInv, OpeningInv;
    StepForward(s, e, now);
    RankOf(s, Step(s, e, now));
    if s.state in {Close, SynSent} {
      OpeningSack(s, e, now);
    }
  }

  lemma OpeningSack(s: Sock, e: Event, now: nat)
    requires SocketInv(s) && OpeningInv(s) && s.state in {Close, SynSent}
    ensures var t := Step(s, e, now); t.state in {Close, SynSent} ==> t.sack.ok == s.sack.ok && t.smss == s.smss
  {
    hide SocketInv, Syns, Input, Connect, Copies, SynQueued, ConnectRtoFires, Read;
    if e.Arrival? {
      ArrivalSack(s, e.p, now);
    } else if e.ConnectCall? && s.state == Close {
      ConnectAwaits(s, e.iss, now);
    } else if e.RtoExpires? {
      NoTimerBefore(s);
      if Due(s.rtx.timer, now) {
        ResendStep(s, now);
      }
    } else {
      CallOpening(s, e, now);
      hide Step;
    }
  }

  lemma ArrivalSack(s: Sock, p: Packet, now: nat)
    requires s.state in {Close, SynSent}
    ensures var t := Input(s, p, now); t.state in {Close, SynSent} ==> t.sack.ok == s.sack.ok && t.smss == s.smss
  {
    if s.state == SynSent {
      SynSentLeaves(s, p, now);
    }
    hide SynSentInput, PacketFor;
  }

  /** An answer without options leaves the default MSS of 536 and no SACK. */
  lemma OpenWithoutOptions(trace: seq<(Event, nat)>, p: Packet, now: nat)
    requires var s := Run(FRESH, trace); s.state == SynSent && GoodIss(s.tcb.iss) && p.ackSeq == s.tcb.iss + 1
    requires p.flags == Flags(false, true, false, false, true) && p.options == [] && p.payload == []
    ensures var t := Input(Run(FRESH, trace), p, now); t.state == Established && t.smss == 536 && !t.sack.ok
  {
    var s := Run(FRESH, trace);
    RunOpening(trace);
    SackUntilOpen(trace);
    assert ParseFrom(p.options + p.payload, 0, 0, ParsedOptions(None, false)) == ParsedOptions(None, false);
    AnswerIsParsed(s, p, now);
    hide Run, Input, Awaits, SocketInv, LifeInv, OpeningInv, ParseFrom, Syns;
  }

  /** The handshake of `Network.Start` with the options that the two SYNs carry. */
  lemma HandshakeAgrees(issA: u32, issB: u32, now: nat)
    requires GoodIss(issA) && GoodIss(issB)
    ensures var sys := Start(issA, issB, SynBytes(true), SynBytes(true), now);
      && Initial(sys)
      && sys.a.smss == sys.b.smss == 1460 && sys.a.sack.ok && sys.b.sack.ok && sys.a.sack.allowed == sys.b.sack.allowed == 4
  {
    HandshakeOpens(issA, issB, SynBytes(true), SynBytes(true), now);
    OpenedWithOptions(issA, issB, now);
    OpenedWithOptions(issB, issA, now);
    hide Opened, Initial;
  }

  lemma OpenedWithOptions(iss: u32, peer: u32, now: nat)
    requires GoodIss(iss)
    ensures var t := Opened(iss, peer, SynBytes(true), now); t.smss == 1460 && t.sack.ok && t.sack.allowed == 4
  {
    var s, p := Connect(FRESH, iss, now), SynAck(iss, peer, SynBytes(true));
    RunOpening([]);
    ConnectAwaits(FRESH, iss, now);
    ConnectKeepsInv(FRESH, iss, now);
    SynBytesAreOptions(true);
    assert SocketInv(s) by { hide Connect; }
    hide *;
    AnswerIsParsed(s, p, now);
    Options.SynOptionsParseBack(s, p, 1460, true);
  }
}
