/** Karn's rule and exponential back-off over whole runs of the composed system (RFC 6298, sections 3
    and 5): no round-trip sample is taken while a resent segment is in flight, and while the sender backs off
    the RTO is what it was when the episode began times a power of two. */
module Karn {
  import opened Words
  import opened TcpTypes
  import opened Tcp
  import opened TcpOutput
  import opened TcpData
  import opened TcpInput
  import opened Host
  import opened Stream
  import opened SenderQueue
  import opened Sender
  import opened Receiver
  import opened Arrivals
  import opened AckSource
  import opened Network
  import opened Timing
  import Lifecycle

  /** Samples above this, nine days, would overflow the 32-bit RTO. */
  const MAX_SAMPLE: nat := 800_000_000

  /** What has happened so far: the sequence numbers resent by the timeout handler, and the RTO at the last
      point where the back-off count was zero. */
  datatype History = History(resent: set<u32>, base: nat)

  function Track(h: History, sys: System, act: Action): History {
    var t := Apply(sys, act).a;
    History(
      if act.AtSender? && Fires(sys.a, act.e, sys.clock) && sys.a.writeQ != [] then h.resent + {sys.a.tcb.sndUna}
      else h.resent,
      if t.rtx.backoff == 0 then t.rtx.rto else h.base)
  }

  function HistoryOf(sys: System, acts: seq<Action>): History {
    if acts == [] then History({}, sys.a.rtx.rto)
    else
      var n := |acts| - 1;
      Track(HistoryOf(sys, acts[..n]), Exec(sys, acts[..n]), acts[n])
  }

  predicate Unresent(s: Sock, resent: set<u32>)
    requires s.inflight <= |s.writeQ|
  {
    forall i :: 0 <= i < s.inflight ==> s.writeQ[i].seqNo !in resent
  }

  /** The estimates are in range and the RTO is the episode's first RTO, doubled once per back-off. */
  predicate Doubled(x: Rtx, base: nat) {
    && x.srtt <= MAX_SAMPLE && x.rttvar <= MAX_SAMPLE
    && 200 <= base && x.rto == Shl(base, x.backoff)
    && (x.backoff > 0 ==> x.rto <= 2 * MAX_RTO)
  }

  predicate KarnInv(s: Sock, h: History)
    requires s.inflight <= |s.writeQ|
  {
    && Doubled(s.rtx, h.base)
    && (forall r :: r in h.resent ==> r < s.tcb.sndNxt)
    && (s.rtx.backoff == 0 ==> Unresent(s, h.resent))
  }

  // ----- segments in flight -----

  /** Between two states of the sender, what is in flight afterwards was in flight before or is new. */
  lemma InFlightOrigin(s: Sock, t: Sock, g: Ground, h: Ground, i: nat)
    requires Grows(g, h) && Layout(s, g.c, g.base, g.closed) && Layout(t, h.c, h.base, h.closed)
    requires |g.c| - |s.writeQ| <= |h.c| - |t.writeQ| && i < t.inflight
    ensures var k := |h.c| - |t.writeQ| + i - (|g.c| - |s.writeQ|);
      if k < s.inflight then t.writeQ[i].seqNo == s.writeQ[k].seqNo else t.writeQ[i].seqNo >= s.tcb.sndNxt
  {
    var js, jt := |g.c| - |s.writeQ|, |h.c| - |t.writeQ|;
    var k, f := jt + i, js + s.inflight;
    hide Pos;
    assert Holds(t.writeQ[i], h.c, h.base, k, true);
    if k < f {
      assert Holds(s.writeQ[k - js], g.c, g.base, k, true);
      PosStable(g, h, k);
    } else {
      PosStable(g, h, f);
      PosMonotone(h.base, h.c, f, k);
    }
  }

  /** If the queue front only advanced, resent segments still in flight were in flight before; if everything
      that was in flight has gone, none is. */
  lemma StaysUnresent(s: Sock, t: Sock, g: Ground, h: Ground, resent: set<u32>)
    requires Grows(g, h) && Layout(s, g.c, g.base, g.closed) && Layout(t, h.c, h.base, h.closed)
    requires |g.c| - |s.writeQ| <= |h.c| - |t.writeQ|
    requires forall r :: r in resent ==> r < s.tcb.sndNxt
    requires Unresent(s, resent) || |g.c| - |s.writeQ| + s.inflight <= |h.c| - |t.writeQ|
    ensures Unresent(t, resent)
  {
    forall i | 0 <= i < t.inflight ensures t.writeQ[i].seqNo !in resent {
      InFlightOrigin(s, t, g, h, i);
    }
    hide Layout;
  }

  // ----- the queue front only advances -----

  lemma {:induction false} SendNextLength(s: Sock, i: nat, amount: nat)
    ensures |SendNextFrom(s, i, amount).writeQ| == |s.writeQ|
    decreases amount - i
  {
    if i < amount && i < |s.writeQ| {
      hide PacketFor, SacksAfter, NextSeq;
      SendNextLength(
        SendNew(s, s.writeQ[i]).(writeQ := s.writeQ[i := Stamp(s.writeQ[i], s.tcb.sndNxt)]), i + 1, amount);
    }
  }

  lemma AckPolicyLength(s: Sock, p: Packet, now: nat)
    ensures |AckPolicy(s, p, now).writeQ| == |s.writeQ|
  {
    SendNextLength(s.(delack := None), 0, Min(|s.writeQ|, MAX_BURST));
    hide SendNext, PacketFor, SacksAfter, RtoTimer, Min;
  }

  lemma ProcessTextLength(s: Sock, p: Packet, now: nat)
    ensures |ProcessText(s, p, now).writeQ| == |s.writeQ|
  {
    var s1 := TextStage(s, p);
    Lifecycle.TextWriteQ(s, p);
    FinLength(s1, now);
    hide TextStage, FinStage;
    AckPolicyLength(s1, p, now);
    AckPolicyLength(FinStage(s1, now), p, now);
    hide AckPolicy;
  }

  lemma FinLength(s: Sock, now: nat)
    ensures FinStage(s, now).writeQ == s.writeQ
  {
    hide PacketFor, SacksAfter;
  }

  lemma FinAckedLength(s: Sock, p: Packet)
    ensures FinAcked(s, p).writeQ == s.writeQ
  {
    hide PacketFor, SacksAfter;
  }

  /** An arrival that ends the back-off has taken everything in flight off the queue. */
  lemma InputEndsEpisode(s: Sock, p: Packet, now: nat)
    requires Live(s) && s.inflight <= |s.writeQ|
    requires NewAck(s, p) ==> AckedPrefix(s.writeQ, p.ackSeq) <= s.inflight
    ensures var t := Input(s, p, now);
      && |t.writeQ| <= |s.writeQ|
      && ArrivalTimes(s, t, now)
      && (Live(t) ==> t.rtx.backoff == s.rtx.backoff || |t.writeQ| == |s.writeQ| - s.inflight)
  {
    InputTimes(s, p, now);
    if VerifySegment(s, p) && !p.flags.rst && !p.flags.syn && p.flags.ack {
      AckEndsEpisode(s, p, now);
      hide ProcessAck, ArrivalTimes;
    } else {
      hide ProcessAck, PacketFor, SacksAfter, ArrivalTimes;
    }
  }

  lemma AckEndsEpisode(s: Sock, p: Packet, now: nat)
    requires Live(s) && s.inflight <= |s.writeQ|
    requires NewAck(s, p) ==> AckedPrefix(s.writeQ, p.ackSeq) <= s.inflight
    ensures var t := ProcessAck(s, p, now);
      && |t.writeQ| <= |s.writeQ|
      && (Live(t) ==> t.rtx.backoff == s.rtx.backoff || |t.writeQ| == |s.writeQ| - s.inflight)
  {
    var s1 := AckStage(s, p, now);
    AckStageTimes(s, p, now);
    RttKeepsBackoff(s.rtx, now);
    if NewAck(s, p) {
      AckStageFields(s, p, now);
    }
    hide AckStage, Rtt;
    FinAckedTimes(s1, p);
    FinAckedLength(s1, p);
    hide FinAcked;
    ProcessTextTimes(FinAcked(s1, p), p, now);
    ProcessTextLength(FinAcked(s1, p), p, now);
    hide ProcessText;
  }

  /** The acknowledgement covers everything in flight. */
  predicate CoversFlight(s: Sock, p: Packet)
    requires s.inflight <= |s.writeQ|
  {
    forall i :: 0 <= i < s.inflight ==> s.writeQ[i].seqNo > 0 && s.writeQ[i].endSeq <= p.ackSeq
  }

  lemma AckStageBackoff(s: Sock, p: Packet, now: nat)
    requires NewAck(s, p) && s.inflight <= |s.writeQ|
    ensures AckStage(s, p, now).rtx.backoff == if CoversFlight(s, p) then 0 else s.rtx.backoff
    ensures CoversFlight(s, p) ==> AckStage(s, p, now).rtx.timer == None
  {
    var k := AckedPrefix(s.writeQ, p.ackSeq);
    RttKeepsBackoff(s.rtx, now);
    assert CoversFlight(s, p) <==> k >= s.inflight;
    hide Rtt, AckedPrefix;
  }

  /** The back-off ends, at an acknowledgement of something new, if and only if everything in flight is covered; until
      then, and while the socket accepts text, the count stays. */
  lemma BackOffEnds(s: Sock, p: Packet, now: nat)
    requires PassesChecks(s, p) && AcceptsText(s) && NewAck(s, p) && s.inflight <= |s.writeQ|
    ensures var t := Input(s, p, now);
      if CoversFlight(s, p) then t.rtx.backoff == 0
      else t.rtx.backoff == (if AcceptsText(t) then s.rtx.backoff else t.rtx.backoff)
  {
    var s1 := AckStage(s, p, now);
    OpenInput(s, p, now);
    AckStageBackoff(s, p, now);
    AckStageKeeps(s, p, now);
    AckStageInbox(s, p, now);
    FinAckedTimes(s1, p);
    assert ProcessAck(s, p, now) == ProcessText(FinAcked(s1, p), p, now) by { hide ProcessText, AckStage, FinAcked; }
    hide Input, ProcessAck, AckStage, FinAcked, ProcessText, VerifySegment, CoversFlight;
    ProcessTextTimes(FinAcked(s1, p), p, now);
  }

  lemma RttKeepsBackoff(x: Rtx, now: nat)
    ensures Rtt(x, now).backoff == x.backoff && (x.backoff > 0 ==> Rtt(x, now) == x)
  {
  }

  lemma {:induction false} QueueAllLength(s: Sock, skbs: seq<Skb>, now: nat)
    ensures |QueueAll(s, skbs, now).writeQ| == |s.writeQ| + |skbs|
    decreases |skbs|
  {
    if skbs != [] {
      QueueTransmitLength(s, skbs[0], now);
      hide QueueTransmit;
      QueueAllLength(QueueTransmit(s, skbs[0], now), skbs[1..], now);
    }
  }

  lemma QueueTransmitLength(s: Sock, skb: Skb, now: nat)
    ensures |QueueTransmit(s, skb, now).writeQ| == |s.writeQ| + 1
  {
    hide PacketFor, SacksAfter, RtoTimer;
  }

  lemma CallLength(s: Sock, e: Event, now: nat)
    requires Open(s) && !e.Arrival?
    ensures |Step(s, e, now).writeQ| == |s.writeQ| + |NewSegments(s, e)| || Step(s, e, now).state == Closing
            || (e.CloseRequest? && s.state == CloseWait)
  {
    hide PacketFor, SacksAfter, Dequeue, RtoTimer;
    match e {
      case WriteCall(buf) =>
        QueueAllLength(s, Segmentize(buf, s.smss), now);
        hide QueueAll, Segmentize;
      case CloseRequest =>
        QueueTransmitLength(s.(state := FinWait1), FIN_SKB, now);
        hide QueueTransmit;
      case _ =>
    }
  }

  // ----- one event -----

  /** If the sender measured now, the sample would be within range. */
  predicate Calm(x: Rtx, now: nat) {
    Samples(x, now) ==> RttSample(x, now) <= MAX_SAMPLE
  }

  lemma DoubledBounds(x: Rtx, base: nat)
    requires Doubled(x, base)
    ensures x.rto >= 200 && (x.rto <= MAX_RTO ==> x.backoff <= 8)
  {
    ShlTable();
    ShlGrows(base, 0, x.backoff);
    ShlGrows(200, 9, x.backoff);
    ShlScales(200, base, x.backoff);
  }

  lemma {:induction false} ShlGrows(x: nat, i: nat, k: nat)
    ensures i <= k ==> Shl(x, i) <= Shl(x, k)
    decreases k
  {
    if i < k {
      ShlGrows(x, i, k - 1);
    }
  }

  lemma {:induction false} ShlScales(x: nat, y: nat, k: nat)
    requires x <= y
    ensures Shl(x, k) <= Shl(y, k)
  {
    if k > 0 {
      ShlScales(x, y, k - 1);
    }
  }

  lemma ArrivalDoubles(x: Rtx, y: Rtx, now: nat, base: nat)
    requires Doubled(x, base) && Calm(x, now)
    requires SameEpisode(x, y) || SameEpisode(Rtt(x, now), y)
    ensures Doubled(y, if y.backoff == 0 then y.rto else base)
  {
    DoubledBounds(x, base);
    if Samples(x, now) {
      MeasureBounds(x, RttSample(x, now), MAX_SAMPLE);
      hide Measure;
    }
  }

  lemma TimeoutDoubles(x: Rtx, now: nat, base: nat)
    requires Doubled(x, base) && x.rto <= MAX_RTO
    ensures Doubled(BackOff(x, now), base) && BackOff(x, now).backoff == x.backoff + 1
  {
    DoubledBounds(x, base);
    assert Shl(base, x.backoff + 1) == 2 * Shl(base, x.backoff);
  }

  /** The timeout: the head joins the resent segments, and the back-off count says so. */
  lemma TimeoutKarn(s: Sock, now: nat, g: Ground, h: History)
    requires Sending(s, g.c, g.base, g.closed, g.me) && KarnInv(s, h) && Fires(s, RtoExpires, now)
    ensures var t := Step(s, RtoExpires, now);
      Live(t) ==>
        && t.inflight == s.inflight && t.writeQ == s.writeQ && t.tcb == s.tcb
        && t.rtx.backoff > 0 && KarnInv(t, History(h.resent + {s.tcb.sndUna}, h.base))
  {
    TimeoutState(s, now);
    DoubledBounds(s.rtx, h.base);
    if s.rtx.rto <= MAX_RTO {
      TimeoutDoubles(s.rtx, now, h.base);
    }
    UnaBeforeNxt(s, g);
    hide Step, Doubled, Layout;
  }

  lemma TimeoutState(s: Sock, now: nat)
    requires Live(s) && s.writeQ != [] && Fires(s, RtoExpires, now)
    ensures var t := Step(s, RtoExpires, now);
      Live(t) ==>
        && t.inflight == s.inflight && t.writeQ == s.writeQ && t.tcb == s.tcb
        && s.rtx.rto <= MAX_RTO && t.rtx == BackOff(s.rtx, now)
  {
    hide PacketFor, SacksAfter, BackOff;
  }

  lemma UnaBeforeNxt(s: Sock, g: Ground)
    requires Layout(s, g.c, g.base, g.closed) && s.inflight > 0
    ensures s.tcb.sndUna < s.tcb.sndNxt
  {
    var j := |g.c| - |s.writeQ|;
    hide Pos;
    if g.c[j].flags.fin {
      PosNext(g.base, g.c, j);
    } else {
      PosStrict(g.base, g.c, g.closed, j, j + s.inflight);
    }
  }

  lemma ArrivalKarn(s: Sock, p: Packet, now: nat, g: Ground, g': Ground, h: History)
    requires Sending(s, g.c, g.base, g.closed, g.me) && KarnInv(s, h) && Calm(s.rtx, now)
    requires SourceAck(p, g) && Grows(g, g') && g'.c == g.c
    requires var t := Input(s, p, now);
      Sending(t, g'.c, g'.base, g'.closed, g'.me) && s.tcb.sndNxt <= t.tcb.sndNxt
    ensures var t := Input(s, p, now);
      KarnInv(t, History(h.resent, if t.rtx.backoff == 0 then t.rtx.rto else h.base))
  {
    var t := Input(s, p, now);
    if p.flags.ack && NewAck(s, p) {
      CleanStopsAtAck(s, p.ackSeq, g.c, g.base, g.closed);
    }
    NoAckNoClean(s, p, now);
    hide Layout, Input, Doubled, Unresent, NewAck, Samples, RttSample;
    LayoutBounds(s, g.c, g.base, g.closed);
    LayoutBounds(t, g'.c, g'.base, g'.closed);
    ArrivalDoubles(s.rtx, t.rtx, now, h.base);
    if t.rtx.backoff == 0 {
      StaysUnresent(s, t, g, g', h.resent);
    }
  }

  lemma NoAckNoClean(s: Sock, p: Packet, now: nat)
    requires Live(s) && s.inflight <= |s.writeQ|
    requires p.flags.ack && NewAck(s, p) ==> AckedPrefix(s.writeQ, p.ackSeq) <= s.inflight
    ensures var t := Input(s, p, now);
      && |t.writeQ| <= |s.writeQ| && ArrivalTimes(s, t, now)
      && (Live(t) ==> t.rtx.backoff == s.rtx.backoff || |t.writeQ| == |s.writeQ| - s.inflight)
  {
    if p.flags.ack {
      InputEndsEpisode(s, p, now);
    } else {
      InputTimes(s, p, now);
      SendAckQueue(s);
      hide SendAck;
    }
    hide ArrivalTimes, Input;
  }

  lemma SendAckQueue(s: Sock)
    ensures SendAck(s).writeQ == s.writeQ && SendAck(s).rtx == s.rtx && SendAck(s).state == s.state
  {
    hide PacketFor, SacksAfter;
  }

  lemma CallKarn(s: Sock, e: Event, now: nat, g: Ground, g': Ground, h: History)
    requires Sending(s, g.c, g.base, g.closed, g.me) && KarnInv(s, h)
    requires !e.Arrival? && !Fires(s, e, now)
    requires Grows(g, g') && |g'.c| == |g.c| + |NewSegments(s, e)|
    requires var t := Step(s, e, now);
      Sending(t, g'.c, g'.base, g'.closed, g'.me) && s.tcb.sndNxt <= t.tcb.sndNxt
    ensures var t := Step(s, e, now);
      KarnInv(t, History(h.resent, if t.rtx.backoff == 0 then t.rtx.rto else h.base))
  {
    var t := Step(s, e, now);
    CallLength(s, e, now);
    CallEstimates(s, e, now);
    hide Step, Layout, Doubled, Unresent, NewSegments;
    LayoutBounds(s, g.c, g.base, g.closed);
    LayoutBounds(t, g'.c, g'.base, g'.closed);
    DoubledSame(s.rtx, t.rtx, h.base);
    if t.rtx.backoff == 0 {
      StaysUnresent(s, t, g, g', h.resent);
    }
  }

  lemma DoubledSame(x: Rtx, y: Rtx, base: nat)
    requires Doubled(x, base) && SameEstimates(x, y) && y.backoff == x.backoff
    ensures Doubled(y, if y.backoff == 0 then y.rto else base)
  {
  }

  lemma CallEstimates(s: Sock, e: Event, now: nat)
    requires Live(s) && s.rtx.strays == [] && !e.Arrival? && !Fires(s, e, now)
    requires s.rtx.timer.Some? ==> s.rtx.timer.value.handler == RetransmissionTimeout
    ensures var t := Step(s, e, now);
      Live(t) ==> SameEstimates(s.rtx, t.rtx) && t.rtx.backoff == s.rtx.backoff
  {
    if !e.RtoExpires? && !e.StrayExpires? {
      CallTimes(s, e, now);
      hide Step;
    }
  }

  // ----- whole runs -----

  predicate SenderTracked(sys: System, h: History) {
    Live(sys.a) ==> sys.a.inflight <= |sys.a.writeQ| && KarnInv(sys.a, h)
  }

  lemma SendingParts(sys: System)
    requires Inv(sys) && Live(sys.a)
    ensures Sending(sys.a, sys.c, sys.base, sys.closed, sys.me)
    ensures sys.a.inflight <= |sys.a.writeQ|
  {
    hide WireGood, Receiving;
  }

  lemma SenderTracks(sys: System, e: Event, h: History)
    requires Inv(sys) && Inv(SenderDoes(sys, e)) && Live(sys.a) && SenderTracked(sys, h)
    requires Live(SenderDoes(sys, e).a) && sys.a.tcb.sndNxt <= SenderDoes(sys, e).a.tcb.sndNxt
    requires Calm(sys.a.rtx, sys.clock)
    requires e.Arrival? ==> SourceAck(e.p, GroundOf(sys))
    ensures var t := SenderDoes(sys, e);
      SenderTracked(t, History(
        if Fires(sys.a, e, sys.clock) && sys.a.writeQ != [] then h.resent + {sys.a.tcb.sndUna} else h.resent,
        if t.a.rtx.backoff == 0 then t.a.rtx.rto else h.base))
  {
    var t := SenderDoes(sys, e);
    SendingParts(sys);
    SendingParts(t);
    var g, g' := GroundOf(sys), GroundOf(t);
    GroundGrows(sys, e);
    hide Inv, Step, Sending, KarnInv, NewSegments, Calm;
    if e.Arrival? {
      ArrivalAddsNothing(sys.a, e);
      ArrivalKarn(sys.a, e.p, sys.clock, g, g', h);
    } else if Fires(sys.a, e, sys.clock) {
      TimeoutKarn(sys.a, sys.clock, g, h);
    } else {
      CallKarn(sys.a, e, sys.clock, g, g', h);
    }
  }

  lemma ArrivalAddsNothing(s: Sock, e: Event)
    requires e.Arrival?
    ensures NewSegments(s, e) == []
  {
  }

  lemma GroundGrows(sys: System, e: Event)
    requires Inv(sys) && sys.a.tcb.sndNxt <= SenderDoes(sys, e).a.tcb.sndNxt
    ensures Grows(GroundOf(sys), GroundOf(SenderDoes(sys, e)))
  {
    hide Step, Layout, WireGood, Receiving, Segmentize;
    if sys.closed {
      assert NewSegments(sys.a, e) == [] && !Closes(sys.a, e);
    }
  }

  lemma SenderActionTracks(sys: System, e: Event, h: History)
    requires Inv(sys) && FitsSpace(SenderDoes(sys, e)) && SenderTracked(sys, h) && Calm(sys.a.rtx, sys.clock)
    requires e.Arrival? ==> SourceAck(e.p, GroundOf(sys)) && (e.p.flags.ack ==> e.p.ackSeq <= sys.b.tcb.rcvNxt)
    ensures var t := SenderDoes(sys, e);
      SenderTracked(t, History(
        if Fires(sys.a, e, sys.clock) && sys.a.writeQ != [] then h.resent + {sys.a.tcb.sndUna} else h.resent,
        if t.a.rtx.backoff == 0 then t.a.rtx.rto else h.base))
  {
    SenderKeepsInv(sys, e);
    SenderStep(sys, e);
    if Live(SenderDoes(sys, e).a) {
      LiveBefore(sys, e);
      hide Inv, SenderDoes;
      SenderTracks(sys, e, h);
    }
    hide Step, KarnInv, Inv;
  }

  lemma IdleTracks(sys: System, t: System, h: History)
    requires SenderTracked(sys, h) && t.a == sys.a
    ensures SenderTracked(t, History(h.resent, if t.a.rtx.backoff == 0 then t.a.rtx.rto else h.base))
  {
  }

  lemma ApplyTracks(sys: System, act: Action, h: History)
    requires Inv(sys) && FitsSpace(Apply(sys, act)) && SenderTracked(sys, h) && Calm(sys.a.rtx, sys.clock)
    ensures SenderTracked(Apply(sys, act), Track(h, sys, act))
  {
    hide SenderTracked, Step, Delivered, NewSegments, Calm, Inv;
    if act.AtSender? && !act.e.Arrival? {
      SenderActionTracks(sys, act.e, h);
    } else if act.ToSender? && act.i < |sys.b.wire| {
      WireAcknowledges(sys, act.i);
      SenderActionTracks(sys, Arrival(sys.b.wire[act.i]), h);
    } else {
      IdleTracks(sys, Apply(sys, act), h);
    }
  }

  /** At no point of the run would the sender take a sample out of range. */
  predicate CalmRun(sys: System, acts: seq<Action>) {
    forall n :: 0 <= n <= |acts| ==> Calm(Exec(sys, acts[..n]).a.rtx, Exec(sys, acts[..n]).clock)
  }

  lemma {:induction false} ExecTracks(sys: System, acts: seq<Action>)
    requires Inv(sys) && FitsSpace(Exec(sys, acts)) && CalmRun(sys, acts)
    requires SenderTracked(sys, HistoryOf(sys, []))
    ensures SenderTracked(Exec(sys, acts), HistoryOf(sys, acts))
  {
    hide Apply, Inv, SenderTracked, Calm, Track;
    if acts != [] {
      var n := |acts| - 1;
      CalmPrefix(sys, acts, n);
      SpaceShrinks(Exec(sys, acts[..n]), acts[n]);
      ExecTracks(sys, acts[..n]);
      ExecKeepsInv(sys, acts[..n]);
      ApplyTracks(Exec(sys, acts[..n]), acts[n], HistoryOf(sys, acts[..n]));
    }
  }

  lemma CalmPrefix(sys: System, acts: seq<Action>, n: nat)
    requires CalmRun(sys, acts) && n <= |acts|
    ensures CalmRun(sys, acts[..n]) && Calm(Exec(sys, acts[..n]).a.rtx, Exec(sys, acts[..n]).clock)
  {
    hide Exec, Calm;
    forall m | 0 <= m <= |acts[..n]|
      ensures Calm(Exec(sys, acts[..n][..m]).a.rtx, Exec(sys, acts[..n][..m]).clock)
    {
      assert acts[..n][..m] == acts[..m];
    }
  }

  lemma StartTracked(start: System)
    requires Initial(start)
    ensures SenderTracked(start, HistoryOf(start, []))
  {
  }

  /** Karn's rule. Over every run, while the back-off count is zero, and so whenever `tcp_rtt` may sample, no
      segment in flight has been resent by the timeout handler. And at every moment the RTO is what it was
      when the back-off began, doubled once per timeout. */
  lemma KarnsRule(start: System, acts: seq<Action>)
    requires Initial(start) && FitsSpace(Exec(start, acts)) && CalmRun(start, acts)
    ensures var sys, h := Exec(start, acts), HistoryOf(start, acts);
      Live(sys.a) ==>
        && sys.a.inflight <= |sys.a.writeQ|
        && (sys.a.rtx.backoff == 0 || Samples(sys.a.rtx, sys.clock) ==> Unresent(sys.a, h.resent))
        && sys.a.rtx.rto == Shl(h.base, sys.a.rtx.backoff) && h.base >= 200
  {
    StartTracked(start);
    hide HistoryOf, Inv, Exec;
    ReachableInv(start, acts);
    ExecTracks(start, acts);
  }
}
