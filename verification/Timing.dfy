/** Retransmission timing of one socket: the estimator, the back-off and giving up (RFC 6298). */
module Timing {
  import opened Words
  import opened TcpTypes
  import opened Tcp
  import opened TcpOutput
  import opened TcpData
  import opened TcpInput
  import opened Host
  import opened Receiver
  import opened Lifecycle
  import opened Invariants
  import opened Sender
  import opened Arrivals

  // ----- the estimator -----

  function MeasureAll(x: Rtx, samples: seq<nat>): Rtx {
    if samples == [] then x else Measure(MeasureAll(x, samples[..|samples| - 1]), samples[|samples| - 1])
  }

  function MaxRto(m: nat): nat {
    m + if 4 * m < 200 then 200 else 4 * m
  }

  lemma MeasureBounds(x: Rtx, r: nat, m: nat)
    requires x.srtt <= m && x.rttvar <= m && r <= m && MaxRto(m) < MOD32
    ensures var y := Measure(x, r);
      && y.srtt <= m && y.rttvar <= m && 200 <= y.rto <= MaxRto(m)
      && y.rto == y.srtt + (if 4 * y.rttvar < 200 then 200 else 4 * y.rttvar)
  {
  }

  /** Whatever samples of at most `m` milliseconds are taken, the estimates stay within `m` and the RTO
      between 200 ms and the smoothed time plus four variances. */
  lemma {:induction false} EstimatesStayBounded(x: Rtx, samples: seq<nat>, m: nat)
    requires x.srtt <= m && x.rttvar <= m && MaxRto(m) < MOD32
    requires forall i :: 0 <= i < |samples| ==> samples[i] <= m
    ensures var y := MeasureAll(x, samples);
      y.srtt <= m && y.rttvar <= m && (samples != [] ==> 200 <= y.rto <= MaxRto(m))
  {
    if samples != [] {
      EstimatesStayBounded(x, samples[..|samples| - 1], m);
      MeasureBounds(MeasureAll(x, samples[..|samples| - 1]), samples[|samples| - 1], m);
    }
  }

  // ----- what changes the estimates -----

  /** The parts of the timer state that neither arming nor stopping the timer touches. */
  predicate SameEstimates(x: Rtx, y: Rtx) {
    y.srtt == x.srtt && y.rttvar == x.rttvar && y.rto == x.rto
  }

  /** The back-off count is kept, or cleared by stopping the timer. */
  predicate SameEpisode(x: Rtx, y: Rtx) {
    SameEstimates(x, y) && (y.backoff == x.backoff || y.backoff == 0)
  }

  lemma {:induction false} QueueAllTimes(s: Sock, skbs: seq<Skb>, now: nat)
    ensures var t := QueueAll(s, skbs, now); SameEstimates(s.rtx, t.rtx) && t.rtx.backoff == s.rtx.backoff
    decreases |skbs|
  {
    if skbs != [] {
      QueueTransmitTimes(s, skbs[0], now);
      hide QueueTransmit;
      QueueAllTimes(QueueTransmit(s, skbs[0], now), skbs[1..], now);
    }
  }

  lemma QueueTransmitTimes(s: Sock, skb: Skb, now: nat)
    ensures var t := QueueTransmit(s, skb, now);
      && SameEstimates(s.rtx, t.rtx) && t.rtx.backoff == s.rtx.backoff
      && t.done == s.done && t.state == s.state
      && (s.writeQ != [] ==> t.rtx == s.rtx)
  {
    hide PacketFor, SacksAfter, RtoTimer;
  }

  lemma AckPolicyTimes(s: Sock, p: Packet, now: nat)
    ensures var t := AckPolicy(s, p, now);
      && SameEstimates(s.rtx, t.rtx) && t.rtx.backoff == s.rtx.backoff && t.done == s.done
  {
    SendNextInbox(s.(delack := None), 0, Min(|s.writeQ|, MAX_BURST));
    hide SendNext, PacketFor, SacksAfter, RtoTimer, Min;
  }

  lemma AckStageTimes(s: Sock, p: Packet, now: nat)
    ensures var t, x := AckStage(s, p, now), if NewAck(s, p) then Rtt(s.rtx, now) else s.rtx;
      && SameEpisode(x, t.rtx) && t.done == s.done && t.state == s.state
      && (t.rtx.backoff == x.backoff || t.inflight == 0 || t.writeQ == [])
      && (s.rtx.timer == None ==> t.rtx.timer == None)
  {
    hide Measure;
  }

  lemma TextTimes(s: Sock, p: Packet)
    ensures var t := TextStage(s, p); t.rtx == s.rtx && t.done == s.done && t.state == s.state
  {
    hide CalculateSacks, InsertOrdered, PacketFor, SacksAfter, ReadyPrefix, Advance;
  }

  lemma FinTimes(s: Sock, now: nat)
    ensures var t := FinStage(s, now); SameEpisode(s.rtx, t.rtx) && t.done == s.done
    ensures FinStage(s, now).rtx == s.rtx || FinStage(s, now).rtx.timer == None
  {
    hide PacketFor, SacksAfter;
  }

  lemma ProcessTextTimes(s: Sock, p: Packet, now: nat)
    ensures var t := ProcessText(s, p, now); SameEpisode(s.rtx, t.rtx) && t.done == s.done
    ensures var t := ProcessText(s, p, now);
      && (!AcceptsText(s) ==> t.rtx == s.rtx || t.rtx.timer == None)
      && (AcceptsText(t) ==> t.rtx.backoff == s.rtx.backoff)
  {
    TextTimes(s, p);
    var s1 := TextStage(s, p);
    hide TextStage;
    FinTimes(s1, now);
    FinEnds(s1, now);
    AckPolicyTimes(s1, p, now);
    hide FinStage, AckPolicy;
  }

  lemma FinEnds(s: Sock, now: nat)
    ensures !AcceptsText(FinStage(s, now))
  {
    hide PacketFor, SacksAfter;
  }

  lemma FinAckedTimes(s: Sock, p: Packet)
    ensures var t := FinAcked(s, p); t.rtx == s.rtx && t.done == s.done && (AcceptsText(t) <==> AcceptsText(s))
  {
    hide PacketFor, SacksAfter;
  }

  /** What an arrival does to the timer state of an open socket: it may sample, and it may end the episode. */
  predicate ArrivalTimes(s: Sock, t: Sock, now: nat) {
    || SameEpisode(s.rtx, t.rtx)
    || SameEpisode(Rtt(s.rtx, now), t.rtx)
  }

  lemma ProcessAckTimes(s: Sock, p: Packet, now: nat)
    ensures var t := ProcessAck(s, p, now); ArrivalTimes(s, t, now)
    ensures var t := ProcessAck(s, p, now); (s.done ==> t.done) && (t.done && !s.done ==> t.rtx.timer == None)
    ensures var t := ProcessAck(s, p, now);
      !AcceptsText(s) && s.rtx.timer == None ==> t.rtx.timer == None
  {
    var s1 := if s.state == TimeWait then s else AckStage(s, p, now);
    AckStageTimes(s, p, now);
    hide AckStage, Rtt;
    FinAckedTimes(s1, p);
    hide FinAcked;
    ProcessTextTimes(FinAcked(s1, p), p, now);
    hide ProcessText;
  }

  lemma InputTimes(s: Sock, p: Packet, now: nat)
    requires Open(s)
    ensures var t := Input(s, p, now); ArrivalTimes(s, t, now)
    ensures var t := Input(s, p, now); (s.done ==> t.done) && (t.done && !s.done ==> t.rtx.timer == None)
    ensures var t := Input(s, p, now);
      !AcceptsText(s) && s.rtx.timer == None ==> t.rtx.timer == None
  {
    ProcessAckTimes(s, p, now);
    hide ProcessAck, PacketFor, SacksAfter, Rtt;
  }

  /** Anything but an arrival or a retransmission timeout leaves the estimates and the RTO alone. */
  lemma CallTimes(s: Sock, e: Event, now: nat)
    requires Open(s) && !e.Arrival? && !e.RtoExpires? && !e.StrayExpires?
    ensures var t := Step(s, e, now);
      && SameEpisode(s.rtx, t.rtx) && (s.done ==> t.done) && (t.done && !s.done ==> t.rtx.timer == None)
      && (t.rtx.backoff == s.rtx.backoff || t.state == Closing)
      && (s.state in {Closing, TimeWait} && s.rtx.timer == None ==> t.rtx.timer == None)
  {
    hide PacketFor, SacksAfter, Dequeue, RtoTimer;
    match e {
      case WriteCall(buf) =>
        QueueAllTimes(s, Segmentize(buf, s.smss), now);
        QueueAllDone(s, Segmentize(buf, s.smss), now);
        hide QueueAll, Segmentize;
      case CloseRequest =>
        QueueTransmitTimes(s, FIN_SKB, now);
        QueueTransmitTimes(s.(state := FinWait1), FIN_SKB, now);
        hide QueueTransmit;
      case _ =>
    }
  }

  lemma {:induction false} QueueAllDone(s: Sock, skbs: seq<Skb>, now: nat)
    ensures QueueAll(s, skbs, now).done == s.done
    decreases |skbs|
  {
    if skbs != [] {
      QueueTransmitTimes(s, skbs[0], now);
      hide QueueTransmit;
      QueueAllDone(QueueTransmit(s, skbs[0], now), skbs[1..], now);
    }
  }

  // ----- what is measured -----

  /** The segment is measured. */
  predicate Takes(s: Sock, p: Packet, now: nat) {
    PassesChecks(s, p) && s.state != TimeWait && NewAck(s, p) && Samples(s.rtx, now)
  }

  /** The estimates after an arrival at an open socket: measured or as before. */
  lemma ArrivalMeasures(s: Sock, p: Packet, now: nat)
    requires s.state !in {Close, Listen, SynSent}
    ensures SameEpisode(if Takes(s, p, now) then Measure(s.rtx, RttSample(s.rtx, now)) else s.rtx, Input(s, p, now).rtx)
  {
    var s1 := if s.state == SynReceived then s.(state := Established) else s;
    OpenInput(s, p, now);
    if PassesChecks(s, p) {
      CheckedMeasures(s1, p, now);
    } else if s.state != TimeWait && !(s.tcb.sndUna <= p.ackSeq <= s.tcb.sndNxt) {
      StaleAck(s, p, now);
    }
    SendAckEffect(s);
    hide Input, ProcessAck, SendAck, Measure, VerifySegment;
  }

  lemma CheckedMeasures(s: Sock, p: Packet, now: nat)
    requires s.state == TimeWait || s.tcb.sndUna <= p.ackSeq <= s.tcb.sndNxt
    ensures SameEpisode(if s.state != TimeWait && NewAck(s, p) && Samples(s.rtx, now) then Measure(s.rtx, RttSample(s.rtx, now))
                        else s.rtx, ProcessAck(s, p, now).rtx)
  {
    var s1 := if s.state == TimeWait then s else AckStage(s, p, now);
    AckStageTimes(s, p, now);
    FinAckedTimes(s1, p);
    ProcessTextTimes(FinAcked(s1, p), p, now);
    hide AckStage, FinAcked, ProcessText, Measure, Samples;
  }

  // ----- giving up -----

  /** The retransmission handler runs. */
  predicate Fires(s: Sock, e: Event, now: nat) {
    e.RtoExpires? && Due(s.rtx.timer, now) && s.rtx.timer.value.handler != ConnectRto
  }

  function Firings(s: Sock, trace: seq<(Event, nat)>): nat {
    if trace == [] then 0
    else
      var n := |trace| - 1;
      Firings(s, trace[..n]) + if Fires(Run(s, trace[..n]), trace[n].0, trace[n].1) then 1 else 0
  }

  /** The step takes a round-trip sample. */
  predicate StepTakes(s: Sock, e: Event, now: nat) {
    e.Arrival? && Takes(s, e.p, now)
  }

  /** No segment of the trace is measured. */
  predicate Unmeasured(s: Sock, trace: seq<(Event, nat)>) {
    forall i :: 0 <= i < |trace| ==> !StepTakes(Run(s, trace[..i]), trace[i].0, trace[i].1)
  }

  /** What holds of any socket that has opened, at any point of any run. */
  predicate Underway(s: Sock) {
    Open(s) && LifeInv(s) && SocketInv(s) && (s.done ==> s.rtx.timer == None)
  }

  /** After `k` firings either the connection has been given up, or the RTO has doubled `k` times. */
  predicate BackedOff(s: Sock, k: nat) {
    && Underway(s)
    && if s.done then k <= 10
       else k <= 9 && s.rtx.rto >= Shl(200, k) && (k > 0 ==> s.rtx.rto <= 2 * MAX_RTO)
  }

  lemma ShlTable()
    ensures Shl(200, 8) == 51200 && Shl(200, 9) == 102400
  {
    assert Shl(200, 4) == 3200;
    assert Shl(200, 6) == 12800;
  }

  lemma RtoDoubles(s: Sock, now: nat)
    requires SocketInv(s) && Due(s.rtx.timer, now) && s.rtx.timer.value.handler != ConnectRto
    ensures var t := Step(s, RtoExpires, now);
      if s.rtx.rto > MAX_RTO then t.done && t.rtx.timer == None
      else t.done == s.done && t.rtx.rto == 2 * s.rtx.rto
  {
    hide PacketFor, SacksAfter;
  }

  lemma StepStaysUnderway(s: Sock, e: Event, now: nat)
    requires Underway(s) && !Fires(s, e, now)
    ensures Underway(Step(s, e, now))
  {
    StepForward(s, e, now);
    StepKeepsInv(s, e, now);
    hide SocketInv, Path, LifeInv, Input;
    if e.Arrival? {
      InputTimes(s, e.p, now);
    } else if !e.RtoExpires? && !e.StrayExpires? {
      CallTimes(s, e, now);
      hide Step;
    }
  }

  lemma FiringBacksOff(s: Sock, now: nat, k: nat)
    requires BackedOff(s, k) && Fires(s, RtoExpires, now)
    ensures BackedOff(Step(s, RtoExpires, now), k + 1)
  {
    ShlTable();
    RtoDoubles(s, now);
    StepForward(s, RtoExpires, now);
    StepKeepsInv(s, RtoExpires, now);
    assert Shl(200, k + 1) == 2 * Shl(200, k);
    hide Step, SocketInv, Path, LifeInv, Shl;
  }

  lemma OtherStepKeepsBackOff(s: Sock, e: Event, now: nat, k: nat)
    requires BackedOff(s, k) && !Fires(s, e, now) && !StepTakes(s, e, now)
    ensures BackedOff(Step(s, e, now), k)
  {
    StepStaysUnderway(s, e, now);
    StepForward(s, e, now);
    hide Shl, Path, LifeInv, SocketInv, Input, Takes, Measure;
    if e.Arrival? {
      InputTimes(s, e.p, now);
      ArrivalMeasures(s, e.p, now);
    } else if !e.RtoExpires? && !e.StrayExpires? {
      CallTimes(s, e, now);
      hide Step;
    }
  }

  lemma StepBacksOff(s: Sock, e: Event, now: nat, k: nat)
    requires BackedOff(s, k) && !StepTakes(s, e, now)
    ensures BackedOff(Step(s, e, now), k + if Fires(s, e, now) then 1 else 0)
  {
    if Fires(s, e, now) {
      FiringBacksOff(s, now, k);
    } else {
      OtherStepKeepsBackOff(s, e, now, k);
    }
    hide Step, BackedOff, StepTakes;
  }

  lemma UnmeasuredPrefix(s: Sock, trace: seq<(Event, nat)>, n: nat)
    requires n < |trace| && Unmeasured(s, trace)
    ensures Unmeasured(s, trace[..n])
    ensures !StepTakes(Run(s, trace[..n]), trace[n].0, trace[n].1)
  {
    hide Run, StepTakes;
    assert forall i :: 0 <= i <= n ==> trace[..n][..i] == trace[..i];
  }

  lemma {:induction false} RunBacksOff(s: Sock, trace: seq<(Event, nat)>)
    requires Underway(s) && !s.done && s.rtx.rto >= 200 && Unmeasured(s, trace)
    ensures BackedOff(Run(s, trace), Firings(s, trace))
  {
    hide Step, StepTakes, Unmeasured, Fires, SocketInv, LifeInv;
    if trace != [] {
      var n := |trace| - 1;
      UnmeasuredPrefix(s, trace, n);
      RunBacksOff(s, trace[..n]);
      hide BackedOff;
      StepBacksOff(Run(s, trace[..n]), trace[n].0, trace[n].1, Firings(s, trace[..n]));
    }
  }

  /** From any RTO of at least 200 ms, ten firings of the retransmission timer with no segment measured in between end the
      connection, and there is no eleventh. */
  lemma TenTimeoutsGiveUp(s: Sock, trace: seq<(Event, nat)>)
    requires Underway(s) && !s.done && s.rtx.rto >= 200 && Unmeasured(s, trace)
    ensures Firings(s, trace) <= 10
    ensures Firings(s, trace) == 10 ==> Run(s, trace).done && Run(s, trace).rtx.timer == None
  {
    RunBacksOff(s, trace);
    hide Run, Firings;
  }
}
