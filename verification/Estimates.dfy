/** The round-trip estimator over whole runs (RFC 6298, section 2): how one sample moves it, without reference to
    how it is computed, and where a sequence of samples leads. */
module Estimates {
  import opened Words
  import opened TcpTypes
  import opened Tcp
  import opened TcpOutput
  import opened TcpData
  import opened TcpInput
  import opened Host
  import opened Receiver
  import opened Arrivals
  import opened Timing
  import opened Flights

  /** The smoothed round-trip time and its variation. */
  datatype Estimate = Estimate(srtt: nat, rttvar: nat)

  function EstimateOf(s: Sock): Estimate {
    Estimate(s.rtx.srtt, s.rtx.rttvar)
  }

  /** RFC 6298, sections 2.2 and 2.3, in whole milliseconds: a first sample is taken over with half of it as variation;
      later ones count one quarter and one eighth, and the variation is measured from the old smoothed time. */
  predicate Moves(x: Estimate, r: nat, y: Estimate) {
    if x.srtt == 0 then
      y.srtt == r && 2 * y.rttvar <= r < 2 * y.rttvar + 2
    else
      && 4 * y.rttvar <= 3 * x.rttvar + Max(x.srtt - r, r - x.srtt) < 4 * y.rttvar + 4
      && 8 * y.srtt <= 7 * x.srtt + r < 8 * y.srtt + 8
  }

  /** Section 2.4 with the minimum of 200 ms: the RTO after a sample. */
  predicate Sets(rto: u32, y: Estimate) {
    rto == U32(y.srtt + Max(200, 4 * y.rttvar))
  }

  lemma MeasureMoves(x: Rtx, r: nat)
    ensures var y := Measure(x, r);
      Moves(Estimate(x.srtt, x.rttvar), r, Estimate(y.srtt, y.rttvar)) && Sets(y.rto, Estimate(y.srtt, y.rttvar))
  {
  }

  /** A measured segment moves the estimates by its sample and sets the RTO. */
  lemma ArrivalMoves(s: Sock, p: Packet, now: nat)
    requires Takes(s, p, now)
    ensures var t := Input(s, p, now);
      && RttSample(s.rtx, now) >= 0 && Moves(EstimateOf(s), RttSample(s.rtx, now), EstimateOf(t))
      && Sets(t.rtx.rto, EstimateOf(t))
  {
    ArrivalMeasures(s, p, now);
    MeasureMoves(s.rtx, RttSample(s.rtx, now));
    hide Input, Measure, Moves, PassesChecks;
  }

  lemma TakesHasTimer(s: Sock, p: Packet, now: nat)
    ensures Takes(s, p, now) ==> s.rtx.timer.Some?
  {
    hide PassesChecks;
  }

  /** What an accepted sample does. The first one of a flight armed with the RTO is the time since the flight left. */
  lemma {:induction false} SampleMoves(trace: seq<(Event, nat)>, p: Packet, now: nat)
    requires Takes(Run(FRESH, trace), p, now)
    ensures var s, t, h := Run(FRESH, trace), Input(Run(FRESH, trace), p, now), FlightOf(FRESH, trace);
      var r := (now - h.armedAt) + (s.rtx.rto - h.armedFor);
      && r >= 0 && Moves(EstimateOf(s), r, EstimateOf(t)) && Sets(t.rtx.rto, EstimateOf(t))
      && (s.rtx.timer.value.handler != ConnectRto && !h.measured ==> r == now - h.armedAt)
  {
    TakesHasTimer(Run(FRESH, trace), p, now);
    hide *;
    SampleOfFlight(trace, p, now);
    ArrivalMoves(Run(FRESH, trace), p, now);
  }

  /** Which segments are measured: those that pass the checks and acknowledge something new, outside TIME_WAIT, while
      the timer runs and the connection does not back off; for the first of a flight that is all. */
  lemma {:induction false} WhatIsMeasured(trace: seq<(Event, nat)>, p: Packet, now: nat)
    requires var s := Run(FRESH, trace); PassesChecks(s, p) && s.state != TimeWait
    ensures var s, h := Run(FRESH, trace), FlightOf(FRESH, trace);
      var acks := s.tcb.sndUna < p.ackSeq <= s.tcb.sndNxt && s.rtx.backoff == 0 && s.rtx.timer.Some?;
      && (Takes(s, p, now) <==> acks && now + s.rtx.rto >= h.armedAt + h.armedFor)
      && (acks && s.rtx.timer.value.handler != ConnectRto && !h.measured ==> (Takes(s, p, now) <==> now >= h.armedAt))
  {
    RunTimed(trace);
    hide Run, FlightOf, PassesChecks;
  }

  // ----- what else changes the estimates: nothing -----

  lemma ArrivalKeepsEstimate(s: Sock, p: Packet, now: nat)
    requires !Takes(s, p, now)
    ensures EstimateOf(Input(s, p, now)) == EstimateOf(s)
  {
    if s.state in {Close, Listen, SynSent} {
      OpeningKeepsEstimate(s, p, now);
    } else {
      ArrivalMeasures(s, p, now);
    }
    hide Input, Takes;
  }

  lemma OpeningKeepsEstimate(s: Sock, p: Packet, now: nat)
    requires s.state in {Close, Listen, SynSent}
    ensures EstimateOf(Input(s, p, now)) == EstimateOf(s)
  {
    LearnSynEstimate(s, p);
    EstablishEstimate(LearnSyn(s, p), p, now);
    hide PacketFor, SacksAfter, LearnSyn, Establish;
  }

  lemma LearnSynEstimate(s: Sock, p: Packet)
    ensures EstimateOf(LearnSyn(s, p)) == EstimateOf(s)
  {
    hide AckedPrefix;
  }

  lemma EstablishEstimate(s: Sock, p: Packet, now: nat)
    ensures EstimateOf(Establish(s, p, now)) == EstimateOf(s)
  {
    hide PacketFor, SacksAfter, OptionsLen, ParseFrom;
  }

  lemma HandlerKeepsEstimate(s: Sock, h: Handler, now: nat)
    ensures EstimateOf(RunRtoHandler(s, h, now)) == EstimateOf(s)
  {
    hide PacketFor, SacksAfter, RtoTimer;
  }

  lemma CallKeepsEstimate(s: Sock, e: Event, now: nat)
    requires !e.Arrival?
    ensures EstimateOf(Step(s, e, now)) == EstimateOf(s)
  {
    hide PacketFor, SacksAfter, OptionsLen, RtoTimer, SynSkb, Read, RunRtoHandler, QueueAll, Segmentize;
    match e {
      case WriteCall(buf) => QueueAllTimes(s, Segmentize(buf, s.smss), now);
      case CloseRequest =>
        QueueTransmitTimes(s, FIN_SKB, now);
        QueueTransmitTimes(s.(state := FinWait1), FIN_SKB, now);
        hide QueueTransmit;
      case ReadCall(n, blocking) => ReadFrame(s, n, blocking, now);
      case RtoExpires => if Due(s.rtx.timer, now) { HandlerKeepsEstimate(s, s.rtx.timer.value.handler, now); }
      case StrayExpires(i) =>
        if i < |s.rtx.strays| {
          var s1 := s.(rtx := s.rtx.(strays := s.rtx.strays[..i] + s.rtx.strays[i + 1..]));
          HandlerKeepsEstimate(s1, s.rtx.strays[i].handler, now);
        }
      case _ =>
    }
  }

  /** The sample of a step, if it takes one. */
  function StepSample(s: Sock, e: Event, now: nat): seq<nat> {
    if StepTakes(s, e, now) then [RttSample(s.rtx, now)] else []
  }

  /** The samples that a run takes, in order. */
  function SamplesOf(trace: seq<(Event, nat)>): seq<nat> {
    if trace == [] then []
    else
      var n := |trace| - 1;
      SamplesOf(trace[..n]) + StepSample(Run(FRESH, trace[..n]), trace[n].0, trace[n].1)
  }

  /** `es` is the history of the estimates under the samples `rs`. */
  predicate Chain(es: seq<Estimate>, rs: seq<nat>) {
    |es| == |rs| + 1 && forall i :: 0 <= i < |rs| ==> Moves(es[i], rs[i], es[i + 1])
  }

  lemma StepEstimate(s: Sock, e: Event, now: nat)
    ensures if StepTakes(s, e, now) then RttSample(s.rtx, now) >= 0 &&
                 Moves(EstimateOf(s), RttSample(s.rtx, now), EstimateOf(Step(s, e, now)))
            else EstimateOf(Step(s, e, now)) == EstimateOf(s)
  {
    if StepTakes(s, e, now) {
      ArrivalMoves(s, e.p, now);
      hide Input, Moves, PassesChecks;
    } else if e.Arrival? {
      ArrivalKeepsEstimate(s, e.p, now);
      hide Input, Takes;
    } else {
      CallKeepsEstimate(s, e, now);
      hide Step;
    }
  }

  /** Over every run the estimates are what the samples taken make of nothing: no other event moves them. */
  lemma {:induction false} RunEstimates(trace: seq<(Event, nat)>) returns (es: seq<Estimate>)
    ensures Chain(es, SamplesOf(trace)) && es[0] == Estimate(0, 0) && es[|es| - 1] == EstimateOf(Run(FRESH, trace))
  {
    hide *;
    if trace == [] {
      es := [Estimate(0, 0)];
      EmptyRun();
    } else {
      var n := |trace| - 1;
      var before := RunEstimates(trace[..n]);
      SamplesOfMore(trace);
      RunMore(FRESH, trace[..n], trace[n]);
      assert trace[..n] + [trace[n]] == trace;
      ChainLength(before, SamplesOf(trace[..n]));
      es := StepChain(before, SamplesOf(trace[..n]), Run(FRESH, trace[..n]), trace[n].0, trace[n].1);
    }
  }

  lemma EmptyRun()
    ensures SamplesOf([]) == [] && EstimateOf(Run(FRESH, [])) == Estimate(0, 0) && Chain([Estimate(0, 0)], [])
  {
  }

  lemma SamplesOfMore(trace: seq<(Event, nat)>)
    requires trace != []
    ensures var n := |trace| - 1; var s := Run(FRESH, trace[..n]);
      SamplesOf(trace) == SamplesOf(trace[..n]) + StepSample(s, trace[n].0, trace[n].1)
  {
    hide Run, StepTakes;
  }

  /** One more step, and the sample that it takes, if any. */
  lemma StepChain(es: seq<Estimate>, rs: seq<nat>, s: Sock, e: Event, now: nat) returns (more: seq<Estimate>)
    requires Chain(es, rs) && es[|rs|] == EstimateOf(s)
    ensures Chain(more, rs + StepSample(s, e, now)) && more[0] == es[0] && more[|more| - 1] == EstimateOf(Step(s, e, now))
  {
    StepEstimate(s, e, now);
    if e.Arrival? {
      TakesHasTimer(s, e.p, now);
    }
    hide Step, Takes, Moves, RttSample, Chain;
    if StepTakes(s, e, now) {
      more := es + [EstimateOf(Step(s, e, now))];
      ChainGrows(es, rs, RttSample(s.rtx, now), EstimateOf(Step(s, e, now)));
    } else {
      more := es;
      assert rs + [] == rs;
    }
    ChainLength(es, rs);
  }

  lemma ChainLength(es: seq<Estimate>, rs: seq<nat>)
    requires Chain(es, rs)
    ensures |es| == |rs| + 1
  {
  }

  lemma ChainGrows(es: seq<Estimate>, rs: seq<nat>, r: nat, e: Estimate)
    requires Chain(es, rs) && Moves(es[|rs|], r, e)
    ensures Chain(es + [e], rs + [r])
  {
    hide Moves;
  }

  lemma ChainShrinks(es: seq<Estimate>, rs: seq<nat>, r: nat)
    requires Chain(es, rs) && AllAre(rs, r) && rs != []
    ensures var n := |rs| - 1; Chain(es[..n + 1], rs[..n]) && AllAre(rs[..n], r) && Moves(es[n], r, es[n + 1])
  {
    hide Moves;
  }

  // ----- where equal samples lead -----

  function Pow(b: nat, n: nat): nat {
    if n == 0 then 1 else b * Pow(b, n - 1)
  }

  predicate AllAre(rs: seq<nat>, r: nat) {
    forall i :: 0 <= i < |rs| ==> rs[i] == r
  }

  lemma ScaleDown(a: int, b: int, k: nat, m: nat, p: nat, q: nat)
    requires k * a <= m * b && p * b <= q
    ensures p * k * a <= m * q
  {
    assert p * (k * a) <= p * (m * b);
    assert p * (m * b) == m * (p * b);
    assert p * (k * a) == p * k * a;
  }

  /** A round-trip time that does not vary: from a smoothed time equal to it, `n` samples leave at most (3/4)^n of the
      variation. */
  lemma {:induction false} SteadySamplesSettle(es: seq<Estimate>, rs: seq<nat>, r: nat)
    requires Chain(es, rs) && AllAre(rs, r) && r > 0 && es[0].srtt == r
    ensures var y := es[|rs|]; y.srtt == r && Pow(4, |rs|) * y.rttvar <= Pow(3, |rs|) * es[0].rttvar
  {
    if rs != [] {
      var n := |rs| - 1;
      ChainShrinks(es, rs, r);
      SteadySamplesSettle(es[..n + 1], rs[..n], r);
      ScaleDown(es[n + 1].rttvar, es[n].rttvar, 4, 3, Pow(4, n), Pow(3, n) * es[0].rttvar);
      PowStep(4, n, es[n + 1].rttvar);
      PowStep(3, n, es[0].rttvar);
    }
  }

  lemma PowStep(b: nat, n: nat, x: int)
    ensures Pow(b, n + 1) * x == Pow(b, n) * b * x == b * (Pow(b, n) * x)
  {
    assert Pow(b, n + 1) == b * Pow(b, n);
  }

  /** From above the smoothed time comes down to the samples and stops there: the distance shrinks by an eighth per
      sample. */
  lemma {:induction false} SmoothedTimeFalls(es: seq<Estimate>, rs: seq<nat>, r: nat)
    requires Chain(es, rs) && AllAre(rs, r) && es[0].srtt >= r > 0
    ensures var x, y := es[0].srtt, es[|rs|].srtt;
      y >= r && Pow(8, |rs|) * (y - r) <= Pow(7, |rs|) * (x - r)
  {
    if rs != [] {
      var n := |rs| - 1;
      ChainShrinks(es, rs, r);
      SmoothedTimeFalls(es[..n + 1], rs[..n], r);
      ScaleDown(es[n + 1].srtt - r, es[n].srtt - r, 8, 7, Pow(8, n), Pow(7, n) * (es[0].srtt - r));
      PowStep(8, n, es[n + 1].srtt - r);
      PowStep(7, n, es[0].srtt - r);
    }
  }

  /** From below it rises likewise, but may stop up to 7 ms short of the samples, because the fraction is cut off. */
  lemma {:induction false} SmoothedTimeRises(es: seq<Estimate>, rs: seq<nat>, r: nat)
    requires Chain(es, rs) && AllAre(rs, r) && 0 < es[0].srtt <= r
    ensures var x, y := es[0].srtt, es[|rs|].srtt;
      x <= y <= r && Pow(8, |rs|) * (r - 7 - y) <= Pow(7, |rs|) * Max(r - 7 - x, 0)
  {
    if rs != [] {
      var n, d := |rs| - 1, Max(r - 7 - es[0].srtt, 0);
      ChainShrinks(es, rs, r);
      SmoothedTimeRises(es[..n + 1], rs[..n], r);
      ScaleDown(r - 7 - es[n + 1].srtt, r - 7 - es[n].srtt, 8, 7, Pow(8, n), Pow(7, n) * d);
      PowStep(8, n, r - 7 - es[n + 1].srtt);
      PowStep(7, n, d);
    }
  }
}
