/** What a socket holds after segments of one division of its peer's stream have arrived, over whole runs; and
    when the order and the repetition of arrivals do not matter. */
module Confluence {
  import opened Words
  import opened TcpTypes
  import opened Tcp
  import opened TcpOutput
  import opened TcpData
  import opened TcpInput
  import opened Host
  import opened Stream
  import opened Sender
  import opened Receiver
  import opened Arrivals
  import opened Reassembly
  import Lifecycle

  predicate IsSegment(p: Packet, d: seq<Skb>, k: nat)
    requires k < |d|
  {
    p.seqNo == d[k].seqNo && p.payload == d[k].payload && p.flags == d[k].flags && p.options == d[k].options == []
  }

  /** Whatever carries text is a segment of the division. */
  predicate FitsDivision(p: Packet, d: seq<Skb>) {
    p.payload != [] || p.flags.psh ==> exists k :: 0 <= k < |d| && IsSegment(p, d, k)
  }

  lemma SegmentBuffer(p: Packet, d: seq<Skb>, base: nat, k: nat)
    requires Division(d, base) && k < |d| && IsSegment(p, d, k)
    ensures SkbOf(p) == d[k]
  {
    PosNext(base, d, k);
    PosMonotone(base, d, k + 1, |d|);
    hide Pos;
  }

  /** The segment that starts where `p` does. */
  function Which(p: Packet, d: seq<Skb>): set<nat> {
    set k: nat | k < |d| && d[k].seqNo == p.seqNo
  }

  lemma WhichIs(p: Packet, d: seq<Skb>, base: nat, k: nat)
    requires Division(d, base) && k < |d| && IsSegment(p, d, k)
    ensures Which(p, d) == {k}
  {
    forall j: nat | j < |d| && d[j].seqNo == p.seqNo ensures j == k {
      if j < k {
        DivisionIncreases(d, base, j, k);
      } else if k < j {
        DivisionIncreases(d, base, k, j);
      }
    }
  }

  // ----- the states that accept text -----

  lemma ProcessTextOpen(s: Sock, p: Packet, now: nat)
    requires Open(s)
    ensures var t := ProcessText(s, p, now);
      && Open(t) && t.tcb.rcvWnd == s.tcb.rcvWnd
      && (AcceptsText(t) ==> AcceptsText(s) && !(p.flags.fin && p.seqNo == s.tcb.rcvNxt))
  {
    var s1 := TextStage(s, p);
    TextKeepsUna(s, p);
    FinLeaves(s1, now);
    AckPolicyInbox(s1, p, now);
    AckPolicyInbox(FinStage(s1, now), p, now);
    hide TextStage, FinStage, AckPolicy;
  }

  lemma FinLeaves(s: Sock, now: nat)
    requires Open(s)
    ensures var t := FinStage(s, now); Open(t) && !AcceptsText(t) && t.tcb.rcvWnd == s.tcb.rcvWnd
  {
    hide OptionsLen, PacketFor, SacksAfter;
  }

  lemma ProcessAckOpen(s: Sock, p: Packet, now: nat)
    requires Open(s)
    ensures var t := ProcessAck(s, p, now);
      && Open(t) && t.tcb.rcvWnd == s.tcb.rcvWnd && (AcceptsText(t) ==> AcceptsText(s))
      && (AcceptsText(t) && s.tcb.sndUna <= p.ackSeq <= s.tcb.sndNxt ==> !(p.flags.fin && p.seqNo == s.tcb.rcvNxt))
  {
    var s1 := if s.state == TimeWait then s else AckStage(s, p, now);
    AckStageInbox(s, p, now);
    AckedQueues(s, p, now);
    FinAckedInbox(s1, p);
    ProcessTextOpen(FinAcked(s1, p), p, now);
    hide AckStage, FinAcked, ProcessText, QueuesOf;
  }

  lemma InputOpen(s: Sock, p: Packet, now: nat)
    requires Open(s)
    ensures var t := Input(s, p, now);
      && Open(t) && t.tcb.rcvWnd == s.tcb.rcvWnd
      && (AcceptsText(t) ==> AcceptsText(s) && !(PassesChecks(s, p) && p.flags.fin && p.seqNo == s.tcb.rcvNxt))
  {
    ProcessAckOpen(s, p, now);
    SendAckInbox(s);
    OpenInput(s, p, now);
    hide Input, ProcessAck, SendAck, VerifySegment;
  }

  // ----- whole runs -----

  /** The segments whose text was queued in a run. */
  function Accepted(s: Sock, trace: seq<(Event, nat)>, d: seq<Skb>): set<nat> {
    if trace == [] then {}
    else
      var n := |trace| - 1;
      Accepted(s, trace[..n], d) + NewlyAccepted(Run(s, trace[..n]), trace[n].0, d)
  }

  function NewlyAccepted(s: Sock, e: Event, d: seq<Skb>): set<nat> {
    if e.Arrival? && ReachesText(s, e.p) then Which(e.p, d) else {}
  }

  /** As long as text is accepted: what has been read and what waits for the reader is the longest contiguous
      prefix of the segments in `arrived`, and the others wait in order. */
  predicate Reassembled(s: Sock, d: seq<Skb>, base: nat, arrived: set<nat>, read: seq<byte>) {
    Open(s) &&
    (AcceptsText(s) ==>
       && Holding(QueuesOf(s), d, base, arrived)
       && read + Flat(s.inbox.recvQ) == Flat(d[..FirstMissing(arrived, 0, |d|)]))
  }

  lemma FlatGrows(read: seq<byte>, q: seq<Skb>, d: seq<Skb>, m: nat, m': nat)
    requires m <= m' <= |d| && read + Flat(q) == Flat(d[..m])
    ensures read + Flat(q + d[m..m']) == Flat(d[..m'])
  {
    FlatAppend(q, d[m..m']);
    assert d[..m'] == d[..m] + d[m..m'];
    FlatAppend(d[..m], d[m..m']);
    assert read + (Flat(q) + Flat(d[m..m'])) == read + Flat(q) + Flat(d[m..m']);
  }

  lemma TextReassembles(s: Sock, p: Packet, now: nat, d: seq<Skb>, base: nat, arrived: set<nat>, read: seq<byte>)
    requires Division(d, base) && Reassembled(s, d, base, arrived, read) && FitsDivision(p, d)
    requires ReachesText(s, p) && AcceptsText(Input(s, p, now))
    ensures Reassembled(Input(s, p, now), d, base, arrived + Which(p, d), read)
  {
    var t, q := Input(s, p, now), QueuesOf(s);
    InputOpen(s, p, now);
    InputQueues(s, p, now);
    hide Input;
    var k: nat :| k < |d| && IsSegment(p, d, k);
    SegmentBuffer(p, d, base, k);
    WhichIs(p, d, base, k);
    assert QueuesOf(t) == Queueing(q, d[k]) && q.rcvNxt <= d[k].seqNo;
    hide Division, Holding, ReachesText, IsSegment, Queueing;
    ArrivalFills(q, d, base, arrived, k);
    FlatGrows(read, q.recvQ, d, FirstMissing(arrived, 0, |d|), FirstMissing(arrived + {k}, 0, |d|));
  }

  lemma ArrivalReassembles(s: Sock, p: Packet, now: nat, d: seq<Skb>, base: nat, arrived: set<nat>, read: seq<byte>)
    requires Division(d, base) && Reassembled(s, d, base, arrived, read) && FitsDivision(p, d)
    ensures Reassembled(Input(s, p, now), d, base, arrived + NewlyAccepted(s, Arrival(p), d), read)
  {
    InputOpen(s, p, now);
    if AcceptsText(Input(s, p, now)) {
      if ReachesText(s, p) {
        TextReassembles(s, p, now, d, base, arrived, read);
      } else {
        InputQueues(s, p, now);
        assert QueuesOf(Input(s, p, now)) == QueuesOf(s);
        assert arrived + {} == arrived;
      }
    }
    hide Input;
  }

  lemma EventReassembles(s: Sock, e: Event, now: nat, d: seq<Skb>, base: nat, arrived: set<nat>, read: seq<byte>)
    requires Division(d, base) && Reassembled(s, d, base, arrived, read) && (e.Arrival? ==> FitsDivision(e.p, d))
    ensures Reassembled(Step(s, e, now), d, base, arrived + NewlyAccepted(s, e, d), read + Delivered(s, e, now))
  {
    assert read + [] == read && arrived + {} == arrived;
    if e.Arrival? {
      ArrivalReassembles(s, e.p, now, d, base, arrived, read);
      hide Reassembled, Input, NewlyAccepted;
    } else if e.ReadCall? {
      ReadReassembles(s, e.n, e.blocking, now, d, base, arrived, read);
      hide Reassembled, Read;
    } else {
      OtherEventInbox(s, e, now);
      hide Step, Holding, Flat;
    }
  }

  lemma ReadReassembles(s: Sock, n: nat, blocking: bool, now: nat, d: seq<Skb>, base: nat, arrived: set<nat>, read: seq<byte>)
    requires Reassembled(s, d, base, arrived, read)
    ensures var (t, data) := Read(s, n, blocking, now); Reassembled(t, d, base, arrived, read + data)
  {
    DequeueTakesFront(s.inbox.recvQ, n);
    var (data, rest, psh) := Dequeue(s.inbox.recvQ, n);
    hide Dequeue, Flat, FirstMissing, Above;
    assert read + data + Flat(rest) == read + (data + Flat(rest));
    assert read + [] == read;
  }

  predicate AllFit(trace: seq<(Event, nat)>, d: seq<Skb>) {
    forall i :: 0 <= i < |trace| && trace[i].0.Arrival? ==> FitsDivision(trace[i].0.p, d)
  }

  /** Over any run, with arrivals of segments of one division in any order and with any repetition, and with
      reads, writes and timers in between: while the socket accepts text, what was read and what waits is
      exactly the longest contiguous prefix of the segments accepted, and exactly the other ones wait, in
      order. */
  lemma {:induction false} ArrivalsHold(s: Sock, trace: seq<(Event, nat)>, d: seq<Skb>, base: nat)
    requires Division(d, base) && Reassembled(s, d, base, {}, []) && AllFit(trace, d)
    ensures Reassembled(Run(s, trace), d, base, Accepted(s, trace, d), ReadOver(s, trace))
  {
    hide Step, Reassembled, Division, FitsDivision, NewlyAccepted, Delivered;
    if trace != [] {
      var n := |trace| - 1;
      ArrivalsHold(s, trace[..n], d, base);
      EventReassembles(Run(s, trace[..n]), trace[n].0, trace[n].1, d, base,
                       Accepted(s, trace[..n], d), ReadOver(s, trace[..n]));
    }
  }

  // ----- when the order of arrivals does not matter -----

  predicate Plain(d: seq<Skb>) {
    forall k :: 0 <= k < |d| ==>
      d[k].options == [] && d[k].flags.ack && !d[k].flags.fin && !d[k].flags.syn && !d[k].flags.rst
  }

  /** A receiver with nothing of its own to send; `ack` acknowledges what it has sent. */
  predicate Sink(s: Sock, ack: u32) {
    AcceptsText(s) && s.writeQ == [] && s.tcb.sndUna <= ack <= s.tcb.sndNxt && s.tcb.rcvWnd > 0
  }

  function SegmentPacket(skb: Skb, ack: u32): Packet {
    Packet(skb.seqNo, ack, skb.flags, [], skb.payload)
  }

  predicate Indexes(ks: seq<nat>, d: seq<Skb>) {
    forall i :: 0 <= i < |ks| ==> ks[i] < |d|
  }

  /** The segments `ks` of the division arrive one after the other. */
  function InTurn(d: seq<Skb>, ks: seq<nat>, ack: u32, now: nat): (r: seq<(Event, nat)>)
    requires Indexes(ks, d)
    ensures |r| == |ks|
  {
    seq(|ks|, i requires 0 <= i < |ks| => (Arrival(SegmentPacket(d[ks[i]], ack)), now))
  }

  lemma SinkText(s: Sock, p: Packet, ack: u32, now: nat)
    requires Sink(s, ack) && !p.flags.fin
    ensures var t := ProcessText(s, p, now); Sink(t, ack) && t.tcb.rcvWnd == s.tcb.rcvWnd
  {
    var s1 := TextStage(s, p);
    TextKeepsUna(s, p);
    Lifecycle.TextWriteQ(s, p);
    hide TextStage, OptionsLen, PacketFor, SacksAfter;
  }

  lemma SinkStays(s: Sock, p: Packet, ack: u32, now: nat)
    requires Sink(s, ack) && p.ackSeq == ack && p.flags.ack && !p.flags.fin && !p.flags.rst && !p.flags.syn
    ensures var t := Input(s, p, now); Sink(t, ack) && t.tcb.rcvWnd == s.tcb.rcvWnd
  {
    SinkAcked(s, p, ack, now);
    SinkText(FinAcked(AckStage(s, p, now), p), p, ack, now);
    SendAckEffect(s);
    OpenInput(s, p, now);
    hide Input, AckStage, FinAcked, ProcessText, SendAck, VerifySegment;
  }

  lemma SinkAcked(s: Sock, p: Packet, ack: u32, now: nat)
    requires Sink(s, ack) && p.ackSeq == ack
    ensures var t := AckStage(s, p, now);
      && Sink(FinAcked(t, p), ack) && FinAcked(t, p).tcb.rcvWnd == s.tcb.rcvWnd
      && t.state == s.state && t.tcb.sndUna == ack <= t.tcb.sndNxt
  {
    AckStageInbox(s, p, now);
    assert AckStage(s, p, now).writeQ == [];
    hide AckStage, OptionsLen, PacketFor, SacksAfter;
  }

  /** `r` was queued before the first segment of the division; since then those in `arrived` were accepted. */
  predicate Assembled(s: Sock, d: seq<Skb>, base: nat, ack: u32, w: nat, r: seq<Skb>, arrived: set<nat>) {
    && Sink(s, ack) && s.tcb.rcvWnd == w && Holding(QueuesOf(s), d, base, arrived)
    && s.inbox.recvQ == r + d[..FirstMissing(arrived, 0, |d|)]
  }

  /** One more segment: what lies in the window is accepted, what lies below was accepted before, and what lies
      beyond is dropped. */
  lemma SegmentArrives(s: Sock, d: seq<Skb>, base: nat, ack: u32, w: nat, r: seq<Skb>, arrived: set<nat>, k: nat, now: nat)
    requires Division(d, base) && Plain(d) && Pos(base, d, |d|) + w < MOD32
    requires Assembled(s, d, base, ack, w, r, arrived) && k < |d|
    ensures var t := Input(s, SegmentPacket(d[k], ack), now);
      if d[k].seqNo <= s.tcb.rcvNxt + w then Assembled(t, d, base, ack, w, r, arrived + {k})
      else Assembled(t, d, base, ack, w, r, arrived)
  {
    var p, q, m := SegmentPacket(d[k], ack), QueuesOf(s), FirstMissing(arrived, 0, |d|);
    SinkStays(s, p, ack, now);
    InputQueues(s, p, now);
    SegmentBuffer(p, d, base, k);
    PosMonotone(base, d, m, |d|);
    hide Input, Division, Pos;
    if d[k].seqNo < s.tcb.rcvNxt {
      BelowIsHeld(q, d, base, arrived, k);
      assert arrived + {k} == arrived;
      hide Queueing, Holding;
    } else if d[k].seqNo <= s.tcb.rcvNxt + w {
      assert d[k].payload != [] by { SegmentNotEmpty(d, base, k); }
      ArrivalFills(q, d, base, arrived, k);
      JoinPrefix(r, d, m, FirstMissing(arrived + {k}, 0, |d|));
      hide Queueing, Holding;
    } else {
      hide Queueing, Holding;
    }
  }

  lemma SegmentNotEmpty(d: seq<Skb>, base: nat, k: nat)
    requires Division(d, base) && k < |d|
    ensures d[k].payload != []
  {
  }

  lemma JoinPrefix(r: seq<Skb>, d: seq<Skb>, m: nat, m': nat)
    requires m <= m' <= |d|
    ensures r + d[..m] + d[m..m'] == r + d[..m']
  {
    assert d[..m'] == d[..m] + d[m..m'];
  }

  function SetOf(ks: seq<nat>): set<nat> {
    set k | k in ks
  }

  lemma InTurnStep(s: Sock, d: seq<Skb>, ks: seq<nat>, ack: u32, now: nat)
    requires Indexes(ks, d) && ks != []
    ensures var n := |ks| - 1;
      && Indexes(ks[..n], d) && SetOf(ks) == SetOf(ks[..n]) + {ks[n]}
      && Run(s, InTurn(d, ks, ack, now)) == Input(Run(s, InTurn(d, ks[..n], ack, now)), SegmentPacket(d[ks[n]], ack), now)
  {
    var n := |ks| - 1;
    hide Input, InTurn, SegmentPacket;
    assert InTurn(d, ks, ack, now)[..n] == InTurn(d, ks[..n], ack, now) by { InTurnAt(d, ks, ack, now); }
    assert InTurn(d, ks, ack, now)[n] == (Arrival(SegmentPacket(d[ks[n]], ack)), now) by { InTurnAt(d, ks, ack, now); }
    assert ks == ks[..n] + [ks[n]];
  }

  lemma InTurnAt(d: seq<Skb>, ks: seq<nat>, ack: u32, now: nat)
    requires Indexes(ks, d) && ks != []
    ensures var n := |ks| - 1;
      && InTurn(d, ks, ack, now)[..n] == InTurn(d, ks[..n], ack, now)
      && InTurn(d, ks, ack, now)[n] == (Arrival(SegmentPacket(d[ks[n]], ack)), now)
  {
  }

  /** Within the window every segment is accepted. */
  lemma {:induction false} AllAccepted(
      s: Sock, d: seq<Skb>, base: nat, ack: u32, w: nat, r: seq<Skb>, ks: seq<nat>, now: nat)
    requires Division(d, base) && Plain(d) && Pos(base, d, |d|) + w < MOD32 && Indexes(ks, d)
    requires Assembled(s, d, base, ack, w, r, {}) && forall k :: 0 <= k < |d| ==> d[k].seqNo <= base + w
    ensures Assembled(Run(s, InTurn(d, ks, ack, now)), d, base, ack, w, r, SetOf(ks))
  {
    hide Division, Pos, Assembled, Plain, Input;
    if ks == [] {
      assert SetOf(ks) == {};
    } else {
      var n := |ks| - 1;
      InTurnStep(s, d, ks, ack, now);
      AllAccepted(s, d, base, ack, w, r, ks[..n], now);
      var t := Run(s, InTurn(d, ks[..n], ack, now));
      AssembledAbove(t, d, base, ack, w, r, SetOf(ks[..n]));
      SegmentArrives(t, d, base, ack, w, r, SetOf(ks[..n]), ks[n], now);
    }
  }

  lemma AssembledAbove(s: Sock, d: seq<Skb>, base: nat, ack: u32, w: nat, r: seq<Skb>, arrived: set<nat>)
    requires Assembled(s, d, base, ack, w, r, arrived)
    ensures base <= s.tcb.rcvNxt
  {
  }

  function UpTo(n: nat): (ks: seq<nat>)
    ensures |ks| == n && forall i :: 0 <= i < n ==> ks[i] == i
  {
    seq(n, i requires 0 <= i < n => i)
  }

  /** In order every segment is accepted, however small the window. */
  lemma {:induction false} InOrderAccepted(
      s: Sock, d: seq<Skb>, base: nat, ack: u32, w: nat, r: seq<Skb>, ks: seq<nat>, n: nat, now: nat)
    requires Division(d, base) && Plain(d) && Pos(base, d, |d|) + w < MOD32
    requires n <= |d| && Indexes(ks, d) && Assembled(Run(s, InTurn(d, ks, ack, now)), d, base, ack, w, r, {})
    ensures Indexes(ks + UpTo(n), d)
    ensures Assembled(Run(s, InTurn(d, ks + UpTo(n), ack, now)), d, base, ack, w, r, SetOf(UpTo(n)))
    ensures Run(s, InTurn(d, ks + UpTo(n), ack, now)).tcb.rcvNxt == Pos(base, d, n)
  {
    hide Division, Pos, Assembled, Plain, Input, InTurn, Run, Flat;
    if n == 0 {
      assert ks + UpTo(0) == ks && SetOf(UpTo(0)) == {};
      AssembledFrom(Run(s, InTurn(d, ks, ack, now)), d, base, ack, w, r, 0);
    } else {
      InOrderAccepted(s, d, base, ack, w, r, ks, n - 1, now);
      var all := ks + UpTo(n);
      assert all[..|all| - 1] == ks + UpTo(n - 1) && UpTo(n) == UpTo(n - 1) + [n - 1];
      InTurnStep(s, d, all, ack, now);
      var t := Run(s, InTurn(d, ks + UpTo(n - 1), ack, now));
      SegmentStart(d, base, n - 1);
      SegmentArrives(t, d, base, ack, w, r, SetOf(UpTo(n - 1)), n - 1, now);
      assert SetOf(UpTo(n)) == SetOf(UpTo(n - 1)) + {n - 1};
      AssembledFrom(Run(s, InTurn(d, all, ack, now)), d, base, ack, w, r, n);
    }
  }

  lemma SegmentStart(d: seq<Skb>, base: nat, k: nat)
    requires Division(d, base) && k < |d|
    ensures d[k].seqNo == Pos(base, d, k)
  {
  }

  lemma AssembledFrom(s: Sock, d: seq<Skb>, base: nat, ack: u32, w: nat, r: seq<Skb>, n: nat)
    requires n <= |d| && Assembled(s, d, base, ack, w, r, SetOf(UpTo(n)))
    ensures s.tcb.rcvNxt == Pos(base, d, n)
  {
    MissingUpTo(n, |d|);
    hide Pos, FirstMissing;
  }

  lemma MissingUpTo(n: nat, len: nat)
    requires n <= len
    ensures FirstMissing(SetOf(UpTo(n)), 0, len) == n
  {
    forall i: nat ensures i in SetOf(UpTo(n)) <==> i < n {
      if i < n {
        assert UpTo(n)[i] == i;
      }
    }
    MissingFrom(SetOf(UpTo(n)), 0, n, len);
  }

  lemma {:induction false} MissingFrom(arrived: set<nat>, i: nat, n: nat, len: nat)
    requires i <= n <= len && forall j: nat :: j in arrived <==> j < n
    ensures FirstMissing(arrived, i, len) == n
    decreases n - i
  {
    if i < n {
      MissingFrom(arrived, i + 1, n, len);
    }
  }

  lemma InOrderReaches(s: Sock, d: seq<Skb>, base: nat, ack: u32, w: nat, r: seq<Skb>, now: nat)
    requires Division(d, base) && Plain(d) && Pos(base, d, |d|) + w < MOD32 && Assembled(s, d, base, ack, w, r, {})
    ensures Indexes(UpTo(|d|), d) && Run(s, InTurn(d, UpTo(|d|), ack, now)).tcb.rcvNxt == Pos(base, d, |d|)
  {
    assert InTurn(d, [], ack, now) == [] && Run(s, []) == s;
    hide Division, Plain, Assembled, Pos, Input, InTurn, Flat, Run;
    InOrderAccepted(s, d, base, ack, w, r, [], |d|, now);
    assert [] + UpTo(|d|) == UpTo(|d|);
  }

  lemma FarFirst(s: Sock, d: seq<Skb>, base: nat, ack: u32, w: nat, r: seq<Skb>, n: nat, now: nat)
    requires Division(d, base) && Plain(d) && Pos(base, d, |d|) + w < MOD32 && Assembled(s, d, base, ack, w, r, {})
    requires n < |d| && d[n].seqNo > s.tcb.rcvNxt + w
    ensures Indexes([n] + UpTo(n), d) && Run(s, InTurn(d, [n] + UpTo(n), ack, now)).tcb.rcvNxt == Pos(base, d, n)
  {
    assert InTurn(d, [], ack, now) == [] && Run(s, []) == s && [n][..0] == [];
    hide Division, Plain, Assembled, Pos, Input, InTurn, Flat, Run;
    InTurnStep(s, d, [n], ack, now);
    SegmentArrives(s, d, base, ack, w, r, {}, n, now);
    InOrderAccepted(s, d, base, ack, w, r, [n], n, now);
  }

  /** The failing order: a segment beyond the window that comes first is dropped, and after all the others it is
      missing. */
  lemma FarSegmentIsLost(s: Sock, d: seq<Skb>, base: nat, ack: u32, now: nat)
    requires Division(d, base) && Plain(d) && Sink(s, ack) && s.tcb.rcvNxt == base && s.inbox.ofoQ == [] && d != []
    requires Pos(base, d, |d|) + s.tcb.rcvWnd < MOD32 && d[|d| - 1].seqNo > base + s.tcb.rcvWnd
    ensures var n := |d| - 1; var ks, ls := [n] + UpTo(n), UpTo(|d|);
      && Indexes(ks, d) && Indexes(ls, d) && SetOf(ks) == SetOf(ls)
      && Run(s, InTurn(d, ks, ack, now)).tcb.rcvNxt == d[n].seqNo
      && Run(s, InTurn(d, ls, ack, now)).tcb.rcvNxt == Pos(base, d, |d|) > d[n].seqNo
  {
    var n, w, r := |d| - 1, s.tcb.rcvWnd, s.inbox.recvQ;
    SegmentStart(d, base, n);
    DivisionIncreases(d, base, n, |d|);
    AssembledAtFirst(s, d, base, ack);
    SameSegments(n);
    hide *;
    InOrderReaches(s, d, base, ack, w, r, now);
    FarFirst(s, d, base, ack, w, r, n, now);
  }

  lemma SameSegments(n: nat)
    ensures SetOf([n] + UpTo(n)) == SetOf(UpTo(n + 1))
  {
    assert UpTo(n + 1) == UpTo(n) + [n];
  }

  lemma AssembledAtFirst(s: Sock, d: seq<Skb>, base: nat, ack: u32)
    requires Division(d, base) && Sink(s, ack) && s.tcb.rcvNxt == base && s.inbox.ofoQ == []
    ensures Assembled(s, d, base, ack, s.tcb.rcvWnd, s.inbox.recvQ, {})
  {
    PosEnd(base, d);
    NothingAbove(d, 0);
    assert d[..0] == [] && s.inbox.recvQ + [] == s.inbox.recvQ;
  }

  lemma {:induction false} NothingAbove(d: seq<Skb>, i: nat)
    requires i <= |d|
    ensures Above({}, i, d) == [] && FirstMissing({}, i, |d|) == i
    decreases |d| - i
  {
    if i < |d| {
      NothingAbove(d, i + 1);
    }
  }

  ghost predicate OrderIrrelevant(s: Sock, d: seq<Skb>, ack: u32, now: nat) {
    forall ks: seq<nat>, ls: seq<nat> :: Indexes(ks, d) && Indexes(ls, d) && SetOf(ks) == SetOf(ls) ==>
      QueuesOf(Run(s, InTurn(d, ks, ack, now))) == QueuesOf(Run(s, InTurn(d, ls, ack, now)))
  }

  /** Confluence: the order and the repetition of arrivals never matter if and only if the last segment of the
      division starts no further than the window reaches at first. */
  lemma ArrivalOrderIsIrrelevant(s: Sock, d: seq<Skb>, base: nat, ack: u32, now: nat)
    requires Division(d, base) && Plain(d) && Sink(s, ack) && s.tcb.rcvNxt == base && s.inbox.ofoQ == [] && d != []
    requires Pos(base, d, |d|) + s.tcb.rcvWnd < MOD32
    ensures OrderIrrelevant(s, d, ack, now) <==> d[|d| - 1].seqNo <= base + s.tcb.rcvWnd
  {
    var w, r := s.tcb.rcvWnd, s.inbox.recvQ;
    if d[|d| - 1].seqNo <= base + w {
      AssembledAtFirst(s, d, base, ack);
      forall k | 0 <= k < |d| ensures d[k].seqNo <= base + w {
        PosMonotone(base, d, k, |d| - 1);
      }
      hide Division, Plain, Sink, Run, InTurn;
      forall ks: seq<nat>, ls: seq<nat> | Indexes(ks, d) && Indexes(ls, d) && SetOf(ks) == SetOf(ls)
        ensures QueuesOf(Run(s, InTurn(d, ks, ack, now))) == QueuesOf(Run(s, InTurn(d, ls, ack, now)))
      {
        AllAccepted(s, d, base, ack, w, r, ks, now);
        AllAccepted(s, d, base, ack, w, r, ls, now);
      }
    } else {
      FarSegmentIsLost(s, d, base, ack, now);
      hide Division, Plain, Sink, Run, InTurn;
      var n := |d| - 1;
      assert QueuesOf(Run(s, InTurn(d, [n] + UpTo(n), ack, now))) != QueuesOf(Run(s, InTurn(d, UpTo(|d|), ack, now)));
    }
  }

  // ----- what overlapping segments do -----

  function Filler(n: nat): seq<byte> {
    seq(n, _ => 0)
  }

  function Segment(sn: u32, n: nat): Skb
    requires sn + n < MOD32
  {
    Skb(sn, sn + n, ACK_FLAGS, [], Filler(n))
  }

  /** A segment inside the window is put on its queue. */
  lemma SegmentQueued(s: Sock, skb: Skb, ack: u32, now: nat)
    requires Sink(s, ack) && skb.flags == ACK_FLAGS && skb.options == [] && skb.payload != []
    requires s.tcb.rcvNxt <= skb.seqNo <= s.tcb.rcvNxt + s.tcb.rcvWnd < MOD32 && skb.endSeq == U32(skb.seqNo + |skb.payload|)
    ensures var t := Input(s, SegmentPacket(skb, ack), now);
      Sink(t, ack) && t.tcb.rcvWnd == s.tcb.rcvWnd && QueuesOf(t) == Queueing(QueuesOf(s), skb)
  {
    hide Input, Queueing, AckStage;
    var p := SegmentPacket(skb, ack);
    SinkStays(s, p, ack, now);
    InputQueues(s, p, now);
    assert SkbOf(p) == skb;
    assert ReachesText(s, p);
  }

  lemma ThreeTurns(s: Sock, d: seq<Skb>, i: nat, j: nat, k: nat, ack: u32, now: nat)
    requires i < |d| && j < |d| && k < |d|
    ensures var s1 := Input(s, SegmentPacket(d[i], ack), now);
      var s2 := Input(s1, SegmentPacket(d[j], ack), now);
      Run(s, InTurn(d, [i, j, k], ack, now)) == Input(s2, SegmentPacket(d[k], ack), now)
  {
    hide Input, SegmentPacket;
    InTurnStep(s, d, [i, j, k], ack, now);
    assert [i, j, k][..2] == [i, j] && [i, j][..1] == [i] && [i][..0] == [];
    InTurnStep(s, d, [i, j], ack, now);
    InTurnStep(s, d, [i], ack, now);
  }

  /** With an empty queue in front of a gap: `late` and `early`, then `first`, which they continue. */
  lemma OverlapQueues(q: Queues, first: Skb, early: Skb, late: Skb)
    requires q.rcvNxt == 1000 && q.ofoQ == []
    requires first == Segment(1000, 500) && early == Segment(1500, 1000) && late == Segment(2000, 1000)
    ensures Queueing(q, late) == q.(ofoQ := [late]) && Queueing(q, early) == q.(ofoQ := [early])
    ensures Queueing(q.(ofoQ := [late]), early) == q.(ofoQ := [late, early])
    ensures Queueing(q.(ofoQ := [early]), late) == q.(ofoQ := [early, late])
    ensures Queueing(q.(ofoQ := [late, early]), first).rcvNxt == 1500
    ensures Queueing(q.(ofoQ := [early, late]), first).rcvNxt == 2500
  {
    assert InsertFrom([late], 0, early) == InsertFrom([late], 1, early) == [late, early];
    assert InsertFrom([early], 0, late) == InsertFrom([early], 1, late) == [early, late];
    assert [early, late][1..] == [late] && [early, late][..1] == [early];
    assert ReadyPrefix(1500, [late, early]) == 0;
    assert ReadyPrefix(2500, [late]) == 0;
    assert ReadyPrefix(1500, [early, late]) == 1;
  }

  /** Three segments of one stream, the last two overlapping: which one comes first decides whether the
      receiver gets past the overlap. In the first order a segment that continues the stream stays behind
      the head of the queue. */
  lemma OverlapBreaksConfluence(s: Sock, ack: u32, now: nat)
    requires Sink(s, ack) && s.tcb.rcvNxt == 1000 && s.tcb.rcvWnd == INITIAL_WINDOW && s.inbox.ofoQ == []
    ensures var d := [Segment(1000, 500), Segment(1500, 1000), Segment(2000, 1000)];
      && Run(s, InTurn(d, [2, 1, 0], ack, now)).tcb.rcvNxt == 1500
      && Run(s, InTurn(d, [1, 2, 0], ack, now)).tcb.rcvNxt == 2500
  {
    var d := [Segment(1000, 500), Segment(1500, 1000), Segment(2000, 1000)];
    ThreeTurns(s, d, 2, 1, 0, ack, now);
    ThreeTurns(s, d, 1, 2, 0, ack, now);
    OverlapQueues(QueuesOf(s), d[0], d[1], d[2]);
    hide Run, InTurn, Input, Queueing, Filler;
    var lateFirst, earlyFirst := Input(s, SegmentPacket(d[2], ack), now), Input(s, SegmentPacket(d[1], ack), now);
    SegmentQueued(s, d[2], ack, now);
    SegmentQueued(s, d[1], ack, now);
    SegmentQueued(lateFirst, d[1], ack, now);
    SegmentQueued(earlyFirst, d[2], ack, now);
    SegmentQueued(Input(lateFirst, SegmentPacket(d[1], ack), now), d[0], ack, now);
    SegmentQueued(Input(earlyFirst, SegmentPacket(d[2], ack), now), d[0], ack, now);
  }
}
