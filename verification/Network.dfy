/** Two sockets of this stack, one sending and one receiving, over a network that loses, duplicates,
    delays and reorders everything in both directions. */
module Network {
  import opened Words
  import opened TcpTypes
  import opened Tcp
  import opened TcpOutput
  import opened TcpData
  import opened TcpInput
  import opened Host
  import opened Stream
  import opened SenderQueue
  import opened Sender
  import opened Receiver
  import opened AckSource

  /** `written` and `read` are what the two users have passed to `tcp_send` and got from `tcp_read`. `c`
      is every buffer that the sender has queued, and `closed` whether a FIN is among them. `base` and
      `me` are the sequence numbers of the first byte of either direction. */
  datatype System = System(a: Sock, b: Sock, clock: nat, c: seq<Skb>, closed: bool,
                           written: seq<byte>, read: seq<byte>, base: u32, me: u32)

  /** The network delivers any packet that was ever sent, at any time and any number of times, or never.
      `AtSender` and `AtReceiver` are calls of the users and timers. */
  datatype Action =
    | AtSender(e: Event)
    | AtReceiver(e: Event)
    | ToReceiver(i: nat)
    | ToSender(i: nat)
    | Pass(ms: nat)

  function SenderDoes(sys: System, e: Event): System {
    sys.(a := Step(sys.a, e, sys.clock),
         c := sys.c + NewSegments(sys.a, e),
         closed := sys.closed || Closes(sys.a, e),
         written := sys.written + if e.WriteCall? && Writable(sys.a) then e.buf else [])
  }

  function ReceiverDoes(sys: System, e: Event): System {
    sys.(b := Step(sys.b, e, sys.clock), read := sys.read + Delivered(sys.b, e, sys.clock))
  }

  /** The transfer is one-way: the receiver neither writes nor closes. */
  predicate ReceiverMay(e: Event) {
    !e.WriteCall? && !e.CloseRequest? && !e.Arrival?
  }

  function Apply(sys: System, act: Action): System {
    match act
    case AtSender(e) => if e.Arrival? then sys else SenderDoes(sys, e)
    case AtReceiver(e) => if ReceiverMay(e) then ReceiverDoes(sys, e) else sys
    case ToReceiver(i) => if i < |sys.a.wire| then ReceiverDoes(sys, Arrival(sys.a.wire[i])) else sys
    case ToSender(i) => if i < |sys.b.wire| then SenderDoes(sys, Arrival(sys.b.wire[i])) else sys
    case Pass(ms) => sys.(clock := sys.clock + ms)
  }

  function Exec(sys: System, acts: seq<Action>): System {
    if acts == [] then sys else Apply(Exec(sys, acts[..|acts| - 1]), acts[|acts| - 1])
  }

  function SynAck(iss: u32, peer: u32, options: seq<byte>): Packet {
    Packet(peer, U32(iss + 1), Flags(false, true, false, false, true), options, [])
  }

  /** An active open answered by a SYN+ACK with sequence number `peer`: how this stack connects. */
  function Opened(iss: u32, peer: u32, options: seq<byte>, now: nat): Sock {
    Input(Connect(FRESH, iss, now), SynAck(iss, peer, options), now)
  }

  function Start(issA: u32, issB: u32, optionsA: seq<byte>, optionsB: seq<byte>, now: nat): System {
    System(Opened(issA, issB, optionsA, now), Opened(issB, issA, optionsB, now), now, [], false, [], [],
           U32(issA + 1), U32(issB + 1))
  }

  /** Initial sequence numbers for which the handshake works: 0 and 2^32 - 1 do not. */
  predicate GoodIss(iss: u32) {
    0 < iss < MOD32 - 1
  }

  /** The run has not used up the sequence space: the stream and its FIN fit below 2^32. */
  predicate FitsSpace(sys: System) {
    sys.base + |sys.written| + 1 < MOD32
  }

  function GroundOf(sys: System): Ground {
    Ground(sys.c, sys.base, sys.closed, sys.a.tcb.sndNxt, sys.me)
  }

  predicate Inv(sys: System) {
    var g := GroundOf(sys);
    && sys.written == Flat(sys.c)
    && Sound(g)
    && SenderInv(sys.a, g.c, g.base, g.closed, g.me)
    && Receiving(sys.b, g, sys.read)
    && Delivers(sys) && sys.a.tcb.rcvWnd == INITIAL_WINDOW
  }

  /** What the sender regards as acknowledged has been received. */
  predicate Delivers(sys: System) {
    Live(sys.a) ==> sys.a.tcb.sndUna <= sys.b.tcb.rcvNxt
  }

  // ----- the start -----

  /** Nothing but SYNs has been sent: the first one and however many times it was resent. */
  predicate SynsOnly(wire: seq<Packet>, iss: u32) {
    forall i :: 0 <= i < |wire| ==> Pure(wire[i]) && wire[i].seqNo == iss && !wire[i].flags.ack
  }

  /** Then the SYN+ACK with sequence number `peer` has been acknowledged. */
  predicate SynsAndAck(wire: seq<Packet>, iss: u32, peer: u32) {
    && iss + 1 < MOD32 && peer + 1 < MOD32 && |wire| > 1
    && var n := |wire| - 1;
       SynsOnly(wire[..n], iss) && Pure(wire[n]) && wire[n].seqNo == iss + 1 && wire[n].ackSeq == peer + 1
  }

  predicate SynInFlight(s: Sock, iss: u32) {
    && GoodIss(iss) && s.state == SynSent && s.tcb == Tcb(iss, 0, iss, iss + 1, 0, INITIAL_WINDOW)
    && s.rtx.strays == [] && s.inflight == 1 && s.inbox == Inbox([], [], false, false, false)
    && |s.writeQ| == 1 && s.writeQ[0].seqNo == s.writeQ[0].endSeq == iss
    && s.wire != [] && SynsOnly(s.wire, iss)
  }

  lemma ConnectSendsSyn(iss: u32, now: nat)
    requires GoodIss(iss)
    ensures var s := Connect(FRESH, iss, now); SynInFlight(s, iss) && s.rtx.srtt == s.rtx.rttvar == 0
  {
  }

  lemma SynAckOpens(s: Sock, iss: u32, peer: u32, options: seq<byte>, now: nat)
    requires SynInFlight(s, iss) && s.rtx.srtt == s.rtx.rttvar == 0 && GoodIss(peer)
    ensures JustOpened(Input(s, SynAck(iss, peer, options), now), iss, peer)
  {
    hide Connect, ParseFrom, OptionsLen, OptionsAfter, SacksAfter;
    var s1 := LearnSyn(s, SynAck(iss, peer, options));
    assert s1.writeQ == [] && s1.inflight == 0 && s1.rtx.timer == None && s1.rtx.strays == [];
    assert s1.tcb == Tcb(iss, peer, iss + 1, iss + 1, peer + 1, INITIAL_WINDOW);
    hide LearnSyn, SynInFlight;
  }

  lemma OpenedState(iss: u32, peer: u32, options: seq<byte>, now: nat)
    requires GoodIss(iss) && GoodIss(peer)
    ensures JustOpened(Opened(iss, peer, options, now), iss, peer)
  {
    ConnectSendsSyn(iss, now);
    hide Input, Connect, SynInFlight, JustOpened;
    SynAckOpens(Connect(FRESH, iss, now), iss, peer, options, now);
  }

  lemma StartSends(s: Sock, me: u32)
    requires s.state == Established && s.tcb.sndUna == s.tcb.sndNxt && 0 < s.tcb.sndNxt < MOD32 - 1
    requires s.tcb.rcvNxt == me && s.rtx.timer == None && s.rtx.strays == []
    requires s.inflight == 0 && s.writeQ == [] && forall i :: 0 <= i < |s.wire| ==> Pure(s.wire[i])
    ensures SenderInv(s, [], s.tcb.sndNxt, false, me)
  {
    PosEnd(s.tcb.sndNxt, []);
  }

  lemma StartReceives(s: Sock, g: Ground)
    requires g.c == [] && !g.closed && g.nxt == g.base == s.tcb.rcvNxt
    requires s.state == Established && s.tcb.sndUna == s.tcb.sndNxt == g.me && s.tcb.rcvWnd == INITIAL_WINDOW
    requires s.rtx.timer == None && s.rtx.strays == []
    requires s.inflight == 0 && s.writeQ == [] && s.inbox == Inbox([], [], false, false, false)
    requires g.me > 0 && g.base > 0 && SynsAndAck(s.wire, g.me - 1, g.base - 1)
    ensures Receiving(s, g, [])
  {
    PosEnd(g.base, g.c);
    assert Pos(g.base, g.c, 0) in Ends(g);
    assert AckPoint(g.base, g.c, g.base, g.closed);
    hide Pos, Ends;
  }

  /** A socket that has completed an active open against a peer and has done nothing since. */
  predicate JustOpened(s: Sock, iss: u32, peer: u32) {
    && GoodIss(iss) && GoodIss(peer)
    && s.state == Established && s.err == 0
    && s.tcb == Tcb(iss, peer, iss + 1, iss + 1, peer + 1, INITIAL_WINDOW)
    && s.rtx == Rtx(0, 0, 0, 1000, None, [])
    && s.inflight == 0 && s.writeQ == [] && s.inbox == Inbox([], [], false, false, false)
    && SynsAndAck(s.wire, iss, peer)
  }

  lemma PairInv(a: Sock, b: Sock, issA: u32, issB: u32, now: nat)
    requires JustOpened(a, issA, issB) && JustOpened(b, issB, issA) && issA + 2 < MOD32
    ensures Inv(System(a, b, now, [], false, [], [], issA + 1, issB + 1))
  {
    var g := Ground([], issA + 1, false, issA + 1, issB + 1);
    StartSends(a, issB + 1);
    StartReceives(b, g);
    hide SenderInv, Receiving;
    assert Flat([]) == [];
  }

  /** Two sockets that have just opened a connection with each other. */
  predicate Initial(sys: System) {
    && sys.base > 0 && sys.me > 0
    && JustOpened(sys.a, sys.base - 1, sys.me - 1) && JustOpened(sys.b, sys.me - 1, sys.base - 1)
    && sys.c == [] && !sys.closed && sys.written == [] && sys.read == []
  }

  /** The handshake of the stack leads there. */
  lemma HandshakeOpens(issA: u32, issB: u32, optionsA: seq<byte>, optionsB: seq<byte>, now: nat)
    requires GoodIss(issA) && GoodIss(issB)
    ensures Initial(Start(issA, issB, optionsA, optionsB, now))
  {
    OpenedState(issA, issB, optionsA, now);
    OpenedState(issB, issA, optionsB, now);
    hide Opened, JustOpened;
  }

  lemma InitialInv(sys: System)
    requires Initial(sys) && FitsSpace(sys)
    ensures Inv(sys)
  {
    hide JustOpened, Inv;
    PairInv(sys.a, sys.b, sys.base - 1, sys.me - 1, sys.clock);
  }

  // ----- the steps -----

  lemma NewSegmentsFlat(s: Sock, e: Event)
    ensures Flat(NewSegments(s, e)) == if e.WriteCall? && Writable(s) then e.buf else []
    ensures forall k :: 0 <= k < |NewSegments(s, e)| ==> WellFormed(NewSegments(s, e)[k])
    ensures !Closes(s, e) ==> forall k :: 0 <= k < |NewSegments(s, e)| ==> !NewSegments(s, e)[k].flags.fin
  {
    if e.WriteCall? && Writable(s) {
      SegmentizeCutsStream(e.buf, s.smss);
    } else if Closes(s, e) {
      FlatCons(FIN_SKB, []);
    }
  }

  /** The stream grows only at its end and not after its FIN. */
  lemma StreamGrows(sys: System, e: Event)
    requires Inv(sys) && FitsSpace(SenderDoes(sys, e))
    ensures var t := SenderDoes(sys, e);
      && t.written == Flat(t.c) && WellCut(t.c, t.closed) && NoWrap(t.base, t.c)
      && (sys.closed ==> t.c == sys.c)
  {
    hide Step, Receiving, Layout, WireGood;
    var more := NewSegments(sys.a, e);
    if sys.closed {
      assert more == [] && !Closes(sys.a, e);
      assert sys.c + more == sys.c;
    } else {
      NewSegmentsFlat(sys.a, e);
      FlatAppend(sys.c, more);
      AppendCut(sys.c, more, Closes(sys.a, e));
    }
    hide Segmentize, WellCut;
  }

  lemma AppendCut(c: seq<Skb>, more: seq<Skb>, closes: bool)
    requires WellCut(c, false)
    requires forall k :: 0 <= k < |more| ==> WellFormed(more[k])
    requires if closes then more == [FIN_SKB] else forall k :: 0 <= k < |more| ==> !more[k].flags.fin
    ensures WellCut(c + more, closes)
  {
  }

  lemma SenderStep(sys: System, e: Event)
    requires Inv(sys) && FitsSpace(SenderDoes(sys, e))
    requires e.Arrival? ==> SourceAck(e.p, GroundOf(sys))
    ensures var t := SenderDoes(sys, e);
      && SenderInv(t.a, t.c, t.base, t.closed, t.me)
      && sys.a.tcb.sndNxt <= t.a.tcb.sndNxt
  {
    StreamGrows(sys, e);
    var g := GroundOf(sys);
    hide SenderInv, Receiving, NoWrap, WellCut;
    if e.Arrival? {
      InputKeepsSender(sys.a, e.p, sys.clock, g.c, g.base, g.closed, g.me);
      assert sys.c + NewSegments(sys.a, e) == sys.c;
      hide Input;
    } else {
      EventKeepsSender(sys.a, e, sys.clock, g.c, g.base, g.closed, g.me);
      hide Step;
    }
  }

  lemma SenderKeepsInv(sys: System, e: Event)
    requires Inv(sys) && FitsSpace(SenderDoes(sys, e))
    requires e.Arrival? ==> SourceAck(e.p, GroundOf(sys)) && (e.p.flags.ack ==> e.p.ackSeq <= sys.b.tcb.rcvNxt)
    ensures Inv(SenderDoes(sys, e))
  {
    UnaFollowsAcks(sys.a, e, sys.clock);
    SenderStep(sys, e);
    StreamGrows(sys, e);
    hide Step, SenderInv, NewSegments;
    var g, h := GroundOf(sys), GroundOf(SenderDoes(sys, e));
    assert Grows(g, h);
    ReceivingGrows(sys.b, g, h, sys.read);
    hide Receiving;
  }

  lemma ReceiverKeepsInv(sys: System, e: Event)
    requires Inv(sys) && !e.WriteCall? && !e.CloseRequest?
    requires e.Arrival? ==> GoodPacket(e.p, sys.c, sys.base, sys.a.tcb.sndNxt)
    ensures Inv(ReceiverDoes(sys, e))
  {
    hide Step, SenderInv, Delivered, Receiving;
    EventKeepsAcking(sys.b, e, sys.clock, GroundOf(sys), sys.read);
  }

  lemma ApplyKeepsInv(sys: System, act: Action)
    requires Inv(sys) && FitsSpace(Apply(sys, act))
    ensures Inv(Apply(sys, act))
  {
    hide Step, Received, Delivered, NewSegments, Sending;
    match act {
      case AtSender(e) => if !e.Arrival? { SenderKeepsInv(sys, e); }
      case AtReceiver(e) => if ReceiverMay(e) { ReceiverKeepsInv(sys, e); }
      case ToReceiver(i) => if i < |sys.a.wire| { ReceiverKeepsInv(sys, Arrival(sys.a.wire[i])); }
      case ToSender(i) => if i < |sys.b.wire| { SenderKeepsInv(sys, Arrival(sys.b.wire[i])); }
      case Pass(ms) =>
    }
  }

  lemma SpaceShrinks(sys: System, act: Action)
    ensures sys.base == Apply(sys, act).base && sys.written <= Apply(sys, act).written
  {
    hide Step, Delivered, NewSegments;
  }

  lemma {:induction false} ExecSpace(sys: System, acts: seq<Action>)
    ensures sys.base == Exec(sys, acts).base && sys.written <= Exec(sys, acts).written
  {
    hide Apply;
    if acts != [] {
      ExecSpace(sys, acts[..|acts| - 1]);
      SpaceShrinks(Exec(sys, acts[..|acts| - 1]), acts[|acts| - 1]);
    }
  }

  lemma {:induction false} ExecKeepsInv(sys: System, acts: seq<Action>)
    requires Inv(sys) && FitsSpace(Exec(sys, acts))
    ensures Inv(Exec(sys, acts))
  {
    hide Apply, Inv;
    if acts != [] {
      var n := |acts| - 1;
      SpaceShrinks(Exec(sys, acts[..n]), acts[n]);
      ExecKeepsInv(sys, acts[..n]);
      ApplyKeepsInv(Exec(sys, acts[..n]), acts[n]);
    }
  }

  /** A sender that has retired stays so. */
  lemma LiveBefore(sys: System, e: Event)
    requires Inv(sys) && Live(SenderDoes(sys, e).a)
    ensures Live(sys.a)
  {
    UnaFollowsAcks(sys.a, e, sys.clock);
    hide Step, Receiving, Layout, WireGood;
  }

  lemma WireAcknowledges(sys: System, i: nat)
    requires Inv(sys) && i < |sys.b.wire|
    ensures SourceAck(sys.b.wire[i], GroundOf(sys))
    ensures sys.b.wire[i].flags.ack ==> sys.b.wire[i].ackSeq <= sys.b.tcb.rcvNxt
  {
    hide Layout, WireGood, Received, SourceAck;
  }

  // ----- the theorems -----

  /** End-to-end safety. Whatever the network loses, repeats and reorders, and however reads, writes,
      closes, aborts and timers interleave, the bytes read followed by those waiting to be read are a
      prefix of the bytes written. */
  lemma EndToEnd(start: System, acts: seq<Action>)
    requires Initial(start) && FitsSpace(Exec(start, acts))
    ensures var sys := Exec(start, acts);
      sys.read + Flat(sys.b.inbox.recvQ) <= sys.written
  {
    hide Exec;
    ReachableInv(start, acts);
  }

  /** The invariant holds in every reachable state. */
  lemma ReachableInv(start: System, acts: seq<Action>)
    requires Initial(start) && FitsSpace(Exec(start, acts))
    ensures Inv(start) && Inv(Exec(start, acts))
  {
    ExecSpace(start, acts);
    assert FitsSpace(start);
    hide *;
    InitialInv(start);
    ExecKeepsInv(start, acts);
  }

  /** Every packet with data that was ever sent, first time or again, carries what was written at its offset. */
  lemma WireCarriesStream(sys: System, i: nat)
    requires Inv(sys) && i < |sys.a.wire| && sys.a.wire[i].payload != []
    ensures var p := sys.a.wire[i]; var n := p.seqNo - sys.base;
      && 0 <= n && n + |p.payload| <= |sys.written|
      && sys.written[n..n + |p.payload|] == p.payload
  {
    var g, p := GroundOf(sys), sys.a.wire[i];
    assert GoodPacket(p, g.c, g.base, g.nxt);
    GoodPacketFits(p, g);
    hide GoodPacket;
  }

  /** A sender with nothing left to acknowledge has had everything delivered: no written byte is missing. */
  lemma AcknowledgedMeansDelivered(sys: System)
    requires Inv(sys) && Live(sys.a) && sys.a.writeQ == [] && sys.b.state in {Established, CloseWait}
    ensures sys.read + Flat(sys.b.inbox.recvQ) == sys.written
  {
    PosEnd(sys.base, sys.c);
    hide Flat, Ends, WireGood;
  }

  /** While the sender transfers data it has one retransmission timer, armed exactly while something is in
      flight; and something is in flight exactly while anything is queued. */
  lemma TimerArmedWhileInFlight(sys: System)
    requires Inv(sys) && Live(sys.a)
    ensures sys.a.rtx.timer.Some? <==> sys.a.inflight > 0
    ensures sys.a.inflight == 0 <==> sys.a.writeQ == []
    ensures sys.a.inflight <= MAX_BURST && sys.a.inflight <= |sys.a.writeQ| && sys.a.rtx.strays == []
  {
    hide WireGood, Receiving;
  }

  /** The sender's queue is the tail of what was written: a transmitted part from `snd_una` to `snd_nxt`, then
      segments with no sequence number yet. */
  lemma QueueIsTailOfStream(sys: System)
    requires Inv(sys) && Live(sys.a)
    ensures var j := |sys.c| - |sys.a.writeQ|;
      && 0 <= j && Flat(sys.c[..j]) + Flat(sys.a.writeQ) == sys.written
      && (sys.a.writeQ != [] ==> sys.a.tcb.sndUna == sys.base + |Flat(sys.c[..j])|)
      && forall i :: sys.a.inflight <= i < |sys.a.writeQ| ==> sys.a.writeQ[i].seqNo == 0
  {
    var j := |sys.c| - |sys.a.writeQ|;
    FlatSplit(sys.c, j);
    assert forall i :: 0 <= i < |sys.a.writeQ| ==> Holds(sys.a.writeQ[i], sys.c, sys.base, j + i, i < sys.a.inflight);
    FlatSame(sys.a.writeQ, sys.c[j..]);
    hide WireGood, Receiving, Flat, QueueHolds;
  }

  lemma {:induction false} FlatSame(p: seq<Skb>, q: seq<Skb>)
    requires |p| == |q| && forall i :: 0 <= i < |p| ==> p[i].payload == q[i].payload
    ensures Flat(p) == Flat(q)
  {
    if p != [] {
      FlatSame(p[1..], q[1..]);
    }
  }
}
