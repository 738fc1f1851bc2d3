/** What every event keeps of a socket that receives a stream and sends nothing but acknowledgements. */
module AckSource {
  import opened Words
  import opened TcpTypes
  import opened Tcp
  import opened TcpOutput
  import opened TcpData
  import opened TcpInput
  import opened Host
  import opened Stream
  import opened SenderQueue
  import opened Sender
  import opened Receiver

  /** What the sender has committed to: its segments, whether the last is a FIN, how far it has sent, and
      the sequence number `me` that all segments of the receiver carry. */
  datatype Ground = Ground(c: seq<Skb>, base: nat, closed: bool, nxt: nat, me: u32)

  predicate Sound(g: Ground) {
    WellCut(g.c, g.closed) && NoWrap(g.base, g.c)
  }

  /** The segment boundaries that the sender has reached. */
  function Ends(g: Ground): set<nat> {
    set k: nat | k <= |g.c| && Pos(g.base, g.c, k) <= g.nxt :: Pos(g.base, g.c, k)
  }

  function ViewOf(g: Ground): View {
    View(Flat(g.c), g.base, Ends(g))
  }

  /** A value that `rcv_nxt` may have: a boundary reached by the sender, or just past its FIN. */
  predicate AckNum(x: nat, g: Ground) {
    x in Ends(g) || (g.closed && x == Pos(g.base, g.c, |g.c|) + 1 <= g.nxt)
  }

  predicate SourceAck(p: Packet, g: Ground) {
    GoodAck(p, g.c, g.base, g.closed, g.me)
  }

  /** Every acknowledgement sent so far, none beyond `nxt`. */
  predicate WireAcks(wire: seq<Packet>, g: Ground, nxt: nat) {
    forall i :: 0 <= i < |wire| ==> SourceAck(wire[i], g) && (wire[i].flags.ack ==> wire[i].ackSeq <= nxt)
  }

  /** Nothing to send and nothing sent. */
  predicate Quiet(s: Sock, g: Ground) {
    && s.state in {Established, CloseWait, Closing, TimeWait}
    && s.writeQ == [] && s.inflight == 0 && s.rtx.timer == None && s.rtx.strays == []
    && s.tcb.sndUna == g.me && s.tcb.sndNxt == g.me && s.tcb.rcvWnd == INITIAL_WINDOW
    && (s.state == CloseWait ==> PastFin(s.tcb.rcvNxt, g))
  }

  predicate PastFin(x: nat, g: Ground) {
    g.closed && x == Pos(g.base, g.c, |g.c|) + 1
  }

  predicate Acking(s: Sock, g: Ground) {
    Quiet(s, g) && AckNum(s.tcb.rcvNxt, g) && WireAcks(s.wire, g, s.tcb.rcvNxt)
  }

  lemma AckNumIsPoint(x: nat, g: Ground)
    requires AckNum(x, g)
    ensures AckPoint(x, g.c, g.base, g.closed) && x <= g.nxt
  {
  }

  /** The sender's packets agree with its stream. */
  lemma GoodPacketFits(p: Packet, g: Ground)
    requires Sound(g) && GoodPacket(p, g.c, g.base, g.nxt)
    ensures FitsPacket(p, ViewOf(g))
    ensures p.flags.fin ==> p.payload == [] && !p.flags.psh && g.closed
                            && p.seqNo == Pos(g.base, g.c, |g.c|) && p.seqNo + 1 <= g.nxt
  {
    if !Pure(p) {
      var k :| 0 <= k < |g.c| && Carries(p, g.c, g.base, k)
               && Pos(g.base, g.c, k + 1) + (if g.c[k].flags.fin then 1 else 0) <= g.nxt;
      hide *;
      CarriedFits(p, g, k);
    }
  }

  lemma CarriedFits(p: Packet, g: Ground, k: nat)
    requires Sound(g) && k < |g.c| && Carries(p, g.c, g.base, k)
    requires Pos(g.base, g.c, k + 1) + (if g.c[k].flags.fin then 1 else 0) <= g.nxt
    ensures FitsPacket(p, ViewOf(g))
    ensures p.flags.fin ==> p.payload == [] && !p.flags.psh && g.closed
                            && p.seqNo == Pos(g.base, g.c, |g.c|) && p.seqNo + 1 <= g.nxt
  {
    SegmentInStream(g.base, g.c, k);
    PosNext(g.base, g.c, k);
    assert WellFormed(g.c[k]);
    assert Pos(g.base, g.c, k + 1) in Ends(g);
    hide Pos, Ends;
  }

  // ----- growth -----

  /** The sender has moved on from `g` to `h`. */
  predicate Grows(g: Ground, h: Ground) {
    && g.base == h.base && g.me == h.me && g.nxt <= h.nxt
    && |g.c| <= |h.c| && h.c[..|g.c|] == g.c
    && (g.closed ==> h.closed && h.c == g.c)
  }

  lemma PosStable(g: Ground, h: Ground, k: nat)
    requires Grows(g, h) && k <= |g.c|
    ensures Pos(h.base, h.c, k) == Pos(g.base, g.c, k)
  {
    assert h.c[..k] == g.c[..k];
  }

  lemma EndsGrow(g: Ground, h: Ground)
    requires Grows(g, h)
    ensures Ends(g) <= Ends(h)
  {
    forall x | x in Ends(g) ensures x in Ends(h) {
      var k: nat :| k <= |g.c| && Pos(g.base, g.c, k) <= g.nxt && x == Pos(g.base, g.c, k);
      PosStable(g, h, k);
    }
  }

  lemma AckPointGrows(x: nat, g: Ground, h: Ground)
    requires Grows(g, h) && AckPoint(x, g.c, g.base, g.closed)
    ensures AckPoint(x, h.c, h.base, h.closed)
  {
    if m :| 0 <= m <= |g.c| && x == Pos(g.base, g.c, m) {
      PosStable(g, h, m);
    }
  }

  lemma AckingGrows(s: Sock, g: Ground, h: Ground)
    requires Grows(g, h) && Acking(s, g)
    ensures Acking(s, h)
  {
    EndsGrow(g, h);
    forall i | 0 <= i < |s.wire| ensures SourceAck(s.wire[i], h) {
      assert SourceAck(s.wire[i], g);
      if s.wire[i].flags.ack {
        AckPointGrows(s.wire[i].ackSeq, g, h);
      }
    }
  }

  lemma ReceivedGrows(s: Sock, g: Ground, h: Ground, read: seq<byte>)
    requires Grows(g, h) && Received(s, ViewOf(g), read)
    ensures Received(s, ViewOf(h), read)
  {
    EndsGrow(g, h);
    FlatSplit(h.c, |g.c|);
    var v, w := ViewOf(g), ViewOf(h);
    forall i | 0 <= i < |s.inbox.ofoQ| && AcceptsText(s)
      ensures Fits(s.inbox.ofoQ[i].seqNo, s.inbox.ofoQ[i].payload, w)
    {
      assert Fits(s.inbox.ofoQ[i].seqNo, s.inbox.ofoQ[i].payload, v);
    }
  }

  // ----- events -----

  lemma SendAckKeepsAcking(s: Sock, g: Ground)
    requires Acking(s, g)
    ensures Acking(SendAck(s), g)
  {
    SendAckEffect(s);
    AckNumIsPoint(s.tcb.rcvNxt, g);
    assert SourceAck(AckPacket(s), g);
    hide SendAck, AckNum, SourceAck;
  }

  lemma AckingSame(s: Sock, t: Sock, g: Ground)
    requires Acking(s, g) && Quiet(t, g) && t.wire == s.wire && t.tcb.rcvNxt == s.tcb.rcvNxt
    ensures Acking(t, g)
  {
  }

  lemma AcceptAdvances(s: Sock, skb: Skb)
    ensures var t := Accept(s, skb);
      && t == s.(tcb := s.tcb.(rcvNxt := t.tcb.rcvNxt), inbox := t.inbox)
      && |Flat(t.inbox.recvQ)| >= |Flat(s.inbox.recvQ)| + |skb.payload|
  {
    var k := ReadyPrefix(U32(s.tcb.rcvNxt + |skb.payload|), s.inbox.ofoQ);
    FlatSnoc(s.inbox.recvQ, skb);
    FlatAppend(s.inbox.recvQ + [skb], s.inbox.ofoQ[..k]);
    hide ReadyPrefix, Advance, Flat;
  }

  lemma AcceptKeepsAcking(s: Sock, skb: Skb, g: Ground, read: seq<byte>)
    requires Acking(s, g) && Received(s, ViewOf(g), read) && AcceptsText(s) && InRange(ViewOf(g))
    requires Fits(skb.seqNo, skb.payload, ViewOf(g)) && skb.seqNo == s.tcb.rcvNxt
    ensures var t := Accept(s, skb);
      && Acking(t, g) && Received(t, ViewOf(g), read) && t.state == s.state && t.delack == s.delack
      && s.tcb.rcvNxt + |skb.payload| <= t.tcb.rcvNxt
  {
    AcceptReceives(s, skb, ViewOf(g), read);
    AcceptAdvances(s, skb);
    hide Accept, Flat, Ends, FitsQueue, Fits, SourceAck, PastFin;
  }

  lemma TextKeepsAcking(s: Sock, p: Packet, g: Ground, read: seq<byte>)
    requires Acking(s, g) && Received(s, ViewOf(g), read) && Sound(g) && GoodPacket(p, g.c, g.base, g.nxt)
    ensures var t := TextStage(s, p);
      && Acking(t, g) && Received(t, ViewOf(g), read) && t.state == s.state
      && s.tcb.rcvNxt <= t.tcb.rcvNxt
  {
    GoodPacketFits(p, g);
    PosEnd(g.base, g.c);
    TextReceives(s, p, ViewOf(g), read);
    if AcceptsText(s) && (p.flags.psh || |p.payload| > 0) {
      if p.seqNo == s.tcb.rcvNxt {
        AcceptKeepsAcking(s, SkbOf(p), g, read);
      } else {
        DeferKeepsAcking(s, SkbOf(p), g);
      }
    }
    hide Accept, Defer, Flat, Ends, FitsQueue, WireAcks, GoodPacket;
  }

  lemma DeferKeepsAcking(s: Sock, skb: Skb, g: Ground)
    requires Acking(s, g)
    ensures Acking(Defer(s, skb), g) && Defer(s, skb).tcb == s.tcb
  {
    var q := InsertOrdered(s.inbox.ofoQ, skb);
    var s1 := s.(inbox := s.inbox.(ofoQ := q), sack := if s.sack.ok then CalculateSacks(s.sack, q) else s.sack);
    AckingSame(s, s1, g);
    SendAckKeepsAcking(s1, g);
    hide SendAck, CalculateSacks, InsertOrdered;
  }

  /** An in-sequence FIN comes right after the whole stream. */
  lemma FinIsNext(s: Sock, p: Packet, g: Ground)
    requires Sound(g) && GoodPacket(p, g.c, g.base, g.nxt)
    requires p.flags.fin && p.seqNo == s.tcb.rcvNxt
    ensures PastFin(s.tcb.rcvNxt + 1, g) && AckNum(s.tcb.rcvNxt + 1, g) && s.tcb.rcvNxt + 1 < MOD32
    ensures !PastFin(s.tcb.rcvNxt, g)
  {
    GoodPacketFits(p, g);
    NoWrapPos(g.base, g.c, |g.c|);
    hide GoodPacket, Pos;
  }

  lemma FinKeepsAcking(s: Sock, p: Packet, now: nat, g: Ground)
    requires Acking(s, g) && Sound(g) && GoodPacket(p, g.c, g.base, g.nxt)
    requires p.flags.fin && p.seqNo == s.tcb.rcvNxt
    ensures Acking(FinStage(s, now), g) && FinStage(s, now).tcb.rcvNxt == s.tcb.rcvNxt + 1
  {
    FinIsNext(s, p, g);
    hide GoodPacket, Sound, PastFin, AckNum, SourceAck;
    var s1 := s.(tcb := s.tcb.(rcvNxt := U32(s.tcb.rcvNxt + 1)), inbox := s.inbox.(fin := true, pollIn := true));
    assert Acking(s1, g);
    SendAckKeepsAcking(s1, g);
    SendAckEffect(s1);
    hide SendAck, WireAcks;
    AckingSame(SendAck(s1), FinStage(s, now), g);
  }

  lemma PolicyKeepsAcking(s: Sock, p: Packet, now: nat, g: Ground)
    requires Acking(s, g)
    ensures Acking(AckPolicy(s, p, now), g) && AckPolicy(s, p, now).tcb == s.tcb
  {
    var s1 := s.(delacks := 0, delack := None);
    hide AckNum, WireAcks, SendAck;
    AckingSame(s, s1, g);
    SendAckKeepsAcking(s1, g);
  }

  lemma FinAckedKeepsAcking(s: Sock, p: Packet, g: Ground)
    requires Acking(s, g)
    ensures Acking(FinAcked(s, p), g)
  {
    var s1 := s.(inbox := s.inbox.(fin := true));
    hide AckNum, WireAcks, SendAck;
    AckingSame(s, s1, g);
    SendAckKeepsAcking(s1, g);
  }

  predicate Receiving(s: Sock, g: Ground, read: seq<byte>) {
    Acking(s, g) && Received(s, ViewOf(g), read) && Complete(s, g, read)
  }

  lemma ReceivingGrows(s: Sock, g: Ground, h: Ground, read: seq<byte>)
    requires Grows(g, h) && Receiving(s, g, read)
    ensures Receiving(s, h, read)
  {
    AckingGrows(s, g, h);
    ReceivedGrows(s, g, h, read);
    hide Acking, Received;
  }

  /** The FIN is taken only after the whole stream. */
  predicate Complete(s: Sock, g: Ground, read: seq<byte>) {
    s.state == CloseWait ==> g.closed && read + Flat(s.inbox.recvQ) == Flat(g.c)
  }

  lemma TextWithoutData(s: Sock, p: Packet)
    requires p.payload == [] && !p.flags.psh
    ensures TextStage(s, p) == s
  {
  }

  /** `CLOSE_WAIT` is entered by an in-sequence FIN only. */
  lemma EntersCloseWait(s: Sock, p: Packet, now: nat)
    requires Open(s) && s.state != LastAck && (p.flags.fin ==> p.payload == [] && !p.flags.psh)
    requires Input(s, p, now).state == CloseWait
    ensures Input(s, p, now).inbox.recvQ == s.inbox.recvQ
    ensures s.state == CloseWait || (s.state == Established && p.flags.fin && p.seqNo == s.tcb.rcvNxt)
  {
    var s1 := if s.state == TimeWait then s else AckStage(s, p, now);
    AckStageInbox(s, p, now);
    hide AckStage;
    FinAckedInbox(s1, p);
    var s2 := FinAcked(s1, p);
    assert s1.state == Established ==> s2 == s1;
    assert s1.state == CloseWait ==> s2 == s1;
    hide FinAcked;
    ProcessEntersCloseWait(s2, p, now);
    SendAckInbox(s);
    hide ProcessText, SendAck;
  }

  lemma ProcessEntersCloseWait(s: Sock, p: Packet, now: nat)
    requires Open(s) && (p.flags.fin ==> p.payload == [] && !p.flags.psh)
    ensures var t := ProcessText(s, p, now);
      t.state == CloseWait ==>
        && t.inbox.recvQ == s.inbox.recvQ
        && (s.state == CloseWait || (s.state == Established && p.flags.fin && p.seqNo == s.tcb.rcvNxt))
  {
    var s1 := TextStage(s, p);
    TextKeepsUna(s, p);
    FinStageState(s1, now);
    AckPolicyInbox(s1, p, now);
    if p.flags.fin {
      TextWithoutData(s, p);
    } else if !AcceptsText(s) {
      assert s1 == s;
    }
    hide TextStage, AckPolicy, FinStage;
  }

  lemma FinStageState(s: Sock, now: nat)
    requires Open(s)
    ensures var t := FinStage(s, now);
      && t.inbox.recvQ == s.inbox.recvQ && !AcceptsText(t)
      && (t.state == CloseWait ==> s.state in {Established, CloseWait})
  {
    SendAckInbox(s.(tcb := s.tcb.(rcvNxt := U32(s.tcb.rcvNxt + 1)), inbox := s.inbox.(fin := true, pollIn := true)));
    hide SendAck;
  }

  lemma InputCompletes(s: Sock, p: Packet, now: nat, g: Ground, read: seq<byte>)
    requires Receiving(s, g, read) && Sound(g) && GoodPacket(p, g.c, g.base, g.nxt)
    ensures Complete(Input(s, p, now), g, read)
  {
    GoodPacketFits(p, g);
    if Input(s, p, now).state == CloseWait {
      EntersCloseWait(s, p, now);
      PosEnd(g.base, g.c);
    }
    hide Input, Flat, Ends, GoodPacket;
  }

  lemma ProcessKeepsAcking(s: Sock, p: Packet, now: nat, g: Ground, read: seq<byte>)
    requires Receiving(s, g, read) && Sound(g) && GoodPacket(p, g.c, g.base, g.nxt)
    ensures Acking(ProcessText(s, p, now), g) && s.tcb.rcvNxt <= ProcessText(s, p, now).tcb.rcvNxt
  {
    GoodPacketFits(p, g);
    TextKeepsAcking(s, p, g, read);
    var s1 := TextStage(s, p);
    if p.flags.fin {
      assert s1 == s;
    }
    hide TextStage, Acking, GoodPacket, Sound, Received;
    if p.flags.fin && p.seqNo == s.tcb.rcvNxt {
      FinKeepsAcking(s1, p, now, g);
      hide FinStage;
      PolicyKeepsAcking(FinStage(s1, now), p, now, g);
      hide AckPolicy;
    } else {
      PolicyKeepsAcking(s1, p, now, g);
      hide AckPolicy;
    }
  }

  lemma ProcessAckKeepsAcking(s: Sock, p: Packet, now: nat, g: Ground, read: seq<byte>)
    requires Receiving(s, g, read) && Sound(g) && GoodPacket(p, g.c, g.base, g.nxt)
    ensures var t := ProcessAck(s, p, now); Acking(t, g) && s.tcb.rcvNxt <= t.tcb.rcvNxt
  {
    FinAckedKeepsAcking(s, p, g);
    FinAckedInbox(s, p);
    var s1 := FinAcked(s, p);
    ReceivedSame(s, s1, ViewOf(g), read);
    ProcessKeepsAcking(s1, p, now, g, read);
    hide FinAcked, ProcessText, GoodPacket, Sound, Received, AckNum, WireAcks;
    assert !NewAck(s, p);
  }

  lemma InputKeepsAcking(s: Sock, p: Packet, now: nat, g: Ground, read: seq<byte>)
    requires Receiving(s, g, read) && Sound(g) && GoodPacket(p, g.c, g.base, g.nxt)
    ensures Receiving(Input(s, p, now), g, read) && s.tcb.rcvNxt <= Input(s, p, now).tcb.rcvNxt
  {
    GoodPacketFits(p, g);
    PosEnd(g.base, g.c);
    InputReceives(s, p, now, ViewOf(g), read);
    InputCompletes(s, p, now, g, read);
    ProcessAckKeepsAcking(s, p, now, g, read);
    SendAckKeepsAcking(s, g);
    SendAckEffect(s);
    hide ProcessAck, SendAck, GoodPacket, Sound, Received, AckNum, WireAcks, Complete;
  }

  lemma EventKeepsAcking(s: Sock, e: Event, now: nat, g: Ground, read: seq<byte>)
    requires Receiving(s, g, read) && Sound(g)
    requires !e.WriteCall? && !e.CloseRequest? && (e.Arrival? ==> GoodPacket(e.p, g.c, g.base, g.nxt))
    ensures Receiving(Step(s, e, now), g, read + Delivered(s, e, now))
    ensures s.tcb.rcvNxt <= Step(s, e, now).tcb.rcvNxt
  {
    if e.Arrival? {
      InputKeepsAcking(s, e.p, now, g, read);
      assert read + [] == read;
      hide Input, Receiving;
    } else {
      PosEnd(g.base, g.c);
      EventReceives(s, e, now, ViewOf(g), read);
      hide Received;
      CallKeepsAcking(s, e, now, g);
      CallCompletes(s, e, now, g, read);
      hide Step, Delivered;
    }
  }

  lemma CallCompletes(s: Sock, e: Event, now: nat, g: Ground, read: seq<byte>)
    requires Open(s) && Complete(s, g, read) && s.state != LastAck
    requires !e.WriteCall? && !e.CloseRequest? && !e.Arrival?
    ensures Complete(Step(s, e, now), g, read + Delivered(s, e, now))
  {
    if e.ReadCall? {
      ReadCompletes(s, e.n, e.blocking, now, g, read);
      hide Read, Complete;
    } else {
      OtherEventInbox(s, e, now);
      CallEntersCloseWait(s, e, now);
      assert read + [] == read;
      hide Step;
    }
  }

  lemma ReadCompletes(s: Sock, n: nat, blocking: bool, now: nat, g: Ground, read: seq<byte>)
    requires Complete(s, g, read)
    ensures Complete(Read(s, n, blocking, now).0, g, read + Read(s, n, blocking, now).1)
  {
    DequeueTakesFront(s.inbox.recvQ, n);
    var (data, rest, psh) := Dequeue(s.inbox.recvQ, n);
    assert read + [] == read;
    hide Dequeue, Flat;
    assert read + data + Flat(rest) == read + (data + Flat(rest));
  }

  lemma CallEntersCloseWait(s: Sock, e: Event, now: nat)
    requires Open(s) && !e.Arrival?
    ensures Step(s, e, now).state == CloseWait ==> s.state == CloseWait
  {
    hide PacketFor, SacksAfter, Dequeue, Segmentize;
    if e.WriteCall? {
      QueueAllInbox(s, Segmentize(e.buf, s.smss), now);
      hide QueueAll;
    }
  }

  lemma CallKeepsAcking(s: Sock, e: Event, now: nat, g: Ground)
    requires Acking(s, g) && !e.WriteCall? && !e.CloseRequest? && !e.Arrival?
    ensures Acking(Step(s, e, now), g) && Step(s, e, now).tcb.rcvNxt == s.tcb.rcvNxt
  {
    hide AckNum, WireAcks, SendAck, Read, Abort;
    if e.ReadCall? {
      ReadEffect(s, e.n, e.blocking, now);
    } else if e.DelackExpires? {
      SendAckKeepsAcking(s.(delacks := 0, delack := None), g);
      SendAckEffect(s.(delacks := 0, delack := None));
    } else {
      AbortKeepsAcking(s, g);
      AbortKeepsAcking(s.(linger := None), g);
    }
  }

  lemma AbortKeepsAcking(s: Sock, g: Ground)
    requires Acking(s, g)
    ensures Acking(Abort(s), g) && Abort(s).tcb.rcvNxt == s.tcb.rcvNxt
  {
    assert SourceAck(Abort(s).wire[|s.wire|], g);
    hide AckNum, SourceAck;
  }
}
