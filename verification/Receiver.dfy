/** What a socket has received, against the stream of its peer. Nothing is assumed about how the peer cuts
    its stream: segments may overlap, repeat and arrive in any order. */
module Receiver {
  import opened Words
  import opened TcpTypes
  import opened Tcp
  import opened TcpOutput
  import opened TcpData
  import opened TcpInput
  import opened Host

  /** The peer's stream, the sequence number of its first byte, and where its segments may end. */
  datatype View = View(stream: seq<byte>, base: nat, ends: set<nat>)

  predicate InRange(v: View) {
    v.base + |v.stream| + 1 < MOD32
  }

  /** `data` is what the stream holds at `sn`. */
  predicate Fits(sn: nat, data: seq<byte>, v: View) {
    && v.base <= sn && sn + |data| <= v.base + |v.stream|
    && data == v.stream[sn - v.base..sn - v.base + |data|]
    && sn + |data| in v.ends
  }

  predicate FitsQueue(q: seq<Skb>, v: View) {
    forall i :: 0 <= i < |q| ==> Fits(q[i].seqNo, q[i].payload, v)
  }

  /** A segment that carries text, or asks for it to be pushed, agrees with the stream and has no options. */
  predicate FitsPacket(p: Packet, v: View) {
    p.payload != [] || p.flags.psh ==> Fits(p.seqNo, p.payload, v) && (p.options == [] || p.payload == [])
  }

  /** The socket has completed its opening handshake. */
  predicate Open(s: Sock) {
    s.state !in {Close, Listen, SynSent, SynReceived}
  }

  /** The bytes already read, then those waiting, are the front of the stream; while data is accepted
      they are the stream up to `rcv_nxt`. */
  predicate Received(s: Sock, v: View, read: seq<byte>) {
    && Open(s)
    && read + Flat(s.inbox.recvQ) <= v.stream
    && (AcceptsText(s) ==> InOrder(s, v, read))
  }

  predicate InOrder(s: Sock, v: View, read: seq<byte>) {
    && s.tcb.rcvNxt == v.base + |read| + |Flat(s.inbox.recvQ)|
    && s.tcb.rcvNxt in v.ends
    && FitsQueue(s.inbox.ofoQ, v)
  }

  // ----- arriving text -----

  /** Appending what the stream holds next extends a prefix of the stream. */
  lemma PrefixGrows(a: seq<byte>, b: seq<byte>, sn: nat, v: View)
    requires a <= v.stream && sn == v.base + |a| && Fits(sn, b, v)
    ensures a + b <= v.stream
  {
  }

  lemma {:induction false} ReadyFits(nxt: u32, q: seq<Skb>, v: View, a: seq<byte>)
    requires InRange(v) && FitsQueue(q, v) && nxt in v.ends
    requires a <= v.stream && nxt == v.base + |a|
    ensures var ready := q[..ReadyPrefix(nxt, q)];
      && a + Flat(ready) <= v.stream
      && Advance(nxt, ready) == nxt + |Flat(ready)|
      && Advance(nxt, ready) in v.ends
    decreases |q|
  {
    var k := ReadyPrefix(nxt, q);
    if k > 0 {
      var b := q[0].payload;
      assert Fits(nxt, b, v);
      PrefixGrows(a, b, nxt, v);
      ReadyFits(nxt + |b|, q[1..], v, a + b);
      assert q[..k][1..] == q[1..][..k - 1];
      assert a + (b + Flat(q[1..][..k - 1])) == a + b + Flat(q[1..][..k - 1]);
    }
  }

  /** The next segment, and the queued ones that it releases, continue the stream. */
  lemma ReleaseFits(recvQ: seq<Skb>, ofoQ: seq<Skb>, skb: Skb, nxt: u32, v: View, read: seq<byte>)
    requires InRange(v) && FitsQueue(ofoQ, v) && Fits(skb.seqNo, skb.payload, v)
    requires read + Flat(recvQ) <= v.stream && skb.seqNo == v.base + |read| + |Flat(recvQ)|
    requires nxt == skb.seqNo + |skb.payload|
    ensures var ready := ofoQ[..ReadyPrefix(nxt, ofoQ)];
      var q := recvQ + [skb] + ready;
      && read + Flat(q) <= v.stream
      && Advance(nxt, ready) == v.base + |read| + |Flat(q)|
      && Advance(nxt, ready) in v.ends
  {
    var ready, got := ofoQ[..ReadyPrefix(nxt, ofoQ)], Flat(recvQ);
    FlatSnoc(recvQ, skb);
    FlatAppend(recvQ + [skb], ready);
    assert skb.seqNo + |skb.payload| in v.ends;
    hide Flat, ReadyPrefix, Advance, Fits, FitsQueue;
    PrefixGrows(read + got, skb.payload, skb.seqNo, v);
    ReadyFits(nxt, ofoQ, v, read + got + skb.payload);
    Associate(read, got, skb.payload, Flat(ready));
  }

  lemma Associate(a: seq<byte>, b: seq<byte>, c: seq<byte>, d: seq<byte>)
    ensures a + (b + c + d) == a + b + c + d
  {
  }

  lemma AcceptReceives(s: Sock, skb: Skb, v: View, read: seq<byte>)
    requires Received(s, v, read) && AcceptsText(s) && InRange(v)
    requires Fits(skb.seqNo, skb.payload, v) && skb.seqNo == s.tcb.rcvNxt
    ensures Received(Accept(s, skb), v, read)
  {
    ReleaseFits(s.inbox.recvQ, s.inbox.ofoQ, skb, s.tcb.rcvNxt + |skb.payload|, v, read);
    hide Flat, Fits, ReadyPrefix, Advance;
    var t := Accept(s, skb);
    assert FitsQueue(t.inbox.ofoQ, v);
  }

  lemma {:induction false} InsertFits(q: seq<Skb>, i: nat, skb: Skb, v: View)
    requires i <= |q| && FitsQueue(q, v) && Fits(skb.seqNo, skb.payload, v)
    ensures FitsQueue(InsertFrom(q, i, skb), v)
    decreases |q| - i
  {
    if i < |q| {
      InsertFits(q, i + 1, skb, v);
    }
  }

  lemma DeferReceives(s: Sock, skb: Skb, v: View, read: seq<byte>)
    requires Received(s, v, read) && AcceptsText(s) && Fits(skb.seqNo, skb.payload, v)
    ensures Received(Defer(s, skb), v, read)
  {
    InsertFits(s.inbox.ofoQ, 0, skb, v);
    hide Fits, Flat, InsertFrom;
  }

  // ----- everything else leaves the received data alone -----

  predicate SameInbox(s: Sock, t: Sock) {
    && t.inbox.recvQ == s.inbox.recvQ && t.inbox.ofoQ == s.inbox.ofoQ
    && t.tcb.rcvNxt == s.tcb.rcvNxt
  }

  lemma {:induction false} SendNextInbox(s: Sock, i: nat, amount: nat)
    ensures var t := SendNextFrom(s, i, amount);
      t == s.(tcb := s.tcb.(sndNxt := t.tcb.sndNxt), writeQ := t.writeQ, sack := t.sack, wire := t.wire)
    decreases amount - i
  {
    if i < amount && i < |s.writeQ| {
      SendNextInbox(
        SendNew(s, s.writeQ[i]).(writeQ := s.writeQ[i := Stamp(s.writeQ[i], s.tcb.sndNxt)]), i + 1, amount);
    }
  }

  lemma QueueTransmitInbox(s: Sock, skb: Skb, now: nat)
    ensures var t := QueueTransmit(s, skb, now);
      SameInbox(s, t) && t.inbox == s.inbox && t.state == s.state && t.tcb == s.tcb.(sndNxt := t.tcb.sndNxt)
  {
  }

  lemma {:induction false} QueueAllInbox(s: Sock, skbs: seq<Skb>, now: nat)
    ensures var t := QueueAll(s, skbs, now); 
      t.inbox == s.inbox && SameInbox(s, t) && t.state == s.state && t.tcb == s.tcb.(sndNxt := t.tcb.sndNxt)
    decreases |skbs|
  {
    if skbs != [] {
      QueueTransmitInbox(s, skbs[0], now);
      hide QueueTransmit;
      QueueAllInbox(QueueTransmit(s, skbs[0], now), skbs[1..], now);
    }
  }

  lemma AckPolicyInbox(s: Sock, p: Packet, now: nat)
    ensures var t := AckPolicy(s, p, now);
      t.inbox == s.inbox && SameInbox(s, t) && t.state == s.state && t.tcb == s.tcb.(sndNxt := t.tcb.sndNxt)
  {
    SendNextInbox(s.(delack := None), 0, Min(|s.writeQ|, MAX_BURST));
    hide SendNext;
  }

  lemma AckStageInbox(s: Sock, p: Packet, now: nat)
    ensures var t := AckStage(s, p, now);
      && t.inbox == s.inbox && SameInbox(s, t) && t.state == s.state
      && t.tcb == s.tcb.(sndUna := if NewAck(s, p) then p.ackSeq else s.tcb.sndUna)
  {
    hide Rtt, AckedPrefix;
  }

  lemma FinAckedInbox(s: Sock, p: Packet)
    ensures var t := FinAcked(s, p);
      && SameInbox(s, t) && (Open(s) ==> Open(t)) && (AcceptsText(t) <==> AcceptsText(s))
      && t.inbox == s.inbox.(fin := t.inbox.fin) && t.tcb == s.tcb
  {
  }

  lemma ReceivedSame(s: Sock, t: Sock, v: View, read: seq<byte>)
    requires Received(s, v, read) && SameInbox(s, t) && Open(t) && (AcceptsText(t) ==> AcceptsText(s))
    ensures Received(t, v, read)
  {
  }

  // ----- a whole arrival -----

  lemma TextReceives(s: Sock, p: Packet, v: View, read: seq<byte>)
    requires Received(s, v, read) && InRange(v) && FitsPacket(p, v)
    ensures var t := TextStage(s, p); Received(t, v, read) && t.state == s.state
  {
    if AcceptsText(s) && (p.flags.psh || |p.payload| > 0) && s.tcb.rcvWnd != 0 {
      if p.seqNo == s.tcb.rcvNxt {
        AcceptReceives(s, SkbOf(p), v, read);
        hide Received;
      } else {
        DeferReceives(s, SkbOf(p), v, read);
        hide Received;
      }
    }
  }

  lemma FinKeepsReceived(s: Sock, now: nat, v: View, read: seq<byte>)
    requires Received(s, v, read)
    ensures Received(FinStage(s, now), v, read) && !AcceptsText(FinStage(s, now))
  {
    SendAckInbox(s.(tcb := s.tcb.(rcvNxt := U32(s.tcb.rcvNxt + 1)), inbox := s.inbox.(fin := true, pollIn := true)));
    hide SendAck, Flat;
  }

  lemma ProcessTextReceives(s: Sock, p: Packet, now: nat, v: View, read: seq<byte>)
    requires Received(s, v, read) && InRange(v) && FitsPacket(p, v)
    ensures Received(ProcessText(s, p, now), v, read)
  {
    var s1 := TextStage(s, p);
    TextReceives(s, p, v, read);
    hide TextStage;
    FinKeepsReceived(s1, now, v, read);
    hide FinStage;
    AckPolicyInbox(s1, p, now);
    hide AckPolicy;
    ReceivedSame(s1, AckPolicy(s1, p, now), v, read);
    hide Received;
  }

  lemma ProcessAckReceives(s: Sock, p: Packet, now: nat, v: View, read: seq<byte>)
    requires Received(s, v, read) && InRange(v) && FitsPacket(p, v)
    ensures Received(ProcessAck(s, p, now), v, read)
  {
    var s1 := if s.state == TimeWait then s else AckStage(s, p, now);
    AckStageInbox(s, p, now);
    hide AckStage;
    ReceivedSame(s, s1, v, read);
    FinAckedInbox(s1, p);
    hide FinAcked;
    ReceivedSame(s1, FinAcked(s1, p), v, read);
    ProcessTextReceives(FinAcked(s1, p), p, now, v, read);
    hide ProcessText, Flat;
  }

  lemma SendAckInbox(s: Sock)
    ensures var t := SendAck(s); t.inbox == s.inbox && SameInbox(s, t) && t.state == s.state && t.tcb == s.tcb
  {
  }

  /** Whatever segment arrives, what the reader has and will get stays a prefix of the peer's stream. */
  lemma InputReceives(s: Sock, p: Packet, now: nat, v: View, read: seq<byte>)
    requires Received(s, v, read) && InRange(v) && FitsPacket(p, v)
    ensures Received(Input(s, p, now), v, read)
  {
    ProcessAckReceives(s, p, now, v, read);
    SendAckInbox(s);
    hide ProcessAck, SendAck, Flat;
    ReceivedSame(s, SendAck(s), v, read);
  }

  // ----- reading -----

  lemma {:induction false} DequeueTakesFront(q: seq<Skb>, n: nat)
    ensures var (data, rest, psh) := Dequeue(q, n);
      && data + Flat(rest) == Flat(q)
      && |data| == Min(n, |Flat(q)|)
    decreases |q|
  {
    if q != [] && n > 0 {
      var x := q[0].payload;
      if |x| > n {
        FlatCons(q[0].(payload := x[n..]), q[1..]);
        assert x == x[..n] + x[n..];
      } else {
        DequeueTakesFront(q[1..], n - |x|);
        var (data, rest, psh) := Dequeue(q[1..], n - |x|);
        assert x + data + Flat(rest) == x + (data + Flat(rest));
      }
    }
  }

  /** A read changes what waits for the reader and the user timeout, nothing else. */
  lemma ReadFrame(s: Sock, n: nat, blocking: bool, now: nat)
    ensures var t := Read(s, n, blocking, now).0; t == s.(inbox := t.inbox, linger := t.linger)
  {
    assert DataDequeue(s, n).0 == s.(inbox := DataDequeue(s, n).0.inbox) by { hide Dequeue; }
    hide DataDequeue, ReceiveReturns;
  }

  /** Reading moves bytes from the queue to the reader, none lost and none twice. */
  lemma ReadReceives(s: Sock, n: nat, blocking: bool, now: nat, v: View, read: seq<byte>)
    requires Received(s, v, read)
    ensures var (t, data) := Read(s, n, blocking, now); Received(t, v, read + data)
  {
    DequeueTakesFront(s.inbox.recvQ, n);
    var (data, rest, psh) := Dequeue(s.inbox.recvQ, n);
    hide Dequeue, Flat;
    assert read + data + Flat(rest) == read + (data + Flat(rest));
    assert read + [] == read;
  }

  // ----- all events -----

  /** Every event keeps the property; only arrivals must agree with the peer's stream. */
  lemma EventReceives(s: Sock, e: Event, now: nat, v: View, read: seq<byte>)
    requires Received(s, v, read) && InRange(v) && (e.Arrival? ==> FitsPacket(e.p, v))
    ensures Received(Step(s, e, now), v, read + Delivered(s, e, now))
  {
    if e.Arrival? {
      InputReceives(s, e.p, now, v, read);
      hide Received, Input;
    } else if e.ReadCall? {
      ReadReceives(s, e.n, e.blocking, now, v, read);
      hide Received, Read;
    } else {
      OtherEventInbox(s, e, now);
      hide Step, Flat;
    }
    assert read + [] == read;
  }

  lemma OtherEventInbox(s: Sock, e: Event, now: nat)
    requires Open(s) && !e.Arrival? && !e.ReadCall?
    ensures var t := Step(s, e, now);
      Aside(s, t)
  {
    hide Connect, Send, CloseCall, Abort, RunRtoHandler, DelackFires, LingerFires;
    match e {
      case WriteCall(buf) => SendInbox(s, buf, now);
      case CloseRequest => CloseInbox(s, now);
      case AbortRequest => TeardownInbox(s);
      case DelackExpires => DelackInbox(s);
      case LingerExpires => LingerInbox(s, if s.linger.Some? then s.linger.value.handler else Linger);
      case RtoExpires => RtoInbox(s, if s.rtx.timer.Some? then s.rtx.timer.value.handler else Linger, now);
      case StrayExpires(i) =>
        if i < |s.rtx.strays| {
          RtoInbox(s.(rtx := s.rtx.(strays := s.rtx.strays[..i] + s.rtx.strays[i + 1..])), s.rtx.strays[i].handler, now);
        }
      case _ =>
    }
  }

  /** The step neither reads nor receives, and the socket accepts text afterwards only if it did before. */
  predicate Aside(s: Sock, t: Sock) {
    && t.tcb.rcvWnd == s.tcb.rcvWnd
    && Open(t) && t.inbox.recvQ == s.inbox.recvQ && t.tcb.rcvNxt == s.tcb.rcvNxt
    && (AcceptsText(t) ==> AcceptsText(s) && SameInbox(s, t) && t.tcb.sndUna == s.tcb.sndUna)
  }

  lemma SendInbox(s: Sock, buf: seq<byte>, now: nat)
    requires Open(s)
    ensures Aside(s, Send(s, buf, now))
  {
    QueueAllInbox(s, Segmentize(buf, s.smss), now);
    hide QueueAll, Segmentize;
  }

  lemma CloseInbox(s: Sock, now: nat)
    requires Open(s)
    ensures Aside(s, CloseCall(s, now))
  {
    QueueTransmitInbox(s.(state := FinWait1), FIN_SKB, now);
    QueueTransmitInbox(s, FIN_SKB, now);
    hide QueueTransmit;
  }

  lemma TeardownInbox(s: Sock)
    requires Open(s)
    ensures Aside(s, Abort(s)) && Aside(s, Done(s))
  {
  }

  lemma LingerInbox(s: Sock, h: Handler)
    requires Open(s)
    ensures Aside(s, LingerFires(s, h))
  {
    TeardownInbox(s.(linger := None));
    hide Abort, Done;
  }

  lemma DelackInbox(s: Sock)
    requires Open(s)
    ensures Aside(s, DelackFires(s))
  {
    SendAckInbox(s.(delacks := 0, delack := None));
    hide SendAck;
  }

  lemma RtoInbox(s: Sock, h: Handler, now: nat)
    requires Open(s)
    ensures Aside(s, RunRtoHandler(s, h, now))
  {
  }

  /** Every arrival of the trace agrees with the stream. */
  predicate AgreesWith(trace: seq<(Event, nat)>, v: View) {
    forall i :: 0 <= i < |trace| && trace[i].0.Arrival? ==> FitsPacket(trace[i].0.p, v)
  }

  /** Everything handed to the reader over a trace, in order. */
  function ReadOver(s: Sock, trace: seq<(Event, nat)>): seq<byte> {
    if trace == [] then []
    else
      var n := |trace| - 1;
      ReadOver(s, trace[..n]) + Delivered(Run(s, trace[..n]), trace[n].0, trace[n].1)
  }

  /** Over any run of any length, mixing arrivals of arbitrarily cut, overlapping and repeated segments
      with reads of any size and with everything else that happens to the socket, the reader gets a prefix
      of the peer's stream. */
  lemma {:induction false} RunReceives(s: Sock, trace: seq<(Event, nat)>, v: View)
    requires Received(s, v, []) && InRange(v) && AgreesWith(trace, v)
    ensures Received(Run(s, trace), v, ReadOver(s, trace))
    ensures ReadOver(s, trace) + Flat(Run(s, trace).inbox.recvQ) <= v.stream
  {
    if trace != [] {
      var n := |trace| - 1;
      assert AgreesWith(trace[..n], v);
      RunReceives(s, trace[..n], v);
      hide Step, Delivered, FitsPacket;
      EventReceives(Run(s, trace[..n]), trace[n].0, trace[n].1, v, ReadOver(s, trace[..n]));
    }
  }

  // ----- where snd_una comes from -----

  lemma TextKeepsUna(s: Sock, p: Packet)
    ensures var t := TextStage(s, p); t.tcb == s.tcb.(rcvNxt := t.tcb.rcvNxt) && t.state == s.state
  {
    hide CalculateSacks, InsertOrdered, PacketFor, SacksAfter, ReadyPrefix, Advance;
  }

  lemma ProcessTextKeepsUna(s: Sock, p: Packet, now: nat)
    ensures var t := ProcessText(s, p, now);
      && t.tcb.sndUna == s.tcb.sndUna && t.tcb.rcvWnd == s.tcb.rcvWnd && (AcceptsText(t) ==> AcceptsText(s))
  {
    var s1 := TextStage(s, p);
    TextKeepsUna(s, p);
    SendAckInbox(s1.(tcb := s1.tcb.(rcvNxt := U32(s1.tcb.rcvNxt + 1)), inbox := s1.inbox.(fin := true, pollIn := true)));
    AckPolicyInbox(s1, p, now);
    AckPolicyInbox(FinStage(s1, now), p, now);
    hide TextStage, AckPolicy, SendAck;
  }

  /** While the socket transfers data, only an acknowledgement that it accepts moves `snd_una`. */
  lemma UnaFollowsAcks(s: Sock, e: Event, now: nat)
    requires Open(s)
    ensures Step(s, e, now).tcb.rcvWnd == s.tcb.rcvWnd
    ensures var t := Step(s, e, now);
      AcceptsText(t) ==>
        && AcceptsText(s)
        && (t.tcb.sndUna == s.tcb.sndUna || (e.Arrival? && e.p.flags.ack && t.tcb.sndUna == e.p.ackSeq))
  {
    if e.Arrival? {
      InputUna(s, e.p, now);
      hide Input;
    } else if e.ReadCall? {
      hide Dequeue;
    } else {
      OtherEventInbox(s, e, now);
      hide Step;
    }
  }

  lemma InputUna(s: Sock, p: Packet, now: nat)
    requires Open(s)
    ensures Input(s, p, now).tcb.rcvWnd == s.tcb.rcvWnd
    ensures var t := Input(s, p, now);
      AcceptsText(t) ==>
        && AcceptsText(s) && (t.tcb.sndUna == s.tcb.sndUna || (p.flags.ack && t.tcb.sndUna == p.ackSeq))
  {
    var s1 := if s.state == TimeWait then s else AckStage(s, p, now);
    AckStageInbox(s, p, now);
    hide AckStage;
    FinAckedInbox(s1, p);
    hide FinAcked;
    ProcessTextKeepsUna(FinAcked(s1, p), p, now);
    SendAckInbox(s);
    hide ProcessText, SendAck;
  }
}
