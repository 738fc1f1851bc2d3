/** When a read returns, and with what: the loop of `tcp_receive` seen by its caller. A call that returns to the user
    starts the user timeout anew, so the timeout tells which passes end the call. */
module Reading {
  import opened Words
  import opened TcpTypes
  import opened Tcp
  import opened TcpOutput
  import opened TcpData
  import opened TcpInput
  import opened Host
  import opened Stream
  import opened Sender
  import opened Receiver
  import opened Arrivals
  import opened Reassembly
  import opened Confluence
  import Lifecycle

  /** Three minutes from now the connection is given up unless it is used again. */
  function UsedAt(now: nat): Option<Timer> {
    Some(Timer(now + 180_000, UserTimeout))
  }

  // ----- which buffers a read uses up -----

  /** Of the first `n` bytes of the queue, buffer `k` has its last one; or it is empty and lies before them. */
  predicate UsedUp(q: seq<Skb>, k: nat, n: nat) {
    k < |q| && |Flat(q[..k])| < n && |Flat(q[..k + 1])| <= n
  }

  /** A buffer that asks for delivery is used up. */
  predicate PushUsedUp(q: seq<Skb>, n: nat) {
    exists k :: 0 <= k < |q| && UsedUp(q, k, n) && q[k].flags.psh
  }

  lemma UsedUpNext(q: seq<Skb>, k: nat, n: nat)
    requires q != [] && k < |q| - 1 && |q[0].payload| <= n
    ensures UsedUp(q, k + 1, n) <==> UsedUp(q[1..], k, n - |q[0].payload|)
  {
    assert q[..k + 1] == [q[0]] + q[1..][..k] && q[..k + 2] == [q[0]] + q[1..][..k + 1];
    FlatCons(q[0], q[1..][..k]);
    FlatCons(q[0], q[1..][..k + 1]);
    hide Flat;
  }

  lemma UsedUpFirst(q: seq<Skb>, n: nat)
    requires q != []
    ensures UsedUp(q, 0, n) <==> 0 < n && |q[0].payload| <= n
    ensures forall k :: 0 <= k < |q| && UsedUp(q, k, n) ==> |q[0].payload| <= n
  {
    assert q[..0] == [] && q[..1] == [q[0]] + [];
    FlatCons(q[0], []);
    forall k | 0 <= k < |q| && UsedUp(q, k, n) ensures |q[0].payload| <= n {
      assert q[..k + 1] == [q[0]] + q[1..k + 1];
      FlatCons(q[0], q[1..k + 1]);
    }
    hide UsedUp;
  }

  /** `tcp_data_dequeue` reports PSH exactly if it has used up a buffer that has the flag. */
  lemma {:induction false} DequeueReportsPush(q: seq<Skb>, n: nat)
    ensures Dequeue(q, n).2 <==> PushUsedUp(q, n)
    decreases |q|
  {
    if q != [] {
      UsedUpFirst(q, n);
      if 0 < n && |q[0].payload| <= n {
        var m := n - |q[0].payload|;
        DequeueReportsPush(q[1..], m);
        forall k | 0 <= k < |q| - 1 ensures UsedUp(q, k + 1, n) <==> UsedUp(q[1..], k, m) {
          UsedUpNext(q, k, n);
        }
        hide UsedUp;
        PushShifts(q, n, m);
      } else {
        hide UsedUp;
      }
    }
  }

  lemma PushShifts(q: seq<Skb>, n: nat, m: nat)
    requires q != [] && UsedUp(q, 0, n)
    requires forall k :: 0 <= k < |q| - 1 ==> (UsedUp(q, k + 1, n) <==> UsedUp(q[1..], k, m))
    ensures PushUsedUp(q, n) <==> q[0].flags.psh || PushUsedUp(q[1..], m)
  {
    hide UsedUp;
    if PushUsedUp(q[1..], m) {
      var k :| 0 <= k < |q| - 1 && UsedUp(q[1..], k, m) && q[1..][k].flags.psh;
      assert UsedUp(q, k + 1, n) && q[k + 1].flags.psh;
    }
    if PushUsedUp(q, n) {
      var k :| 0 <= k < |q| && UsedUp(q, k, n) && q[k].flags.psh;
      if k > 0 {
        assert UsedUp(q, k - 1 + 1, n) && q[1..][k - 1].flags.psh;
      }
    }
  }

  // ----- one pass -----

  /** How many bytes there are to be had. */
  function Available(s: Sock, n: nat): nat {
    Min(n, |Flat(s.inbox.recvQ)|)
  }

  /** A pass takes the first bytes that wait, as many as asked for. It ends the call if and only if that uses up a
      buffer with PSH or PSH was noted before, or the peer has closed, or all that was asked for is there, or the
      call does not wait and got something; and PSH ends one call only. */
  lemma ReadReturnsWhen(s: Sock, n: nat, blocking: bool, now: nat)
    requires Dequeues(s, n) && s.linger != UsedAt(now)
    ensures Available(s, n) <= |Flat(s.inbox.recvQ)|
    ensures var t, got := Step(s, ReadCall(n, blocking), now), Available(s, n);
      && Delivered(s, ReadCall(n, blocking), now) == Flat(s.inbox.recvQ)[..got]
      && Flat(t.inbox.recvQ) == Flat(s.inbox.recvQ)[got..]
      && (t.linger == UsedAt(now) <==>
            s.inbox.psh || PushUsedUp(s.inbox.recvQ, n) || s.inbox.fin || got == n || (!blocking && got > 0))
      && (t.linger == UsedAt(now) || t.linger == s.linger) && !t.inbox.psh && t.inbox.fin == s.inbox.fin
      && (t.inbox.pollIn <==> s.inbox.pollIn && (t.inbox.recvQ != [] || s.inbox.fin))
  {
    var q := s.inbox.recvQ;
    DequeueTakesFront(q, n);
    DequeueReportsPush(q, n);
    assert Flat(q)[..|Dequeue(q, n).0|] == Dequeue(q, n).0 && Flat(q)[|Dequeue(q, n).0|..] == Flat(Dequeue(q, n).1);
    hide Dequeue, Flat, PushUsedUp;
  }

  /** A call for nothing returns at once, and so does one in a state that cannot be read. */
  lemma ReadOfNothing(s: Sock, blocking: bool, now: nat)
    ensures var t := Step(s, ReadCall(0, blocking), now); 
      && Delivered(s, ReadCall(0, blocking), now) == [] && t.inbox.recvQ == s.inbox.recvQ
      && (s.state in {Listen, SynSent, SynReceived, Established, FinWait1, FinWait2} ==> t == s.(linger := UsedAt(now)))
      && (s.state in {Close, Closing, LastAck, TimeWait} ==> t == s)
  {
  }

  lemma ClosedReadsNothing(s: Sock, n: nat, blocking: bool, now: nat)
    requires s.state in {Close, Closing, LastAck, TimeWait}
    ensures Step(s, ReadCall(n, blocking), now) == s && Delivered(s, ReadCall(n, blocking), now) == []
  {
  }

  /** A FIN that is taken is noted for the reader and makes the socket readable, whatever waits. */
  lemma FinIsNoted(s: Sock, p: Packet, now: nat)
    requires PassesChecks(s, p) && p.flags.fin && p.seqNo == s.tcb.rcvNxt && AcceptsText(s)
    ensures var t := Input(s, p, now); t.inbox.fin && t.inbox.pollIn && !AcceptsText(t)
  {
    var s1 := AckStage(s, p, now);
    var s2 := FinAcked(s1, p);
    OpenInput(s, p, now);
    AckStageInbox(s, p, now);
    FinAckedInbox(s1, p);
    assert ProcessAck(s, p, now) == ProcessText(s2, p, now) by { hide ProcessText, AckStage, FinAcked; }
    hide Input, ProcessAck, AckStage, FinAcked, VerifySegment;
    FinTextNoted(s2, p, now);
  }

  lemma FinTextNoted(s: Sock, p: Packet, now: nat)
    requires AcceptsText(s) && p.flags.fin && p.seqNo == s.tcb.rcvNxt
    ensures var t := ProcessText(s, p, now); t.inbox.fin && t.inbox.pollIn && !AcceptsText(t)
  {
    var s1 := TextStage(s, p);
    assert AcceptsText(s1) by { Lifecycle.TextState(s, p); hide TextStage; }
    FinStageNotes(s1, now);
    hide TextStage, FinStage, AckPolicy;
  }

  lemma FinStageNotes(s: Sock, now: nat)
    requires AcceptsText(s)
    ensures var t := FinStage(s, now); t.inbox.fin && t.inbox.pollIn && !AcceptsText(t)
  {
    hide PacketFor, SacksAfter, OptionsLen;
  }

  /** After the peer's FIN what waits can still be read; then the end of the stream is told once, and the next call
      waits. */
  lemma EndIsToldOnce(s: Sock, n: nat, blocking: bool, now: nat, m: nat, waits: bool, later: nat)
    requires s.state == CloseWait && s.inbox.recvQ == [] && s.inbox.fin && 0 < m
    requires !s.inbox.psh && s.linger != UsedAt(later)
    ensures var t := Step(s, ReadCall(n, blocking), now);
      && t == s.(inbox := s.inbox.(fin := false))
      && Delivered(s, ReadCall(n, blocking), now) == []
      && Step(t, ReadCall(m, waits), later).linger == s.linger
  {
  }

  // ----- one write, one read -----

  /** The buffers hold the segments of one write: its bytes, with PSH on the last. */
  predicate CutFrom(q: seq<Skb>, buf: seq<byte>, mss: nat)
    requires mss > 0
  {
    var segments := Segmentize(buf, mss);
    |q| == |segments|
    && forall k :: 0 <= k < |q| ==> q[k].payload == segments[k].payload && q[k].flags == segments[k].flags
  }

  lemma CutHoldsWrite(q: seq<Skb>, buf: seq<byte>, mss: nat, n: nat)
    requires mss > 0 && buf != [] && CutFrom(q, buf, mss) && |buf| <= n
    ensures Flat(q) == buf && PushUsedUp(q, n)
  {
    SegmentizeCutsStream(buf, mss);
    SamePayloads(q, Segmentize(buf, mss));
    assert q != [];
    var k := |q| - 1;
    assert q[..k] + [q[k]] == q && q[..k + 1] == q;
    FlatSnoc(q[..k], q[k]);
    hide Flat, Segmentize;
    assert UsedUp(q, k, n) && q[k].flags.psh;
  }

  lemma {:induction false} SamePayloads(p: seq<Skb>, q: seq<Skb>)
    requires |p| == |q| && forall k :: 0 <= k < |p| ==> p[k].payload == q[k].payload
    ensures Flat(p) == Flat(q)
  {
    if p != [] {
      SamePayloads(p[1..], q[1..]);
    }
  }

  /** A blocking read for more than a write holds returns that write as soon as it is all there: it does not wait for
      the rest. */
  lemma WholeWriteIsRead(s: Sock, buf: seq<byte>, mss: nat, n: nat, now: nat)
    requires Dequeues(s, n) && mss > 0 && buf != [] && CutFrom(s.inbox.recvQ, buf, mss) && |buf| <= n
    ensures var t := Step(s, ReadCall(n, true), now);
      Delivered(s, ReadCall(n, true), now) == buf && t.linger == UsedAt(now) && Flat(t.inbox.recvQ) == []
  {
    CutHoldsWrite(s.inbox.recvQ, buf, mss, n);
    if s.linger != UsedAt(now) {
      ReadReturnsWhen(s, n, true, now);
      hide Step, Delivered, Flat, PushUsedUp;
    } else {
      ReadTakes(s, n, true, now);
      hide Flat, Step, Delivered, PushUsedUp;
    }
  }

  /** Whether it returns or not, a pass takes the same bytes, and the user timeout is at most renewed. */
  lemma ReadTakes(s: Sock, n: nat, blocking: bool, now: nat)
    requires Dequeues(s, n)
    ensures var t, got := Step(s, ReadCall(n, blocking), now), Available(s, n);
      && got <= |Flat(s.inbox.recvQ)|
      && Delivered(s, ReadCall(n, blocking), now) == Flat(s.inbox.recvQ)[..got]
      && Flat(t.inbox.recvQ) == Flat(s.inbox.recvQ)[got..]
      && (t.linger == UsedAt(now) || t.linger == s.linger)
  {
    var q := s.inbox.recvQ;
    DequeueTakesFront(q, n);
    assert Flat(q)[..|Dequeue(q, n).0|] == Dequeue(q, n).0 && Flat(q)[|Dequeue(q, n).0|..] == Flat(Dequeue(q, n).1);
    hide Dequeue, Flat;
  }

  /** A segment alone does not end the call: while the last one is missing, a blocking read for more waits on. */
  lemma PartOfWriteWaits(s: Sock, n: nat, now: nat)
    requires Dequeues(s, n) && s.linger != UsedAt(now) && !s.inbox.psh && !s.inbox.fin
    requires |Flat(s.inbox.recvQ)| < n && forall k :: 0 <= k < |s.inbox.recvQ| ==> !s.inbox.recvQ[k].flags.psh
    ensures Step(s, ReadCall(n, true), now).linger == s.linger
  {
    ReadReturnsWhen(s, n, true, now);
    hide Step, Flat, UsedUp;
  }

  /** Whatever the order in which its segments arrive, and however often. */
  lemma ArrivedWriteIsRead(s: Sock, d: seq<Skb>, base: nat, ack: u32, ks: seq<nat>, now: nat,
                           buf: seq<byte>, mss: nat, n: nat, later: nat)
    requires Division(d, base) && Plain(d) && Sink(s, ack) && s.tcb.rcvNxt == base && d != []
    requires s.inbox.ofoQ == s.inbox.recvQ == [] && Pos(base, d, |d|) + s.tcb.rcvWnd < MOD32
    requires d[|d| - 1].seqNo <= base + s.tcb.rcvWnd && Indexes(ks, d) && SetOf(ks) == SetOf(UpTo(|d|))
    requires mss > 0 && buf != [] && CutFrom(d, buf, mss) && |buf| <= n
    ensures var t := Run(s, InTurn(d, ks, ack, now));
      && Delivered(t, ReadCall(n, true), later) == buf
      && Step(t, ReadCall(n, true), later).linger == UsedAt(later)
  {
    var w, t := s.tcb.rcvWnd, Run(s, InTurn(d, ks, ack, now));
    AssembledAtFirst(s, d, base, ack);
    forall k | 0 <= k < |d| ensures d[k].seqNo <= base + w {
      PosMonotone(base, d, k, |d| - 1);
    }
    hide Division, Plain, Run, InTurn, CutFrom, Pos;
    AllAccepted(s, d, base, ack, w, [], ks, now);
    AllAssembled(t, d, base, ack, w, SetOf(ks));
    hide *;
    WholeWriteIsRead(t, buf, mss, n, later);
  }

  lemma AllAssembled(t: Sock, d: seq<Skb>, base: nat, ack: u32, w: nat, arrived: set<nat>)
    requires Assembled(t, d, base, ack, w, [], arrived) && arrived == SetOf(UpTo(|d|))
    ensures t.inbox.recvQ == d && forall n :: n > 0 ==> Dequeues(t, n)
  {
    forall k: nat | k < |d| ensures k in arrived {
      assert UpTo(|d|)[k] == k;
    }
    assert d[..|d|] == d && [] + d == d;
  }
}
