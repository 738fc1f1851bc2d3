/** The TCP engine as the C code has it: one object whose functions update its fields and queues in place.
    Every method is proved to have exactly the effect that the functions of `Tcp`, `TcpOutput`, `TcpData` and
    `TcpInput` give it, so that all that is proved about those functions holds of this object. */
module TcpSocket {
  import opened Words
  import opened TcpTypes
  import Tcp
  import TcpOutput
  import TcpData
  import TcpInput
  import Host
  import Invariants
  import Sacks

  class TcpSock {
    var state: TcpState
    var done: bool
    var err: int
    var tcb: Tcb
    var rtx: Rtx
    var sackOk: bool
    var sacksAllowed: SackLimit
    var sacklen: u8
    var sacks: SackArray
    var finFlag: bool
    var pshFlag: bool
    var pollIn: bool
    var delack: Option<Timer>
    var delacks: u8
    var linger: Option<Timer>
    var smss: Mss
    var inflight: nat
    var receiveQueue: seq<Skb>
    var ofoQueue: seq<Skb>
    var writeQueue: seq<Skb>
    ghost var wire: seq<Packet>

    ghost function State(): Sock
      reads this
    {
      Sock(state, done, err, tcb, rtx, Sack(sackOk, sacksAllowed, sacklen, sacks),
           Inbox(receiveQueue, ofoQueue, finFlag, pshFlag, pollIn),
           delack, delacks, linger, smss, inflight, writeQueue, wire)
    }

    /** `tcp_alloc_sock` and `sock_init_data`. */
    constructor ()
      ensures State() == Host.FRESH
    {
      state, done, err := Close, false, 0;
      tcb := Tcb(0, 0, 0, 0, 0, 0);
      rtx := Rtx(0, 0, 0, 0, None, []);
      sackOk, sacksAllowed, sacklen, sacks := true, 0, 0, [NO_BLOCK, NO_BLOCK, NO_BLOCK, NO_BLOCK];
      finFlag, pshFlag, pollIn := false, false, false;
      delack, delacks, linger := None, 0, None;
      smss, inflight := 536, 0;
      receiveQueue, ofoQueue, writeQueue, wire := [], [], [], [];
    }

    // ----- src/tcp.c -----

    method StopRtoTimer()
      modifies this`rtx
      ensures State() == Tcp.StopRto(old(State()))
    {
      rtx := rtx.(timer := None, backoff := 0);
    }

    method ReleaseRtoTimer()
      modifies this`rtx
      ensures State() == old(State()).(rtx := Tcp.ReleaseTimer(old(rtx)))
    {
      if rtx.timer.Some? {
        rtx := rtx.(strays := rtx.strays + [rtx.timer.value], timer := None);
      }
    }

    method RearmRtoTimer(now: nat)
      modifies this`rtx
      ensures State() == Tcp.RearmRto(old(State()), now)
    {
      ReleaseRtoTimer();
      if state == SynSent {
        rtx := rtx.(timer := Some(Timer(now + Tcp.Shl(Tcp.SYN_BACKOFF, rtx.backoff), ConnectRto)));
      } else {
        rtx := rtx.(timer := Some(Timer(now + rtx.rto, RetransmissionTimeout)));
      }
    }

    method RearmUserTimeout(now: nat)
      modifies this`linger
      ensures State() == Tcp.RearmUserTimeout(old(State()), now)
    {
      if state != TimeWait {
        linger := Some(Timer(now + Tcp.USER_TIMEOUT_MS, UserTimeout));
      }
    }

    method ClearTimers()
      modifies this`rtx, this`delack, this`linger
      ensures State() == Tcp.StopRto(old(State())).(delack := None, linger := None)
    {
      StopRtoTimer();
      delack := None;
      linger := None;
    }

    method EnterTimeWait(now: nat)
      modifies this`state, this`rtx, this`delack, this`linger
      ensures State() == Tcp.EnterTimeWait(old(State()), now)
    {
      state := TimeWait;
      ClearTimers();
      linger := Some(Timer(now + Tcp.TIME_WAIT_MS, Linger));
    }

    method ClearQueues()
      modifies this`ofoQueue
      ensures ofoQueue == []
    {
      while ofoQueue != []
        decreases |ofoQueue|
      {
        ofoQueue := ofoQueue[1..];
      }
    }

    /** `tcp_done` with `tcp_free`. */
    method Done()
      modifies this`state, this`done, this`rtx, this`delack, this`linger, this`ofoQueue
      ensures State() == Tcp.Done(old(State()))
    {
      state := Closing;
      ClearTimers();
      ClearQueues();
      done := true;
    }

    /** `tcp_rtt`, in the integer arithmetic that its `double` arithmetic amounts to. */
    method MeasureRtt(now: nat)
      modifies this`rtx
      ensures State() == old(State()).(rtx := Tcp.Rtt(old(rtx), now))
    {
      if rtx.backoff > 0 || rtx.timer.None? {
        return;
      }
      var r := now - (rtx.timer.value.expires - rtx.rto);
      if r < 0 {
        return;
      }
      var srtt, rttvar: nat := r, r / 2;
      if rtx.srtt != 0 {
        var d := if rtx.srtt < r then r - rtx.srtt else rtx.srtt - r;
        rttvar := (3 * rtx.rttvar + d) / 4;
        srtt := (7 * rtx.srtt + r) / 8;
      }
      var k := 4 * rttvar;
      if k < 200 {
        k := 200;
      }
      rtx := rtx.(srtt := srtt, rttvar := rttvar, rto := U32(srtt + k));
    }

    /** `tcp_calculate_sacks`. Its only caller finds `sacklen` at 0. */
    method CalculateSacks()
      requires sacklen < 4
      modifies this`sacks, this`sacklen
      ensures State() == old(State()).(sack := Tcp.CalculateSacks(old(State()).sack, ofoQueue))
    {
      var cur := sacklen;
      sacks := sacks[cur := NO_BLOCK];
      var n: nat := sacklen;
      var i := 0;
      ghost var result := Tcp.SackWalk(sacks, cur, n, sacksAllowed, ofoQueue);
      while i < |ofoQueue|
        invariant 0 <= i <= |ofoQueue| && cur < 4
        invariant Tcp.SackWalk(sacks, cur, n, sacksAllowed, ofoQueue[i..]) == result
      {
        var next := ofoQueue[i];
        ghost var a := sacks;
        ghost var left := if a[cur].left == 0 then next.seqNo else a[cur].left;
        assert ofoQueue[i..][0] == next && ofoQueue[i..][1..] == ofoQueue[i + 1..];
        if sacks[cur].left == 0 {
          sacks := sacks[cur := sacks[cur].(left := next.seqNo)];
          n := n + 1;
        }
        assert sacks == a[cur := SackBlock(left, a[cur].right)];
        if sacks[cur].right == 0 || sacks[cur].right == next.seqNo {
          sacks := sacks[cur := sacks[cur].(right := next.endSeq)];
          assert sacks == a[cur := SackBlock(left, next.endSeq)];
        } else {
          if n >= sacksAllowed {
            assert result == (sacks, n);
            break;
          }
          cur := n;
          sacks := sacks[cur := SackBlock(next.seqNo, next.endSeq)];
          n := n + 1;
        }
        i := i + 1;
      }
      assert result == (sacks, n);
      sacklen := U8(n);
    }

    // ----- src/tcp_output.c -----

    /** `tcp_options_len`. */
    method OptionsLength() returns (optlen: nat)
      requires sacklen <= 4
      ensures optlen == TcpOutput.OptionsLen(State().sack)
    {
      optlen := 0;
      if sackOk && sacklen > 0 {
        var i := 0;
        while i < sacklen
          invariant 0 <= i <= sacklen
          invariant optlen == 8 * TcpOutput.CountBlocks(sacks, i)
        {
          if sacks[i].left != 0 {
            optlen := optlen + 8;
          }
          i := i + 1;
        }
        optlen := optlen + 2;
      }
      ghost var n := optlen;
      while optlen % 4 > 0
        invariant n <= optlen <= TcpOutput.RoundUp4(n)
        decreases TcpOutput.RoundUp4(n) - optlen
      {
        optlen := optlen + 1;
      }
    }

    /** `tcp_write_options`: reports the blocks, last one first, and clears them. */
    method WriteOptions(room: seq<byte>) returns (o: seq<byte>)
      requires sacklen <= 4 && room != []
      modifies this`sacks, this`sacklen
      ensures o == TcpOutput.OptionsAfter(old(State()).sack, room)
      ensures State() == old(State()).(sack := TcpOutput.SacksAfter(old(State()).sack, room))
    {
      if !sackOk || sacks[0].left == 0 {
        return room;
      }
      o := [TcpOutput.OPT_NOOP, TcpOutput.OPT_NOOP, TcpOutput.OPT_SACK, U8(2 + sacklen * 8)];
      var blocks := WriteBlocks();
      o := o + blocks;
      o := if |o| <= |room| then o + room[|o|..] else o[..|room|];
    }

    method WriteBlocks() returns (o: seq<byte>)
      requires sacklen <= 4
      modifies this`sacks, this`sacklen
      ensures o == TcpOutput.EncodeBlocks(old(sacks), old(sacklen))
      ensures sacks == TcpOutput.ClearBlocks(old(sacks), old(sacklen)) && sacklen == 0
    {
      o := [];
      ghost var n, a := sacklen, sacks;
      var i: int := sacklen - 1;
      while i >= 0
        invariant -1 <= i < n <= 4
        invariant o + TcpOutput.EncodeBlocks(a, i + 1) == TcpOutput.EncodeBlocks(a, n)
        invariant TcpOutput.ClearBlocks(sacks, i + 1) == TcpOutput.ClearBlocks(a, n)
        invariant forall j :: 0 <= j <= i ==> sacks[j] == a[j]
      {
        hide TcpOutput.BigEndian32;
        ghost var l, r, rest := TcpOutput.BigEndian32(a[i].left), TcpOutput.BigEndian32(a[i].right), TcpOutput.EncodeBlocks(a, i);
        assert o + l + r + rest == o + (l + r + rest);
        o := o + TcpOutput.BigEndian32(sacks[i].left) + TcpOutput.BigEndian32(sacks[i].right);
        sacks := sacks[i := NO_BLOCK];
        i := i - 1;
      }
      sacklen := 0;
    }

    /** `tcp_transmit_skb`, up to the IP layer, which may lose the packet. */
    method TransmitSkb(skb: Skb, sn: u32)
      requires sacklen <= 4
      modifies this`sacks, this`sacklen, this`wire
      ensures State() == TcpOutput.Transmit(old(State()), skb, sn) && sacklen <= 4
    {
      var options := skb.options;
      if options != [] {
        options := WriteOptions(options);
      }
      wire := wire + [Packet(sn, tcb.rcvNxt, skb.flags, options, skb.payload)];
    }

    method SendAck()
      requires sacklen <= 4
      modifies this`sacks, this`sacklen, this`wire
      ensures State() == TcpOutput.SendAck(old(State())) && sacklen <= 4
    {
      if state == Close {
        return;
      }
      var optlen := OptionsLength();
      var skb := Skb(0, 0, ACK_FLAGS, TcpOutput.Zeros(optlen), []);
      TransmitSkb(skb, tcb.sndNxt);
    }

    method SendReset()
      requires sacklen <= 4
      modifies this`tcb, this`sacks, this`sacklen, this`wire
      ensures State() == TcpOutput.SendReset(old(State()))
    {
      tcb := tcb.(sndUna := tcb.sndNxt);
      TransmitSkb(Skb(0, 0, Flags(false, false, true, false, false), [], []), tcb.sndNxt);
    }

    /** The common part of `tcp_queue_transmit_skb` and `tcp_send_next`: transmits at `snd_nxt`, stores the
        sequence range in the buffer and advances `snd_nxt`. */
    method TransmitNew(skb: Skb) returns (buf: Skb)
      requires sacklen <= 4
      modifies this`tcb, this`sacks, this`sacklen, this`wire
      ensures State() == TcpOutput.SendNew(old(State()), skb) && sacklen <= 4
      ensures buf == TcpOutput.Stamp(skb, old(tcb).sndNxt)
    {
      hide TcpOutput.OptionsAfter, TcpOutput.SacksAfter;
      TransmitSkb(skb, tcb.sndNxt);
      buf := skb.(seqNo := tcb.sndNxt);
      tcb := tcb.(sndNxt := U32(tcb.sndNxt + |buf.payload|));
      buf := buf.(endSeq := tcb.sndNxt);
      if buf.flags.fin {
        tcb := tcb.(sndNxt := U32(tcb.sndNxt + 1));
      }
    }

    /** `tcp_queue_transmit_skb`. */
    method QueueTransmitSkb(skb: Skb, now: nat)
      requires sacklen <= 4
      modifies this`rtx, this`tcb, this`inflight, this`writeQueue, this`sacks, this`sacklen, this`wire
      ensures State() == TcpOutput.QueueTransmit(old(State()), skb, now) && sacklen <= 4
    {
      hide TcpOutput.SendNew, Tcp.RearmRto;
      var buf := skb;
      if writeQueue == [] {
        RearmRtoTimer(now);
      }
      if inflight == 0 {
        buf := TransmitNew(buf);
        inflight := inflight + 1;
      }
      writeQueue := writeQueue + [buf];
    }

    method SendQueuedSkb(i: nat)
      requires sacklen <= 4 && i < |writeQueue|
      modifies this`tcb, this`writeQueue, this`sacks, this`sacklen, this`wire
      ensures State() == TcpOutput.SendQueued(old(State()), i) && sacklen <= 4
    {
      hide TcpOutput.SendNew;
      var next := TransmitNew(writeQueue[i]);
      writeQueue := writeQueue[i := next];
    }

    /** `tcp_send_next`. */
    method SendNext(amount: nat)
      requires sacklen <= 4
      modifies this`tcb, this`writeQueue, this`sacks, this`sacklen, this`wire
      ensures State() == TcpOutput.SendNext(old(State()), amount)
    {
      hide TcpOutput.SendQueued;
      var i := 0;
      while i < |writeQueue| && i < amount
        invariant 0 <= i && sacklen <= 4
        invariant TcpOutput.SendNextFrom(State(), i, amount) == TcpOutput.SendNext(old(State()), amount)
        decreases amount - i
      {
        SendQueuedSkb(i);
        i := i + 1;
      }
    }

    /** `tcp_send`: cuts the data into segments and queues each in turn. */
    method Send(buf: seq<byte>, now: nat)
      requires sacklen <= 4
      modifies this
      ensures State() == TcpOutput.Send(old(State()), buf, now)
    {
      QueueSegments(buf, now);
      RearmUserTimeout(now);
    }

    method QueueSegments(buf: seq<byte>, now: nat)
      requires sacklen <= 4
      modifies this`rtx, this`tcb, this`inflight, this`writeQueue, this`sacks, this`sacklen, this`wire
      ensures State() == TcpOutput.QueueAll(old(State()), TcpOutput.Segmentize(buf, smss), now)
    {
      hide TcpOutput.QueueTransmit;
      var rest := buf;
      ghost var result := TcpOutput.QueueAll(State(), TcpOutput.Segmentize(buf, smss), now);
      while rest != []
        invariant sacklen <= 4
        invariant TcpOutput.QueueAll(State(), TcpOutput.Segmentize(rest, smss), now) == result
        decreases |rest|
      {
        ghost var skbs := TcpOutput.Segmentize(rest, smss);
        var dlen := if |rest| > smss then smss else |rest|;
        var data := rest[..dlen];
        rest := rest[dlen..];
        var skb := Skb(0, 0, Flags(false, false, false, rest == [], true), [], data);
        assert skbs[0] == skb && skbs[1..] == TcpOutput.Segmentize(rest, smss);
        QueueTransmitSkb(skb, now);
      }
    }

    method QueueFin(now: nat)
      requires sacklen <= 4
      modifies this`rtx, this`tcb, this`inflight, this`writeQueue, this`sacks, this`sacklen, this`wire
      ensures State() == TcpOutput.QueueFin(old(State()), now)
    {
      QueueTransmitSkb(TcpOutput.FIN_SKB, now);
    }

    method HandleFinState()
      modifies this`state
      ensures State() == TcpOutput.HandleFinState(old(State()))
    {
      if state == CloseWait {
        state := LastAck;
      } else if state == Established {
        state := FinWait1;
      }
    }

    /** `tcp_retransmission_timeout`: the handler of the timer that has just fired. */
    method RetransmissionTimeoutHandler(now: nat)
      requires sacklen <= 4
      modifies this
      ensures State() == TcpOutput.RetransmissionTimeoutFires(old(State()), now)
    {
      hide TcpOutput.OptionsAfter, TcpOutput.SacksAfter;
      rtx := rtx.(timer := None);
      if writeQueue == [] {
        rtx := rtx.(backoff := 0);
        return;
      }
      var skb := writeQueue[0];
      TransmitSkb(skb, tcb.sndUna);
      if rtx.rto > TcpOutput.MAX_RTO {
        Done();
        err := -TcpOutput.ETIMEDOUT;
      } else {
        rtx := rtx.(rto := U32(rtx.rto * 2), backoff := U8(rtx.backoff + 1));
        rtx := rtx.(timer := Some(Timer(now + rtx.rto, RetransmissionTimeout)));
        if skb.flags.fin {
          HandleFinState();
        }
      }
    }

    /** `tcp_connect_rto`. */
    method ConnectRtoHandler(now: nat)
      requires sacklen <= 4
      modifies this
      ensures State() == TcpOutput.ConnectRtoFires(old(State()), now)
    {
      hide TcpOutput.OptionsAfter, TcpOutput.SacksAfter, Tcp.RtoTimer;
      rtx := rtx.(timer := None);
      if state == SynSent {
        if rtx.backoff > TcpOutput.CONN_RETRIES {
          err := -TcpOutput.ETIMEDOUT;
          Done();
        } else if writeQueue != [] {
          TransmitSkb(writeQueue[0], tcb.sndUna);
          rtx := rtx.(backoff := U8(rtx.backoff + 1));
          RearmRtoTimer(now);
        }
      }
    }

    /** `tcp_send_delack`. */
    method DelackHandler()
      requires sacklen <= 4
      modifies this`delacks, this`delack, this`sacks, this`sacklen, this`wire
      ensures State() == TcpOutput.DelackFires(old(State()))
    {
      delacks := 0;
      delack := None;
      SendAck();
    }

    /** `tcp_connect` with `tcp_send_syn`. */
    method Connect(iss: u32, now: nat)
      requires sacklen <= 4
      modifies this
      ensures State() == TcpOutput.Connect(old(State()), iss, now)
    {
      hide TcpOutput.QueueTransmit;
      tcb := tcb.(iss := iss, sndUna := iss, sndNxt := iss, rcvNxt := 0, rcvWnd := TcpOutput.INITIAL_WINDOW);
      var options := TcpOutput.SynOptions(TcpOutput.RMSS, sackOk);
      state := SynSent;
      QueueTransmitSkb(Skb(0, 0, Flags(false, true, false, false, false), options, []), now);
      tcb := tcb.(sndNxt := U32(tcb.sndNxt + 1));
    }

    // ----- src/tcp_data.c -----

    /** `tcp_data_insert_ordered` on the out-of-order queue. */
    method InsertOrdered(skb: Skb)
      modifies this`ofoQueue
      ensures ofoQueue == TcpData.InsertOrdered(old(ofoQueue), skb)
    {
      var i := 0;
      while i < |ofoQueue|
        invariant 0 <= i <= |ofoQueue| && ofoQueue == old(ofoQueue)
        invariant TcpData.InsertFrom(ofoQueue, i, skb) == TcpData.InsertOrdered(ofoQueue, skb)
      {
        var next := ofoQueue[i];
        if skb.seqNo < next.seqNo {
          if skb.endSeq <= next.seqNo {
            ofoQueue := ofoQueue[..i] + [skb] + ofoQueue[i..];
            return;
          }
        } else if skb.seqNo == next.seqNo {
          return;
        }
        i := i + 1;
      }
      ofoQueue := ofoQueue + [skb];
    }

    /** `tcp_consume_ofo_queue`. */
    method ConsumeOfoQueue()
      modifies this`tcb, this`ofoQueue, this`receiveQueue
      ensures State() == TcpData.ConsumeOfo(old(State()))
    {
      hide TcpData.ConsumeOfo;
      while ofoQueue != [] && tcb.rcvNxt == ofoQueue[0].seqNo
        invariant TcpData.ConsumeOfo(State()) == TcpData.ConsumeOfo(old(State()))
        decreases |ofoQueue|
      {
        TcpData.ConsumeTurn(State());
        var skb := ofoQueue[0];
        tcb := tcb.(rcvNxt := U32(tcb.rcvNxt + |skb.payload|));
        ofoQueue := ofoQueue[1..];
        receiveQueue := receiveQueue + [skb];
      }
      TcpData.ConsumeTurn(State());
    }

    /** `tcp_data_dequeue`. */
    method DataDequeue(userlen: nat) returns (data: seq<byte>)
      modifies this`receiveQueue, this`pshFlag, this`pollIn
      ensures data == TcpData.DataDequeue(old(State()), userlen).1
      ensures State() == TcpData.DataDequeue(old(State()), userlen).0
    {
      ghost var psh;
      data, psh := TakeFromQueue(userlen);
      hide TcpData.Dequeue;
      if receiveQueue == [] && !finFlag {
        pollIn := false;
      }
    }

    method TakeFromQueue(userlen: nat) returns (data: seq<byte>, ghost psh: bool)
      modifies this`receiveQueue, this`pshFlag
      ensures (data, receiveQueue, psh) == TcpData.Dequeue(old(receiveQueue), userlen)
      ensures pshFlag == (old(pshFlag) || psh)
    {
      data, psh := [], false;
      ghost var result := TcpData.Dequeue(receiveQueue, userlen);
      assert [] + result.0 == result.0;
      while receiveQueue != [] && |data| < userlen
        invariant |data| <= userlen
        invariant result.0 == data + TcpData.Dequeue(receiveQueue, userlen - |data|).0
        invariant result.1 == TcpData.Dequeue(receiveQueue, userlen - |data|).1
        invariant result.2 == (psh || TcpData.Dequeue(receiveQueue, userlen - |data|).2)
        invariant pshFlag == (old(pshFlag) || psh)
        decreases |receiveQueue|, userlen - |data|
      {
        hide TcpData.Dequeue;
        TcpData.DequeueTurn(receiveQueue, data, userlen);
        var bytes, last := DequeueHead(userlen - |data|);
        data := data + bytes;
        if last {
          pshFlag, psh := true, true;
        }
      }
      assert data + [] == data;
    }

    /** One turn of the loop: copies from the first buffer and drops the buffer once it is empty. */
    method DequeueHead(room: nat) returns (bytes: seq<byte>, psh: bool)
      requires receiveQueue != [] && room > 0
      modifies this`receiveQueue
      ensures var skb := old(receiveQueue[0]);
        && bytes == skb.payload[..TcpData.Eaten(old(receiveQueue), room)]
        && receiveQueue == TcpData.Uneaten(old(receiveQueue), room)
        && psh == (|skb.payload| <= room && skb.flags.psh)
    {
      var skb := receiveQueue[0];
      var dlen := if |skb.payload| > room then room else |skb.payload|;
      bytes := skb.payload[..dlen];
      skb := skb.(payload := skb.payload[dlen..]);
      receiveQueue := receiveQueue[0 := skb];
      psh := false;
      if skb.payload == [] {
        psh := skb.flags.psh;
        receiveQueue := receiveQueue[1..];
      }
    }

    method Accept(skb: Skb)
      modifies this`tcb, this`receiveQueue, this`ofoQueue, this`pollIn
      ensures State() == TcpData.Accept(old(State()), skb)
    {
      hide TcpData.ConsumeOfo;
      tcb := tcb.(rcvNxt := U32(tcb.rcvNxt + |skb.payload|));
      receiveQueue := receiveQueue + [skb];
      ConsumeOfoQueue();
      pollIn := true;
    }

    method Defer(skb: Skb)
      requires Invariants.SackInv(State()) && skb.seqNo > 0
      modifies this`ofoQueue, this`sacks, this`sacklen, this`wire
      ensures State() == TcpData.Defer(old(State()), skb) && sacklen <= 4
    {
      Invariants.InsertKeepsPositive(ofoQueue, 0, skb);
      InsertOrdered(skb);
      if sackOk {
        Sacks.CalculateFills(State().sack, ofoQueue);
        hide Tcp.CalculateSacks, TcpOutput.SendAck, TcpData.InsertFrom;
        CalculateSacks();
        SendAck();
      } else {
        hide TcpOutput.SendAck, TcpData.InsertFrom;
        SendAck();
      }
    }

    /** `tcp_data_queue`. */
    method DataQueue(skb: Skb)
      requires Invariants.SackInv(State()) && tcb.rcvNxt <= skb.seqNo
      modifies this`tcb, this`receiveQueue, this`ofoQueue, this`pollIn, this`sacks, this`sacklen, this`wire
      ensures State() == TcpData.DataQueue(old(State()), skb) && sacklen <= 4
    {
      hide TcpData.Accept, TcpData.Defer;
      if tcb.rcvWnd != 0 {
        if skb.seqNo == tcb.rcvNxt {
          Accept(skb);
        } else {
          Defer(skb);
        }
      }
    }

    // ----- src/tcp_input.c -----

    /** `tcp_parse_opts`. The option length is an unsigned byte: subtracting 4 from less wraps around. */
    method ParseOpts(p: Packet)
      modifies this`smss, this`sackOk, this`sacksAllowed
      ensures State() == TcpInput.ParseOpts(old(State()), p)
    {
      var m := p.options + p.payload;
      var sackSeen := ParseLoop(m, U8(|p.options|));
      if sackSeen && sackOk {
        sacksAllowed := 4;
      } else {
        sackOk := false;
      }
    }

    method ParseLoop(m: seq<byte>, len: u8) returns (sackSeen: bool)
      modifies this`smss
      ensures var r := TcpInput.ParseFrom(m, 0, len, TcpInput.ParsedOptions(None, false));
        sackSeen == r.sack && smss == if r.mss.Some? then r.mss.value else old(smss)
    {
      var ptr: nat, optlen: u8 := 0, len;
      sackSeen := false;
      ghost var mssSeen: Option<Mss> := None;
      ghost var result := TcpInput.ParseFrom(m, 0, len, TcpInput.ParsedOptions(None, false));
      while 0 < optlen < 20
        invariant TcpInput.ParseFrom(m, ptr, optlen, TcpInput.ParsedOptions(mssSeen, sackSeen)) == result
        invariant smss == if mssSeen.Some? then mssSeen.value else old(smss)
        decreases if optlen < 20 then optlen else 0
      {
        var kind := TcpInput.ByteAt(m, ptr);
        if kind == TcpOutput.OPT_MSS {
          var mss := TcpInput.ByteAt(m, ptr + 2) * 0x100 + TcpInput.ByteAt(m, ptr + 3);
          if mss > 536 && mss <= 1460 {
            smss := mss;
            mssSeen := Some(mss);
          }
          ptr := ptr + 4;
          optlen := U8(optlen - 4);
        } else if kind == TcpOutput.OPT_NOOP {
          ptr := ptr + 1;
          optlen := optlen - 1;
        } else if kind == TcpOutput.OPT_SACK_OK {
          sackSeen := true;
          optlen := optlen - 1;
        } else {
          optlen := optlen - 1;
        }
      }
    }

    /** `tcp_clean_rto_queue`. */
    method CleanRtoQueue(una: u32)
      modifies this`writeQueue, this`inflight, this`rtx
      ensures State() == TcpInput.CleanRtoQueue(old(State()), una)
    {
      hide TcpInput.CleanRtoQueue;
      while writeQueue != [] && TcpInput.Acked(writeQueue[0], una)
        invariant TcpInput.CleanRtoQueue(State(), una) == TcpInput.CleanRtoQueue(old(State()), una)
        invariant rtx == old(rtx)
        decreases |writeQueue|
      {
        TcpInput.CleanTurn(State(), una);
        writeQueue := writeQueue[1..];
        if inflight > 0 {
          inflight := inflight - 1;
        }
      }
      TcpInput.CleanTurn(State(), una);
      if writeQueue == [] || inflight == 0 {
        StopRtoTimer();
      }
    }

    /** `tcp_reset`. */
    method Reset()
      modifies this
      ensures State() == TcpInput.Reset(old(State()))
    {
      pollIn := false;
      if state == SynSent {
        err := -TcpInput.ECONNREFUSED;
      } else if state == CloseWait {
        err := -TcpInput.EPIPE;
      } else if state == Close {
        return;
      } else {
        err := -TcpInput.ECONNRESET;
      }
      Done();
    }

    /** `tcp_synsent`. */
    method SynSentInput(p: Packet, now: nat)
      requires sacklen <= 4
      modifies this
      ensures State() == TcpInput.SynSentInput(old(State()), p, now)
    {
      hide TcpInput.Reset, TcpInput.LearnSyn, TcpInput.Establish, TcpInput.EnterSynReceived;
      if p.flags.ack && (p.ackSeq <= tcb.iss || p.ackSeq > tcb.sndNxt || p.ackSeq < tcb.sndUna) {
        return;
      }
      if p.flags.rst {
        Reset();
        return;
      }
      if !p.flags.syn {
        return;
      }
      LearnSyn(p);
      if tcb.sndUna > tcb.iss {
        Establish(p, now);
      } else {
        EnterSynReceived();
      }
    }

    method EnterSynReceived()
      requires sacklen <= 4
      modifies this`state, this`tcb, this`sacks, this`sacklen, this`wire
      ensures State() == TcpInput.EnterSynReceived(old(State()))
    {
      hide TcpOutput.SendSynAck;
      state := SynReceived;
      tcb := tcb.(sndUna := tcb.iss);
      SendSynAck();
    }

    method LearnSyn(p: Packet)
      modifies this`tcb, this`writeQueue, this`inflight, this`rtx
      ensures State() == TcpInput.LearnSyn(old(State()), p)
    {
      hide TcpInput.CleanRtoQueue;
      tcb := tcb.(rcvNxt := U32(p.seqNo + 1), irs := p.seqNo);
      if p.flags.ack {
        tcb := tcb.(sndUna := p.ackSeq);
        CleanRtoQueue(tcb.sndUna);
      }
    }

    method Establish(p: Packet, now: nat)
      requires sacklen <= 4
      modifies this
      ensures State() == TcpInput.Establish(old(State()), p, now)
    {
      hide TcpInput.AckSyn, TcpInput.ParseOpts, TcpInput.SockConnected;
      AckSyn();
      RearmUserTimeout(now);
      ParseOpts(p);
      SockConnected();
    }

    method AckSyn()
      requires sacklen <= 4
      modifies this`state, this`tcb, this`rtx, this`sacks, this`sacklen, this`wire
      ensures State() == TcpInput.AckSyn(old(State()))
    {
      hide TcpOutput.SendAck;
      state := Established;
      tcb := tcb.(sndUna := tcb.sndNxt);
      rtx := rtx.(backoff := 0, rto := 1000);
      assert State() == TcpInput.EnterEstablished(old(State()));
      SendAck();
    }

    /** `sock_connected`. */
    method SockConnected()
      modifies this`err, this`pollIn
      ensures State() == TcpInput.SockConnected(old(State()))
    {
      err := 0;
      pollIn := false;
    }

    /** `tcp_send_synack`: its caller has already left `SYN_SENT`, so it returns at once. */
    method SendSynAck()
      requires sacklen <= 4
      modifies this`sacks, this`sacklen, this`wire
      ensures State() == TcpOutput.SendSynAck(old(State())) && sacklen <= 4
    {
      if state != SynSent {
        return;
      }
      TransmitSkb(Skb(0, 0, Flags(false, true, false, false, true), [], []), tcb.sndNxt);
    }

    method AckStage(p: Packet, now: nat)
      modifies this`tcb, this`rtx, this`writeQueue, this`inflight
      ensures State() == TcpInput.AckStage(old(State()), p, now)
    {
      hide TcpInput.CleanRtoQueue, Tcp.Rtt;
      if tcb.sndUna < p.ackSeq && p.ackSeq <= tcb.sndNxt {
        tcb := tcb.(sndUna := p.ackSeq);
        MeasureRtt(now);
        CleanRtoQueue(tcb.sndUna);
      }
    }

    /** With nothing left to acknowledge, our FIN has been acknowledged. */
    method FinAcked(p: Packet)
      requires sacklen <= 4
      modifies this`state, this`finFlag, this`sacks, this`sacklen, this`wire
      ensures State() == TcpInput.FinAcked(old(State()), p)
      ensures sacklen <= 4 && (old(Invariants.SackInv(State())) ==> Invariants.SackInv(State()))
    {
      if writeQueue == [] {
        if state == FinWait1 {
          state := FinWait2;
        } else if state == Closing {
          state := TimeWait;
        } else if state == TimeWait && tcb.rcvNxt == p.seqNo {
          finFlag := true;
          ghost var s := State();
          if Invariants.SackInv(s) {
            Invariants.TransmitKeepsSack(s, TcpOutput.AckSkb(s), tcb.sndNxt);
          }
          hide TcpOutput.PacketFor, TcpOutput.SacksAfter;
          SendAck();
        }
      }
    }

    method TextStage(p: Packet)
      requires Invariants.SackInv(State()) && tcb.rcvNxt <= p.seqNo
      modifies this`tcb, this`receiveQueue, this`ofoQueue, this`pollIn, this`sacks, this`sacklen, this`wire
      ensures State() == TcpInput.TextStage(old(State()), p) && sacklen <= 4
    {
      hide TcpData.DataQueue;
      if (state == Established || state == FinWait1 || state == FinWait2) && (p.flags.psh || |p.payload| > 0) {
        DataQueue(SkbOf(p));
      }
    }

    method FinStage(now: nat)
      requires sacklen <= 4
      modifies this
      ensures State() == TcpInput.FinStage(old(State()), now) && sacklen <= 4
    {
      hide TcpInput.AckFin, TcpInput.FinTransition;
      AckFin();
      FinTransition(now);
    }

    method AckFin()
      requires sacklen <= 4
      modifies this`tcb, this`finFlag, this`pollIn, this`sacks, this`sacklen, this`wire
      ensures State() == TcpInput.AckFin(old(State())) && sacklen <= 4
    {
      hide TcpOutput.SendAck;
      tcb := tcb.(rcvNxt := U32(tcb.rcvNxt + 1));
      finFlag, pollIn := true, true;
      SendAck();
    }

    method FinTransition(now: nat)
      modifies this`state, this`rtx, this`delack, this`linger
      ensures State() == TcpInput.FinTransition(old(State()), now)
    {
      if state == SynReceived || state == Established {
        state := CloseWait;
      } else if state == FinWait1 {
        if writeQueue == [] {
          EnterTimeWait(now);
        } else {
          state := Closing;
        }
      } else if state == FinWait2 {
        EnterTimeWait(now);
      }
    }

    method AckPolicy(p: Packet, now: nat)
      requires sacklen <= 4
      modifies this
      ensures State() == TcpInput.AckPolicy(old(State()), p, now)
    {
      hide TcpInput.Burst, TcpInput.AckOrDelay;
      delack := None;
      var pending := Min(|writeQueue|, TcpOutput.MAX_BURST);
      if inflight == 0 && pending > 0 {
        Burst(now);
      } else {
        AckOrDelay(p, now);
      }
    }

    method Burst(now: nat)
      requires sacklen <= 4 && inflight == 0
      modifies this`tcb, this`writeQueue, this`sacks, this`sacklen, this`wire, this`inflight, this`rtx
      ensures State() == TcpInput.Burst(old(State()), now)
    {
      hide TcpOutput.SendNext, Tcp.RearmRto;
      var pending := Min(|writeQueue|, TcpOutput.MAX_BURST);
      SendNext(pending);
      inflight := inflight + pending;
      RearmRtoTimer(now);
    }

    method AckOrDelay(p: Packet, now: nat)
      requires sacklen <= 4
      modifies this`delacks, this`delack, this`sacks, this`sacklen, this`wire
      ensures State() == TcpInput.AckOrDelay(old(State()), p, now)
    {
      hide TcpOutput.SendAck;
      var atOnce := p.flags.psh;
      if !atOnce && |p.payload| > 1000 {
        delacks := U8(delacks + 1);
        atOnce := delacks > 1;
      }
      if atOnce {
        delacks := 0;
        SendAck();
      } else if |p.payload| > 0 {
        delack := Some(Timer(now + TcpInput.DELACK_MS, SendDelack));
      }
    }

    method ProcessText(p: Packet, now: nat)
      requires Invariants.SackInv(State()) && tcb.rcvNxt <= p.seqNo
      modifies this
      ensures State() == TcpInput.ProcessText(old(State()), p, now)
    {
      hide TcpInput.TextStage, TcpInput.FinStage, TcpInput.AckPolicy;
      var expected := p.seqNo == tcb.rcvNxt;
      TextStage(p);
      if p.flags.fin && expected {
        FinStage(now);
      }
      if expected && (state == Established || state == FinWait1 || state == FinWait2) {
        AckPolicy(p, now);
      }
    }

    method ProcessAck(p: Packet, now: nat)
      requires Invariants.SackInv(State()) && tcb.rcvNxt <= p.seqNo
      modifies this
      ensures State() == TcpInput.ProcessAck(old(State()), p, now)
    {
      hide TcpInput.ProcessText, Tcp.Done;
      if state != TimeWait {
        TcpInput.AckStageKeeps(State(), p, now);
        hide TcpInput.AckStage;
        AckStage(p, now);
        if p.ackSeq < tcb.sndUna || p.ackSeq > tcb.sndNxt {
          return;
        }
      }
      if writeQueue == [] && state == LastAck {
        Done();
        return;
      }
      TcpInput.FinAckedKeeps(State(), p);
      hide TcpInput.FinAcked;
      FinAcked(p);
      ProcessText(p, now);
    }

    /** `tcp_verify_segment`. */
    method VerifySegment(p: Packet) returns (ok: bool)
      ensures ok == TcpInput.VerifySegment(State(), p)
    {
      if |p.payload| > 0 && tcb.rcvWnd == 0 {
        return false;
      }
      if p.seqNo < tcb.rcvNxt || p.seqNo > U32(tcb.rcvNxt + tcb.rcvWnd) {
        return false;
      }
      return true;
    }

    /** `tcp_input_state`. */
    method InputState(p: Packet, now: nat)
      requires Invariants.SackInv(State())
      modifies this
      ensures State() == TcpInput.Input(old(State()), p, now)
    {
      hide TcpInput.SynSentInput, TcpInput.ProcessAck, Tcp.EnterTimeWait, TcpOutput.SendAck, TcpOutput.SendReset;
      var ok := VerifySegment(p);
      if state == Close {
        if !p.flags.rst {
          SendReset();
        }
      } else if state == Listen {
        return;
      } else if state == SynSent {
        SynSentInput(p, now);
      } else if !ok {
        if !p.flags.rst {
          SendAck();
        }
      } else if p.flags.rst {
        EnterTimeWait(now);
      } else if p.flags.syn || !p.flags.ack {
        return;
      } else {
        if state == SynReceived {
          if tcb.sndUna <= p.ackSeq && p.ackSeq < tcb.sndNxt {
            state := Established;
          } else {
            return;
          }
        }
        ProcessAck(p, now);
      }
    }

    // ----- calls of the user and the remaining handlers -----

    /** One pass of the loop of `tcp_receive`. */
    method Receive(n: nat, blocking: bool, now: nat) returns (data: seq<byte>)
      modifies this`receiveQueue, this`pshFlag, this`pollIn, this`linger
      ensures State() == TcpInput.Receive(old(State()), n, blocking, now).0
      ensures data == TcpInput.Receive(old(State()), n, blocking, now).1
    {
      hide TcpData.DataDequeue;
      if n == 0 {
        RearmUserTimeout(now);
        return [];
      }
      data := DataDequeue(n);
      var finished := pshFlag || finFlag || |data| == n || (!blocking && |data| > 0);
      pshFlag := false;
      if finished {
        RearmUserTimeout(now);
      }
    }

    /** `tcp_read`. */
    method Read(n: nat, blocking: bool, now: nat) returns (data: seq<byte>)
      modifies this`receiveQueue, this`pshFlag, this`finFlag, this`pollIn, this`linger
      ensures State() == TcpInput.Read(old(State()), n, blocking, now).0
      ensures data == TcpInput.Read(old(State()), n, blocking, now).1
    {
      hide TcpInput.Receive;
      if state == Close || state == Closing || state == LastAck || state == TimeWait {
        return [];
      }
      if state == CloseWait && receiveQueue == [] && finFlag {
        finFlag := false;
        return [];
      }
      data := Receive(n, blocking, now);
    }

    /** `tcp_write`. */
    method Write(buf: seq<byte>, now: nat)
      requires sacklen <= 4
      modifies this
      ensures State() == TcpInput.Write(old(State()), buf, now)
    {
      hide TcpOutput.Send;
      if err != 0 {
        return;
      }
      if state == Established || state == CloseWait {
        Send(buf, now);
      }
    }

    /** `tcp_close`. */
    method CloseCall(now: nat)
      requires sacklen <= 4
      modifies this
      ensures State() == TcpInput.CloseCall(old(State()), now)
    {
      hide TcpOutput.QueueFin, Tcp.Done;
      if state == Listen || state == SynSent || state == SynReceived {
        Done();
      } else if state == Established {
        state := FinWait1;
        QueueFin(now);
      } else if state == CloseWait {
        QueueFin(now);
      } else {
        err := -TcpOutput.EBADF;
      }
    }

    /** `tcp_abort`. */
    method Abort()
      requires sacklen <= 4
      modifies this
      ensures State() == TcpInput.Abort(old(State()))
    {
      hide TcpOutput.SendReset, Tcp.Done;
      SendReset();
      Done();
    }

    /** `tcp_linger` and `tcp_user_timeout`. */
    method LingerHandler(handler: Handler)
      requires sacklen <= 4
      modifies this
      ensures State() == TcpInput.LingerFires(old(State()), handler)
    {
      hide TcpInput.Abort, Tcp.Done;
      linger := None;
      if handler == UserTimeout {
        Abort();
      } else {
        Done();
      }
    }

    // ----- one atomic step -----

    ghost predicate Valid()
      reads this
    {
      Invariants.SocketInv(State())
    }

    /** Whatever happens to the socket, it takes the step that `Host.Step` describes and stays valid. */
    method Handle(e: Host.Event, now: nat) returns (data: seq<byte>)
      requires Valid()
      modifies this
      ensures Valid()
      ensures State() == Host.Step(old(State()), e, now)
      ensures data == Host.Delivered(old(State()), e, now)
    {
      Invariants.StepKeepsInv(State(), e, now);
      hide Invariants.FlightInv, Invariants.ReadyInv, Invariants.EarlyInv;
      hide TcpOutput.Connect, TcpInput.Write, TcpInput.Read, TcpInput.CloseCall, TcpInput.Abort, TcpInput.Input,
        TcpInput.LingerFires, TcpOutput.DelackFires, Host.RunRtoHandler;
      data := [];
      match e {
        case ConnectCall(iss) => ConnectCall(iss, now);
        case WriteCall(buf) => Write(buf, now);
        case ReadCall(n, blocking) => data := Read(n, blocking, now);
        case CloseRequest => CloseCall(now);
        case AbortRequest => Abort();
        case Arrival(p) => InputState(p, now);
        case RtoExpires => RtoExpires(now);
        case StrayExpires(i) => Invariants.NoStrays(State());
        case DelackExpires => if Host.Due(delack, now) { DelackHandler(); }
        case LingerExpires => if Host.Due(linger, now) { LingerHandler(linger.value.handler); }
      }
    }

    method ConnectCall(iss: u32, now: nat)
      requires sacklen <= 4
      modifies this
      ensures State() == Host.Step(old(State()), Host.ConnectCall(iss), now)
    {
      hide TcpOutput.Connect;
      if state == Close {
        Connect(iss, now);
        err := -Host.EINPROGRESS;
      }
    }

    method RtoExpires(now: nat)
      requires sacklen <= 4
      modifies this
      ensures State() == Host.Step(old(State()), Host.RtoExpires, now)
    {
      hide TcpOutput.ConnectRtoFires, TcpOutput.RetransmissionTimeoutFires;
      if Host.Due(rtx.timer, now) {
        if rtx.timer.value.handler == ConnectRto {
          ConnectRtoHandler(now);
        } else {
          RetransmissionTimeoutHandler(now);
        }
      }
    }
  }
}
