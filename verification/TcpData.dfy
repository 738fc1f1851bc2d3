/** src/tcp_data.c: reassembly of arriving data and delivery to the reader. */
module TcpData {
  import opened Words
  import opened TcpTypes
  import opened Tcp
  import opened TcpOutput

  /** `tcp_data_insert_ordered` from queue position `i`. A segment that runs past the start of a later
      one is reported, and the walk goes on. */
  function InsertFrom(q: seq<Skb>, i: nat, skb: Skb): seq<Skb>
    requires i <= |q|
    decreases |q| - i
  {
    if i == |q| then q + [skb]
    else if skb.seqNo < q[i].seqNo && skb.endSeq <= q[i].seqNo then q[..i] + [skb] + q[i..]
    else if skb.seqNo == q[i].seqNo then q
    else InsertFrom(q, i + 1, skb)
  }

  function InsertOrdered(q: seq<Skb>, skb: Skb): seq<Skb> {
    InsertFrom(q, 0, skb)
  }

  /** How many buffers at the front of the out-of-order queue continue the stream at `nxt`. */
  function ReadyPrefix(nxt: u32, q: seq<Skb>): (k: nat)
    ensures k <= |q|
    decreases |q|
  {
    if q != [] && q[0].seqNo == nxt then 1 + ReadyPrefix(U32(nxt + |q[0].payload|), q[1..]) else 0
  }

  /** `rcv_nxt` after receiving the buffers of `q` in turn. */
  function Advance(nxt: u32, q: seq<Skb>): u32
    decreases |q|
  {
    if q == [] then nxt else Advance(U32(nxt + |q[0].payload|), q[1..])
  }

  function ConsumeOfo(s: Sock): Sock {
    var k := ReadyPrefix(s.tcb.rcvNxt, s.inbox.ofoQ);
    var ready := s.inbox.ofoQ[..k];
    s.(tcb := s.tcb.(rcvNxt := Advance(s.tcb.rcvNxt, ready)),
       inbox := s.inbox.(ofoQ := s.inbox.ofoQ[k..], recvQ := s.inbox.recvQ + ready))
  }

  /** What reading at most `n` bytes takes from a queue: the bytes, the rest of the queue, and whether
      an exhausted buffer carried PSH. */
  function Dequeue(q: seq<Skb>, n: nat): (seq<byte>, seq<Skb>, bool)
    decreases |q|
  {
    if q == [] || n == 0 then ([], q, false)
    else if |q[0].payload| > n then
      (q[0].payload[..n], [q[0].(payload := q[0].payload[n..])] + q[1..], false)
    else
      var (data, rest, psh) := Dequeue(q[1..], n - |q[0].payload|);
      (q[0].payload + data, rest, psh || q[0].flags.psh)
  }

  function DataDequeue(s: Sock, n: nat): (Sock, seq<byte>) {
    var (data, rest, psh) := Dequeue(s.inbox.recvQ, n);
    (s.(inbox := s.inbox.(recvQ := rest, psh := s.inbox.psh || psh,
                          pollIn := s.inbox.pollIn && (rest != [] || s.inbox.fin))), data)
  }

  /** An in-order segment goes to the reader, with whatever it releases from the out-of-order queue. */
  function Accept(s: Sock, skb: Skb): Sock {
    var s1 := ConsumeOfo(s.(tcb := s.tcb.(rcvNxt := U32(s.tcb.rcvNxt + |skb.payload|)),
                            inbox := s.inbox.(recvQ := s.inbox.recvQ + [skb])));
    s1.(inbox := s1.inbox.(pollIn := true))
  }

  /** An out-of-order segment is kept and reported at once. */
  function Defer(s: Sock, skb: Skb): Sock {
    var q := InsertOrdered(s.inbox.ofoQ, skb);
    SendAck(s.(inbox := s.inbox.(ofoQ := q), sack := if s.sack.ok then CalculateSacks(s.sack, q) else s.sack))
  }

  function DataQueue(s: Sock, skb: Skb): Sock {
    if s.tcb.rcvWnd == 0 then s
    else if skb.seqNo == s.tcb.rcvNxt then Accept(s, skb)
    else Defer(s, skb)
  }

  // ----- one turn of the loops of tcp_consume_ofo_queue and tcp_data_dequeue -----

  lemma ConsumeTurn(s: Sock)
    ensures s.inbox.ofoQ != [] && s.tcb.rcvNxt == s.inbox.ofoQ[0].seqNo ==>
      var skb := s.inbox.ofoQ[0];
      ConsumeOfo(s) == ConsumeOfo(
        s.(tcb := s.tcb.(rcvNxt := U32(s.tcb.rcvNxt + |skb.payload|)),
           inbox := s.inbox.(ofoQ := s.inbox.ofoQ[1..], recvQ := s.inbox.recvQ + [skb])))
    ensures s.inbox.ofoQ == [] || s.tcb.rcvNxt != s.inbox.ofoQ[0].seqNo ==> ConsumeOfo(s) == s
  {
    var q := s.inbox.ofoQ;
    if q != [] && s.tcb.rcvNxt == q[0].seqNo {
      var k := ReadyPrefix(s.tcb.rcvNxt, q);
      assert q[..k] == [q[0]] + q[1..][..k - 1] && q[..k][1..] == q[1..][..k - 1];
      assert q[k..] == q[1..][k - 1..];
      assert s.inbox.recvQ + q[..k] == s.inbox.recvQ + [q[0]] + q[1..][..k - 1];
    } else {
      assert s.inbox.recvQ + [] == s.inbox.recvQ;
    }
  }

  function Eaten(q: seq<Skb>, n: nat): nat
    requires q != []
  {
    if |q[0].payload| > n then n else |q[0].payload|
  }

  function Uneaten(q: seq<Skb>, n: nat): seq<Skb>
    requires q != []
  {
    if |q[0].payload| > n then [q[0].(payload := q[0].payload[n..])] + q[1..] else q[1..]
  }

  lemma DequeueTurn(q: seq<Skb>, data: seq<byte>, n: nat)
    requires q != [] && |data| < n
    ensures var m := n - |data|;
      var (d, r, p) := Dequeue(q, m);
      var (d', r', p') := Dequeue(Uneaten(q, m), m - Eaten(q, m));
      && data + d == data + q[0].payload[..Eaten(q, m)] + d' && r == r'
      && p == ((|q[0].payload| <= m && q[0].flags.psh) || p')
    ensures Dequeue(q, 0).0 == Dequeue([], n - |data|).0 == []
  {
  }
}
