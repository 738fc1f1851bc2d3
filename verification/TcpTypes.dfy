/** The data that the TCP engine works on: segments, socket buffers and the socket itself. */
module TcpTypes {
  import opened Words

  datatype TcpState =
    | Listen | SynSent | SynReceived | Established | FinWait1 | FinWait2
    | Close | CloseWait | Closing | LastAck | TimeWait

  datatype Flags = Flags(fin: bool, syn: bool, rst: bool, psh: bool, ack: bool)

  const ACK_FLAGS := Flags(false, false, false, false, true)

  /** A segment as handed to the IP layer, in host byte order. `options` are the bytes between the
      fixed header and the payload, so `hl` is `5 + |options| / 4`. */
  datatype Packet = Packet(seqNo: u32, ackSeq: u32, flags: Flags, options: seq<byte>, payload: seq<byte>)

  /** A socket buffer: the fields of `struct sk_buff` that the engine reads, with the header flags and
      option bytes stored in the buffer. `dlen` is `|payload|`. */
  datatype Skb = Skb(seqNo: u32, endSeq: u32, flags: Flags, options: seq<byte>, payload: seq<byte>)

  datatype Handler = ConnectRto | RetransmissionTimeout | SendDelack | Linger | UserTimeout

  datatype Timer = Timer(expires: nat, handler: Handler)

  datatype SackBlock = SackBlock(left: u32, right: u32)

  const NO_BLOCK := SackBlock(0, 0)

  /** `sacks_allowed` is only ever assigned 0, 3 or 4. */
  type SackLimit = x: int | 0 <= x <= 4

  /** The four-element array `sacks`. */
  type SackArray = a: seq<SackBlock> | |a| == 4 witness [NO_BLOCK, NO_BLOCK, NO_BLOCK, NO_BLOCK]

  /** `smss` starts at 536 and is only ever assigned an MSS in 537..1460. */
  type Mss = x: int | 536 <= x <= 1460 witness 536

  /** `struct tcb`: the sequence number spaces. */
  datatype Tcb = Tcb(iss: u32, irs: u32, sndUna: u32, sndNxt: u32, rcvNxt: u32, rcvWnd: u32)

  /** The retransmission timer and its estimators. `strays` records every timer that was released while
      it could still fire. */
  datatype Rtx = Rtx(backoff: u8, srtt: nat, rttvar: nat, rto: u32, timer: Option<Timer>, strays: seq<Timer>)

  datatype Sack = Sack(ok: bool, allowed: SackLimit, len: u8, blocks: SackArray)

  /** What arriving data leaves for the reader. */
  datatype Inbox = Inbox(recvQ: seq<Skb>, ofoQ: seq<Skb>, fin: bool, psh: bool, pollIn: bool)

  /** `struct tcp_sock` with its `struct sock`. Two fields record history that the C code does not keep:
      `wire` is every packet given to `ip_output`, and `done` says that `tcp_done` has run. */
  datatype Sock = Sock(
    state: TcpState, done: bool, err: int, tcb: Tcb, rtx: Rtx, sack: Sack, inbox: Inbox,
    delack: Option<Timer>, delacks: u8, linger: Option<Timer>,
    smss: Mss, inflight: nat, writeQ: seq<Skb>, wire: seq<Packet>)

  /** The payload bytes held by a queue, in queue order. */
  function Flat(q: seq<Skb>): seq<byte> {
    if q == [] then [] else q[0].payload + Flat(q[1..])
  }

  lemma {:induction false} FlatAppend(p: seq<Skb>, q: seq<Skb>)
    ensures Flat(p + q) == Flat(p) + Flat(q)
  {
    if p == [] {
      assert p + q == q;
    } else {
      assert (p + q)[1..] == p[1..] + q;
      FlatAppend(p[1..], q);
    }
  }

  lemma FlatSnoc(q: seq<Skb>, x: Skb)
    ensures Flat(q + [x]) == Flat(q) + x.payload
  {
    FlatAppend(q, [x]);
    assert [x][1..] == [];
  }

  lemma FlatCons(x: Skb, q: seq<Skb>)
    ensures Flat([x] + q) == x.payload + Flat(q)
  {
    assert ([x] + q)[1..] == q;
  }

  /** The bytes that `tcp_init_segment` takes for the text: as many as there are, but starting right behind
      the fixed header, where the options of a segment lie. */
  function Text(p: Packet): (text: seq<byte>)
    ensures |text| == |p.payload|
    ensures p.options == [] || p.payload == [] ==> text == p.payload
  {
    assert p.options == [] ==> (p.options + p.payload)[..|p.payload|] == p.payload;
    (p.options + p.payload)[..|p.payload|]
  }

  /** The buffer that `tcp_init_segment` builds for an arriving segment. */
  function SkbOf(p: Packet): Skb {
    Skb(p.seqNo, U32(p.seqNo + |p.payload|), p.flags, p.options, Text(p))
  }
}
