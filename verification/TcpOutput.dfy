/** src/tcp_output.c: building, queueing, sending and resending segments. */
module TcpOutput {
  import opened Words
  import opened TcpTypes
  import opened Tcp

  const EBADF := 9
  const ETIMEDOUT := 110
  const CONN_RETRIES := 3
  const MAX_RTO := 60000
  const MAX_BURST := 3

  // ----- options -----

  const OPT_NOOP: byte := 1
  const OPT_SACK: byte := 5

  function BigEndian32(x: u32): seq<byte> {
    [x / 0x100_0000, x / 0x1_0000 % 0x100, x / 0x100 % 0x100, x % 0x100]
  }

  /** The first `n` blocks, last one first, as they appear on the wire. */
  function EncodeBlocks(a: SackArray, n: nat): seq<byte>
    requires n <= 4
  {
    if n == 0 then [] else BigEndian32(a[n - 1].left) + BigEndian32(a[n - 1].right) + EncodeBlocks(a, n - 1)
  }

  function ClearBlocks(a: SackArray, n: nat): SackArray
    requires n <= 4
    decreases n
  {
    if n == 0 then a else ClearBlocks(a[n - 1 := NO_BLOCK], n - 1)
  }

  /** The bytes that `tcp_write_options` stores when there is something to report. */
  function SackOption(x: Sack): seq<byte> {
    [OPT_NOOP, OPT_NOOP, OPT_SACK, U8(2 + x.len * 8)] + EncodeBlocks(x.blocks, Min(x.len, 4))
  }

  predicate ReportsSacks(x: Sack) {
    x.ok && x.blocks[0].left != 0
  }

  /** What `room` bytes of option space hold after `tcp_write_options`. `SackFillsReservedSpace` shows
      that the option never runs past the space. */
  function OptionsAfter(x: Sack, room: seq<byte>): seq<byte> {
    if |room| == 0 || !ReportsSacks(x) then room
    else if |SackOption(x)| <= |room| then SackOption(x) + room[|SackOption(x)|..]
    else SackOption(x)[..|room|]
  }

  /** The blocks that a segment with `room` bytes of option space leaves unreported. */
  function SacksAfter(x: Sack, room: seq<byte>): Sack {
    if |room| > 0 && ReportsSacks(x) then x.(blocks := ClearBlocks(x.blocks, Min(x.len, 4)), len := 0) else x
  }

  function CountBlocks(a: SackArray, n: nat): nat
    requires n <= 4
  {
    if n == 0 then 0 else CountBlocks(a, n - 1) + if a[n - 1].left != 0 then 1 else 0
  }

  function RoundUp4(n: nat): nat {
    if n % 4 == 0 then n else n + 4 - n % 4
  }

  function OptionsLen(x: Sack): nat {
    if x.ok && x.len > 0 then RoundUp4(8 * CountBlocks(x.blocks, Min(x.len, 4)) + 2) else 0
  }

  // ----- transmission -----

  function PacketFor(s: Sock, skb: Skb, sn: u32): Packet {
    Packet(sn, s.tcb.rcvNxt, skb.flags, OptionsAfter(s.sack, skb.options), skb.payload)
  }

  function Transmit(s: Sock, skb: Skb, sn: u32): Sock {
    s.(sack := SacksAfter(s.sack, skb.options), wire := s.wire + [PacketFor(s, skb, sn)])
  }

  function Zeros(n: nat): seq<byte> {
    seq(n, _ => 0)
  }

  function AckSkb(s: Sock): Skb {
    Skb(0, 0, ACK_FLAGS, Zeros(OptionsLen(s.sack)), [])
  }

  function AckPacket(s: Sock): Packet {
    PacketFor(s, AckSkb(s), s.tcb.sndNxt)
  }

  function SendAck(s: Sock): Sock {
    if s.state == Close then s else Transmit(s, AckSkb(s), s.tcb.sndNxt)
  }

  function SendSynAck(s: Sock): Sock {
    if s.state != SynSent then s
    else Transmit(s, Skb(0, 0, Flags(false, true, false, false, true), [], []), s.tcb.sndNxt)
  }

  function SendReset(s: Sock): Sock {
    Transmit(s.(tcb := s.tcb.(sndUna := s.tcb.sndNxt)), Skb(0, 0, Flags(false, false, true, false, false), [], []), s.tcb.sndNxt)
  }

  /** The buffer with the sequence range it is given when it is first transmitted at `sn`. */
  function Stamp(skb: Skb, sn: u32): Skb {
    skb.(seqNo := sn, endSeq := U32(sn + |skb.payload|))
  }

  /** `snd_nxt` after transmitting `skb` at `sn`: a FIN takes one sequence number that its `end_seq` omits. */
  function NextSeq(skb: Skb, sn: u32): u32 {
    U32(Stamp(skb, sn).endSeq + if skb.flags.fin then 1 else 0)
  }

  /** Transmits `skb` at `snd_nxt` and advances `snd_nxt`. */
  function SendNew(s: Sock, skb: Skb): Sock {
    Transmit(s, skb, s.tcb.sndNxt).(tcb := s.tcb.(sndNxt := NextSeq(skb, s.tcb.sndNxt)))
  }

  function QueueTransmit(s: Sock, skb: Skb, now: nat): Sock {
    var s1 := if s.writeQ == [] then RearmRto(s, now) else s;
    if s1.inflight == 0 then
      SendNew(s1, skb).(inflight := 1, writeQ := s1.writeQ + [Stamp(skb, s1.tcb.sndNxt)])
    else
      s1.(writeQ := s1.writeQ + [skb])
  }

  /** Sends the queued segment at position `i`, which is stamped in place. */
  function SendQueued(s: Sock, i: nat): Sock
    requires i < |s.writeQ|
  {
    SendNew(s, s.writeQ[i]).(writeQ := s.writeQ[i := Stamp(s.writeQ[i], s.tcb.sndNxt)])
  }

  /** `tcp_send_next` from queue position `i` up to `amount`. */
  function SendNextFrom(s: Sock, i: nat, amount: nat): Sock
    decreases amount - i
  {
    if i >= amount || i >= |s.writeQ| then s else SendNextFrom(SendQueued(s, i), i + 1, amount)
  }

  function SendNext(s: Sock, amount: nat): Sock {
    SendNextFrom(s, 0, amount)
  }

  // ----- user data -----

  /** The buffers into which `tcp_send` cuts `buf`; the last one carries PSH. */
  function Segmentize(buf: seq<byte>, mss: nat): seq<Skb>
    requires mss > 0
  {
    if buf == [] then []
    else if |buf| <= mss then [Skb(0, 0, Flags(false, false, false, true, true), [], buf)]
    else [Skb(0, 0, ACK_FLAGS, [], buf[..mss])] + Segmentize(buf[mss..], mss)
  }

  function QueueAll(s: Sock, skbs: seq<Skb>, now: nat): Sock
    decreases |skbs|
  {
    if skbs == [] then s else QueueAll(QueueTransmit(s, skbs[0], now), skbs[1..], now)
  }

  function Send(s: Sock, buf: seq<byte>, now: nat): Sock
  {
    RearmUserTimeout(QueueAll(s, Segmentize(buf, s.smss), now), now)
  }

  const FIN_SKB := Skb(0, 0, Flags(true, false, false, false, true), [], [])

  function QueueFin(s: Sock, now: nat): Sock {
    QueueTransmit(s, FIN_SKB, now)
  }

  // ----- timer handlers -----

  function HandleFinState(s: Sock): Sock {
    if s.state == CloseWait then s.(state := LastAck)
    else if s.state == Established then s.(state := FinWait1)
    else s
  }

  /** The handler runs after its timer has fired, so dropping the reference leaves nothing live. */
  function DropFired(s: Sock): Sock {
    s.(rtx := s.rtx.(timer := None))
  }

  /** The back-off of `tcp_retransmission_timeout`: twice the RTO, and the timer armed with it. */
  function BackOff(x: Rtx, now: nat): Rtx {
    var rto := U32(2 * x.rto);
    x.(rto := rto, backoff := U8(x.backoff + 1), timer := Some(Timer(now + rto, RetransmissionTimeout)))
  }

  function RetransmissionTimeoutFires(s: Sock, now: nat): Sock {
    if s.writeQ == [] then s.(rtx := s.rtx.(timer := None, backoff := 0))
    else
      var s1 := Transmit(s, s.writeQ[0], s.tcb.sndUna);
      if s.rtx.rto > MAX_RTO then Done(s1).(err := -ETIMEDOUT)
      else
        var s2 := s1.(rtx := BackOff(s.rtx, now));
        if s.writeQ[0].flags.fin then HandleFinState(s2) else s2
  }

  function ConnectRtoFires(s: Sock, now: nat): Sock {
    var s0 := DropFired(s);
    if s.state != SynSent then s0
    else if s.rtx.backoff > CONN_RETRIES then Done(s0).(err := -ETIMEDOUT)
    else if s.writeQ == [] then s0
    else
      var s1 := Transmit(s0, s.writeQ[0], s.tcb.sndUna);
      RearmRto(s1.(rtx := s1.rtx.(backoff := U8(s.rtx.backoff + 1))), now)
  }

  function DelackFires(s: Sock): Sock {
    SendAck(s.(delacks := 0, delack := None))
  }

  // ----- opening -----

  const INITIAL_WINDOW: u32 := 44477
  const OPT_MSS: byte := 2
  const OPT_SACK_OK: byte := 4
  const RMSS: u16 := 1460

  /** Option bytes of a SYN: the MSS, then the SACK-permitted option behind two fillers. */
  function SynOptions(mss: u16, sackOk: bool): seq<byte> {
    [OPT_MSS, 4, mss / 0x100, mss % 0x100] + if sackOk then [OPT_NOOP, OPT_NOOP, OPT_SACK_OK, 2] else []
  }

  function SynSkb(s: Sock): Skb {
    Skb(0, 0, Flags(false, true, false, false, false), SynOptions(RMSS, s.sack.ok), [])
  }

  function Connect(s: Sock, iss: u32, now: nat): Sock {
    var s1 := s.(state := SynSent,
                 tcb := s.tcb.(iss := iss, sndUna := iss, sndNxt := iss, rcvNxt := 0, rcvWnd := INITIAL_WINDOW));
    var s2 := QueueTransmit(s1, SynSkb(s1), now);
    s2.(tcb := s2.tcb.(sndNxt := U32(s2.tcb.sndNxt + 1)))
  }
}
