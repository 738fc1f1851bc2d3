/** src/tcp_input.c: what an arriving segment does to a socket, and the calls made by the user. */
module TcpInput {
  import opened Words
  import opened TcpTypes
  import opened Tcp
  import opened TcpOutput
  import opened TcpData

  const EPIPE := 32
  const EAGAIN := 11
  const ECONNRESET := 104
  const ECONNREFUSED := 111
  const DELACK_MS := 200

  // ----- options of a SYN -----

  function ByteAt(m: seq<byte>, i: nat): byte {
    if i < |m| then m[i] else 0
  }

  datatype ParsedOptions = ParsedOptions(mss: Option<Mss>, sack: bool)

  /** The loop of `tcp_parse_opts`: `i` is how far the pointer has moved and `left` is `optlen`, an
      unsigned byte. Only MSS and filler options move the pointer. */
  function ParseFrom(m: seq<byte>, i: nat, left: u8, r: ParsedOptions): ParsedOptions
    decreases left
  {
    if left == 0 || left >= 20 then r
    else if ByteAt(m, i) == OPT_MSS then
      var mss := ByteAt(m, i + 2) * 0x100 + ByteAt(m, i + 3);
      var r1 := if 536 < mss <= 1460 then r.(mss := Some(mss)) else r;
      if left < 4 then r1 else ParseFrom(m, i + 4, left - 4, r1)
    else if ByteAt(m, i) == OPT_NOOP then ParseFrom(m, i + 1, left - 1, r)
    else if ByteAt(m, i) == OPT_SACK_OK then ParseFrom(m, i, left - 1, r.(sack := true))
    else ParseFrom(m, i, left - 1, r)
  }

  function ParseOpts(s: Sock, p: Packet): Sock {
    var r := ParseFrom(p.options + p.payload, 0, U8(|p.options|), ParsedOptions(None, false));
    var s1 := if r.mss.Some? then s.(smss := r.mss.value) else s;
    if r.sack && s.sack.ok then s1.(sack := s1.sack.(allowed := 4)) else s1.(sack := s1.sack.(ok := false))
  }

  // ----- acknowledgements -----

  predicate Acked(skb: Skb, una: u32) {
    skb.seqNo > 0 && skb.endSeq <= una
  }

  /** How many buffers at the front of `q` the acknowledgement covers. */
  function AckedPrefix(q: seq<Skb>, una: u32): (k: nat)
    ensures k <= |q|
    ensures forall i :: 0 <= i < k ==> Acked(q[i], una)
    ensures k < |q| ==> !Acked(q[k], una)
  {
    if q == [] || !Acked(q[0], una) then 0 else 1 + AckedPrefix(q[1..], una)
  }

  function CleanRtoQueue(s: Sock, una: u32): Sock {
    var k := AckedPrefix(s.writeQ, una);
    var s1 := s.(writeQ := s.writeQ[k..], inflight := if s.inflight >= k then s.inflight - k else 0);
    if s1.writeQ == [] || s1.inflight == 0 then StopRto(s1) else s1
  }

  /** One turn of the loop of `tcp_clean_rto_queue`, and what follows the loop. */
  lemma CleanTurn(s: Sock, una: u32)
    ensures if s.writeQ != [] && Acked(s.writeQ[0], una) then
        CleanRtoQueue(s, una) ==
        CleanRtoQueue(s.(writeQ := s.writeQ[1..], inflight := if s.inflight > 0 then s.inflight - 1 else 0), una)
      else CleanRtoQueue(s, una) == if s.writeQ == [] || s.inflight == 0 then StopRto(s) else s
  {
    if s.writeQ != [] && Acked(s.writeQ[0], una) {
      var k := AckedPrefix(s.writeQ, una);
      assert s.writeQ[k..] == s.writeQ[1..][k - 1..];
    }
  }

  predicate VerifySegment(s: Sock, p: Packet) {
    && !(|p.payload| > 0 && s.tcb.rcvWnd == 0)
    && s.tcb.rcvNxt <= p.seqNo <= U32(s.tcb.rcvNxt + s.tcb.rcvWnd)
  }

  predicate NewAck(s: Sock, p: Packet) {
    s.tcb.sndUna < p.ackSeq <= s.tcb.sndNxt
  }

  function AckStage(s: Sock, p: Packet, now: nat): Sock {
    if NewAck(s, p) then
      CleanRtoQueue(s.(tcb := s.tcb.(sndUna := p.ackSeq), rtx := Rtt(s.rtx, now)), p.ackSeq)
    else s
  }

  // ----- the stages of tcp_input_state after the ACK -----

  /** What an empty write queue means: our FIN has been acknowledged. `LAST_ACK` is treated by the caller. */
  function FinAcked(s: Sock, p: Packet): Sock {
    if s.writeQ != [] then s
    else match s.state
      case FinWait1 => s.(state := FinWait2)
      case Closing => s.(state := TimeWait)
      case TimeWait => if s.tcb.rcvNxt == p.seqNo then SendAck(s.(inbox := s.inbox.(fin := true))) else s
      case _ => s
  }

  predicate AcceptsText(s: Sock) {
    s.state in {Established, FinWait1, FinWait2}
  }

  function TextStage(s: Sock, p: Packet): Sock {
    if AcceptsText(s) && (p.flags.psh || |p.payload| > 0) then DataQueue(s, SkbOf(p)) else s
  }

  function FinTransition(s: Sock, now: nat): Sock {
    match s.state
    case SynReceived => s.(state := CloseWait)
    case Established => s.(state := CloseWait)
    case FinWait1 => if s.writeQ == [] then EnterTimeWait(s, now) else s.(state := Closing)
    case FinWait2 => EnterTimeWait(s, now)
    case _ => s
  }

  function AckFin(s: Sock): Sock {
    SendAck(s.(tcb := s.tcb.(rcvNxt := U32(s.tcb.rcvNxt + 1)), inbox := s.inbox.(fin := true, pollIn := true)))
  }

  function FinStage(s: Sock, now: nat): Sock {
    FinTransition(AckFin(s), now)
  }

  /** The next burst, once nothing is in flight. */
  function Burst(s: Sock, now: nat): Sock {
    var pending := Min(|s.writeQ|, MAX_BURST);
    RearmRto(SendNext(s, pending).(inflight := pending), now)
  }

  /** An ACK at once, after every second full-sized segment, or within 200 ms. */
  function AckOrDelay(s: Sock, p: Packet, now: nat): Sock {
    if p.flags.psh then SendAck(s.(delacks := 0))
    else if |p.payload| > 1000 && U8(s.delacks + 1) > 1 then SendAck(s.(delacks := 0))
    else
      var s1 := if |p.payload| > 1000 then s.(delacks := U8(s.delacks + 1)) else s;
      if |p.payload| > 0 then s1.(delack := Some(Timer(now + DELACK_MS, SendDelack))) else s1
  }

  function AckPolicy(s: Sock, p: Packet, now: nat): Sock {
    var s1 := s.(delack := None);
    if s.inflight == 0 && s.writeQ != [] then Burst(s1, now) else AckOrDelay(s1, p, now)
  }

  lemma AckStageKeeps(s: Sock, p: Packet, now: nat)
    ensures var t := AckStage(s, p, now);
      t.inbox == s.inbox && t.sack == s.sack && t.tcb.rcvNxt == s.tcb.rcvNxt && t.state == s.state
  {
    hide AckedPrefix;
  }

  lemma FinAckedKeeps(s: Sock, p: Packet)
    ensures FinAcked(s, p).tcb == s.tcb
  {
    hide OptionsAfter, SacksAfter, OptionsLen;
  }

  /** Text, FIN and acknowledgement policy. `expected` is decided before the text is processed. */
  function ProcessText(s: Sock, p: Packet, now: nat): Sock {
    var expected := p.seqNo == s.tcb.rcvNxt;
    var s1 := TextStage(s, p);
    var s2 := if p.flags.fin && expected then FinStage(s1, now) else s1;
    if expected && AcceptsText(s2) then AckPolicy(s2, p, now) else s2
  }

  /** The part of `tcp_input_state` that runs with an acceptable ACK segment in hand. */
  function ProcessAck(s: Sock, p: Packet, now: nat): Sock {
    var s1 := if s.state == TimeWait then s else AckStage(s, p, now);
    if s.state != TimeWait && (p.ackSeq < s1.tcb.sndUna || p.ackSeq > s1.tcb.sndNxt) then s1
    else if s1.writeQ == [] && s1.state == LastAck then Done(s1)
    else ProcessText(FinAcked(s1, p), p, now)
  }

  function Reset(s: Sock): Sock {
    if s.state == Close then s.(inbox := s.inbox.(pollIn := false))
    else
      var err := if s.state == SynSent then -ECONNREFUSED
                 else if s.state == CloseWait then -EPIPE else -ECONNRESET;
      Done(s.(err := err, inbox := s.inbox.(pollIn := false)))
  }

  function SockConnected(s: Sock): Sock {
    s.(err := 0, inbox := s.inbox.(pollIn := false))
  }

  /** What a SYN, with or without an ACK, tells an opening socket. */
  function LearnSyn(s: Sock, p: Packet): Sock {
    var s1 := s.(tcb := s.tcb.(rcvNxt := U32(p.seqNo + 1), irs := p.seqNo));
    if p.flags.ack then CleanRtoQueue(s1.(tcb := s1.tcb.(sndUna := p.ackSeq)), p.ackSeq) else s1
  }

  /** RFC 6298: the RTO is set to one second. */
  function EnterEstablished(s: Sock): Sock {
    s.(state := Established, tcb := s.tcb.(sndUna := s.tcb.sndNxt), rtx := s.rtx.(backoff := 0, rto := 1000))
  }

  function AckSyn(s: Sock): Sock {
    SendAck(EnterEstablished(s))
  }

  function Establish(s: Sock, p: Packet, now: nat): Sock {
    SockConnected(ParseOpts(RearmUserTimeout(AckSyn(s), now), p))
  }

  function EnterSynReceived(s: Sock): Sock {
    SendSynAck(s.(state := SynReceived, tcb := s.tcb.(sndUna := s.tcb.iss)))
  }

  function SynSentInput(s: Sock, p: Packet, now: nat): Sock {
    if p.flags.ack && (p.ackSeq <= s.tcb.iss || p.ackSeq > s.tcb.sndNxt || p.ackSeq < s.tcb.sndUna) then s
    else if p.flags.rst then Reset(s)
    else if !p.flags.syn then s
    else
      var s1 := LearnSyn(s, p);
      if s1.tcb.sndUna > s1.tcb.iss then Establish(s1, p, now)
      else EnterSynReceived(s1)
  }

  /** `tcp_input_state`. */
  function Input(s: Sock, p: Packet, now: nat): Sock {
    match s.state
    case Close => if p.flags.rst then s else SendReset(s)
    case Listen => s
    case SynSent => SynSentInput(s, p, now)
    case _ =>
      if !VerifySegment(s, p) then (if p.flags.rst then s else SendAck(s))
      else if p.flags.rst then EnterTimeWait(s, now)
      else if p.flags.syn || !p.flags.ack then s
      else if s.state == SynReceived then
        if s.tcb.sndUna <= p.ackSeq < s.tcb.sndNxt then ProcessAck(s.(state := Established), p, now) else s
      else ProcessAck(s, p, now)
  }

  // ----- calls of the user and the remaining handlers -----

  predicate Writable(s: Sock) {
    s.err == 0 && s.state in {Established, CloseWait}
  }

  function Write(s: Sock, buf: seq<byte>, now: nat): Sock {
    if Writable(s) then Send(s, buf, now) else s
  }

  /** Whether a pass over `tcp_receive` that obtained `got` of `n` bytes returns to the user with data or
      an end-of-stream; otherwise it returns `-EAGAIN`, or sleeps and makes another pass. */
  predicate ReceiveReturns(s: Sock, got: nat, n: nat, blocking: bool) {
    s.inbox.psh || s.inbox.fin || got == n || (!blocking && got > 0)
  }

  /** One pass of the loop in `tcp_receive`, asking for `n` bytes. A blocking call that sleeps is a
      sequence of such passes. */
  function Receive(s: Sock, n: nat, blocking: bool, now: nat): (Sock, seq<byte>) {
    if n == 0 then (RearmUserTimeout(s, now), [])
    else
      var (s1, data) := DataDequeue(s, n);
      var s2 := s1.(inbox := s1.inbox.(psh := false));
      (if ReceiveReturns(s1, |data|, n, blocking) then RearmUserTimeout(s2, now) else s2, data)
  }

  predicate Readable(s: Sock) {
    s.state !in {Close, Closing, LastAck, TimeWait}
  }

  function Read(s: Sock, n: nat, blocking: bool, now: nat): (Sock, seq<byte>) {
    if !Readable(s) then (s, [])
    else if s.state == CloseWait && s.inbox.recvQ == [] && s.inbox.fin then (s.(inbox := s.inbox.(fin := false)), [])
    else Receive(s, n, blocking, now)
  }

  function CloseCall(s: Sock, now: nat): Sock {
    match s.state
    case Listen => Done(s)
    case SynSent => Done(s)
    case SynReceived => Done(s)
    case Established => QueueFin(s.(state := FinWait1), now)
    case CloseWait => QueueFin(s, now)
    case _ => s.(err := -EBADF)
  }

  function Abort(s: Sock): Sock {
    Done(SendReset(s))
  }

  /** Both handlers that share the `linger` timer. */
  function LingerFires(s: Sock, handler: Handler): Sock {
    var s1 := s.(linger := None);
    if handler == UserTimeout then Abort(s1) else Done(s1)
  }
}
