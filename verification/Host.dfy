/** Everything that can happen to a socket, one atomic step at a time: arrivals, user calls and timers. */
module Host {
  import opened Words
  import opened TcpTypes
  import opened Tcp
  import opened TcpOutput
  import opened TcpInput

  datatype Event =
    | ConnectCall(iss: u32)
    | WriteCall(buf: seq<byte>)
    | ReadCall(n: nat, blocking: bool)
    | CloseRequest
    | AbortRequest
    | Arrival(p: Packet)
    | RtoExpires
    | StrayExpires(i: nat)
    | DelackExpires
    | LingerExpires

  /** `timers_tick` starts a handler once its expiry time lies before the tick. */
  predicate Due(t: Option<Timer>, now: nat) {
    t.Some? && t.value.expires < now
  }

  function RunRtoHandler(s: Sock, h: Handler, now: nat): Sock {
    if h == ConnectRto then ConnectRtoFires(s, now) else RetransmissionTimeoutFires(s, now)
  }

  function Step(s: Sock, e: Event, now: nat): Sock {
    match e
    case ConnectCall(iss) => if s.state == Close then Connect(s, iss, now).(err := -EINPROGRESS) else s
    case WriteCall(buf) => Write(s, buf, now)
    case ReadCall(n, blocking) => Read(s, n, blocking, now).0
    case CloseRequest => CloseCall(s, now)
    case AbortRequest => Abort(s)
    case Arrival(p) => Input(s, p, now)
    case RtoExpires => if Due(s.rtx.timer, now) then RunRtoHandler(s, s.rtx.timer.value.handler, now) else s
    case StrayExpires(i) =>
      if i < |s.rtx.strays| && s.rtx.strays[i].expires < now
      then RunRtoHandler(s.(rtx := s.rtx.(strays := s.rtx.strays[..i] + s.rtx.strays[i + 1..])),
                         s.rtx.strays[i].handler, now)
      else s
    case DelackExpires => if Due(s.delack, now) then DelackFires(s) else s
    case LingerExpires => if Due(s.linger, now) then LingerFires(s, s.linger.value.handler) else s
  }

  const EINPROGRESS := 115

  /** The bytes that a step hands to the reader. */
  function Delivered(s: Sock, e: Event, now: nat): seq<byte> {
    if e.ReadCall? then Read(s, e.n, e.blocking, now).1 else []
  }

  /** A socket as `tcp_alloc_sock` leaves it. */
  const FRESH := Sock(
    Close, false, 0, Tcb(0, 0, 0, 0, 0, 0), Rtx(0, 0, 0, 0, None, []),
    Sack(true, 0, 0, [NO_BLOCK, NO_BLOCK, NO_BLOCK, NO_BLOCK]), Inbox([], [], false, false, false),
    None, 0, None, 536, 0, [], [])

  /** The state of a socket after any sequence of events, each with the tick at which it happens. */
  function Run(s: Sock, trace: seq<(Event, nat)>): Sock {
    if trace == [] then s
    else Step(Run(s, trace[..|trace| - 1]), trace[|trace| - 1].0, trace[|trace| - 1].1)
  }

  lemma RunOne(s: Sock, x: (Event, nat))
    ensures Run(s, [x]) == Step(s, x.0, x.1)
  {
    assert [x][..0] == [];
    hide Step;
  }

  lemma {:induction false} RunSplit(s: Sock, p: seq<(Event, nat)>, q: seq<(Event, nat)>)
    ensures Run(s, p + q) == Run(Run(s, p), q)
  {
    hide Step;
    if q == [] {
      assert p + q == p;
    } else {
      var n := |q| - 1;
      assert (p + q)[..|p + q| - 1] == p + q[..n];
      RunSplit(s, p, q[..n]);
    }
  }
}
