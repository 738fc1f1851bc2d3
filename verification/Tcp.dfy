/** src/tcp.c: timers of a socket, the round-trip estimator, SACK calculation and teardown, each as a
    function from socket to socket. `now` is the timer tick in milliseconds. */
module Tcp {
  import opened Words
  import opened TcpTypes

  const SYN_BACKOFF := 500
  const TIME_WAIT_MS := 60000
  const USER_TIMEOUT_MS := 180000

  // ----- timers -----

  function StopTimer(x: Rtx): Rtx {
    x.(timer := None, backoff := 0)
  }

  function StopRto(s: Sock): Sock {
    s.(rtx := StopTimer(s.rtx))
  }

  /** Releasing drops the reference without cancelling: a timer that has not fired stays live. */
  function ReleaseTimer(x: Rtx): Rtx {
    if x.timer.Some? then x.(timer := None, strays := x.strays + [x.timer.value]) else x
  }

  function Shl(x: nat, k: nat): nat {
    if k == 0 then x else 2 * Shl(x, k - 1)
  }

  function RtoTimer(s: Sock, now: nat): Timer {
    if s.state == SynSent then Timer(now + Shl(SYN_BACKOFF, s.rtx.backoff), ConnectRto)
    else Timer(now + s.rtx.rto, RetransmissionTimeout)
  }

  function RearmRto(s: Sock, now: nat): Sock {
    s.(rtx := ReleaseTimer(s.rtx).(timer := Some(RtoTimer(s, now))))
  }

  function RearmUserTimeout(s: Sock, now: nat): Sock {
    if s.state == TimeWait then s else s.(linger := Some(Timer(now + USER_TIMEOUT_MS, UserTimeout)))
  }

  function EnterTimeWait(s: Sock, now: nat): Sock {
    s.(state := TimeWait, rtx := StopTimer(s.rtx), delack := None,
       linger := Some(Timer(now + TIME_WAIT_MS, Linger)))
  }

  /** `tcp_done` leaves the socket in `TCP_CLOSING`, stops its timers and frees the out-of-order queue. */
  function Done(s: Sock): Sock {
    s.(state := Closing, done := true, rtx := StopTimer(s.rtx), delack := None, linger := None,
       inbox := s.inbox.(ofoQ := []))
  }

  // ----- round-trip time -----

  /** The sample that `tcp_rtt` takes: the tick minus the time at which the timer would have been armed
      had it been armed with the present RTO. */
  function RttSample(x: Rtx, now: nat): int
    requires x.timer.Some?
  {
    now - (x.timer.value.expires - x.rto)
  }

  predicate Samples(x: Rtx, now: nat) {
    x.backoff == 0 && x.timer.Some? && RttSample(x, now) >= 0
  }

  function Abs(x: int): nat {
    if x < 0 then -x else x
  }

  /** The C code computes the weights 3/4 and 7/8 in `double`, exactly, and truncates on assignment. */
  function NewRttvar(x: Rtx, r: nat): nat {
    if x.srtt == 0 then r / 2 else (3 * x.rttvar + Abs(x.srtt - r)) / 4
  }

  function NewSrtt(x: Rtx, r: nat): nat {
    if x.srtt == 0 then r else (7 * x.srtt + r) / 8
  }

  function Measure(x: Rtx, r: nat): Rtx {
    var srtt, rttvar := NewSrtt(x, r), NewRttvar(x, r);
    var k := if 4 * rttvar < 200 then 200 else 4 * rttvar;
    x.(srtt := srtt, rttvar := rttvar, rto := U32(srtt + k))
  }

  function Rtt(x: Rtx, now: nat): Rtx {
    if Samples(x, now) then Measure(x, RttSample(x, now)) else x
  }

  // ----- SACK -----

  /** One pass of `tcp_calculate_sacks` over what is left of the out-of-order queue: `cur` indexes the
      block being extended and `n` is `sacklen`. */
  function SackWalk(a: SackArray, cur: nat, n: nat, allowed: SackLimit, q: seq<Skb>): (SackArray, nat)
    requires cur < 4
    decreases |q|
  {
    if q == [] then (a, n)
    else
      var left := if a[cur].left == 0 then q[0].seqNo else a[cur].left;
      var n1 := if a[cur].left == 0 then n + 1 else n;
      if a[cur].right == 0 || a[cur].right == q[0].seqNo then
        SackWalk(a[cur := SackBlock(left, q[0].endSeq)], cur, n1, allowed, q[1..])
      else if n1 >= allowed then
        (a[cur := SackBlock(left, a[cur].right)], n1)
      else
        var a1 := a[cur := SackBlock(left, a[cur].right)];
        SackWalk(a1[n1 := SackBlock(q[0].seqNo, q[0].endSeq)], n1, n1 + 1, allowed, q[1..])
  }

  /** `len` is 0 whenever this is called (`Invariants.RunKeepsInv`), so the guard always holds: the C code
      has no such test and would write past the array. */
  function CalculateSacks(x: Sack, q: seq<Skb>): Sack {
    if x.len < 4 then
      var (a, n) := SackWalk(x.blocks[x.len := NO_BLOCK], x.len, x.len, x.allowed, q);
      x.(blocks := a, len := U8(n))
    else x
  }
}
