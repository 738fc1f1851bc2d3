/** How the headers of a segment fit in front of its text (src/tcp_output.c, src/ip_output.c, src/netdev.c):
    a buffer is allocated with exactly the room that the pushes use up, however often it is sent. */
module HeaderRoom {
  import opened Words
  import opened TcpTypes
  import opened SkBuffs

  const ETH_HDR_LEN := 14
  const IP_HDR_LEN := 20
  const TCP_HDR_LEN := 20
  const TCP_DOFFSET := 5

  /** How far down a packet gets: `ip_output` may find no route, and the neighbour may be unknown. */
  datatype Fate = NoRoute | NoNeighbour | Sent

  /** The offset that `data` then has. */
  function Top(f: Fate): nat {
    match f
    case NoRoute => ETH_HDR_LEN + IP_HDR_LEN
    case NoNeighbour => ETH_HDR_LEN
    case Sent => 0
  }

  /** A live buffer with room for the headers of a segment with `hl` words of TCP header, and nothing more. */
  ghost predicate Fitted(skb: SkBuff, hl: nat)
    reads skb
  {
    !skb.freed && skb.size == ETH_HDR_LEN + IP_HDR_LEN + hl * 4 + skb.dlen
  }

  /** `data` stands at the text. */
  ghost predicate Ready(skb: SkBuff, hl: nat)
    reads skb
  {
    Fitted(skb, hl) && skb.data == skb.size - skb.dlen && skb.len == skb.dlen
  }

  /** `tcp_alloc_skb`, and the push by which `tcp_send` makes room for the text. */
  method AllocSegment(flags: Flags, options: seq<byte>, text: seq<byte>) returns (skb: SkBuff)
    requires |options| % 4 == 0
    ensures fresh(skb) && Ready(skb, TCP_DOFFSET + |options| / 4) && skb.dlen == |text| && skb.refcnt == 0
  {
    var reserved := ETH_HDR_LEN + IP_HDR_LEN + TCP_HDR_LEN + |options| + |text|;
    skb := new SkBuff(reserved, 0, flags, options, text);
    skb.Reserve(reserved);
    skb.Push(|text|);
  }

  /** The pushes of `tcp_transmit_skb`, `ip_output` and `netdev_transmit`. `tcp_hdr` and `ip_hdr` look for
      their headers at fixed offsets from `head`; `covered` is the length that the TCP checksum is taken
      over, and `total` the length written into the IP header. */
  method Transmit(skb: SkBuff, hl: nat, fate: Fate) returns (tcpAt: int, covered: int, ipAt: int, total: int)
    requires Ready(skb, hl)
    modifies skb`data, skb`len
    ensures tcpAt == 34 && covered == hl * 4 + skb.dlen
    ensures fate != NoRoute ==> ipAt == 14 && total == 20 + hl * 4 + skb.dlen
    ensures skb.data == Top(fate) && skb.len == skb.size - Top(fate)
  {
    skb.Push(hl * 4);
    tcpAt, covered := skb.data, skb.len;
    ipAt, total := tcpAt, covered;
    if fate != NoRoute {
      skb.Push(IP_HDR_LEN);
      ipAt, total := skb.data, skb.len;
      if fate == Sent {
        skb.Push(ETH_HDR_LEN);
      }
    }
  }

  /** `skb_reset_header` in `tcp_send_next` and the timer handlers: whatever became of the last attempt, the
      buffer is ready for the next one. */
  method Rewind(skb: SkBuff, hl: nat)
    requires Fitted(skb, hl)
    modifies skb`data, skb`len
    ensures Ready(skb, hl)
  {
    skb.ResetHeader();
  }

  /** A segment sent and resent any number of times, with any fortune: whenever it goes out it fills the
      buffer from `head` to `end`, and no push ever moves below `head`. */
  method SendRepeatedly(flags: Flags, options: seq<byte>, text: seq<byte>, fates: seq<Fate>)
    returns (tops: seq<int>, lens: seq<int>, size: nat)
    requires |options| % 4 == 0
    ensures size == 54 + |options| + |text|
    ensures |tops| == |lens| == |fates|
    ensures forall i :: 0 <= i < |fates| ==>
      tops[i] >= 0 && lens[i] == size - tops[i] && (fates[i] == Sent ==> tops[i] == 0 && lens[i] == size)
  {
    var skb := AllocSegment(flags, options, text);
    var hl := TCP_DOFFSET + |options| / 4;
    tops, lens, size := [], [], skb.size;
    while |tops| < |fates|
      invariant |tops| == |lens| <= |fates| && Fitted(skb, hl) && (tops == [] ==> Ready(skb, hl))
      invariant skb.dlen == |text| && skb.size == size && fresh(skb)
      invariant forall i :: 0 <= i < |tops| ==> tops[i] == Top(fates[i]) && lens[i] == size - tops[i]
    {
      if tops != [] {
        Rewind(skb, hl);
      }
      var _, _, _, _ := Transmit(skb, hl, fates[|tops|]);
      tops, lens := tops + [skb.data], lens + [skb.len];
    }
  }
}
