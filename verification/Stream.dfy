/** The byte stream that a sender cuts into segments, and the sequence number at which each segment
    starts. `c` is every buffer handed to `tcp_queue_transmit_skb` since the connection opened. */
module Stream {
  import opened Words
  import opened TcpTypes
  import opened TcpOutput

  /** Sequence number of segment `k` when the first one starts at `base`. */
  function Pos(base: nat, c: seq<Skb>, k: nat): (r: nat)
    requires k <= |c|
    ensures base <= r
  {
    base + |Flat(c[..k])|
  }

  /** Data segments are not empty; a FIN is an empty segment and the last one. */
  predicate WellCut(c: seq<Skb>, closed: bool) {
    && (forall k :: 0 <= k < |c| ==> WellFormed(c[k]))
    && (forall k :: 0 <= k < |c| && c[k].flags.fin ==> closed && k == |c| - 1)
    && (closed ==> c != [] && c[|c| - 1].flags.fin)
  }

  predicate WellFormed(skb: Skb) {
    && skb.seqNo == 0 && skb.options == []
    && skb.flags.ack && !skb.flags.syn && !skb.flags.rst
    && (skb.flags.fin <==> skb.payload == [])
    && (skb.flags.fin ==> !skb.flags.psh)
  }

  lemma FlatSplit(c: seq<Skb>, k: nat)
    requires k <= |c|
    ensures Flat(c) == Flat(c[..k]) + Flat(c[k..])
  {
    assert c == c[..k] + c[k..];
    FlatAppend(c[..k], c[k..]);
  }

  lemma PosNext(base: nat, c: seq<Skb>, k: nat)
    requires k < |c|
    ensures Pos(base, c, k + 1) == Pos(base, c, k) + |c[k].payload|
    ensures Flat(c[..k + 1]) == Flat(c[..k]) + c[k].payload
  {
    assert c[..k + 1] == c[..k] + [c[k]];
    FlatSnoc(c[..k], c[k]);
  }

  lemma {:induction false} PosMonotone(base: nat, c: seq<Skb>, i: nat, k: nat)
    requires i <= k <= |c|
    ensures Pos(base, c, i) <= Pos(base, c, k)
    decreases k
  {
    if i < k {
      PosNext(base, c, k - 1);
      PosMonotone(base, c, i, k - 1);
    }
  }

  /** Only a FIN shares its position with what follows. */
  lemma PosStrict(base: nat, c: seq<Skb>, closed: bool, i: nat, k: nat)
    requires WellCut(c, closed) && i < k <= |c| && !c[i].flags.fin
    ensures Pos(base, c, i) < Pos(base, c, k)
  {
    PosNext(base, c, i);
    PosMonotone(base, c, i + 1, k);
  }

  /** Segment `k` is what the stream holds at its position. */
  lemma SegmentInStream(base: nat, c: seq<Skb>, k: nat)
    requires k < |c|
    ensures var n := Pos(base, c, k) - base;
      && n + |c[k].payload| <= |Flat(c)|
      && Flat(c)[n..n + |c[k].payload|] == c[k].payload
  {
    var n, m := |Flat(c[..k])|, |c[k].payload|;
    FlatSplit(c, k + 1);
    PosNext(base, c, k);
    assert Flat(c)[..n + m] == Flat(c[..k]) + c[k].payload;
    assert Flat(c)[n..n + m] == Flat(c)[..n + m][n..];
  }

  lemma PosExtend(base: nat, c: seq<Skb>, x: Skb, k: nat)
    requires k <= |c|
    ensures Pos(base, c + [x], k) == Pos(base, c, k)
  {
    assert (c + [x])[..k] == c[..k];
  }

  lemma PosEnd(base: nat, c: seq<Skb>)
    ensures Pos(base, c, |c|) == base + |Flat(c)|
    ensures Pos(base, c, 0) == base
  {
    assert c[..|c|] == c;
  }
}
