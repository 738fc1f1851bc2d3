/** Selective acknowledgement: what `tcp_calculate_sacks` computes from the out-of-order queue, and how it
    reaches the wire (RFC 2018, sections 3 and 4). */
module Sacks {
  import opened Words
  import opened TcpTypes
  import opened Tcp
  import opened TcpOutput
  import opened TcpData

  /** In queue order without overlap, no segment empty. */
  predicate Disjoint(q: seq<Skb>) {
    && (forall i :: 0 <= i < |q| ==> 0 < q[i].seqNo < q[i].endSeq)
    && (forall i, j :: 0 <= i < j < |q| ==> q[i].endSeq <= q[j].seqNo)
  }

  function RangeOf(skb: Skb): SackBlock {
    SackBlock(skb.seqNo, skb.endSeq)
  }

  /** The maximal contiguous runs of a queue, from left to right. */
  function Runs(q: seq<Skb>): (r: seq<SackBlock>) {
    if q == [] then []
    else
      var r := Runs(q[1..]);
      if r != [] && r[0].left == q[0].endSeq then [SackBlock(q[0].seqNo, r[0].right)] + r[1..]
      else [RangeOf(q[0])] + r
  }

  predicate InQueue(x: nat, q: seq<Skb>) {
    exists i :: 0 <= i < |q| && q[i].seqNo <= x < q[i].endSeq
  }

  predicate InBlocks(x: nat, r: seq<SackBlock>) {
    exists i :: 0 <= i < |r| && r[i].left <= x < r[i].right
  }

  /** Ascending, and with a gap between neighbours, so that no two could be joined. */
  predicate Separated(r: seq<SackBlock>) {
    && (forall i :: 0 <= i < |r| ==> 0 < r[i].left < r[i].right)
    && (forall i, j :: 0 <= i < j < |r| ==> r[i].right < r[j].left)
  }

  lemma {:induction false} RunsBounds(q: seq<Skb>)
    requires Disjoint(q) && q != []
    ensures Runs(q) != [] && Runs(q)[0].left == q[0].seqNo
    ensures Separated(Runs(q))
  {
    if |q| > 1 {
      RunsBounds(q[1..]);
      assert q[0].endSeq <= q[1].seqNo;
    }
  }

  /** The runs cover exactly the queued bytes. */
  lemma {:induction false} RunsCover(q: seq<Skb>, x: nat)
    requires Disjoint(q)
    ensures InQueue(x, q) <==> InBlocks(x, Runs(q))
  {
    if q != [] {
      var r := Runs(q[1..]);
      RunsCover(q[1..], x);
      if |q| > 1 {
        RunsBounds(q[1..]);
      }
      assert InQueue(x, q) <==> q[0].seqNo <= x < q[0].endSeq || InQueue(x, q[1..]) by { QueueCons(x, q); }
      BlocksCons(x, Runs(q));
      if r != [] {
        BlocksCons(x, r);
      }
      assert Runs(q)[1..] == if r != [] && r[0].left == q[0].endSeq then r[1..] else r;
    }
  }

  lemma QueueCons(x: nat, q: seq<Skb>)
    requires q != []
    ensures InQueue(x, q) <==> q[0].seqNo <= x < q[0].endSeq || InQueue(x, q[1..])
  {
    if i :| 0 <= i < |q[1..]| && q[1..][i].seqNo <= x < q[1..][i].endSeq {
      assert q[i + 1] == q[1..][i];
    }
    if i :| 0 <= i < |q| && q[i].seqNo <= x < q[i].endSeq {
      assert i > 0 ==> q[i] == q[1..][i - 1];
    }
  }

  lemma BlocksCons(x: nat, r: seq<SackBlock>)
    requires r != []
    ensures InBlocks(x, r) <==> r[0].left <= x < r[0].right || InBlocks(x, r[1..])
  {
    if i :| 0 <= i < |r[1..]| && r[1..][i].left <= x < r[1..][i].right {
      assert r[i + 1] == r[1..][i];
    }
    if i :| 0 <= i < |r| && r[i].left <= x < r[i].right {
      assert i > 0 ==> r[i] == r[1..][i - 1];
    }
  }

  // ----- the walk -----

  /** The runs of a queue when the first run is already known to reach `open.right`. */
  function RunsFrom(open: SackBlock, q: seq<Skb>): (r: seq<SackBlock>)
    ensures r != [] && r[0].left == open.left
    decreases |q|
  {
    if q == [] then [open]
    else if open.right == q[0].seqNo then RunsFrom(SackBlock(open.left, q[0].endSeq), q[1..])
    else [open] + RunsFrom(RangeOf(q[0]), q[1..])
  }

  /** Growing a run rightwards, as the C code does, gives the same runs as joining leftwards. */
  lemma {:induction false} RunsFromIsRuns(skb: Skb, q: seq<Skb>)
    ensures RunsFrom(RangeOf(skb), q) == Runs([skb] + q)
    decreases |q|
  {
    assert ([skb] + q)[1..] == q;
    if q != [] {
      assert q == [q[0]] + q[1..];
      RunsFromIsRuns(q[0], q[1..]);
      if skb.endSeq == q[0].seqNo {
        RunsFromIsRuns(skb.(endSeq := q[0].endSeq), q[1..]);
        var joined := [skb.(endSeq := q[0].endSeq)] + q[1..];
        assert joined[1..] == q[1..];
      }
    }
  }

  /** Walking on from an open block takes its run and the next ones, while there is room. */
  lemma {:induction false} WalkTakesRuns(a: SackArray, cur: nat, allowed: SackLimit, q: seq<Skb>)
    requires cur < 4 && a[cur].left > 0 && a[cur].right > 0
    requires forall i :: 0 <= i < |q| ==> q[i].seqNo > 0 && q[i].endSeq > 0
    ensures var (b, n) := SackWalk(a, cur, cur + 1, allowed, q);
      var r := RunsFrom(a[cur], q);
      && n == Min(cur + |r|, Max(cur + 1, allowed))
      && cur < n <= 4
      && b[..n] == a[..cur] + r[..n - cur]
      && b[n..] == a[n..]
    decreases |q|
  {
    assert a[cur := SackBlock(a[cur].left, a[cur].right)] == a;
    if q != [] {
      if a[cur].right == q[0].seqNo {
        WalkTakesRuns(a[cur := SackBlock(a[cur].left, q[0].endSeq)], cur, allowed, q[1..]);
      } else if cur + 1 < allowed {
        var a1 := a[cur + 1 := RangeOf(q[0])];
        WalkTakesRuns(a1, cur + 1, allowed, q[1..]);
        assert a1[..cur + 1] == a[..cur] + [a[cur]];
      }
    }
  }

  /** SACK exactness: with the array empty, the computed blocks are the first runs of the queue, as many as
      the connection allows and at least one. */
  lemma SacksAreFirstRuns(x: Sack, q: seq<Skb>)
    requires x.len == 0 && Disjoint(q) && q != []
    ensures var y, r := CalculateSacks(x, q), Runs(q);
      && y.len == Min(|r|, Max(1, x.allowed))
      && 1 <= y.len <= 4
      && y.blocks[..y.len] == r[..y.len]
      && y.blocks[y.len..] == x.blocks[y.len..]
  {
    var a := x.blocks[0 := NO_BLOCK];
    var a1 := a[0 := RangeOf(q[0])];
    assert [q[0]] + q[1..] == q;
    RunsFromIsRuns(q[0], q[1..]);
    WalkTakesRuns(a1, 0, x.allowed, q[1..]);
    assert SackWalk(a, 0, 0, x.allowed, q) == SackWalk(a1, 0, 1, x.allowed, q[1..]);
  }

  // ----- the option -----

  /** Nothing to report: the state of the array at every step boundary. */
  predicate Cleared(x: Sack) {
    x.len == 0 && forall i :: 0 <= i < 4 ==> x.blocks[i] == NO_BLOCK
  }

  /** `n` blocks to report. */
  predicate Filled(x: Sack, n: nat) {
    && 1 <= n <= 4 && x.len == n
    && (forall i :: 0 <= i < n ==> x.blocks[i].left > 0)
    && (forall i :: n <= i < 4 ==> x.blocks[i] == NO_BLOCK)
  }

  lemma {:induction false} WalkStaysInside(a: SackArray, cur: nat, allowed: SackLimit, q: seq<Skb>)
    requires cur < 4 && (forall i :: 0 <= i <= cur ==> a[i].left > 0)
    requires forall i :: 0 <= i < |q| ==> q[i].seqNo > 0
    ensures var (b, n) := SackWalk(a, cur, cur + 1, allowed, q);
      && cur < n <= 4 && (forall i :: 0 <= i < n ==> b[i].left > 0) && b[n..] == a[n..]
    decreases |q|
  {
    if q != [] {
      if a[cur].right == 0 || a[cur].right == q[0].seqNo {
        WalkStaysInside(a[cur := SackBlock(a[cur].left, q[0].endSeq)], cur, allowed, q[1..]);
      } else if cur + 1 < allowed {
        var a1 := a[cur := SackBlock(a[cur].left, a[cur].right)];
        WalkStaysInside(a1[cur + 1 := RangeOf(q[0])], cur + 1, allowed, q[1..]);
      }
    }
  }

  /** The array of four is never overrun, whatever the queue holds. */
  lemma CalculateFills(x: Sack, q: seq<Skb>)
    requires Cleared(x) && q != [] && forall i :: 0 <= i < |q| ==> q[i].seqNo > 0
    ensures var y := CalculateSacks(x, q); Filled(y, y.len) && y.ok == x.ok && y.allowed == x.allowed
  {
    var a := x.blocks[0 := NO_BLOCK];
    var a1 := a[0 := RangeOf(q[0])];
    WalkStaysInside(a1, 0, x.allowed, q[1..]);
    var (b, n) := SackWalk(a1, 0, 1, x.allowed, q[1..]);
    assert SackWalk(a, 0, 0, x.allowed, q) == (b, n);
    forall i | n <= i < 4 ensures b[i] == NO_BLOCK {
      assert b[i] == b[n..][i - n] == a1[n..][i - n];
    }
  }

  lemma {:induction false} CountAll(a: SackArray, n: nat)
    requires n <= 4 && forall i :: 0 <= i < n ==> a[i].left > 0
    ensures CountBlocks(a, n) == n
  {
    if n > 0 {
      CountAll(a, n - 1);
    }
  }

  lemma {:induction false} ClearAll(a: SackArray, n: nat)
    requires n <= 4
    ensures forall i :: 0 <= i < 4 ==> ClearBlocks(a, n)[i] == if i < n then NO_BLOCK else a[i]
    decreases n
  {
    if n > 0 {
      ClearAll(a[n - 1 := NO_BLOCK], n - 1);
    }
  }

  lemma {:induction false} EncodeLength(a: SackArray, n: nat)
    requires n <= 4
    ensures |EncodeBlocks(a, n)| == 8 * n
  {
    if n > 0 {
      EncodeLength(a, n - 1);
    }
  }

  /** `tcp_options_len` reserves exactly what `tcp_write_options` fills, and reporting clears the array. */
  lemma SackFillsReservedSpace(x: Sack, n: nat)
    requires Filled(x, n) && x.ok
    ensures |SackOption(x)| == OptionsLen(x) == 4 + 8 * n
    ensures OptionsAfter(x, Zeros(OptionsLen(x))) == SackOption(x)
    ensures Cleared(SacksAfter(x, Zeros(OptionsLen(x))))
  {
    CountAll(x.blocks, n);
    EncodeLength(x.blocks, n);
    ClearAll(x.blocks, n);
    hide EncodeBlocks, CountBlocks, ClearBlocks;
  }

  /** An array with nothing to report reserves nothing. */
  lemma ClearedReportsNothing(x: Sack)
    requires Cleared(x)
    ensures OptionsLen(x) == 0 && !ReportsSacks(x)
    ensures forall room: seq<byte> :: OptionsAfter(x, room) == room && SacksAfter(x, room) == x
  {
  }

  // ----- reading the option back -----

  function Value32(b: seq<byte>): u32
    requires |b| == 4
  {
    b[0] as int * 0x100_0000 + b[1] as int * 0x1_0000 + b[2] as int * 0x100 + b[3]
  }

  /** The blocks in the body of a SACK option, in the order in which they appear (RFC 2018, section 3). */
  function DecodeBlocks(b: seq<byte>): seq<SackBlock> {
    if |b| < 8 then [] else [SackBlock(Value32(b[..4]), Value32(b[4..8]))] + DecodeBlocks(b[8..])
  }

  lemma BigEndianRoundTrip(x: u32)
    ensures |BigEndian32(x)| == 4 && Value32(BigEndian32(x)) == x
  {
    assert x / 0x1_0000 == x / 0x100_0000 * 0x100 + x / 0x1_0000 % 0x100;
    assert x / 0x100 == x / 0x1_0000 * 0x100 + x / 0x100 % 0x100;
  }

  function Reverse(r: seq<SackBlock>): seq<SackBlock> {
    if r == [] then [] else [r[|r| - 1]] + Reverse(r[..|r| - 1])
  }

  lemma {:induction false} EncodeRoundTrip(a: SackArray, n: nat)
    requires n <= 4
    ensures DecodeBlocks(EncodeBlocks(a, n)) == Reverse(a[..n])
  {
    if n > 0 {
      var l, r, rest := BigEndian32(a[n - 1].left), BigEndian32(a[n - 1].right), EncodeBlocks(a, n - 1);
      BigEndianRoundTrip(a[n - 1].left);
      BigEndianRoundTrip(a[n - 1].right);
      EncodeRoundTrip(a, n - 1);
      EncodeLength(a, n - 1);
      hide BigEndian32, Value32;
      var b := l + r + rest;
      assert b[..4] == l && b[4..8] == r && b[8..] == rest;
      assert a[..n][..n - 1] == a[..n - 1];
    }
  }

  /** The immediate ACK of an out-of-order segment reports the first runs of the queue, the rightmost first,
      and leaves nothing to report. */
  lemma DeferReportsRuns(s: Sock, skb: Skb)
    requires s.sack.ok && Cleared(s.sack) && s.state != Close
    requires var q := InsertOrdered(s.inbox.ofoQ, skb); Disjoint(q) && q != []
    ensures var t := Defer(s, skb);
      var r := Runs(InsertOrdered(s.inbox.ofoQ, skb));
      var n := Min(|r|, Max(1, s.sack.allowed));
      && Cleared(t.sack)
      && |t.wire| == |s.wire| + 1
      && var o := t.wire[|s.wire|].options;
         && |o| == 4 + 8 * n && o[..4] == [1, 1, 5, 2 + 8 * n]
         && DecodeBlocks(o[4..]) == Reverse(r[..n])
  {
    var q := InsertOrdered(s.inbox.ofoQ, skb);
    var x := CalculateSacks(s.sack, q);
    SacksAreFirstRuns(s.sack, q);
    CalculateFills(s.sack, q);
    SackFillsReservedSpace(x, x.len);
    EncodeRoundTrip(x.blocks, x.len);
    hide Runs, CalculateSacks, EncodeBlocks, DecodeBlocks, Reverse, OptionsLen, InsertFrom, Cleared, Filled, Disjoint,
         OptionsAfter, SacksAfter, BigEndian32, InsertOrdered;
    var o := SackOption(x);
    assert o[4..] == EncodeBlocks(x.blocks, x.len);
  }
}
