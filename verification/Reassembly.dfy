/** Reassembly: where `tcp_data_insert_ordered` keeps the out-of-order queue in order, and what the receiver
    holds after segments of one division of the stream have arrived in any order, any number of times. */
module Reassembly {
  import opened Words
  import opened TcpTypes
  import opened Tcp
  import opened TcpOutput
  import opened TcpData
  import opened Stream
  import opened Sacks
  import opened Arrivals

  // ----- when insertion keeps the order -----

  predicate Sorted(q: seq<Skb>) {
    forall i, j :: 0 <= i < j < |q| ==> q[i].seqNo < q[j].seqNo
  }

  predicate AlreadyQueued(q: seq<Skb>, sn: u32) {
    exists i :: 0 <= i < |q| && q[i].seqNo == sn
  }

  /** `skb` starts before a queued segment and reaches into it: the case that the C code reports as
      "Could not join skbs" before walking on. */
  predicate RunsInto(skb: Skb, q: seq<Skb>) {
    exists i :: 0 <= i < |q| && skb.seqNo < q[i].seqNo < skb.endSeq
  }

  predicate Overlaps(skb: Skb, q: seq<Skb>) {
    exists i :: 0 <= i < |q| && skb.seqNo < q[i].endSeq && q[i].seqNo < skb.endSeq
  }

  lemma {:induction false} InsertPlace(q: seq<Skb>, i: nat, skb: Skb) returns (k: nat)
    requires i <= |q| && skb.seqNo < skb.endSeq && !AlreadyQueued(q, skb.seqNo)
    ensures i <= k <= |q| && InsertFrom(q, i, skb) == q[..k] + [skb] + q[k..]
    ensures forall m :: i <= m < k ==> q[m].seqNo < skb.endSeq
    ensures k < |q| ==> skb.endSeq <= q[k].seqNo
    decreases |q| - i
  {
    if i == |q| || (skb.seqNo < q[i].seqNo && skb.endSeq <= q[i].seqNo) {
      k := i;
    } else {
      k := InsertPlace(q, i + 1, skb);
    }
  }

  lemma {:induction false} InsertFinds(q: seq<Skb>, i: nat, skb: Skb, k: nat)
    requires i <= k < |q| && Sorted(q) && q[k].seqNo == skb.seqNo
    ensures InsertFrom(q, i, skb) == q
    decreases |q| - i
  {
    if i < k {
      assert q[i].seqNo < q[k].seqNo;
      InsertFinds(q, i + 1, skb, k);
    }
  }

  function Splice(q: seq<Skb>, k: nat, skb: Skb): seq<Skb>
    requires k <= |q|
  {
    q[..k] + [skb] + q[k..]
  }

  lemma SpliceAt(q: seq<Skb>, k: nat, skb: Skb)
    requires k <= |q|
    ensures var r := Splice(q, k, skb);
      && |r| == |q| + 1 && r[k] == skb
      && (forall m :: 0 <= m < k ==> r[m] == q[m])
      && (forall m :: k < m <= |q| ==> r[m] == q[m - 1])
  {
  }

  lemma SpliceSorted(q: seq<Skb>, k: nat, skb: Skb)
    requires k <= |q| && Sorted(q)
    requires forall m :: 0 <= m < k ==> q[m].seqNo < skb.seqNo
    requires k < |q| ==> skb.seqNo < q[k].seqNo
    ensures Sorted(Splice(q, k, skb))
  {
    SpliceAt(q, k, skb);
    hide Splice;
  }

  lemma SpliceDisjoint(q: seq<Skb>, k: nat, skb: Skb)
    requires k <= |q| && Disjoint(q) && 0 < skb.seqNo < skb.endSeq
    requires forall m :: 0 <= m < k ==> q[m].endSeq <= skb.seqNo
    requires k < |q| ==> skb.endSeq <= q[k].seqNo
    ensures Disjoint(Splice(q, k, skb))
  {
    SpliceAt(q, k, skb);
    hide Splice;
    forall m | k < m < |q| ensures skb.endSeq <= q[m].seqNo {
      assert q[k].endSeq <= q[m].seqNo;
    }
  }

  /** Insertion keeps the queue in sequence order exactly when the segment is already there or does not run
      into a later one. */
  lemma InsertKeepsOrder(q: seq<Skb>, skb: Skb)
    requires Sorted(q) && skb.seqNo < skb.endSeq
    ensures Sorted(InsertOrdered(q, skb)) <==> AlreadyQueued(q, skb.seqNo) || !RunsInto(skb, q)
  {
    if k :| 0 <= k < |q| && q[k].seqNo == skb.seqNo {
      InsertFinds(q, 0, skb, k);
    } else {
      var k := InsertPlace(q, 0, skb);
      SpliceAt(q, k, skb);
      hide InsertFrom;
      assert InsertFrom(q, 0, skb) == Splice(q, k, skb);
      if i :| 0 <= i < |q| && skb.seqNo < q[i].seqNo < skb.endSeq {
        assert Splice(q, k, skb)[i].seqNo > Splice(q, k, skb)[k].seqNo;
      } else {
        hide Splice;
        SpliceSorted(q, k, skb);
      }
    }
  }

  /** Insertion keeps the queue free of overlaps exactly when the segment is already there or overlaps
      nothing. */
  lemma InsertKeepsDisjoint(q: seq<Skb>, skb: Skb)
    requires Disjoint(q) && 0 < skb.seqNo < skb.endSeq
    ensures Disjoint(InsertOrdered(q, skb)) <==> AlreadyQueued(q, skb.seqNo) || !Overlaps(skb, q)
  {
    if k :| 0 <= k < |q| && q[k].seqNo == skb.seqNo {
      assert Sorted(q);
      InsertFinds(q, 0, skb, k);
    } else {
      var k := InsertPlace(q, 0, skb);
      SpliceAt(q, k, skb);
      hide InsertFrom;
      assert InsertFrom(q, 0, skb) == Splice(q, k, skb);
      if i :| 0 <= i < |q| && skb.seqNo < q[i].endSeq && q[i].seqNo < skb.endSeq {
        assert Splice(q, k, skb)[i].endSeq > Splice(q, k, skb)[k].seqNo;
      } else {
        hide Splice;
        SpliceDisjoint(q, k, skb);
      }
    }
  }

  // ----- confluence -----

  /** A division of a stream that starts at `base` into non-empty segments. */
  predicate Division(d: seq<Skb>, base: nat) {
    && Pos(base, d, |d|) < MOD32
    && forall k :: 0 <= k < |d| ==>
         && d[k].payload != [] && d[k].seqNo == Pos(base, d, k) && d[k].endSeq == Pos(base, d, k + 1)
  }

  /** The first segment from `i` on that has not arrived. */
  function FirstMissing(arrived: set<nat>, i: nat, n: nat): (m: nat)
    requires i <= n
    ensures i <= m <= n
    ensures forall k :: i <= k < m ==> k in arrived
    ensures m < n ==> m !in arrived
    decreases n - i
  {
    if i < n && i in arrived then FirstMissing(arrived, i + 1, n) else i
  }

  /** The segments from `i` on that have arrived, in order. */
  function Above(arrived: set<nat>, i: nat, d: seq<Skb>): seq<Skb>
    requires i <= |d|
    decreases |d| - i
  {
    if i == |d| then []
    else if i in arrived then [d[i]] + Above(arrived, i + 1, d)
    else Above(arrived, i + 1, d)
  }

  /** Of the segments in `arrived`, the longest contiguous prefix has been received and the rest waits, in
      order. */
  predicate Holding(q: Queues, d: seq<Skb>, base: nat, arrived: set<nat>) {
    var m := FirstMissing(arrived, 0, |d|);
    q.rcvNxt == Pos(base, d, m) && q.ofoQ == Above(arrived, m, d)
  }

  lemma DivisionIncreases(d: seq<Skb>, base: nat, i: nat, k: nat)
    requires Division(d, base) && i < k <= |d|
    ensures Pos(base, d, i) < Pos(base, d, k) < MOD32
  {
    PosNext(base, d, i);
    PosMonotone(base, d, i + 1, k);
    PosMonotone(base, d, k, |d|);
  }

  lemma {:induction false} AboveLater(arrived: set<nat>, i: nat, d: seq<Skb>, base: nat)
    requires i <= |d| && Division(d, base)
    ensures var q := Above(arrived, i, d);
      && Sorted(q)
      && (forall j :: 0 <= j < |q| ==> q[j].seqNo >= Pos(base, d, i))
      && (i < |d| && i !in arrived ==> forall j :: 0 <= j < |q| ==> q[j].seqNo > Pos(base, d, i))
    decreases |d| - i
  {
    if i < |d| {
      AboveLater(arrived, i + 1, d, base);
      DivisionIncreases(d, base, i, i + 1);
      hide Pos;
    }
  }

  /** A segment above the gap is put into its place among the waiting ones. */
  lemma {:induction false} InsertAbove(arrived: set<nat>, i: nat, d: seq<Skb>, base: nat, k: nat)
    requires i <= k < |d| && Division(d, base)
    ensures InsertOrdered(Above(arrived, i, d), d[k]) == Above(arrived + {k}, i, d)
    decreases |d| - i
  {
    var q := Above(arrived, i, d);
    AboveLater(arrived, i + 1, d, base);
    DivisionIncreases(d, base, i, i + 1);
    if i == k {
      AboveStable(arrived, i + 1, d, k);
      if k !in arrived && q != [] {
        assert q[0].seqNo >= Pos(base, d, i + 1);
      }
    } else {
      InsertAbove(arrived, i + 1, d, base, k);
      if i in arrived {
        DivisionIncreases(d, base, i, k);
        InsertSkips(d[i], Above(arrived, i + 1, d), 0, d[k]);
      }
    }
  }

  lemma {:induction false} AboveStable(arrived: set<nat>, i: nat, d: seq<Skb>, k: nat)
    requires i <= |d| && (k < i || k in arrived)
    ensures Above(arrived + {k}, i, d) == Above(arrived, i, d)
    decreases |d| - i
  {
    if i < |d| {
      AboveStable(arrived, i + 1, d, k);
    }
  }

  lemma {:induction false} InsertSkips(x: Skb, q: seq<Skb>, i: nat, skb: Skb)
    requires i <= |q|
    ensures InsertFrom([x] + q, i + 1, skb) == [x] + InsertFrom(q, i, skb)
    ensures x.seqNo < skb.seqNo && i == 0 ==> InsertFrom([x] + q, 0, skb) == [x] + InsertFrom(q, 0, skb)
    decreases |q| - i
  {
    var all := [x] + q;
    assert forall j :: 0 <= j <= |q| ==> all[..j + 1] == [x] + q[..j] && all[j + 1..] == q[j..];
    if i < |q| {
      InsertSkips(x, q, i + 1, skb);
    }
  }

  /** What waits from `i` on: everything up to the next gap, then the rest. */
  lemma {:induction false} AboveSplits(arrived: set<nat>, i: nat, d: seq<Skb>)
    requires i <= |d|
    ensures var m := FirstMissing(arrived, i, |d|); Above(arrived, i, d) == d[i..m] + Above(arrived, m, d)
    decreases |d| - i
  {
    var m := FirstMissing(arrived, i, |d|);
    if i < |d| && i in arrived {
      AboveSplits(arrived, i + 1, d);
      var rest := Above(arrived, m, d);
      assert Above(arrived, i, d) == [d[i]] + (d[i + 1..m] + rest);
      hide Above, FirstMissing;
      assert d[i..m] == [d[i]] + d[i + 1..m];
      assert [d[i]] + (d[i + 1..m] + rest) == d[i..m] + rest;
    } else {
      assert m == i && d[i..i] == [];
      hide Above, FirstMissing;
    }
  }

  /** Contiguous segments are released one after the other, up to the first that does not continue them. */
  lemma {:induction false} ReadyChain(d: seq<Skb>, base: nat, i: nat, m: nat, rest: seq<Skb>)
    requires i <= m <= |d| && Division(d, base)
    requires rest != [] ==> rest[0].seqNo != Pos(base, d, m)
    ensures Pos(base, d, i) < MOD32
    ensures ReadyPrefix(Pos(base, d, i), d[i..m] + rest) == m - i
    ensures Advance(Pos(base, d, i), d[i..m]) == Pos(base, d, m)
    decreases m - i
  {
    hide Pos, Flat;
    PosMonotone(base, d, i, |d|);
    if i < m {
      PosNext(base, d, i);
      DivisionIncreases(d, base, i, i + 1);
      ReadyChain(d, base, i + 1, m, rest);
      assert (d[i..m] + rest)[1..] == d[i + 1..m] + rest;
      assert d[i..m][1..] == d[i + 1..m];
    } else {
      assert d[i..m] + rest == rest;
    }
  }

  lemma FirstMissingGrows(arrived: set<nat>, k: nat, i: nat, n: nat)
    requires i <= n
    ensures var m := FirstMissing(arrived, i, n);
      FirstMissing(arrived + {k}, i, n) == if k == m < n then FirstMissing(arrived + {k}, m + 1, n) else m
    decreases n - i
  {
    if i < n && i in arrived {
      FirstMissingGrows(arrived, k, i + 1, n);
    }
  }

  /** One more arrival: a segment from `rcv_nxt` on takes its place, and if it fills the gap everything up to the
      next gap is received. */
  lemma ArrivalFills(q: Queues, d: seq<Skb>, base: nat, arrived: set<nat>, k: nat)
    requires Division(d, base) && Holding(q, d, base, arrived) && k < |d| && q.rcvNxt <= d[k].seqNo
    ensures var t, m, m' := Queueing(q, d[k]), FirstMissing(arrived, 0, |d|), FirstMissing(arrived + {k}, 0, |d|);
      m <= m' && Holding(t, d, base, arrived + {k}) && t.recvQ == q.recvQ + d[m..m']
  {
    hide Pos, Flat;
    var m := FirstMissing(arrived, 0, |d|);
    FirstMissingGrows(arrived, k, 0, |d|);
    if k < m {
      DivisionIncreases(d, base, k, m);
    } else if k > m {
      DivisionIncreases(d, base, m, k);
      InsertAbove(arrived, m, d, base, k);
      hide InsertOrdered, Released;
    } else {
      NextFills(q, d, base, arrived, m);
      hide Queueing;
    }
  }

  /** What lies before `rcv_nxt` has been received already. */
  lemma BelowIsHeld(q: Queues, d: seq<Skb>, base: nat, arrived: set<nat>, k: nat)
    requires Division(d, base) && Holding(q, d, base, arrived) && k < |d| && d[k].seqNo < q.rcvNxt
    ensures k in arrived && k < FirstMissing(arrived, 0, |d|)
  {
    hide Pos, Flat;
    var m := FirstMissing(arrived, 0, |d|);
    if m < k {
      DivisionIncreases(d, base, m, k);
    }
  }

  /** What the arrival of segment `m` releases when everything before it has been received. */
  lemma ReleasedUpToGap(d: seq<Skb>, base: nat, arrived: set<nat>, i: nat)
    requires Division(d, base) && i <= |d|
    ensures var m, p := FirstMissing(arrived, i, |d|), Pos(base, d, i);
      && Above(arrived, i, d) == d[i..m] + Above(arrived, m, d)
      && p < MOD32
      && ReadyPrefix(p, d[i..m] + Above(arrived, m, d)) == m - i
      && Advance(p, d[i..m]) == Pos(base, d, m)
  {
    hide Pos, Flat;
    var m := FirstMissing(arrived, i, |d|);
    AboveSplits(arrived, i, d);
    AboveLater(arrived, m, d, base);
    ReadyChain(d, base, i, m, Above(arrived, m, d));
  }

  lemma NextFills(q: Queues, d: seq<Skb>, base: nat, arrived: set<nat>, m: nat)
    requires Division(d, base) && Holding(q, d, base, arrived)
    requires m == FirstMissing(arrived, 0, |d|) < |d|
    ensures var t, m' := Queueing(q, d[m]), FirstMissing(arrived + {m}, m + 1, |d|);
      && t.rcvNxt == Pos(base, d, m') && t.recvQ == q.recvQ + d[m..m']
      && t.ofoQ == Above(arrived + {m}, m', d)
  {
    var m', nxt := FirstMissing(arrived + {m}, m + 1, |d|), Pos(base, d, m + 1);
    AboveStable(arrived, m + 1, d, m);
    NextInSequence(q, d, base, arrived, m);
    hide *;
    ReleasedUpToGap(d, base, arrived + {m}, m + 1);
    ReleaseRun(Queues(nxt, q.recvQ + [d[m]], q.ofoQ), d[m + 1..m'], Above(arrived + {m}, m', d));
    JoinRun(q.recvQ, d, m, m');
  }

  /** The segment that fills the gap is the next in sequence. */
  lemma NextInSequence(q: Queues, d: seq<Skb>, base: nat, arrived: set<nat>, m: nat)
    requires Division(d, base) && Holding(q, d, base, arrived) && m == FirstMissing(arrived, 0, |d|) < |d|
    ensures q.ofoQ == Above(arrived, m + 1, d) && m < FirstMissing(arrived + {m}, m + 1, |d|) <= |d|
    ensures Pos(base, d, m + 1) < MOD32
    ensures Queueing(q, d[m]) == Released(Queues(Pos(base, d, m + 1), q.recvQ + [d[m]], q.ofoQ))
  {
    PosNext(base, d, m);
    PosMonotone(base, d, m + 1, |d|);
    assert d[m].seqNo == q.rcvNxt && Pos(base, d, m + 1) == q.rcvNxt + |d[m].payload|;
    hide Pos, Flat, Released, FirstMissing, InsertOrdered;
  }

  lemma JoinRun(r: seq<Skb>, d: seq<Skb>, m: nat, m': nat)
    requires m < m' <= |d|
    ensures r + [d[m]] + d[m + 1..m'] == r + d[m..m']
  {
    assert d[m..m'] == [d[m]] + d[m + 1..m'];
  }

  lemma ReleaseRun(q: Queues, ready: seq<Skb>, rest: seq<Skb>)
    requires q.ofoQ == ready + rest && ReadyPrefix(q.rcvNxt, ready + rest) == |ready|
    ensures Released(q) == Queues(Advance(q.rcvNxt, ready), q.recvQ + ready, rest)
  {
    hide ReadyPrefix, Advance;
    assert (ready + rest)[..|ready|] == ready && (ready + rest)[|ready|..] == rest;
  }

  /** The out-of-order queue lies wholly above `rcv_nxt`, in order and without overlap. */
  lemma WaitingIsAbove(q: Queues, d: seq<Skb>, base: nat, arrived: set<nat>)
    requires Division(d, base) && Holding(q, d, base, arrived) && 0 < base
    ensures Disjoint(q.ofoQ)
    ensures forall i :: 0 <= i < |q.ofoQ| ==> q.ofoQ[i].seqNo > q.rcvNxt
  {
    var m := FirstMissing(arrived, 0, |d|);
    AboveLater(arrived, m, d, base);
    AboveDisjoint(arrived, m, d, base);
  }

  lemma {:induction false} AboveDisjoint(arrived: set<nat>, i: nat, d: seq<Skb>, base: nat)
    requires i <= |d| && Division(d, base) && 0 < base
    ensures Disjoint(Above(arrived, i, d))
    decreases |d| - i
  {
    hide Pos, Flat;
    if i < |d| {
      AboveDisjoint(arrived, i + 1, d, base);
      AboveLater(arrived, i + 1, d, base);
      DivisionIncreases(d, base, i, i + 1);
    }
  }
}
