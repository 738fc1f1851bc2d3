/** Who owns a received buffer: the receive and out-of-order queues of a socket as the lists of buffers that
    they are. Each operation is proved to do to the queues what the functions of `TcpData` do to sequences of
    values, and to free a buffer exactly when nobody holds it any more; and the whole of `tcp_input_state`, way out
    by way out, to keep the lists in step with `Host.Run`. */
module Buffers {
  import opened Words
  import opened TcpTypes
  import opened TcpData
  import opened List
  import opened SkBuffs
  import opened TcpInput
  import opened Host
  import opened Receiver
  import opened Arrivals

  /** Every buffer is alive and counted once. */
  ghost predicate Held(skbs: seq<SkBuff>)
    reads skbs, Lists(skbs)
  {
    forall i :: 0 <= i < |skbs| ==> skbs[i].Valid() && skbs[i].refcnt == 1 && !skbs[i].freed
  }

  ghost function Values(skbs: seq<SkBuff>): (r: seq<Skb>)
    reads skbs
    ensures |r| == |skbs| && forall i :: 0 <= i < |skbs| ==> r[i] == skbs[i].Value()
  {
    seq(|skbs|, i requires 0 <= i < |skbs| reads skbs => skbs[i].Value())
  }

  class RxQueues {
    const receiveQueue: SkBuffHead
    const ofoQueue: SkBuffHead
    var rcvNxt: u32

    constructor (rcvNxt: u32)
      ensures Owned() && receiveQueue.skbs == ofoQueue.skbs == [] && this.rcvNxt == rcvNxt
      ensures fresh(Links()) && Accounted([]) && Mirror() == Queues(rcvNxt, [], [])
    {
      receiveQueue := new SkBuffHead();
      ofoQueue := new SkBuffHead();
      this.rcvNxt := rcvNxt;
    }

    ghost function Repr(): set<object>
      reads this, receiveQueue, ofoQueue
    {
      {this} + receiveQueue.Footprint() + ofoQueue.Footprint()
      + (set x | x in receiveQueue.skbs) + (set x | x in ofoQueue.skbs)
    }

    /** Every queued buffer is on exactly one queue, alive, with one reference. */
    ghost predicate Owned()
      reads this, receiveQueue, ofoQueue, Repr()
    {
      && receiveQueue.Valid() && ofoQueue.Valid()
      && Held(receiveQueue.skbs) && Held(ofoQueue.skbs)
      && receiveQueue.Footprint() !! ofoQueue.Footprint()
      && (forall x :: x in receiveQueue.skbs ==> x !in ofoQueue.skbs)
    }

    /** `skb` belongs to nobody yet. */
    ghost predicate Loose(skb: SkBuff)
      reads this, receiveQueue, ofoQueue, skb, skb.list
    {
      skb.Valid() && skb.refcnt == 0 && !skb.freed && skb !in receiveQueue.skbs && skb !in ofoQueue.skbs
    }

    /** `refcnt++` and `skb_queue_add` before `next`. */
    method HoldBefore(skb: SkBuff, next: SkBuff, ghost k: nat)
      requires Owned() && Loose(skb) && k < |ofoQueue.skbs| && next == ofoQueue.skbs[k]
      modifies ofoQueue.Footprint(), skb`refcnt, skb.list
      ensures Owned() && skb.refcnt == 1 && ofoQueue.Footprint() <= old(ofoQueue.Footprint()) + {skb.list}
      ensures ofoQueue.skbs == old(ofoQueue.skbs)[..k] + [skb] + old(ofoQueue.skbs)[k..]
      ensures receiveQueue.skbs == old(receiveQueue.skbs)
    {
      skb.refcnt := skb.refcnt + 1;
      ofoQueue.Add(skb, next, k);
    }

    method HoldLast(skb: SkBuff)
      requires Owned() && Loose(skb)
      modifies ofoQueue.Footprint(), skb`refcnt, skb.list
      ensures Owned() && skb.refcnt == 1 && ofoQueue.Footprint() <= old(ofoQueue.Footprint()) + {skb.list}
      ensures ofoQueue.skbs == old(ofoQueue.skbs) + [skb] && receiveQueue.skbs == old(receiveQueue.skbs)
    {
      LinksApart();
      skb.refcnt := skb.refcnt + 1;
      ofoQueue.Tail(skb);
    }

    /** `skb_queue_tail` on the receive queue. */
    method Append(skb: SkBuff)
      requires Owned() && skb.Valid() && skb.refcnt == 1 && !skb.freed
      requires skb !in receiveQueue.skbs && skb !in ofoQueue.skbs
      modifies receiveQueue.Footprint(), skb.list
      ensures Owned() && receiveQueue.Footprint() <= old(receiveQueue.Footprint()) + {skb.list}
      ensures receiveQueue.skbs == old(receiveQueue.skbs) + [skb] && ofoQueue.skbs == old(ofoQueue.skbs)
    {
      receiveQueue.Tail(skb);
    }

    method TakeOfo() returns (skb: SkBuff)
      requires Owned() && ofoQueue.skbs != []
      modifies ofoQueue.Footprint()
      ensures Owned() && skb == old(ofoQueue.skbs)[0] && ofoQueue.skbs == old(ofoQueue.skbs)[1..]
      ensures skb.Valid() && skb !in receiveQueue.skbs && skb !in ofoQueue.skbs
      ensures ofoQueue.Footprint() <= old(ofoQueue.Footprint()) && skb.list in old(ofoQueue.Footprint())
    {
      assert Lists(ofoQueue.skbs)[0] == ofoQueue.skbs[0].list;
      ofoQueue.Different();
      skb := ofoQueue.Dequeue();
    }

    method TakeReceived() returns (skb: SkBuff)
      requires Owned() && receiveQueue.skbs != []
      modifies receiveQueue.Footprint()
      ensures Owned() && skb == old(receiveQueue.skbs)[0] && receiveQueue.skbs == old(receiveQueue.skbs)[1..]
      ensures skb.Valid() && skb !in receiveQueue.skbs && skb !in ofoQueue.skbs
      ensures receiveQueue.Footprint() <= old(receiveQueue.Footprint())
    {
      receiveQueue.Different();
      skb := receiveQueue.Dequeue();
    }

    /** The walk of `tcp_data_insert_ordered`: where `skb` goes, if it is not there already. */
    method FindPlace(skb: SkBuff) returns (present: bool, next: SkBuff?, ghost k: nat)
      requires Owned() && skb.Valid()
      ensures k <= |ofoQueue.skbs| && next == if k < |ofoQueue.skbs| then ofoQueue.skbs[k] else null
      ensures var q, v := Values(ofoQueue.skbs), skb.Value();
        TcpData.InsertOrdered(q, v) == if present then q else q[..k] + [v] + q[k..]
    {
      ghost var q, v := Values(ofoQueue.skbs), skb.Value();
      k := 0;
      ghost var nodes := Lists(ofoQueue.skbs);
      assert At(ofoQueue.head, nodes, -1).next == At(ofoQueue.head, nodes, 0);
      var pos := ofoQueue.head.next;
      while pos != ofoQueue.head
        invariant 0 <= k <= |nodes| && pos == At(ofoQueue.head, nodes, k)
        invariant InsertFrom(q, k, v) == InsertFrom(q, 0, v)
        decreases |nodes| - k
      {
        assert At(ofoQueue.head, nodes, k).next == At(ofoQueue.head, nodes, k + 1);
        next := pos.owner as SkBuff;
        assert next == ofoQueue.skbs[k] && q[k] == next.Value();
        if skb.seqNo < next.seqNo {
          if skb.endSeq <= next.seqNo {
            return false, next, k;
          }
        } else if skb.seqNo == next.seqNo {
          return true, next, k;
        }
        pos := pos.next;
        k := k + 1;
      }
      assert q[..k] + [v] + q[k..] == q + [v];
      return false, null, k;
    }

    method Hold(skb: SkBuff, next: SkBuff?, ghost k: nat)
      requires Owned() && Loose(skb) && k <= |ofoQueue.skbs|
      requires next == if k < |ofoQueue.skbs| then ofoQueue.skbs[k] else null
      modifies ofoQueue.Footprint(), skb`refcnt, skb.list
      ensures Owned() && skb.refcnt == 1 && ofoQueue.Footprint() <= old(ofoQueue.Footprint()) + {skb.list}
      ensures ofoQueue.skbs == old(ofoQueue.skbs)[..k] + [skb] + old(ofoQueue.skbs)[k..]
      ensures receiveQueue.skbs == old(receiveQueue.skbs)
    {
      if next == null {
        HoldLast(skb);
        ghost var p := old(ofoQueue.skbs);
        assert p + [skb] == p[..k] + [skb] + p[k..];
      } else {
        HoldBefore(skb, next, k);
      }
    }

    method Insert(skb: SkBuff, next: SkBuff?, ghost k: nat)
      requires Owned() && Loose(skb) && k <= |ofoQueue.skbs|
      requires next == if k < |ofoQueue.skbs| then ofoQueue.skbs[k] else null
      modifies ofoQueue.Footprint(), skb`refcnt, skb.list
      ensures Owned() && skb.refcnt == 1 && ofoQueue.Footprint() <= old(ofoQueue.Footprint()) + {skb.list}
      ensures Grew(old(ofoQueue.skbs), ofoQueue.skbs, skb, true) && receiveQueue.skbs == old(receiveQueue.skbs)
      ensures ofoQueue.Footprint() <= old(ofoQueue.Footprint()) + {skb.list}
      ensures Values(receiveQueue.skbs) == old(Values(receiveQueue.skbs))
      ensures Values(ofoQueue.skbs) == old(Values(ofoQueue.skbs)[..k] + [skb.Value()] + Values(ofoQueue.skbs)[k..])
    {
      ghost var p, q, v, rv := ofoQueue.skbs, Values(ofoQueue.skbs), skb.Value(), Values(receiveQueue.skbs);
      Hold(skb, next, k);
      assert SameValues(p, q) && SameValues(receiveQueue.skbs, rv) && skb.Value() == v;
      hide *;
      ValuesSame(receiveQueue.skbs, rv);
      ValuesInserted(p, k, skb, q, v);
    }

    /** `tcp_data_insert_ordered`. */
    method InsertOrdered(skb: SkBuff)
      requires Owned() && Loose(skb)
      modifies ofoQueue.Footprint(), skb`refcnt, skb.list
      ensures Owned() && (Loose(skb) || skb.refcnt == 1)
      ensures Grew(old(ofoQueue.skbs), ofoQueue.skbs, skb, skb.refcnt == 1)
      ensures receiveQueue.skbs == old(receiveQueue.skbs)
      ensures ofoQueue.Footprint() <= old(ofoQueue.Footprint()) + {skb.list}
      ensures Values(receiveQueue.skbs) == old(Values(receiveQueue.skbs))
      ensures Values(ofoQueue.skbs) == TcpData.InsertOrdered(old(Values(ofoQueue.skbs)), old(skb.Value()))
    {
      hide InsertFrom;
      var present, next, k := FindPlace(skb);
      if !present {
        Insert(skb, next, k);
      }
    }

    ghost function Links(): set<object>
      reads this, receiveQueue, ofoQueue
    {
      receiveQueue.Footprint() + ofoQueue.Footprint()
    }

    ghost function Queued(): seq<SkBuff>
      reads this, receiveQueue, ofoQueue
    {
      receiveQueue.skbs + ofoQueue.skbs
    }

    /** The queues as sequences of values. */
    ghost function Mirror(): Queues
      reads this, receiveQueue, ofoQueue, Repr()
    {
      Queues(rcvNxt, Values(receiveQueue.skbs), Values(ofoQueue.skbs))
    }

    /** What is linked is not what links it. */
    lemma LinksApart()
      ensures this !in Links()
      ensures forall i :: 0 <= i < |ofoQueue.skbs| ==> ofoQueue.skbs[i] !in Links()
      ensures forall i :: 0 <= i < |receiveQueue.skbs| ==> receiveQueue.skbs[i] !in Links()
    {
      hide Owned, Values;
    }

    /** The front of the out-of-order queue goes to the end of the receive queue. */
    method MoveFirst()
      requires Owned() && ofoQueue.skbs != []
      modifies Links()
      ensures Owned() && Links() <= old(Links()) && Queued() == old(Queued()) && rcvNxt == old(rcvNxt)
      ensures ofoQueue.skbs == old(ofoQueue.skbs)[1..]
      ensures receiveQueue.skbs == old(receiveQueue.skbs) + [old(ofoQueue.skbs)[0]]
    {
      LinksApart();
      ghost var r, o := receiveQueue.skbs, ofoQueue.skbs;
      var skb := TakeOfo();
      Append(skb);
      assert r + [o[0]] + o[1..] == r + o;
    }

    method MoveValue(ghost ov: seq<Skb>, ghost rv: seq<Skb>)
      requires Owned() && ofoQueue.skbs != []
      requires SameValues(ofoQueue.skbs, ov) && SameValues(receiveQueue.skbs, rv)
      modifies Links()
      ensures Owned() && Links() <= old(Links()) && Queued() == old(Queued()) && rcvNxt == old(rcvNxt)
      ensures |ov| > 0 && Values(ofoQueue.skbs) == ov[1..] && Values(receiveQueue.skbs) == rv + [ov[0]]
      ensures ofoQueue.skbs == old(ofoQueue.skbs)[1..]
    {
      ghost var o, r := ofoQueue.skbs, receiveQueue.skbs;
      LinksApart();
      hide Owned, Held, Queued, Values, Links;
      MoveFirst();
      assert SameValues(o, ov) && SameValues(r, rv);
      hide *;
      ValuesMoved(o, r, ov, rv);
    }

    method Move()
      requires Owned() && ofoQueue.skbs != []
      modifies Links()
      ensures Owned() && Links() <= old(Links()) && Queued() == old(Queued())
      ensures |ofoQueue.skbs| == |old(ofoQueue.skbs)| - 1
      ensures old(Mirror()).ofoQ != [] && Mirror() == Moved(old(Mirror()))
    {
      ghost var q := Mirror();
      assert SameValues(ofoQueue.skbs, q.ofoQ) && SameValues(receiveQueue.skbs, q.recvQ);
      hide Owned, Links, Queued, Values, SameValues;
      MoveValue(q.ofoQ, q.recvQ);
    }

    method Advance(skb: SkBuff)
      requires Owned() && ofoQueue.skbs != [] && skb == ofoQueue.skbs[0]
      modifies this`rcvNxt
      ensures Owned() && Links() == old(Links()) && Queued() == old(Queued())
      ensures old(Mirror()).ofoQ != [] && Mirror() == Advanced(old(Mirror()))
    {
      rcvNxt := U32(rcvNxt + skb.dlen);
    }

    /** One turn of the loop of `tcp_consume_ofo_queue`. */
    method ConsumeFirst(skb: SkBuff)
      requires Owned() && ofoQueue.skbs != [] && skb == ofoQueue.skbs[0] && rcvNxt == skb.seqNo
      modifies this`rcvNxt, Links()
      ensures Owned() && Links() <= old(Links()) && Queued() == old(Queued())
      ensures |ofoQueue.skbs| == |old(ofoQueue.skbs)| - 1
      ensures Released(Mirror()) == Released(old(Mirror()))
    {
      ghost var s := Mirror();
      assert s.ofoQ != [] && s.rcvNxt == s.ofoQ[0].seqNo;
      hide *;
      Advance(skb);
      Move();
      ReleasedTurn(s);
    }

    /** The guard of that loop: the first buffer, if it continues the stream. */
    method PeekReady() returns (skb: SkBuff?)
      requires Owned()
      ensures Owned() && Mirror() == old(Mirror()) && Links() == old(Links()) && Queued() == old(Queued())
      ensures skb != null ==> ofoQueue.skbs != [] && skb == ofoQueue.skbs[0] && rcvNxt == skb.seqNo
      ensures skb == null ==> Released(Mirror()) == Mirror()
    {
      hide Released;
      ReleasedTurn(Mirror());
      skb := ofoQueue.Peek();
      if skb != null && rcvNxt != skb.seqNo {
        skb := null;
      }
    }

    /** `tcp_consume_ofo_queue`. */
    method ConsumeOfo()
      requires Owned()
      modifies this`rcvNxt, Links()
      ensures Owned() && Links() <= old(Links()) && Queued() == old(Queued())
      ensures Mirror() == Released(old(Mirror()))
    {
      hide *;
      var skb := PeekReady();
      while skb != null
        invariant Owned() && Links() <= old(Links()) && Queued() == old(Queued())
        invariant skb != null ==> ofoQueue.skbs != [] && skb == ofoQueue.skbs[0] && rcvNxt == skb.seqNo
        invariant skb == null ==> Released(Mirror()) == Mirror()
        invariant Released(Mirror()) == Released(old(Mirror()))
        decreases |ofoQueue.skbs|
      {
        ConsumeFirst(skb);
        skb := PeekReady();
      }
    }

    /** `refcnt++` and `skb_queue_tail` on the receive queue. */
    method HoldReceived(skb: SkBuff)
      requires Owned() && Loose(skb)
      modifies receiveQueue.Footprint(), skb`refcnt, skb.list
      ensures Owned() && skb.refcnt == 1 && Links() <= old(Links()) + {skb.list} && rcvNxt == old(rcvNxt)
      ensures receiveQueue.skbs == old(receiveQueue.skbs) + [skb] && ofoQueue.skbs == old(ofoQueue.skbs)
    {
      LinksApart();
      skb.refcnt := skb.refcnt + 1;
      receiveQueue.Tail(skb);
    }

    method Receive(skb: SkBuff)
      requires Owned() && Loose(skb)
      modifies Links(), skb`refcnt, skb.list
      ensures Owned() && skb.refcnt == 1 && Links() <= old(Links()) + {skb.list}
      ensures Grew(old(Queued()), Queued(), skb, true)
      ensures Mirror() == Kept(old(Mirror()), old(skb.Value()))
    {
      ghost var q := Queued();
      hide Owned, Loose, Values;
      ReceiveValue(skb);
      assert Grew(q, Queued(), skb, true) by {
        assert forall i :: 0 <= i < |q| ==> q[i] in Queued();
      }
    }

    method ReceiveValue(skb: SkBuff)
      requires Owned() && Loose(skb)
      modifies receiveQueue.Footprint(), skb`refcnt, skb.list
      ensures Owned() && skb.refcnt == 1 && Links() <= old(Links()) + {skb.list} && rcvNxt == old(rcvNxt)
      ensures receiveQueue.skbs == old(receiveQueue.skbs) + [skb] && ofoQueue.skbs == old(ofoQueue.skbs)
      ensures Values(receiveQueue.skbs) == old(Values(receiveQueue.skbs) + [skb.Value()])
      ensures Values(ofoQueue.skbs) == old(Values(ofoQueue.skbs))
    {
      ghost var r, rv, ov, v := receiveQueue.skbs, Values(receiveQueue.skbs), Values(ofoQueue.skbs), skb.Value();
      HoldReceived(skb);
      assert SameValues(r, rv) && SameValues(ofoQueue.skbs, ov);
      assert skb.Value() == v;
      hide *;
      ValuesAppended(r, skb, rv, v);
      ValuesSame(ofoQueue.skbs, ov);
    }

    method Defer(skb: SkBuff)
      requires Owned() && Loose(skb)
      modifies Links(), skb`refcnt, skb.list
      ensures Owned() && (Loose(skb) || skb.refcnt == 1) && Links() <= old(Links()) + {skb.list}
      ensures Grew(old(Queued()), Queued(), skb, skb.refcnt == 1)
      ensures Mirror() == Deferred(old(Mirror()), old(skb.Value()))
    {
      hide Owned, Held, Loose, Values, TcpData.InsertOrdered, Grew;
      ghost var r, p := receiveQueue.skbs, ofoQueue.skbs;
      InsertOrdered(skb);
      GrewBehind(r, p, ofoQueue.skbs, skb, skb.refcnt == 1);
    }

    method AdvanceBy(skb: SkBuff, n: nat)
      requires Owned() && Loose(skb)
      modifies this`rcvNxt
      ensures Owned() && Loose(skb) && Links() == old(Links()) && Queued() == old(Queued())
      ensures Mirror() == Reached(old(Mirror()), n) && skb.Value() == old(skb.Value())
    {
      rcvNxt := U32(rcvNxt + n);
    }

    lemma CountedOnce(skb: SkBuff)
      requires Owned() && skb in Queued()
      ensures skb.refcnt == 1 && !skb.freed
    {
    }

    lemma LooseIsAlive(skb: SkBuff)
      requires Loose(skb)
      ensures !skb.freed && skb.refcnt == 0 && skb !in Queued()
    {
    }

    method FreeInput(skb: SkBuff)
      requires Owned() && !skb.freed && (Loose(skb) || skb.refcnt == 1)
      requires skb.refcnt == 1 ==> skb in Queued()
      modifies skb`freed
      ensures Owned() && Links() == old(Links()) && Queued() == old(Queued()) && Mirror() == old(Mirror())
      ensures skb.freed <==> skb !in Queued()
    {
      skb.Free();
    }

    /** An in-sequence segment: `rcv_nxt` moves on, the buffer is queued, and more may follow it. */
    method Accept(skb: SkBuff)
      requires Owned() && Loose(skb)
      modifies this`rcvNxt, Links(), skb`refcnt, skb.list
      ensures Owned() && skb.refcnt == 1 && Links() <= old(Links()) + {skb.list}
      ensures Grew(old(Queued()), Queued(), skb, true)
      ensures Mirror() == Released(Kept(Reached(old(Mirror()), old(skb.dlen)), old(skb.Value())))
    {
      hide *;
      ghost var q := Queued();
      AdvanceBy(skb, skb.dlen);
      Receive(skb);
      GrewMember(q, Queued(), skb);
      ConsumeOfo();
      CountedOnce(skb);
    }

    /** The text of a segment: the buffer is on a queue, or it is as it came. */
    method QueueText(skb: SkBuff)
      requires Owned() && Loose(skb)
      modifies this`rcvNxt, Links(), skb`refcnt, skb.list
      ensures Owned() && (Loose(skb) || skb.refcnt == 1) && Links() <= old(Links()) + {skb.list}
      ensures Grew(old(Queued()), Queued(), skb, skb.refcnt == 1)
      ensures Mirror() == Queueing(old(Mirror()), old(skb.Value()))
    {
      ghost var q, v := Mirror(), skb.Value();
      assert v.seqNo == skb.seqNo && |v.payload| == skb.dlen && q.rcvNxt == rcvNxt;
      hide *;
      QueueingIs(q, v);
      if skb.seqNo == rcvNxt {
        Accept(skb);
      } else {
        Defer(skb);
      }
    }

    /** `tcp_data_queue`, which gives the buffer up itself when the window is closed. */
    method DataQueue(window: u32, skb: SkBuff)
      requires Owned() && Loose(skb)
      modifies this`rcvNxt, Links(), skb`refcnt, skb`freed, skb.list
      ensures Owned() && Links() <= old(Links()) + {skb.list}
      ensures window == 0 ==> skb.freed && Queued() == old(Queued()) && Mirror() == old(Mirror())
      ensures window > 0 ==> (Loose(skb) || (skb.refcnt == 1 && !skb.freed && skb in Queued()))
      ensures window > 0 ==> Grew(old(Queued()), Queued(), skb, skb.refcnt == 1)
      ensures window > 0 ==> Mirror() == Queueing(old(Mirror()), old(skb.Value()))
    {
      LooseIsAlive(skb);
      hide *;
      if window == 0 {
        FreeInput(skb);
      } else {
        ghost var q := Queued();
        QueueText(skb);
        if skb.refcnt == 1 {
          GrewMember(q, Queued(), skb);
          CountedOnce(skb);
        }
      }
    }

    // ----- reading -----

    lemma Apart()
      requires Owned()
      ensures forall i, j :: 0 <= i < |receiveQueue.skbs| && 0 <= j < |ofoQueue.skbs| ==>
        receiveQueue.skbs[i] != ofoQueue.skbs[j]
    {
      forall i, j | 0 <= i < |receiveQueue.skbs| && 0 <= j < |ofoQueue.skbs|
        ensures receiveQueue.skbs[i] != ofoQueue.skbs[j]
      {
        assert receiveQueue.skbs[i] in receiveQueue.skbs && ofoQueue.skbs[j] in ofoQueue.skbs;
      }
    }

    /** Copies from the first buffer. */
    method CopyFirst(skb: SkBuff, room: nat, ghost q: seq<Skb>, ghost ov: seq<Skb>) returns (bytes: seq<byte>)
      requires Owned() && receiveQueue.skbs != [] && skb == receiveQueue.skbs[0]
      requires SameValues(receiveQueue.skbs, q) && SameValues(ofoQueue.skbs, ov)
      modifies skb`payload, skb`dlen
      ensures Owned() && |q| > 0 && bytes == q[0].payload[..Eaten(q, room)]
      ensures SameValues(receiveQueue.skbs, [q[0].(payload := q[0].payload[Eaten(q, room)..])] + q[1..])
      ensures SameValues(ofoQueue.skbs, ov)
      ensures skb.dlen == |q[0].payload| - Eaten(q, room)
    {
      receiveQueue.Different();
      Apart();
      ghost var r, o := receiveQueue.skbs, ofoQueue.skbs;
      assert r == [skb] + r[1..] && forall i :: 0 <= i < |r[1..]| ==> r[1..][i] != skb;
      assert forall i :: 0 <= i < |o| ==> o[i] != skb;
      assert |q| > 0 && q[0] == skb.Value() && SameValues(r[1..], q[1..]);
      hide Owned, Held;
      bytes := CopyText(skb, room, q[0]);
      assert SameValues(r[1..], q[1..]);
      hide *;
      FirstValue(skb, r[1..], skb.Value(), q[1..]);
    }

    method CopyText(skb: SkBuff, room: nat, ghost v: Skb) returns (bytes: seq<byte>)
      requires Owned() && receiveQueue.skbs != [] && skb == receiveQueue.skbs[0] && v == skb.Value()
      modifies skb`payload, skb`dlen
      ensures Owned() && bytes == v.payload[..Eaten([v], room)]
      ensures skb.Value() == v.(payload := v.payload[Eaten([v], room)..])
      ensures skb.dlen == |v.payload| - Eaten([v], room)
    {
      assert skb.Valid();
      bytes := skb.Read(room);
    }

    method Discard(skb: SkBuff)
      requires Owned() && skb.refcnt == 1 && !skb.freed && skb !in receiveQueue.skbs && skb !in ofoQueue.skbs
      modifies skb`refcnt, skb`freed
      ensures Owned() && skb.freed
    {
      skb.refcnt := skb.refcnt - 1;
      skb.Free();
    }

    /** The first buffer has been read to its end: it leaves the queue and is freed. */
    method DropFirst()
      requires Owned() && receiveQueue.skbs != []
      modifies receiveQueue.Footprint(), receiveQueue.skbs[0]
      ensures Owned() && Links() <= old(Links())
      ensures receiveQueue.skbs == old(receiveQueue.skbs)[1..] && ofoQueue.skbs == old(ofoQueue.skbs)
      ensures old(receiveQueue.skbs)[0].freed
    {
      receiveQueue.Different();
      var skb := TakeReceived();
      Discard(skb);
    }

    method DropValue(ghost q: seq<Skb>, ghost ov: seq<Skb>)
      requires Owned() && receiveQueue.skbs != []
      requires SameValues(receiveQueue.skbs, q) && SameValues(ofoQueue.skbs, ov)
      modifies receiveQueue.Footprint(), receiveQueue.skbs[0]
      ensures Owned() && Links() <= old(Links())
      ensures receiveQueue.skbs == old(receiveQueue.skbs)[1..] && ofoQueue.skbs == old(ofoQueue.skbs)
      ensures |q| > 0 && SameValues(receiveQueue.skbs, q[1..]) && SameValues(ofoQueue.skbs, ov)
      ensures old(receiveQueue.skbs)[0].freed
    {
      Apart();
      receiveQueue.Different();
      ghost var r, o := receiveQueue.skbs, ofoQueue.skbs;
      DropFirst();
      assert SameValues(r[1..], q[1..]) && SameValues(o, ov);
    }

    /** One turn of the loop of `tcp_data_dequeue`. */
    method DequeueFirst(skb: SkBuff, room: nat, ghost q: seq<Skb>, ghost ov: seq<Skb>) returns (bytes: seq<byte>)
      requires Owned() && receiveQueue.skbs != [] && skb == receiveQueue.skbs[0] && room > 0
      requires SameValues(receiveQueue.skbs, q) && SameValues(ofoQueue.skbs, ov)
      modifies receiveQueue.Footprint(), skb
      ensures Owned() && Links() <= old(Links()) && ofoQueue.skbs == old(ofoQueue.skbs)
      ensures |q| > 0 && bytes == q[0].payload[..Eaten(q, room)]
      ensures SameValues(receiveQueue.skbs, Uneaten(q, room)) && SameValues(ofoQueue.skbs, ov)
      ensures if |bytes| == |q[0].payload| then receiveQueue.skbs == old(receiveQueue.skbs)[1..] && skb.freed
              else receiveQueue.skbs == old(receiveQueue.skbs) && |bytes| == room
    {
      bytes := CopyFirst(skb, room, q, ov);
      TurnLeaves(q, room);
      if skb.dlen == 0 {
        hide *;
        DropValue([q[0].(payload := q[0].payload[Eaten(q, room)..])] + q[1..], ov);
      }
    }

    /** What holds between the turns: `k` buffers of `all` have been read to the end and freed. */
    ghost predicate Reading(all: seq<SkBuff>, k: nat, q: seq<Skb>, ofo: seq<SkBuff>, ov: seq<Skb>)
      reads this, receiveQueue, ofoQueue, Repr(), all
    {
      && Owned() && k <= |all| && receiveQueue.skbs == all[k..] && ofoQueue.skbs == ofo
      && SameValues(receiveQueue.skbs, q) && SameValues(ofoQueue.skbs, ov)
      && forall i :: 0 <= i < k ==> all[i].freed
    }

    method PeekFirst(ghost all: seq<SkBuff>, ghost k: nat, ghost q: seq<Skb>, ghost ofo: seq<SkBuff>, ghost ov: seq<Skb>)
      returns (skb: SkBuff)
      requires Reading(all, k, q, ofo, ov) && q != []
      ensures k < |all| && receiveQueue.skbs == all[k..] && skb == all[k] && ofoQueue.skbs == ofo
      ensures Owned() && SameValues(receiveQueue.skbs, q) && SameValues(ofoQueue.skbs, ov) && Links() == old(Links())
      ensures forall i :: 0 <= i < k ==> all[i].freed
    {
      var first := receiveQueue.Peek();
      assert receiveQueue.skbs[0] == all[k];
      return first;
    }

    method ReadTurn(room: nat, ghost all: seq<SkBuff>, ghost k: nat, ghost q: seq<Skb>,
                    ghost ofo: seq<SkBuff>, ghost ov: seq<Skb>)
      returns (bytes: seq<byte>, ghost k': nat)
      requires Reading(all, k, q, ofo, ov) && q != [] && room > 0
      requires forall i, j :: 0 <= i < j < |all| ==> all[i] != all[j]
      modifies Links(), receiveQueue.skbs
      ensures Links() <= old(Links()) && bytes == q[0].payload[..Eaten(q, room)]
      ensures Reading(all, k', Uneaten(q, room), ofo, ov)
      ensures |bytes| == Eaten(q, room) <= room && (k < k' || (k == k' && |bytes| == room))
    {
      hide Owned, Held, Values, SameValues, Uneaten, Reading;
      EatenBound(q, room);
      hide Eaten;
      var skb := PeekFirst(all, k, q, ofo, ov);
      assert all[k..][0] == skb && all[k..][1..] == all[k + 1..];
      assert forall i :: 0 <= i < k ==> all[i] != skb;
      bytes := DequeueFirst(skb, room, q, ov);
      k' := if |bytes| == |q[0].payload| then k + 1 else k;
      ReadingHolds(all, k', Uneaten(q, room), ofo, ov);
    }

    lemma ReadingHolds(all: seq<SkBuff>, k: nat, q: seq<Skb>, ofo: seq<SkBuff>, ov: seq<Skb>)
      requires Owned() && k <= |all| && receiveQueue.skbs == all[k..] && ofoQueue.skbs == ofo
      requires SameValues(receiveQueue.skbs, q) && SameValues(ofoQueue.skbs, ov)
      requires forall i :: 0 <= i < k ==> all[i].freed
      ensures Reading(all, k, q, ofo, ov)
    {
    }

    method ReceiveQueueEmpty(ghost all: seq<SkBuff>, ghost k: nat, ghost q: seq<Skb>, ghost ofo: seq<SkBuff>, ghost ov: seq<Skb>)
      returns (empty: bool)
      requires Reading(all, k, q, ofo, ov)
      ensures Reading(all, k, q, ofo, ov) && Links() == old(Links()) && receiveQueue.skbs == old(receiveQueue.skbs)
      ensures empty <==> q == []
      ensures k <= |all| && receiveQueue.skbs == all[k..]
    {
      empty := receiveQueue.Empty();
    }

    method ReadMore(room: nat, ghost all: seq<SkBuff>, ghost k: nat, ghost q: seq<Skb>,
                    ghost ofo: seq<SkBuff>, ghost ov: seq<Skb>)
      returns (bytes: seq<byte>, empty: bool, ghost k': nat)
      requires Reading(all, k, q, ofo, ov) && q != [] && room > 0
      requires forall i, j :: 0 <= i < j < |all| ==> all[i] != all[j]
      modifies Links(), receiveQueue.skbs
      ensures Links() <= old(Links()) && bytes == q[0].payload[..Eaten(q, room)]
      ensures Reading(all, k', Uneaten(q, room), ofo, ov) && (empty <==> Uneaten(q, room) == [])
      ensures k' <= |all| && receiveQueue.skbs == all[k'..]
      ensures |bytes| == Eaten(q, room) <= room && (k < k' || (k == k' && |bytes| == room))
    {
      hide *;
      bytes, k' := ReadTurn(room, all, k, q, ofo, ov);
      empty := ReceiveQueueEmpty(all, k', Uneaten(q, room), ofo, ov);
    }

    /** `tcp_data_dequeue`: reads what `Dequeue` says, and frees the `k` buffers that it exhausts, each once. */
    method DataDequeue(userlen: nat, ghost q0: seq<Skb>, ghost ov: seq<Skb>) returns (data: seq<byte>, ghost k: nat)
      requires Owned() && SameValues(receiveQueue.skbs, q0) && SameValues(ofoQueue.skbs, ov)
      modifies Links(), receiveQueue.skbs
      ensures Links() <= old(Links())
      ensures data == Dequeue(q0, userlen).0
      ensures Reading(old(receiveQueue.skbs), k, Dequeue(q0, userlen).1, old(ofoQueue.skbs), ov)
    {
      receiveQueue.Different();
      hide Owned, Links, Values, SameValues, Dequeue;
      data, k := ReadLoop(userlen, receiveQueue.skbs, q0, ofoQueue.skbs, ov);
    }

    method ReadLoop(userlen: nat, ghost all: seq<SkBuff>, ghost q0: seq<Skb>, ghost ofo: seq<SkBuff>, ghost ov: seq<Skb>)
      returns (data: seq<byte>, ghost k: nat)
      requires Reading(all, 0, q0, ofo, ov) && receiveQueue.skbs == all
      requires forall i, j :: 0 <= i < j < |all| ==> all[i] != all[j]
      modifies Links(), receiveQueue.skbs
      ensures Links() <= old(Links())
      ensures data == Dequeue(q0, userlen).0
      ensures Reading(all, k, Dequeue(q0, userlen).1, ofo, ov)
    {
      hide *;
      ghost var q, result := q0, Dequeue(q0, userlen);
      data, k := [], 0;
      RemainsAll(result, q, userlen);
      var empty := ReceiveQueueEmpty(all, k, q, ofo, ov);
      while !empty && |data| < userlen
        invariant Reading(all, k, q, ofo, ov) && Links() <= old(Links()) && |data| <= userlen
        invariant empty <==> q == []
        invariant k <= |all| && receiveQueue.skbs == all[k..]
        invariant Remains(result, data, q, userlen - |data|)
        decreases |all| - k, userlen - |data|
      {
        RemainsTurn(result, data, q, userlen);
        ReadingBound(all, k, q, ofo, ov);
        ghost var room := userlen - |data|;
        var bytes;
        bytes, empty, k := ReadMore(userlen - |data|, all, k, q, ofo, ov);
        q := Uneaten(q, room);
        data := data + bytes;
      }
      RemainsNothing(result, data, q, userlen - |data|);
    }

    lemma ReadingBound(all: seq<SkBuff>, k: nat, q: seq<Skb>, ofo: seq<SkBuff>, ov: seq<Skb>)
      requires Reading(all, k, q, ofo, ov) && q != []
      ensures k < |all|
    {
    }

    // ----- teardown -----

    /** `tcp_clear_queues`. */
    method ClearQueues()
      requires Owned()
      modifies ofoQueue.Footprint(), ofoQueue.skbs
      ensures Owned() && Links() <= old(Links())
      ensures ofoQueue.skbs == [] && receiveQueue.skbs == old(receiveQueue.skbs)
      ensures forall i :: 0 <= i < |old(ofoQueue.skbs)| ==> old(ofoQueue.skbs)[i].freed
    {
      Apart();
      ofoQueue.QueueFree();
    }

    /** `sock_free`. */
    method SockFree()
      requires Owned()
      modifies receiveQueue.Footprint(), receiveQueue.skbs
      ensures Owned() && Links() <= old(Links())
      ensures receiveQueue.skbs == [] && ofoQueue.skbs == old(ofoQueue.skbs)
      ensures forall i :: 0 <= i < |old(receiveQueue.skbs)| ==> old(receiveQueue.skbs)[i].freed
    {
      Apart();
      receiveQueue.QueueFree();
    }

    // ----- whole runs -----

    /** Of all the buffers ever received, exactly the queued ones are still alive. */
    ghost predicate Accounted(all: seq<SkBuff>)
      reads this, receiveQueue, ofoQueue, Repr(), all
    {
      Owned() && Alive(all, Queued())
    }

    /** The buffer of the segment `p` has just come in. */
    ghost predicate Arrived(skb: SkBuff, p: Packet, all: seq<SkBuff>)
      reads this, receiveQueue, ofoQueue, Repr(), all, skb, skb.list
    {
      Accounted(all) && Loose(skb) && skb !in all && skb.Value() == SkbOf(p)
    }

    method Allocate(p: Packet, ghost all: seq<SkBuff>) returns (skb: SkBuff)
      requires Accounted(all)
      ensures fresh(skb) && fresh(skb.list) && Arrived(skb, p, all)
      ensures Mirror() == old(Mirror()) && Links() == old(Links())
    {
      skb := new SkBuff(|p.payload|, p.seqNo, p.flags, p.options, Text(p));
    }

    // ----- tcp_input_state, exit by exit -----

    /** `tcp_drop` and `tcp_discard`: nobody has counted on the buffer yet. */
    method Drop(ghost p: Packet, skb: SkBuff, ghost all: seq<SkBuff>)
      requires Arrived(skb, p, all)
      modifies skb`freed
      ensures Accounted(all + [skb]) && Mirror() == old(Mirror()) && Links() == old(Links()) && skb.freed
    {
      ghost var q := Queued();
      LooseIsAlive(skb);
      assert Owned() && Alive(all, q);
      hide Owned, Loose, Alive, Grew, Queued, Mirror, Links;
      FreeInput(skb);
      GrewNothing(q, skb);
      GrewAlive(all, q, Queued(), skb);
    }

    /** `rcv_nxt += 1` for a FIN in sequence. */
    method CountFin(skb: SkBuff)
      requires Owned() && !skb.freed
      modifies this`rcvNxt
      ensures Owned() && Links() == old(Links()) && Queued() == old(Queued())
      ensures Mirror() == WithFin(old(Mirror()), true) && (old(Loose(skb)) ==> Loose(skb))
    {
      rcvNxt := U32(rcvNxt + 1);
    }

    /** The end of `tcp_input_state`: the text is queued, a FIN is counted, and `free_skb` gives the buffer up
        unless a queue counts on it. That is once only if `tcp_data_queue` has not already done so. */
    method TextAndFin(s: Sock, p: Packet, skb: SkBuff)
      requires Owned() && Loose(skb) && skb.Value() == SkbOf(p) && Mirror() == QueuesOf(s)
      requires QueuesText(s, p) ==> s.tcb.rcvWnd > 0
      modifies this`rcvNxt, Links(), skb`refcnt, skb`freed, skb.list
      ensures Owned() && Links() <= old(Links()) + {skb.list} && Mirror() == TailQueues(s, p)
      ensures Grew(old(Queued()), Queued(), skb, !skb.freed) && (skb.freed <==> skb !in Queued())
    {
      ghost var q, v := Queued(), SkbOf(p);
      LooseIsAlive(skb);
      GrewNothing(q, skb);
      assert skb.Value() == v && |v.payload| == skb.dlen == |p.payload| && v.seqNo == skb.seqNo;
      var queued := s.state in {SynReceived, Established, FinWait1, FinWait2} && (p.flags.psh || skb.dlen > 0);
      var expected := skb.seqNo == rcvNxt;
      assert queued == QueuesText(s, p) && expected == (p.seqNo == s.tcb.rcvNxt);
      hide *;
      TailIs(s, p);
      if queued {
        DataQueue(s.tcb.rcvWnd, skb);
      }
      if p.flags.fin && expected {
        CountFin(skb);
      }
      assert Grew(q, Queued(), skb, skb.refcnt == 1);
      assert skb.refcnt == 1 ==> skb in Queued();
      FreeInput(skb);
    }

    method TakeIn(s: Sock, p: Packet, skb: SkBuff, ghost all: seq<SkBuff>)
      requires Arrived(skb, p, all) && Mirror() == QueuesOf(s) && (QueuesText(s, p) ==> s.tcb.rcvWnd > 0)
      modifies this`rcvNxt, Links(), skb`refcnt, skb`freed, skb.list
      ensures Accounted(all + [skb]) && Links() <= old(Links()) + {skb.list} && Mirror() == TailQueues(s, p)
    {
      ghost var q := Queued();
      hide Owned, Loose, Grew, Queued, Mirror, QueuesText, TailQueues;
      TextAndFin(s, p, skb);
      assert Alive(all, q);
      hide Alive;
      GrewAlive(all, q, Queued(), skb);
    }

    method ReadSome(n: nat, ghost q: Queues) returns (data: seq<byte>)
      requires Owned() && Mirror() == q
      modifies Links(), receiveQueue.skbs
      ensures Owned() && Links() <= old(Links()) && Dropped(old(Queued()), Queued())
      ensures Mirror() == q.(recvQ := Dequeue(q.recvQ, n).1) && data == Dequeue(q.recvQ, n).0
    {
      ghost var r, o := receiveQueue.skbs, ofoQueue.skbs;
      assert SameValues(r, q.recvQ) && SameValues(o, q.ofoQ) && q.rcvNxt == rcvNxt;
      LinksApart();
      hide Owned, Reading, Values, Dequeue, SameValues, Dropped, Links;
      ghost var k;
      data, k := DataDequeue(n, q.recvQ, q.ofoQ);
      ReadingKeeps(r, k, Dequeue(q.recvQ, n).1, o, q.ofoQ);
      assert rcvNxt == q.rcvNxt;
      ValuesSame(receiveQueue.skbs, Dequeue(q.recvQ, n).1);
      ValuesSame(ofoQueue.skbs, q.ofoQ);
    }

    method OnRead(n: nat, ghost all: seq<SkBuff>) returns (data: seq<byte>)
      requires Accounted(all)
      modifies Links(), receiveQueue.skbs
      ensures Accounted(all) && Links() <= old(Links())
      ensures var q := old(Mirror());
        Mirror() == q.(recvQ := Dequeue(q.recvQ, n).1) && data == Dequeue(q.recvQ, n).0
    {
      ghost var p := Queued();
      hide Mirror, Dequeue, Dropped;
      data := ReadSome(n, Mirror());
      assert forall i :: 0 <= i < |all| && all[i] !in p ==> all[i].freed;
      assert forall i :: 0 <= i < |p| ==> p[i] in all;
      hide Owned;
      AliveAfter(all, p, Queued());
    }

    lemma ReadingKeeps(r: seq<SkBuff>, k: nat, q: seq<Skb>, o: seq<SkBuff>, ov: seq<Skb>)
      requires Reading(r, k, q, o, ov)
      ensures Owned() && Dropped(r + o, Queued())
      ensures SameValues(receiveQueue.skbs, q) && SameValues(ofoQueue.skbs, ov)
    {
      assert Queued() == (r + o)[k..];
    }

    /** `tcp_done`, as far as it concerns received buffers. */
    method OnDone(ghost all: seq<SkBuff>)
      requires Accounted(all)
      modifies Links(), ofoQueue.skbs
      ensures Accounted(all) && Links() <= old(Links())
      ensures ofoQueue.skbs == [] && receiveQueue.skbs == old(receiveQueue.skbs)
      ensures Mirror() == old(Mirror()).(ofoQ := [])
    {
      ghost var r, o, rv, next := receiveQueue.skbs, ofoQueue.skbs, Values(receiveQueue.skbs), rcvNxt;
      Apart();
      LinksApart();
      ClearQueues();
      assert forall i :: 0 <= i < |all| ==> all[i] !in r + o ==> all[i].freed;
      AliveAfter(all, r + o, Queued());
      assert SameValues(r, rv) && rcvNxt == next;
    }

    /** `tcp_done` while a segment is being processed. */
    method OnReset(ghost p: Packet, skb: SkBuff, ghost all: seq<SkBuff>)
      requires Arrived(skb, p, all)
      modifies Links(), ofoQueue.skbs
      ensures Arrived(skb, p, all) && Links() <= old(Links()) && Mirror() == old(Mirror()).(ofoQ := [])
    {
      LinksApart();
      ghost var o := ofoQueue.skbs;
      assert skb !in o;
      OnDone(all);
    }

    /** `tcp_synsent` sets `rcv_nxt` behind the SYN. */
    method StartAfter(p: Packet, skb: SkBuff, ghost all: seq<SkBuff>)
      requires Arrived(skb, p, all)
      modifies this`rcvNxt
      ensures Arrived(skb, p, all) && Links() == old(Links()) && Mirror() == old(Mirror()).(rcvNxt := U32(p.seqNo + 1))
    {
      rcvNxt := U32(p.seqNo + 1);
    }

    /** `tcp_synsent`. */
    method OnSynSent(s: Sock, p: Packet, skb: SkBuff, ghost all: seq<SkBuff>)
      requires Arrived(skb, p, all) && Mirror() == QueuesOf(s) && s.state == SynSent
      modifies this`rcvNxt, Links(), skb`freed, ofoQueue.skbs
      ensures Accounted(all + [skb]) && Links() <= old(Links()) && Mirror() == QueuesAfter(s, p, 0)
    {
      hide Arrived, Accounted, Links, Mirror;
      if p.flags.ack {
        if p.ackSeq <= s.tcb.iss || p.ackSeq > s.tcb.sndNxt {
          Drop(p, skb, all);
          return;
        }
        if p.ackSeq < s.tcb.sndUna || p.ackSeq > s.tcb.sndNxt {
          Drop(p, skb, all);
          return;
        }
      }
      if p.flags.rst {
        OnReset(p, skb, all);
        Drop(p, skb, all);
        return;
      }
      if !p.flags.syn {
        Drop(p, skb, all);
        return;
      }
      StartAfter(p, skb, all);
      Drop(p, skb, all);
    }

    /** `tcp_input_state` in the states of an opened connection: every way out gives the buffer up once. */
    method OnOpen(s: Sock, p: Packet, now: nat, skb: SkBuff, ghost all: seq<SkBuff>)
      requires Arrived(skb, p, all) && Mirror() == QueuesOf(s)
      requires s.state !in {Close, Listen, SynSent} && !FreedTwice(s, p)
      modifies this`rcvNxt, Links(), skb`refcnt, skb`freed, skb.list, ofoQueue.skbs
      ensures Accounted(all + [skb]) && Links() <= old(Links()) + {skb.list}
      ensures Mirror() == QueuesAfter(s, p, now)
    {
      hide Arrived, Accounted, Links, Mirror, QueuesOf, VerifySegment, AckStage, WithFin, Queueing;
      if !VerifySegment(s, p) {
        Drop(p, skb, all);
        return;
      }
      if p.flags.rst {
        Drop(p, skb, all);
        return;
      }
      if p.flags.syn {
        Drop(p, skb, all);
        return;
      }
      if !p.flags.ack {
        Drop(p, skb, all);
        return;
      }
      if s.state == SynReceived && !(s.tcb.sndUna <= p.ackSeq < s.tcb.sndNxt) {
        Drop(p, skb, all);
        return;
      }
      if s.state != TimeWait {
        var una := if NewAck(s, p) then p.ackSeq else s.tcb.sndUna;
        if p.ackSeq < una {
          Drop(p, skb, all);
          return;
        }
        if p.ackSeq > s.tcb.sndNxt {
          Drop(p, skb, all);
          return;
        }
      }
      assert PassesChecks(s, p);
      if s.state == LastAck && AckStage(s, p, now).writeQ == [] {
        Drop(p, skb, all);
        OnDone(all + [skb]);
        return;
      }
      TakeIn(s, p, skb, all);
    }

    /** `tcp_input_state`. */
    method InputState(s: Sock, p: Packet, now: nat, skb: SkBuff, ghost all: seq<SkBuff>)
      requires Arrived(skb, p, all) && Mirror() == QueuesOf(s) && !FreedTwice(s, p)
      modifies this`rcvNxt, Links(), skb`refcnt, skb`freed, skb.list, ofoQueue.skbs
      ensures Accounted(all + [skb]) && Links() <= old(Links()) + {skb.list}
      ensures Mirror() == QueuesOf(Input(s, p, now))
    {
      InputQueues(s, p, now);
      hide Arrived, Accounted, Links, Mirror, Input;
      match s.state {
        case Close =>
          if p.flags.rst {
            Drop(p, skb, all);
          } else {
            Drop(p, skb, all);
          }
        case Listen => Drop(p, skb, all);
        case SynSent => OnSynSent(s, p, skb, all);
        case _ => OnOpen(s, p, now, skb, all);
      }
    }

    /** A segment comes in: its buffer is allocated, and goes through `tcp_input_state`. */
    method OnSegment(s: Sock, p: Packet, now: nat, ghost all: seq<SkBuff>) returns (skb: SkBuff)
      requires Accounted(all) && Mirror() == QueuesOf(s) && !FreedTwice(s, p)
      modifies this`rcvNxt, Links(), ofoQueue.skbs
      ensures fresh(skb) && fresh(skb.list) && Accounted(all + [skb]) && Links() <= old(Links()) + {skb.list}
      ensures Mirror() == QueuesOf(Input(s, p, now))
    {
      hide Accounted, Arrived, Links, Mirror, Input, FreedTwice;
      skb := Allocate(p, all);
      InputState(s, p, now, skb, all);
    }

    /** A call or a timer. */
    method OnCall(s: Sock, e: Event, now: nat, ghost all: seq<SkBuff>)
      requires Accounted(all) && Mirror() == QueuesOf(s) && !e.Arrival? && !e.ReadCall?
      modifies this`rcvNxt, Links(), ofoQueue.skbs
      ensures Accounted(all) && Links() <= old(Links()) && Mirror() == QueuesOf(Step(s, e, now))
    {
      CallQueues(s, e, now);
      hide Links, Accounted, Mirror, Step, Finishes;
      if Finishes(s, e, now) {
        OnDone(all);
      } else if e.ConnectCall? && s.state == Close {
        OnConnect(all);
      }
    }

    /** `tcp_connect` clears `rcv_nxt`. */
    method OnConnect(ghost all: seq<SkBuff>)
      requires Accounted(all)
      modifies this`rcvNxt
      ensures Accounted(all) && Links() == old(Links()) && Mirror() == old(Mirror()).(rcvNxt := 0)
    {
      rcvNxt := 0;
    }

    method OnReadCall(s: Sock, n: nat, blocking: bool, now: nat, ghost all: seq<SkBuff>) returns (data: seq<byte>)
      requires Accounted(all) && Mirror() == QueuesOf(s)
      modifies Links(), receiveQueue.skbs
      ensures Accounted(all) && Links() <= old(Links())
      ensures Mirror() == QueuesOf(Read(s, n, blocking, now).0) && data == Read(s, n, blocking, now).1
    {
      ReadQueues(s, n, blocking, now);
      hide Links, Accounted, Mirror, Read, Dequeue;
      data := [];
      if Dequeues(s, n) {
        data := OnRead(n, all);
      }
    }

    /** Any event. `fed` are the buffers received so far, including that of this event. */
    method OnEvent(s: Sock, e: Event, now: nat, ghost all: seq<SkBuff>) returns (data: seq<byte>, ghost fed: seq<SkBuff>)
      requires Accounted(all) && Mirror() == QueuesOf(s) && (e.Arrival? ==> !FreedTwice(s, e.p))
      modifies this`rcvNxt, Links(), receiveQueue.skbs, ofoQueue.skbs
      ensures Accounted(fed) && forall x :: x in Links() ==> x in old(Links()) || fresh(x)
      ensures |fed| == |all| + (if e.Arrival? then 1 else 0) && all <= fed && fresh(fed[|all|..])
      ensures Mirror() == QueuesOf(Step(s, e, now)) && data == Delivered(s, e, now)
    {
      hide Links, Accounted, Mirror, Input, FreedTwice, Read;
      data, fed := [], all;
      match e {
        case Arrival(p) =>
          var skb := OnSegment(s, p, now, all);
          fed := all + [skb];
        case ReadCall(n, blocking) => data := OnReadCall(s, n, blocking, now, all);
        case _ => OnCall(s, e, now, all);
      }
    }

    method OnFree(ghost all: seq<SkBuff>)
      requires Accounted(all) && ofoQueue.skbs == []
      modifies Links(), receiveQueue.skbs
      ensures forall i :: 0 <= i < |all| ==> all[i].freed
    {
      ghost var r, o := receiveQueue.skbs, ofoQueue.skbs;
      Apart();
      SockFree();
      assert forall i :: 0 <= i < |all| ==> all[i] !in r + o ==> all[i].freed;
      AliveAfter(all, r + o, Queued());
    }

    method Destroy(ghost all: seq<SkBuff>)
      requires Accounted(all)
      modifies Links(), receiveQueue.skbs, ofoQueue.skbs
      ensures forall i :: 0 <= i < |all| ==> all[i].freed
    {
      hide Owned;
      ghost var r := receiveQueue.skbs;
      OnDone(all);
      OnFree(all);
    }

    lemma QueuedAreKnown(all: seq<SkBuff>)
      requires Accounted(all)
      ensures forall i :: 0 <= i < |receiveQueue.skbs| ==> receiveQueue.skbs[i] in all
      ensures forall i :: 0 <= i < |ofoQueue.skbs| ==> ofoQueue.skbs[i] in all
    {
      assert forall i :: 0 <= i < |receiveQueue.skbs| ==> Queued()[i] == receiveQueue.skbs[i];
      assert forall i :: 0 <= i < |ofoQueue.skbs| ==> Queued()[|receiveQueue.skbs| + i] == ofoQueue.skbs[i];
    }
  }

  ghost predicate Alive(all: seq<SkBuff>, queued: seq<SkBuff>)
    reads all
  {
    && (forall i :: 0 <= i < |all| ==> (all[i].freed <==> all[i] !in queued))
    && (forall i :: 0 <= i < |queued| ==> queued[i] in all)
  }

  /** What has left the queues has been freed, and nothing else has. */
  ghost predicate Dropped(p: seq<SkBuff>, q: seq<SkBuff>)
    reads p, q
  {
    && (forall i :: 0 <= i < |p| ==> p[i] in q || p[i].freed)
    && (forall i :: 0 <= i < |q| ==> q[i] in p && !q[i].freed)
  }

  lemma AliveAfter(all: seq<SkBuff>, p: seq<SkBuff>, q: seq<SkBuff>)
    requires Dropped(p, q) && forall i :: 0 <= i < |p| ==> p[i] in all
    requires forall i :: 0 <= i < |all| && all[i] !in p ==> all[i].freed
    ensures Alive(all, q)
  {
  }

  lemma GrewAlive(all: seq<SkBuff>, p: seq<SkBuff>, q: seq<SkBuff>, skb: SkBuff)
    requires Alive(all, p) && Grew(p, q, skb, !skb.freed) && skb !in all && (skb.freed <==> skb !in q)
    ensures Alive(all + [skb], q)
  {
    forall i | 0 <= i < |all| ensures all[i] in p <==> all[i] in q {
    }
  }

  /** Reading `n` bytes more of `q` completes `data` to `result`. */
  ghost predicate Remains(result: (seq<byte>, seq<Skb>, bool), data: seq<byte>, q: seq<Skb>, n: nat) {
    result.0 == data + Dequeue(q, n).0 && result.1 == Dequeue(q, n).1
  }

  lemma RemainsAll(result: (seq<byte>, seq<Skb>, bool), q: seq<Skb>, n: nat)
    requires result == Dequeue(q, n)
    ensures Remains(result, [], q, n)
  {
    assert [] + result.0 == result.0;
  }

  lemma RemainsTurn(result: (seq<byte>, seq<Skb>, bool), data: seq<byte>, q: seq<Skb>, n: nat)
    requires q != [] && |data| < n && Remains(result, data, q, n - |data|)
    ensures Eaten(q, n - |data|) <= |q[0].payload| && Eaten(q, n - |data|) <= n - |data|
    ensures var m := n - |data|;
      Remains(result, data + q[0].payload[..Eaten(q, m)], Uneaten(q, m), m - Eaten(q, m))
  {
    DequeueTurn(q, data, n);
    hide Dequeue, Uneaten;
  }

  lemma EatenBound(q: seq<Skb>, room: nat)
    requires q != []
    ensures Eaten(q, room) <= |q[0].payload| && Eaten(q, room) <= room
  {
  }

  lemma RemainsNothing(result: (seq<byte>, seq<Skb>, bool), data: seq<byte>, q: seq<Skb>, n: nat)
    requires (q == [] || n == 0) && Remains(result, data, q, n)
    ensures data == result.0 && q == result.1
  {
    assert data + [] == data;
  }

  lemma TurnLeaves(q: seq<Skb>, room: nat)
    requires q != [] && room > 0
    ensures var left := [q[0].(payload := q[0].payload[Eaten(q, room)..])] + q[1..];
      if |q[0].payload| == Eaten(q, room) then left[1..] == Uneaten(q, room)
      else left == Uneaten(q, room) && Eaten(q, room) == room
  {
  }

  /** Nothing has left the queues, and only `skb` may have joined them. */
  ghost predicate Grew(p: seq<SkBuff>, q: seq<SkBuff>, skb: SkBuff, joined: bool) {
    && (forall i :: 0 <= i < |p| ==> p[i] in q)
    && (forall i :: 0 <= i < |q| ==> q[i] in p || (joined && q[i] == skb))
    && (joined ==> skb in q)
  }

  lemma GrewBehind(r: seq<SkBuff>, p: seq<SkBuff>, q: seq<SkBuff>, skb: SkBuff, joined: bool)
    requires Grew(p, q, skb, joined)
    ensures Grew(r + p, r + q, skb, joined)
  {
  }

  lemma GrewNothing(p: seq<SkBuff>, skb: SkBuff)
    ensures Grew(p, p, skb, false)
  {
  }

  lemma GrewMember(p: seq<SkBuff>, q: seq<SkBuff>, skb: SkBuff)
    ensures Grew(p, q, skb, true) ==> skb in q
  {
  }

  ghost predicate SameValues(p: seq<SkBuff>, q: seq<Skb>)
    reads p
  {
    |p| == |q| && forall i :: 0 <= i < |p| ==> p[i].Value() == q[i]
  }

  lemma FirstValue(skb: SkBuff, p: seq<SkBuff>, v: Skb, q: seq<Skb>)
    requires skb.Value() == v && SameValues(p, q)
    ensures SameValues([skb] + p, [v] + q)
  {
  }

  lemma ValuesSame(p: seq<SkBuff>, q: seq<Skb>)
    requires SameValues(p, q)
    ensures Values(p) == q
  {
  }

  lemma ValuesAppended(p: seq<SkBuff>, skb: SkBuff, q: seq<Skb>, v: Skb)
    requires skb.Value() == v && SameValues(p, q)
    ensures SameValues(p + [skb], q + [v]) && Values(p + [skb]) == q + [v]
  {
  }

  ghost function Advanced(q: Queues): (r: Queues)
    requires q.ofoQ != []
    ensures r.ofoQ == q.ofoQ && r.recvQ == q.recvQ
  {
    q.(rcvNxt := U32(q.rcvNxt + |q.ofoQ[0].payload|))
  }

  ghost function Moved(q: Queues): Queues
    requires q.ofoQ != []
  {
    q.(ofoQ := q.ofoQ[1..], recvQ := q.recvQ + [q.ofoQ[0]])
  }

  ghost function Kept(q: Queues, v: Skb): Queues {
    q.(recvQ := q.recvQ + [v])
  }

  ghost function Deferred(q: Queues, v: Skb): Queues {
    q.(ofoQ := TcpData.InsertOrdered(q.ofoQ, v))
  }

  ghost function Reached(q: Queues, n: nat): Queues {
    q.(rcvNxt := U32(q.rcvNxt + n))
  }

  /** The segment has text or asks for a push, in a state that accepts it. */
  predicate QueuesText(s: Sock, p: Packet) {
    s.state in {SynReceived, Established, FinWait1, FinWait2} && (p.flags.psh || |p.payload| > 0)
  }

  ghost function TailQueues(s: Sock, p: Packet): Queues {
    WithFin(if QueuesText(s, p) then Queueing(QueuesOf(s), SkbOf(p)) else QueuesOf(s),
            p.flags.fin && p.seqNo == s.tcb.rcvNxt)
  }

  lemma TailIs(s: Sock, p: Packet)
    ensures TailQueues(s, p) ==
            var q := if QueuesText(s, p) then Queueing(QueuesOf(s), SkbOf(p)) else QueuesOf(s);
            if p.flags.fin && p.seqNo == s.tcb.rcvNxt then WithFin(q, true) else q
  {
    hide Queueing, QueuesOf;
  }

  lemma QueueingIs(q: Queues, v: Skb)
    ensures Queueing(q, v) ==
            if v.seqNo == q.rcvNxt then Released(Kept(Reached(q, |v.payload|), v)) else Deferred(q, v)
  {
    hide Released, TcpData.InsertOrdered;
  }

  lemma ReleasedTurn(q: Queues)
    ensures q.ofoQ != [] && q.rcvNxt == q.ofoQ[0].seqNo ==> Released(Moved(Advanced(q))) == Released(q)
    ensures q.ofoQ == [] || q.rcvNxt != q.ofoQ[0].seqNo ==> Released(q) == q
  {
    if q.ofoQ != [] && q.rcvNxt == q.ofoQ[0].seqNo {
      var k := ReadyPrefix(q.rcvNxt, q.ofoQ);
      assert q.ofoQ[..k] == [q.ofoQ[0]] + q.ofoQ[1..][..k - 1] && q.ofoQ[..k][1..] == q.ofoQ[1..][..k - 1];
      assert q.recvQ + q.ofoQ[..k] == q.recvQ + [q.ofoQ[0]] + q.ofoQ[1..][..k - 1];
    }
  }

  lemma ValuesMoved(o: seq<SkBuff>, r: seq<SkBuff>, ov: seq<Skb>, rv: seq<Skb>)
    requires o != [] && SameValues(o, ov) && SameValues(r, rv)
    ensures |ov| == |o| && SameValues(o[1..], ov[1..]) && SameValues(r + [o[0]], rv + [ov[0]])
    ensures Values(o[1..]) == ov[1..] && Values(r + [o[0]]) == rv + [ov[0]]
  {
  }

  lemma ValuesInserted(p: seq<SkBuff>, k: nat, skb: SkBuff, q: seq<Skb>, v: Skb)
    requires k <= |p| && skb.Value() == v && SameValues(p, q)
    ensures |p| == |q| && SameValues(p[..k] + [skb] + p[k..], q[..k] + [v] + q[k..])
    ensures Values(p[..k] + [skb] + p[k..]) == q[..k] + [v] + q[k..]
    ensures Grew(p, p[..k] + [skb] + p[k..], skb, true)
  {
    assert p == p[..k] + p[k..];
  }

  function Segments(trace: seq<(Event, nat)>): nat {
    if trace == [] then 0
    else Segments(trace[..|trace| - 1]) + if trace[|trace| - 1].0.Arrival? then 1 else 0
  }

  /** A socket's life over any trace, beside the state machine `Host.Run`, and at last its release. The reader gets
      what `ReadOver` says, every segment's buffer is freed, and `Free` never meets one that already was. */
  method Serve(trace: seq<(Event, nat)>) returns (read: seq<byte>, ghost all: seq<SkBuff>)
    ensures read == ReadOver(FRESH, trace) && |all| == Segments(trace)
    ensures forall i :: 0 <= i < |all| ==> fresh(all[i]) && all[i].freed
  {
    hide RxQueues.Owned, RxQueues.Accounted, RxQueues.Links, RxQueues.Mirror, Step, Delivered, FreedTwice;
    var rx := new RxQueues(0);
    var s := FRESH;
    read, all := [], [];
    for n := 0 to |trace|
      invariant s == Run(FRESH, trace[..n]) && read == ReadOver(FRESH, trace[..n])
      invariant fresh(rx) && fresh(rx.Links()) && rx.Accounted(all) && rx.Mirror() == QueuesOf(s)
      invariant |all| == Segments(trace[..n]) && forall i :: 0 <= i < |all| ==> fresh(all[i])
    {
      assert trace[..n + 1][..n] == trace[..n];
      rx.QueuedAreKnown(all);
      var (e, now) := trace[n];
      if e.Arrival? {
        NeverFreedTwice(trace[..n], e.p);
      }
      ghost var before := all;
      var data;
      data, all := rx.OnEvent(s, e, now, all);
      assert forall i :: |before| <= i < |all| ==> all[i] == all[|before|..][i - |before|];
      read := read + data;
      s := Step(s, e, now);
    }
    assert trace[..|trace|] == trace;
    rx.QueuedAreKnown(all);
    rx.Destroy(all);
  }
}
