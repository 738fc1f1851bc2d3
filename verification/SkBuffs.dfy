/** src/skbuff.c and include/skbuff.h: the buffer, its header-room arithmetic and reference count, and the
    queue of buffers, which is a circular list with a length counter. */
module SkBuffs {
  import opened Words
  import opened TcpTypes
  import opened List

  /** `struct sk_buff`. Pointers into the buffer are offsets from `head`, so `size` is `end - head`. `text`
      stands for the bytes behind the headers; `payload` is how far the reader has come in it. */
  class SkBuff {
    const list: ListHead
    const size: nat
    const text: seq<byte>
    const flags: Flags
    const options: seq<byte>
    var refcnt: int
    var data: int
    var len: int
    var dlen: nat
    var seqNo: u32
    var endSeq: u32
    var payload: nat
    ghost var freed: bool

    /** `alloc_skb`. What the driver or the sender then writes into the buffer is given along. */
    constructor (size: nat, seqNo: u32, flags: Flags, options: seq<byte>, text: seq<byte>)
      ensures Valid() && fresh(list) && list.next == list.prev == list
      ensures refcnt == 0 && !freed && data == 0 && len == 0 && this.size == size
      ensures dlen == |text| && payload == 0 && Bytes() == text
      ensures this.seqNo == seqNo && endSeq == U32(seqNo + |text|)
      ensures this.flags == flags && this.options == options && this.text == text
    {
      this.list := new ListHead();
      this.size, this.text, this.flags, this.options := size, text, flags, options;
      refcnt, data, len, dlen, payload, freed := 0, 0, 0, |text|, 0, false;
      this.seqNo, this.endSeq := seqNo, U32(seqNo + |text|);
      new;
      this.list.owner := this;
    }

    ghost predicate Valid()
      reads this, list
    {
      list.owner == this && payload + dlen <= |text|
    }

    ghost function Bytes(): seq<byte>
      reads this
    {
      if payload + dlen <= |text| then text[payload..payload + dlen] else []
    }

    ghost function Value(): Skb
      reads this
    {
      Skb(seqNo, endSeq, flags, options, Bytes())
    }

    /** `free_skb`: gives the memory back unless someone still counts on it. */
    method Free()
      requires !freed
      modifies this`freed
      ensures freed <==> refcnt < 1
    {
      if refcnt < 1 {
        freed := true;
      }
    }

    /** Copies out what is left of the text, up to `room` bytes, and moves `payload` past it. */
    method Read(room: nat) returns (bytes: seq<byte>)
      requires Valid() && !freed
      modifies this`payload, this`dlen
      ensures Valid() && |old(Bytes())| == old(dlen) && dlen == old(dlen) - |bytes|
      ensures bytes == if old(dlen) > room then old(Bytes())[..room] else old(Bytes())
      ensures Value() == old(Value()).(payload := old(Bytes())[|bytes|..])
    {
      var n := if dlen > room then room else dlen;
      bytes := text[payload..payload + n];
      dlen := dlen - n;
      payload := payload + n;
    }

    // ----- header room -----

    method Reserve(n: nat)
      requires !freed
      modifies this`data
      ensures data == old(data) + n
    {
      data := data + n;
    }

    method Push(n: nat)
      requires !freed
      modifies this`data, this`len
      ensures data == old(data) - n && len == old(len) + n
    {
      data := data - n;
      len := len + n;
    }

    method ResetHeader()
      requires !freed
      modifies this`data, this`len
      ensures data == size - dlen && len == dlen
    {
      data := size - dlen;
      len := dlen;
    }
  }

  ghost function Lists(skbs: seq<SkBuff>): (r: seq<ListHead>)
    ensures |r| == |skbs| && forall i :: 0 <= i < |r| ==> r[i] == skbs[i].list
  {
    seq(|skbs|, i requires 0 <= i < |skbs| => skbs[i].list)
  }

  /** `struct sk_buff_head`. `skbs` is the sequence of buffers that the list represents. */
  class SkBuffHead {
    const head: ListHead
    var qlen: nat
    ghost var skbs: seq<SkBuff>

    /** `skb_queue_init`. */
    constructor ()
      ensures Valid() && skbs == [] && fresh(head)
    {
      head := new ListHead();
      qlen, skbs := 0, [];
    }

    ghost predicate Valid()
      reads this, head, Lists(skbs)
    {
      && qlen == |skbs| && head.owner == null
      && Ring(head, Lists(skbs))
      && forall i :: 0 <= i < |skbs| ==> skbs[i].list.owner == skbs[i]
    }

    ghost function Footprint(): set<object>
      reads this
    {
      {this, head} + set n | n in Lists(skbs)
    }

    /** `skb_queue_tail`. */
    method Tail(skb: SkBuff)
      requires Valid() && Unfreed(skbs) && !skb.freed && skb !in skbs && skb.list.owner == skb
      modifies Footprint(), skb.list
      ensures Valid() && skbs == old(skbs) + [skb] && skb.list.owner == skb
      ensures Footprint() <= old(Footprint()) + {skb.list}
    {
      assert At(head, Lists(skbs), |skbs|).prev == At(head, Lists(skbs), |skbs| - 1);
      assert skb.list !in Lists(skbs) && skb.list != head;
      ListAddTail(skb.list, head, head, Lists(skbs), |skbs|);
      assert Inserted(Lists(skbs), |skbs|, skb.list) == Lists(skbs + [skb]);
      qlen := qlen + 1;
      skbs := skbs + [skb];
    }

    /** `skb_queue_add`: puts `skb` before the queued `next`. */
    method Add(skb: SkBuff, next: SkBuff, ghost k: nat)
      requires Valid() && Unfreed(skbs) && !skb.freed && skb !in skbs && skb.list.owner == skb
      requires k < |skbs| && next == skbs[k]
      modifies Footprint(), skb.list
      ensures Valid() && skbs == old(skbs)[..k] + [skb] + old(skbs)[k..] && skb.list.owner == skb
      ensures Footprint() <= old(Footprint()) + {skb.list}
    {
      assert At(head, Lists(skbs), k).prev == At(head, Lists(skbs), k - 1);
      assert skb.list !in Lists(skbs) && skb.list != head;
      ListAddTail(skb.list, next.list, head, Lists(skbs), k);
      ghost var r := skbs[..k] + [skb] + skbs[k..];
      assert Inserted(Lists(skbs), k, skb.list) == Lists(r);
      qlen := qlen + 1;
      skbs := r;
    }

    /** `skb_dequeue`, which looks at no counter: its callers make sure that the queue is not empty. */
    method Dequeue() returns (skb: SkBuff)
      requires Valid() && Unfreed(skbs) && skbs != []
      modifies Footprint()
      ensures Valid() && skb == old(skbs)[0] && skbs == old(skbs)[1..] && skb.list.owner == skb
      ensures Footprint() <= old(Footprint())
    {
      assert At(head, Lists(skbs), 0).next == At(head, Lists(skbs), 1);
      assert At(head, Lists(skbs), -1).next == At(head, Lists(skbs), 0);
      assert At(head, Lists(skbs), 0).prev == At(head, Lists(skbs), -1);
      skb := head.next.owner as SkBuff;
      ListDel(skb.list, head, Lists(skbs), 0);
      assert Removed(Lists(skbs), 0) == Lists(skbs[1..]);
      qlen := qlen - 1;
      skbs := skbs[1..];
    }

    method Empty() returns (empty: bool)
      requires Valid()
      ensures empty <==> skbs == []
    {
      return qlen < 1;
    }

    /** `skb_peek`. */
    method Peek() returns (skb: SkBuff?)
      requires Valid() && Unfreed(skbs)
      ensures skb == if skbs == [] then null else skbs[0]
    {
      if qlen < 1 {
        return null;
      }
      assert At(head, Lists(skbs), -1).next == At(head, Lists(skbs), 0);
      skb := head.next.owner as SkBuff;
    }

    /** `skb_queue_free`: takes out and gives up every buffer once, and comes to an end. */
    method QueueFree()
      requires Valid() && Releasable(skbs)
      modifies Footprint(), skbs
      ensures Valid() && skbs == [] && Footprint() <= old(Footprint())
      ensures forall i :: 0 <= i < |old(skbs)| ==>
        old(skbs)[i].refcnt == old(skbs[i].refcnt) - 1 && old(skbs)[i].freed
    {
      ghost var all, k := skbs, 0;
      Different();
      hide Ring, Lists;
      while qlen >= 1
        invariant Valid() && 0 <= k <= |all| && skbs == all[k..]
        invariant Footprint() <= old(Footprint())
        invariant forall i :: k <= i < |all| ==> !all[i].freed && all[i].refcnt == old(all[i].refcnt)
        invariant forall i :: 0 <= i < k ==> all[i].freed && all[i].refcnt == old(all[i].refcnt) - 1
        decreases qlen
      {
        assert skbs[0] == all[k] && all[k..][1..] == all[k + 1..];
        assert forall i :: 0 <= i < |all| && i != k ==> all[i] != all[k];
        FreeFirst();
        k := k + 1;
      }
    }

    method FreeFirst()
      requires Valid() && Unfreed(skbs) && skbs != [] && skbs[0].refcnt <= 1
      modifies Footprint(), skbs[0]
      ensures Valid() && skbs == old(skbs)[1..] && Footprint() <= old(Footprint()) && qlen == old(qlen) - 1
      ensures var skb := old(skbs)[0]; skb.freed && skb.refcnt == old(skbs[0].refcnt) - 1
    {
      var skb := Dequeue();
      skb.refcnt := skb.refcnt - 1;
      skb.Free();
    }

    lemma Different()
      requires Valid()
      ensures forall i, j :: 0 <= i < j < |skbs| ==> skbs[i] != skbs[j]
    {
      assert forall i :: 0 <= i < |skbs| ==> Lists(skbs)[i] == skbs[i].list;
    }
  }

  /** Every queue operation touches the buffers beside the one that it moves: none of them may have been freed. */
  ghost predicate Unfreed(skbs: seq<SkBuff>)
    reads skbs
  {
    forall i :: 0 <= i < |skbs| ==> !skbs[i].freed
  }

  /** Nobody but the queue counts on its buffers, and none has been freed. */
  ghost predicate Releasable(skbs: seq<SkBuff>)
    reads skbs
  {
    forall i :: 0 <= i < |skbs| ==> !skbs[i].freed && skbs[i].refcnt <= 1
  }
}
