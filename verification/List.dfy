/** include/list.h: the intrusive circular doubly linked list. A list is known by its head; the ghost
    arguments name the sequence of nodes that it represents. */
module List {
  /** `struct list_head`. `owner` is the structure that the node is embedded in, which `list_entry` recovers
      by pointer arithmetic; the head of a list has none. */
  class ListHead {
    var next: ListHead
    var prev: ListHead
    var owner: object?

    /** `list_init`. */
    constructor ()
      ensures next == prev == this && owner == null
    {
      next, prev, owner := this, this, null;
    }
  }

  /** The node at position `i`; the head comes before the first node and after the last. */
  ghost function At(head: ListHead, nodes: seq<ListHead>, i: int): ListHead
    requires -1 <= i <= |nodes|
  {
    if i == -1 || i == |nodes| then head else nodes[i]
  }

  ghost predicate Distinct(head: ListHead, nodes: seq<ListHead>) {
    && head !in nodes
    && forall i, j :: 0 <= i < j < |nodes| ==> nodes[i] != nodes[j]
  }

  /** From `head`, `next` leads through `nodes` in order and back to `head`, and `prev` leads the other way. */
  ghost predicate Ring(head: ListHead, nodes: seq<ListHead>)
    reads head, nodes
  {
    && Distinct(head, nodes)
    && forall i, j {:trigger At(head, nodes, i), At(head, nodes, j)} :: -1 <= i && j == i + 1 && j <= |nodes| ==>
         At(head, nodes, i).next == At(head, nodes, j) && At(head, nodes, j).prev == At(head, nodes, i)
  }

  ghost function Inserted(nodes: seq<ListHead>, k: nat, node: ListHead): (r: seq<ListHead>)
    requires k <= |nodes|
    ensures |r| == |nodes| + 1
  {
    nodes[..k] + [node] + nodes[k..]
  }

  ghost function Removed(nodes: seq<ListHead>, k: nat): seq<ListHead>
    requires k < |nodes|
  {
    nodes[..k] + nodes[k + 1..]
  }

  /** `list_add`: puts `node` after `pos`, which stands at position `k - 1`. */
  method ListAdd(node: ListHead, pos: ListHead, ghost head: ListHead, ghost nodes: seq<ListHead>, ghost k: nat)
    requires Ring(head, nodes) && k <= |nodes| && pos == At(head, nodes, k - 1)
    requires node != head && node !in nodes
    modifies node`next, node`prev, pos`next, pos.next`prev
    ensures Ring(head, Inserted(nodes, k, node))
  {
    AtInjective(head, nodes);
    assert At(head, nodes, k - 1).next == At(head, nodes, k);
    pos.next.prev := node;
    node.next := pos.next;
    node.prev := pos;
    pos.next := node;
    InsertedRing(head, nodes, k, node);
  }

  /** `list_add_tail`: puts `node` before `pos`, which stands at position `k`; before the head it is last. */
  method ListAddTail(node: ListHead, pos: ListHead, ghost head: ListHead, ghost nodes: seq<ListHead>, ghost k: nat)
    requires Ring(head, nodes) && k <= |nodes| && pos == At(head, nodes, k)
    requires node != head && node !in nodes
    modifies node`next, node`prev, pos`prev, pos.prev`next
    ensures Ring(head, Inserted(nodes, k, node))
  {
    AtInjective(head, nodes);
    assert At(head, nodes, k - 1).next == At(head, nodes, k);
    pos.prev.next := node;
    node.prev := pos.prev;
    node.next := pos;
    pos.prev := node;
    InsertedRing(head, nodes, k, node);
  }

  /** The ring, save for the links between positions `lo` and `hi`. */
  ghost predicate RingSave(head: ListHead, nodes: seq<ListHead>, lo: int, hi: int)
    reads head, nodes
  {
    && Distinct(head, nodes)
    && forall i, j {:trigger At(head, nodes, i), At(head, nodes, j)} ::
         -1 <= i && j == i + 1 && j <= |nodes| && !(lo <= i < hi) ==>
         At(head, nodes, i).next == At(head, nodes, j) && At(head, nodes, j).prev == At(head, nodes, i)
  }

  lemma InsertedRing(head: ListHead, nodes: seq<ListHead>, k: nat, node: ListHead)
    requires k <= |nodes| && RingSave(head, nodes, k - 1, k) && node != head && node !in nodes
    requires At(head, nodes, k - 1).next == node && node.prev == At(head, nodes, k - 1)
    requires node.next == At(head, nodes, k) && At(head, nodes, k).prev == node
    ensures Ring(head, Inserted(nodes, k, node))
  {
    var r := Inserted(nodes, k, node);
    forall i | -1 <= i <= |r|
      ensures At(head, r, i) == if i < k then At(head, nodes, i) else if i == k then node else At(head, nodes, i - 1)
    {
    }
    forall i | -1 <= i < |r|
      ensures At(head, r, i).next == At(head, r, i + 1) && At(head, r, i + 1).prev == At(head, r, i)
    {
      if i < k - 1 {
        assert At(head, nodes, i).next == At(head, nodes, i + 1);
      } else if i > k {
        assert At(head, nodes, i - 1).next == At(head, nodes, i);
      }
    }
  }

  lemma AtInjective(head: ListHead, nodes: seq<ListHead>)
    requires Distinct(head, nodes)
    ensures forall i, j :: -1 <= i < |nodes| && -1 <= j < |nodes| && i != j ==> At(head, nodes, i) != At(head, nodes, j)
    ensures forall i, j :: 0 <= i <= |nodes| && 0 <= j <= |nodes| && i != j ==> At(head, nodes, i) != At(head, nodes, j)
  {
  }

  /** `list_del`. The removed node keeps its own pointers. */
  method ListDel(elem: ListHead, ghost head: ListHead, ghost nodes: seq<ListHead>, ghost k: nat)
    requires Ring(head, nodes) && k < |nodes| && elem == nodes[k]
    modifies elem.prev`next, elem.next`prev
    ensures Ring(head, Removed(nodes, k))
  {
    AtInjective(head, nodes);
    assert elem == At(head, nodes, k);
    assert At(head, nodes, k - 1).next == elem && elem.next == At(head, nodes, k + 1);
    var prev, next := elem.prev, elem.next;
    prev.next := next;
    next.prev := prev;
    RemovedRing(head, nodes, k);
  }

  lemma RemovedRing(head: ListHead, nodes: seq<ListHead>, k: nat)
    requires k < |nodes| && RingSave(head, nodes, k - 1, k + 1)
    requires At(head, nodes, k - 1).next == At(head, nodes, k + 1)
    requires At(head, nodes, k + 1).prev == At(head, nodes, k - 1)
    ensures Ring(head, Removed(nodes, k))
  {
    var r := Removed(nodes, k);
    forall i | -1 <= i <= |r| ensures At(head, r, i) == At(head, nodes, if i < k then i else i + 1) {
    }
    forall i | -1 <= i < |r|
      ensures At(head, r, i).next == At(head, r, i + 1) && At(head, r, i + 1).prev == At(head, r, i)
    {
      if i < k - 1 {
        assert At(head, nodes, i).next == At(head, nodes, i + 1);
      } else if i >= k {
        assert At(head, nodes, i + 1).next == At(head, nodes, i + 2);
      }
    }
  }

  /** `list_empty`. */
  method ListEmpty(head: ListHead, ghost nodes: seq<ListHead>) returns (empty: bool)
    requires Ring(head, nodes)
    ensures empty <==> nodes == []
  {
    assert At(head, nodes, -1).next == At(head, nodes, 0);
    return head.next == head;
  }

  /** `list_for_each` meets the nodes in order, each once, and comes to an end. */
  method ForEach(head: ListHead, ghost nodes: seq<ListHead>) returns (visited: seq<ListHead>)
    requires Ring(head, nodes)
    ensures visited == nodes
  {
    visited := [];
    var pos := head.next;
    assert At(head, nodes, -1).next == At(head, nodes, 0);
    while pos != head
      invariant |visited| <= |nodes| && visited == nodes[..|visited|] && pos == At(head, nodes, |visited|)
      decreases |nodes| - |visited|
    {
      ghost var k := |visited|;
      assert nodes[..k + 1] == nodes[..k] + [nodes[k]];
      assert At(head, nodes, k).next == At(head, nodes, k + 1);
      visited := visited + [pos];
      pos := pos.next;
    }
  }

  ghost function Reversed(nodes: seq<ListHead>): seq<ListHead> {
    seq(|nodes|, i requires 0 <= i < |nodes| => nodes[|nodes| - 1 - i])
  }

  /** Following `prev` meets them in the reverse order. */
  method ForEachBack(head: ListHead, ghost nodes: seq<ListHead>) returns (visited: seq<ListHead>)
    requires Ring(head, nodes)
    ensures visited == Reversed(nodes)
  {
    visited := [];
    var pos := head.prev;
    assert At(head, nodes, |nodes|).prev == At(head, nodes, |nodes| - 1);
    while pos != head
      invariant |visited| <= |nodes| && visited == Reversed(nodes)[..|visited|]
      invariant pos == At(head, nodes, |nodes| - 1 - |visited|)
      decreases |nodes| - |visited|
    {
      ghost var k := |nodes| - 1 - |visited|;
      assert At(head, nodes, k).prev == At(head, nodes, k - 1);
      assert Reversed(nodes)[..|visited| + 1] == Reversed(nodes)[..|visited|] + [nodes[k]];
      visited := visited + [pos];
      pos := pos.prev;
    }
  }
}
