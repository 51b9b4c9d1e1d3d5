/** The circular queue of wepoll.c: nodes linked through prev and next around a head node. */
module WepollQueue {

  class QueueNode {
    var prev: QueueNode
    var next: QueueNode

    /** queue_node_init. */
    constructor ()
      ensures prev == this && next == this
    {
      prev, next := this, this;
    }
  }

  /** Each node of the way names the following one, and is named by it. */
  ghost predicate Linked(way: seq<QueueNode>)
    reads way
  {
    forall k :: 0 <= k < |way| - 1 ==> way[k].next == way[k + 1] && way[k + 1].prev == way[k]
  }

  class Queue {
    const head: QueueNode
    ghost var nodes: seq<QueueNode>

    /** Once round the ring. */
    ghost function Way(): seq<QueueNode>
      reads this
    {
      [head] + nodes + [head]
    }

    ghost predicate Valid()
      reads this, head, nodes
    {
      Linked(Way()) && head !in nodes && forall j, k :: 0 <= j < k < |nodes| ==> nodes[j] != nodes[k]
    }

    /** queue_init. */
    constructor ()
      ensures Valid() && nodes == [] && fresh(head)
    {
      head := new QueueNode();
      nodes := [];
    }

    lemma NodeLinks(k: nat)
      requires Valid() && k <= |nodes|
      ensures Way()[k].next == Way()[k + 1] && Way()[k + 1].prev == Way()[k]
    {
    }

    /** queue_is_empty. */
    method IsEmpty() returns (empty: bool)
      requires Valid()
      ensures empty <==> nodes == []
    {
      NodeLinks(|nodes|);
      empty := head.prev == head;
    }

    /** queue_first. */
    method First() returns (first: QueueNode?)
      requires Valid()
      ensures first == if nodes == [] then null else nodes[0]
    {
      NodeLinks(0);
      var empty := IsEmpty();
      first := if empty then null else head.next;
    }

    /** queue_last. */
    method Last() returns (last: QueueNode?)
      requires Valid()
      ensures last == if nodes == [] then null else nodes[|nodes| - 1]
    {
      NodeLinks(|nodes|);
      var empty := IsEmpty();
      last := if empty then null else head.prev;
    }

    /** queue_prepend. */
    method Prepend(node: QueueNode)
      requires Valid() && node != head && node !in nodes
      modifies this`nodes, head, nodes, node
      ensures Valid() && nodes == [node] + old(nodes)
    {
      ghost var way := Way();
      NodeLinks(0);
      node.next := head.next;
      node.prev := head;
      node.next.prev := node;
      head.next := node;
      nodes := [node] + nodes;
      assert forall k :: 2 <= k < |Way()| ==> Way()[k] == way[k - 1];
    }

    /** queue_append. */
    method Append(node: QueueNode)
      requires Valid() && node != head && node !in nodes
      modifies this`nodes, head, nodes, node
      ensures Valid() && nodes == old(nodes) + [node]
    {
      ghost var way := Way();
      NodeLinks(|nodes|);
      node.next := head;
      node.prev := head.prev;
      node.prev.next := node;
      head.prev := node;
      nodes := nodes + [node];
      assert forall k :: 0 <= k < |way| - 1 ==> Way()[k] == way[k];
    }

    /** queue__detach_node. */
    method Detach(node: QueueNode, ghost k: nat)
      requires Valid() && k < |nodes| && nodes[k] == node
      modifies this`nodes, head, nodes
      ensures Valid() && nodes == old(nodes)[..k] + old(nodes)[k + 1..]
    {
      ghost var way := Way();
      NodeLinks(k);
      NodeLinks(k + 1);
      node.prev.next := node.next;
      node.next.prev := node.prev;
      nodes := nodes[..k] + nodes[k + 1..];
      assert forall j :: 0 <= j < |Way()| ==> Way()[j] == way[if j <= k then j else j + 1];
      forall j | 0 <= j < |Way()| - 1 ensures Way()[j].next == Way()[j + 1] && Way()[j + 1].prev == Way()[j] {
        var i := if j <= k then j else j + 1;
        assert old(way[i].next) == way[i + 1] && old(way[i + 1].prev) == way[i];
      }
    }

    /** queue_move_to_start. */
    method MoveToStart(node: QueueNode, ghost k: nat)
      requires Valid() && k < |nodes| && nodes[k] == node
      modifies this`nodes, head, nodes
      ensures Valid() && nodes == [node] + (old(nodes)[..k] + old(nodes)[k + 1..])
    {
      Detach(node, k);
      Prepend(node);
    }

    /** queue_move_to_end. */
    method MoveToEnd(node: QueueNode, ghost k: nat)
      requires Valid() && k < |nodes| && nodes[k] == node
      modifies this`nodes, head, nodes
      ensures Valid() && nodes == (old(nodes)[..k] + old(nodes)[k + 1..]) + [node]
    {
      Detach(node, k);
      Append(node);
    }

    /** queue_remove: the node is not enqueued any more. */
    method Remove(node: QueueNode, ghost k: nat)
      requires Valid() && k < |nodes| && nodes[k] == node
      modifies this`nodes, head, nodes
      ensures Valid() && nodes == old(nodes)[..k] + old(nodes)[k + 1..] && node.prev == node && node.next == node
    {
      Detach(node, k);
      node.prev := node;
      node.next := node;
    }

    /** queue_is_enqueued tells the nodes of the queue from those that are in none. */
    lemma EnqueuedMeansLinked(node: QueueNode)
      requires Valid() && (node in nodes || node.prev == node)
      ensures node.prev != node <==> node in nodes
    {
      if node in nodes {
        var k :| 0 <= k < |nodes| && nodes[k] == node;
        NodeLinks(k);
      }
    }
  }
}
