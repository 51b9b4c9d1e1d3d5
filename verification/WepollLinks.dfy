/** The links of the epoll port. Each socket record owns one queue node, which is in the update queue, in the
    deleted queue or in none, and one tree node. The port_* operations on them do to the linked structures what
    WepollPort does to its sequences and its map. */
module WepollLinks {
  import opened RedBlackTree
  import opened WepollPort
  import opened WepollQueue
  import TreeShape

  /** sock_update_queue and sock_deleted_queue. */
  class PortQueues {
    const updates: Queue
    const deleted: Queue
    /** container_of: which record a queue node belongs to. */
    var owner: map<QueueNode, SockId>

    ghost function Objects(): (os: set<object>)
      reads this, updates, deleted
    {
      {this, updates, updates.head, deleted, deleted.head} + owner.Keys +
      (set n | n in updates.nodes) + (set n | n in deleted.nodes)
    }

    ghost predicate Valid()
      reads this, Objects()
    {
      && updates.Valid() && deleted.Valid() && updates != deleted && updates.head != deleted.head
      && updates.head !in owner && deleted.head !in owner
      && (forall n :: n in updates.nodes ==> n in owner && n !in deleted.nodes)
      && (forall n :: n in deleted.nodes ==> n in owner)
      && (forall n :: n in owner ==> n in updates.nodes || n in deleted.nodes || n.prev == n)
      && (forall m, n :: m in owner && n in owner && owner[m] == owner[n] ==> m == n)
    }

    ghost function Ids(nodes: seq<QueueNode>): seq<SockId>
      requires forall n :: n in nodes ==> n in owner
      reads this
    {
      seq(|nodes|, i requires 0 <= i < |nodes| reads this requires nodes[i] in owner => owner[nodes[i]])
    }

    ghost function Updates(): seq<SockId>
      requires Valid()
      reads this, Objects()
    {
      Ids(updates.nodes)
    }

    ghost function Deleted(): seq<SockId>
      requires Valid()
      reads this, Objects()
    {
      Ids(deleted.nodes)
    }

    constructor ()
      ensures Valid() && owner == map[] && Updates() == [] && Deleted() == []
      ensures fresh(Objects())
    {
      updates := new Queue();
      deleted := new Queue();
      owner := map[];
    }

    /** queue_node_init has left the node of a new record in no queue. */
    method Adopt(node: QueueNode, id: SockId)
      requires Valid() && id !in owner.Values && node.prev == node && node !in owner
      requires node != updates.head && node != deleted.head
      modifies this`owner
      ensures Valid() && owner == old(owner)[node := id]
      ensures Updates() == old(Updates()) && Deleted() == old(Deleted())
    {
      hide Linked;
      ghost var before := owner;
      owner := owner[node := id];
      assert forall n :: n in before ==> owner[n] == before[n] && before[n] in before.Values;
    }

    /** The queues read nothing but their own objects. */
    twostate lemma Kept()
      requires old(Valid()) && unchanged(old(Objects()))
      ensures Valid() && Updates() == old(Updates()) && Deleted() == old(Deleted()) && owner == old(owner)
      ensures Objects() == old(Objects())
    {
    }

    lemma ObjectsAre()
      requires Valid()
      ensures Objects() == {this, updates, updates.head, deleted, deleted.head} + owner.Keys
    {
    }

    lemma Listed(node: QueueNode)
      requires Valid() && node in owner
      ensures owner[node] in Updates() <==> node in updates.nodes
      ensures owner[node] in Deleted() <==> node in deleted.nodes
      ensures node.prev != node <==> node in updates.nodes || node in deleted.nodes
    {
      InIds(updates.nodes, node);
      InIds(deleted.nodes, node);
      if node in updates.nodes || node.prev == node {
        updates.EnqueuedMeansLinked(node);
      }
      if node in deleted.nodes || node.prev == node {
        deleted.EnqueuedMeansLinked(node);
      }
    }

    /** What one queue is made of the other is not. */
    lemma Disjoint()
      requires Valid()
      ensures updates.head !in deleted.nodes && deleted.head !in updates.nodes
      ensures forall n :: n in deleted.nodes ==> n !in updates.nodes && n != updates.head
      ensures forall n :: n in updates.nodes ==> n !in deleted.nodes && n != deleted.head
    {
    }

    lemma InIds(nodes: seq<QueueNode>, node: QueueNode)
      requires node in owner && forall n :: n in nodes ==> n in owner
      requires forall m, n :: m in owner && n in owner && owner[m] == owner[n] ==> m == n
      ensures owner[node] in Ids(nodes) <==> node in nodes
    {
      if node in nodes {
        var k :| 0 <= k < |nodes| && nodes[k] == node;
        assert Ids(nodes)[k] == owner[node];
      }
      if owner[node] in Ids(nodes) {
        var k :| 0 <= k < |nodes| && Ids(nodes)[k] == owner[node];
        assert nodes[k] in nodes && owner[nodes[k]] == owner[node];
      }
    }

    lemma IdsJoin(a: seq<QueueNode>, node: QueueNode)
      requires node in owner && forall n :: n in a ==> n in owner
      ensures Ids(a + [node]) == Ids(a) + [owner[node]]
    {
    }

    lemma IdsWithout(nodes: seq<QueueNode>, k: nat)
      requires k < |nodes| && (forall n :: n in nodes ==> n in owner)
      requires forall m, n :: m in owner && n in owner && owner[m] == owner[n] ==> m == n
      requires forall i, j :: 0 <= i < j < |nodes| ==> nodes[i] != nodes[j]
      ensures Unique(Ids(nodes))
      ensures Ids(nodes[..k] + nodes[k + 1..]) == Without(Ids(nodes), owner[nodes[k]])
    {
      var ids := Ids(nodes);
      forall i, j | 0 <= i < j < |ids| ensures ids[i] != ids[j] {
        assert nodes[i] in nodes && nodes[j] in nodes;
      }
      WithoutAt(ids, k);
      assert Ids(nodes[..k] + nodes[k + 1..]) == ids[..k] + ids[k + 1..];
    }

    /** port_request_socket_update: unless its node is linked, the record joins the update queue. */
    method RequestUpdate(node: QueueNode)
      requires Valid() && node in owner
      modifies Objects()
      ensures Valid() && owner == old(owner)
      ensures Deleted() == old(Deleted())
      ensures var id := owner[node];
        Updates() == if id in old(Updates()) || id in old(Deleted()) then old(Updates()) else old(Updates()) + [id]
    {
      Listed(node);
      Disjoint();
      if node.prev != node {
        return;
      }
      IdsJoin(updates.nodes, node);
      updates.Append(node);
      assert deleted.nodes == old(deleted.nodes);
      assert forall n :: n in deleted.Way() ==> n.next == old(n.next) && n.prev == old(n.prev);
      assert Linked(deleted.Way());
    }

    /** port_add_deleted_socket: unless its node is linked, the record joins the deleted queue. */
    method AddDeleted(node: QueueNode)
      requires Valid() && node in owner
      modifies Objects()
      ensures Valid() && owner == old(owner)
      ensures Updates() == old(Updates())
      ensures var id := owner[node];
        Deleted() == if id in old(Updates()) || id in old(Deleted()) then old(Deleted()) else old(Deleted()) + [id]
    {
      Listed(node);
      Disjoint();
      if node.prev != node {
        return;
      }
      IdsJoin(deleted.nodes, node);
      deleted.Append(node);
      assert updates.nodes == old(updates.nodes);
      assert forall n :: n in updates.Way() ==> n.next == old(n.next) && n.prev == old(n.prev);
      assert Linked(updates.Way());
    }

    /** port_cancel_socket_update, which wepoll calls for registered sockets only. */
    method CancelUpdate(node: QueueNode)
      requires Valid() && node in owner && owner[node] !in Deleted()
      modifies Objects()
      ensures Valid() && owner == old(owner)
      ensures Deleted() == old(Deleted()) && Updates() == Without(old(Updates()), owner[node])
    {
      hide Without, Unique;
      Listed(node);
      Disjoint();
      if node.prev == node {
        NotThere(Updates(), owner[node]);
        return;
      }
      ghost var k: nat :| k < |updates.nodes| && updates.nodes[k] == node;
      IdsWithout(updates.nodes, k);
      updates.Remove(node, k);
      assert deleted.nodes == old(deleted.nodes);
      assert forall n :: n in deleted.Way() ==> n.next == old(n.next) && n.prev == old(n.prev);
      assert Linked(deleted.Way());
    }

    /** port_remove_deleted_socket, which wepoll calls for records that are not in the update queue. */
    method RemoveDeleted(node: QueueNode)
      requires Valid() && node in owner && owner[node] !in Updates()
      modifies Objects()
      ensures Valid() && owner == old(owner)
      ensures Updates() == old(Updates()) && Deleted() == Without(old(Deleted()), owner[node])
    {
      hide Without, Unique;
      Listed(node);
      Disjoint();
      if node.prev == node {
        NotThere(Deleted(), owner[node]);
        return;
      }
      ghost var k: nat :| k < |deleted.nodes| && deleted.nodes[k] == node;
      IdsWithout(deleted.nodes, k);
      deleted.Remove(node, k);
      assert updates.nodes == old(updates.nodes);
      assert forall n :: n in updates.Way() ==> n.next == old(n.next) && n.prev == old(n.prev);
      assert Linked(updates.Way());
    }

    /** queue_first of either queue, whose record is the queue's head. */
    method FirstUpdate() returns (node: QueueNode?)
      requires Valid()
      ensures node == null <==> Updates() == []
      ensures node != null ==> node in owner && Updates()[0] == owner[node]
    {
      node := updates.First();
      assert updates.nodes != [] ==> updates.nodes[0] in updates.nodes;
    }

    method FirstDeleted() returns (node: QueueNode?)
      requires Valid()
      ensures node == null <==> Deleted() == []
      ensures node != null ==> node in owner && Deleted()[0] == owner[node]
    {
      node := deleted.First();
      assert deleted.nodes != [] ==> deleted.nodes[0] in deleted.nodes;
    }

    /** sock__free of a record whose node is in no queue. */
    method Forget(node: QueueNode)
      requires Valid() && node in owner && owner[node] !in Updates() && owner[node] !in Deleted()
      modifies this`owner
      ensures Valid() && owner == old(owner) - {node} && Updates() == old(Updates()) && Deleted() == old(Deleted())
    {
      Listed(node);
      owner := owner - {node};
    }
  }

  /** sock_tree with the records behind its nodes. */
  class SocketTree {
    const tree: TreeObject
    /** container_of: which record a tree node belongs to. */
    var owner: map<TreeShape.Node, SockId>

    ghost function Objects(): set<object>
      reads this, tree
    {
      {this, tree} + tree.repr
    }

    ghost predicate Valid()
      reads this, Objects()
    {
      tree.Valid() && Owned(tree.Contents(), tree.repr, owner)
    }

    /** The table of registered sockets. */
    ghost function Table(): map<nat, SockId>
      requires Valid()
      reads this, Objects()
    {
      map key | key in tree.Contents() :: owner[tree.Contents()[key]]
    }

    constructor ()
      ensures Valid() && owner == map[] && Table() == map[] && fresh(Objects())
    {
      tree := new TreeObject();
      owner := map[];
    }

    twostate lemma Kept()
      requires old(Valid()) && unchanged(old(Objects()))
      ensures Valid() && Table() == old(Table()) && owner == old(owner) && Objects() == old(Objects())
    {
    }

    lemma ObjectsAre()
      ensures Objects() == {this, tree} + tree.repr
    {
    }

    /** The node that the table names under a key is the record's own, and holds the key. */
    lemma Registered(node: TreeShape.Node, key: nat)
      requires Valid() && node in owner && key in Table() && Table()[key] == owner[node]
      ensures node in tree.repr && node.key == key
    {
      hide TreeObject.Valid, TreeObject.Contents, TreeObject.Mem;
      tree.LinkedUnder(key);
    }

    /** The table names every record that is in the tree. */
    lemma Named(node: TreeShape.Node)
      requires Valid() && node in tree.repr
      ensures node.key in Table() && Table()[node.key] == owner[node]
    {
      hide TreeObject.Valid, TreeObject.Contents, TreeObject.Mem;
      tree.NodeLinked(node);
    }

    /** port_register_socket. */
    method Register(node: TreeShape.Node, key: nat, id: SockId) returns (ok: bool)
      requires Valid() && node !in owner && id !in owner.Values
      modifies Objects(), node
      ensures Valid() && ok == (key !in old(Table())) && Objects() <= old(Objects()) + {node}
      ensures Table() == if ok then old(Table())[key := id] else old(Table())
      ensures owner == if ok then old(owner)[node := id] else old(owner)
    {
      hide TreeObject.Valid, TreeObject.Contents, TreeObject.Mem, Owned;
      OwnedWith(tree.Contents(), tree.repr, owner, node, key, id);
      var r := tree.Add(node, key);
      ok := r == 0;
      if ok {
        owner := owner[node := id];
      }
    }

    /** port_unregister_socket. */
    method Unregister(node: TreeShape.Node)
      requires Valid() && node in tree.repr
      modifies Objects()
      ensures Valid() && owner == old(owner) && old(node.key) in old(Table()) && old(Table())[old(node.key)] == owner[node]
      ensures Table() == old(Table()) - {old(node.key)} && tree.repr == old(tree.repr) - {node}
    {
      hide TreeObject.Valid, TreeObject.Contents, TreeObject.Mem;
      ghost var key, before := node.key, tree.Contents();
      forall k | k in before && before[k] == node ensures k == key {
        tree.LinkedUnder(k);
      }
      tree.Del(node);
      assert tree.Contents() == before - {key};
    }

    /** port_find_socket with sock_state_from_tree_node. */
    method FindSocket(key: nat) returns (node: TreeShape.Node?)
      requires Valid()
      ensures node == null <==> key !in Table()
      ensures node != null ==> node in owner && owner[node] == Table()[key]
    {
      ghost var steps;
      node, steps := tree.Find(key);
    }

    /** tree_root: any record of the table, as long as there is one. */
    method FirstSocket() returns (node: TreeShape.Node?, ghost key: nat)
      requires Valid()
      ensures node == null <==> Table() == map[]
      ensures node != null ==> node in owner && key in Table() && owner[node] == Table()[key]
    {
      hide TreeObject.Valid, TreeObject.Contents, TreeObject.Mem;
      tree.RootLinked();
      node := tree.root;
      key := if node == null then 0 else node.key;
      assert Table().Keys == tree.Contents().Keys;
    }

    /** sock__free of a record whose node is not in the tree. */
    method Forget(node: TreeShape.Node)
      requires Valid() && node in owner && node !in tree.repr
      modifies Objects()
      ensures Valid() && owner == old(owner) - {node} && Table() == old(Table()) && Objects() == old(Objects())
    {
      owner := owner - {node};
    }
  }

  /** Different nodes belong to different records, and those of the tree to some. */
  ghost predicate Owned(contents: map<nat, TreeShape.Node>, repr: set<TreeShape.Node>, owner: map<TreeShape.Node, SockId>) {
    && repr <= owner.Keys
    && (forall key :: key in contents ==> contents[key] in repr && contents[key] in owner)
    && (forall m, n :: m in owner && n in owner && owner[m] == owner[n] ==> m == n)
  }

  lemma OwnedWith(
    contents: map<nat, TreeShape.Node>, repr: set<TreeShape.Node>, owner: map<TreeShape.Node, SockId>,
    node: TreeShape.Node, key: nat, id: SockId)
    requires Owned(contents, repr, owner) && node !in owner && id !in owner.Values
    ensures node !in repr && Owned(contents[key := node], repr + {node}, owner[node := id])
    ensures forall k :: k in contents ==> contents[k] in owner && contents[k] != node
  {
    assert forall n :: n in owner ==> owner[n] in owner.Values;
  }

  /** What the links of a port say: the two queues, the table, and the record to which each node belongs. */
  datatype LinkState = LinkState(
    updates: seq<SockId>, deleted: seq<SockId>, table: map<nat, SockId>,
    queueOwner: map<QueueNode, SockId>, treeOwner: map<TreeShape.Node, SockId>)

  /** The linked structures of a port together. */
  datatype PortLinks = PortLinks(queues: PortQueues, table: SocketTree) {

    ghost function Objects(): set<object>
      reads queues, queues.updates, queues.deleted, table, table.tree
    {
      queues.Objects() + table.Objects()
    }

    ghost predicate Valid()
      reads Objects()
    {
      queues.Valid() && table.Valid()
    }

    ghost function State(): LinkState
      requires Valid()
      reads Objects()
    {
      LinkState(queues.Updates(), queues.Deleted(), table.Table(), queues.owner, table.owner)
    }

    /** The links read nothing but their own objects. */
    twostate lemma Kept()
      requires old(Valid()) && unchanged(old(Objects()))
      ensures Valid() && State() == old(State()) && Objects() == old(Objects())
    {
    }

    /** The queues and the tree have no object in common. */
    lemma Separate()
      ensures queues.Objects() !! table.Objects()
      ensures table in table.Objects() && table.tree in table.Objects()
      ensures queues in queues.Objects() && queues.updates in queues.Objects() && queues.deleted in queues.Objects()
    {
    }

    method RequestUpdate(node: QueueNode)
      requires Valid() && node in State().queueOwner && State().queueOwner[node] !in State().deleted
      modifies Objects()
      ensures Valid() && Objects() == old(Objects())
      ensures State() == old(State()).(updates := Enqueue(old(State()).updates, old(State()).queueOwner[node]))
    {
      hide PortQueues.Valid, PortQueues.Updates, PortQueues.Deleted, PortQueues.Objects, SocketTree.Valid,
        SocketTree.Table;
      Separate();
      queues.ObjectsAre();
      queues.RequestUpdate(node);
      queues.ObjectsAre();
    }

    method CancelUpdate(node: QueueNode)
      requires Valid() && node in State().queueOwner && State().queueOwner[node] !in State().deleted
      modifies Objects()
      ensures Valid() && Objects() == old(Objects())
      ensures State() == old(State()).(updates := Without(old(State()).updates, old(State()).queueOwner[node]))
    {
      hide PortQueues.Valid, PortQueues.Updates, PortQueues.Deleted, PortQueues.Objects, SocketTree.Valid,
        SocketTree.Table;
      Separate();
      queues.ObjectsAre();
      queues.CancelUpdate(node);
      queues.ObjectsAre();
    }

    method AddDeleted(node: QueueNode)
      requires Valid() && node in State().queueOwner && State().queueOwner[node] !in State().updates
      modifies Objects()
      ensures Valid() && Objects() == old(Objects())
      ensures State() == old(State()).(deleted := Enqueue(old(State()).deleted, old(State()).queueOwner[node]))
    {
      hide PortQueues.Valid, PortQueues.Updates, PortQueues.Deleted, PortQueues.Objects, SocketTree.Valid,
        SocketTree.Table;
      Separate();
      queues.ObjectsAre();
      queues.AddDeleted(node);
      queues.ObjectsAre();
    }

    method RemoveDeleted(node: QueueNode)
      requires Valid() && node in State().queueOwner && State().queueOwner[node] !in State().updates
      modifies Objects()
      ensures Valid() && Objects() == old(Objects())
      ensures State() == old(State()).(deleted := Without(old(State()).deleted, old(State()).queueOwner[node]))
    {
      hide PortQueues.Valid, PortQueues.Updates, PortQueues.Deleted, PortQueues.Objects, SocketTree.Valid,
        SocketTree.Table;
      Separate();
      queues.ObjectsAre();
      queues.RemoveDeleted(node);
      queues.ObjectsAre();
    }

    /** port_unregister_socket of the record that the table has under `key`. */
    method Unregister(node: TreeShape.Node, ghost key: nat)
      requires Valid() && node in State().treeOwner
      requires key in State().table && State().table[key] == State().treeOwner[node]
      modifies Objects()
      ensures Valid() && Objects() <= old(Objects())
      ensures State() == old(State()).(table := old(State()).table - {key})
    {
      hide PortQueues.Valid, PortQueues.Updates, PortQueues.Deleted, SocketTree.Valid, SocketTree.Table,
        SocketTree.Objects;
      Separate();
      table.ObjectsAre();
      table.Registered(node, key);
      table.Unregister(node);
      table.ObjectsAre();
    }

    /** port_register_socket of a new record, whose nodes are linked nowhere. */
    method Register(queueNode: QueueNode, treeNode: TreeShape.Node, key: nat, id: SockId) returns (ok: bool)
      requires Valid() && id !in State().queueOwner.Values && id !in State().treeOwner.Values
      requires treeNode !in State().treeOwner && queueNode !in Objects() && queueNode.prev == queueNode
      modifies Objects(), treeNode
      ensures Valid() && Objects() <= old(Objects()) + {queueNode, treeNode} && ok == (key !in old(State()).table)
      ensures State() == if ok then Entered(old(State()), queueNode, treeNode, key, id) else old(State())
    {
      hide PortQueues.Valid, PortQueues.Updates, PortQueues.Deleted, PortQueues.Objects,
        SocketTree.Valid, SocketTree.Table;
      Separate();
      queues.ObjectsAre();
      ok := table.Register(treeNode, key, id);
      queues.Kept();
      if ok {
        Separate();
        queues.Adopt(queueNode, id);
        queues.ObjectsAre();
      }
    }

    /** sock__free of a record that is linked nowhere any more. */
    method Forget(queueNode: QueueNode, treeNode: TreeShape.Node)
      requires Valid() && queueNode in State().queueOwner && treeNode in State().treeOwner
      requires State().queueOwner[queueNode] == State().treeOwner[treeNode] && Nowhere(State(), State().treeOwner[treeNode])
      modifies Objects()
      ensures Valid() && Objects() <= old(Objects())
      ensures State() == old(State()).(
        queueOwner := old(State()).queueOwner - {queueNode}, treeOwner := old(State()).treeOwner - {treeNode})
    {
      hide PortQueues.Valid, PortQueues.Updates, PortQueues.Deleted, PortQueues.Objects,
        SocketTree.Valid, SocketTree.Table;
      Separate();
      queues.ObjectsAre();
      if treeNode in table.tree.repr {
        table.Named(treeNode);
      }
      table.Forget(treeNode);
      queues.Kept();
      Separate();
      queues.ObjectsAre();
      queues.Forget(queueNode);
      queues.ObjectsAre();
    }
  }

  function Entered(s: LinkState, queueNode: QueueNode, treeNode: TreeShape.Node, key: nat, id: SockId): LinkState {
    s.(table := s.table[key := id], queueOwner := s.queueOwner[queueNode := id], treeOwner := s.treeOwner[treeNode := id])
  }

  predicate Nowhere(s: LinkState, id: SockId) {
    id !in s.updates && id !in s.deleted && forall key :: key in s.table ==> s.table[key] != id
  }

  /** The links of port_new. */
  method NewLinks() returns (links: PortLinks, ghost objects: set<object>)
    ensures objects == links.Objects() && links.Valid() && links.State() == LinkState([], [], map[], map[], map[]) && fresh(links.Objects())
  {
    hide PortQueues.Valid, PortQueues.Updates, PortQueues.Deleted, PortQueues.Objects, SocketTree.Valid,
      SocketTree.Table;
    var table := new SocketTree();
    var queues := new PortQueues();
    links := PortLinks(queues, table);
    objects := links.Objects();
  }
}
