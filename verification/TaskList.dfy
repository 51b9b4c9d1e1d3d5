/** The singly linked task list with head and tail that thread_pool.c and poller_task.c share in form. */
module TaskList {

  type Task = nat

  class Node {
    const task: Task
    var next: Node?

    constructor (t: Task)
      ensures task == t && next == null
    {
      task, next := t, null;
    }
  }

  class List {
    var head: Node?
    var tail: Node?
    ghost var nodes: seq<Node>

    ghost predicate Valid()
      reads this, nodes
    {
      && head == NodeAt(nodes, 0) && tail == (if nodes == [] then null else nodes[|nodes| - 1])
      && Chained(nodes)
    }

    ghost function Tasks(): seq<Task>
      reads this
    {
      TasksOf(nodes)
    }

    constructor ()
      ensures Valid() && Tasks() == []
    {
      head, tail, nodes := null, null, [];
    }

    method PushFront(t: Task)
      requires Valid()
      modifies this
      ensures Valid() && Tasks() == [t] + old(Tasks())
      ensures nodes != [] && fresh(nodes[0]) && nodes[1..] == old(nodes)
    {
      hide TasksOf;
      var node := new Node(t);
      node.next := head;
      head := node;
      if tail == null {
        tail := node;
      }
      ghost var before := nodes;
      nodes := [node] + nodes;
      TasksJoin([node], before);
      forall i | 0 <= i < |nodes| ensures nodes[i].next == NodeAt(nodes, i + 1) {
        if i > 0 {
          assert nodes[i] == before[i - 1] && old(before[i - 1].next) == NodeAt(before, i);
        }
      }
    }

    method PushBack(t: Task)
      requires Valid()
      modifies this, tail
      ensures Valid() && Tasks() == old(Tasks()) + [t]
      ensures nodes != [] && fresh(nodes[|nodes| - 1]) && nodes[..|nodes| - 1] == old(nodes)
    {
      hide TasksOf;
      var node := new Node(t);
      if tail != null {
        tail.next := node;
      } else {
        head := node;
      }
      tail := node;
      TasksJoin(nodes, [node]);
      nodes := nodes + [node];
    }

    /** pop_task. */
    method Pop() returns (node: Node?)
      requires Valid()
      modifies this, head
      ensures Valid() && (node == null <==> old(Tasks()) == [])
      ensures node == null ==> Tasks() == []
      ensures node != null ==> node.next == null && old(Tasks()) == [node.task] + Tasks()
    {
      node := head;
      if node != null {
        head := node.next;
        if head == null {
          tail := null;
        }
        node.next := null;
        assert nodes[0] == node && nodes == [node] + nodes[1..];
        nodes := nodes[1..];
      }
    }

    /** The locked part of ztk_poller_drain_tasks: the whole list changes hands. */
    method Detach() returns (list: Node?, ghost detached: seq<Node>)
      requires Valid()
      modifies this
      ensures Valid() && Tasks() == [] && Chained(detached) && TasksOf(detached) == old(Tasks())
      ensures list == NodeAt(detached, 0)
    {
      list, detached := head, nodes;
      head, tail, nodes := null, null, [];
    }
  }

  ghost predicate Chained(ns: seq<Node>)
    reads ns
  {
    && (forall i :: 0 <= i < |ns| ==> ns[i].next == NodeAt(ns, i + 1))
    && (forall i, j :: 0 <= i < j < |ns| ==> ns[i] != ns[j])
  }

  ghost function NodeAt(ns: seq<Node>, i: nat): Node? {
    if i < |ns| then ns[i] else null
  }

  ghost function TasksOf(ns: seq<Node>): seq<Task> {
    seq(|ns|, i requires 0 <= i < |ns| => ns[i].task)
  }

  lemma TasksJoin(a: seq<Node>, b: seq<Node>)
    ensures TasksOf(a + b) == TasksOf(a) + TasksOf(b)
    ensures |a| == 1 ==> TasksOf(a) == [a[0].task]
    ensures |b| == 1 ==> TasksOf(b) == [b[0].task]
  {
  }

  /** The unlocked part of ztk_poller_drain_tasks runs the detached tasks in order. */
  method RunAll(list: Node?, ghost detached: seq<Node>) returns (ran: seq<Task>)
    requires Chained(detached) && list == NodeAt(detached, 0)
    ensures ran == TasksOf(detached)
  {
    var at := list;
    ghost var i := 0;
    ran := [];
    while at != null
      invariant 0 <= i <= |detached| && at == NodeAt(detached, i)
      invariant ran == TasksOf(detached[..i])
      decreases |detached| - i
    {
      assert detached[..i + 1] == detached[..i] + [detached[i]];
      ran := ran + [at.task];
      assert at == detached[i];
      at := at.next;
      i := i + 1;
    }
    assert detached[..i] == detached;
  }
}
