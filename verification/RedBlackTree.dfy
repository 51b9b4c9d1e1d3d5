/** The intrusive red-black tree of wepoll.c, changed in place, with its red-black invariants and the finite
    map it stands for. */
module RedBlackTree {
  import opened TreeShape
  import opened TreeRemoval

  class TreeObject {
    var root: Node?
    ghost var repr: set<Node>
    ghost var shape: Tree

    /** tree_init. */
    constructor ()
      ensures Valid() && Contents() == map[] && repr == {}
    {
      root := null;
      repr := {};
      shape := Leaf;
    }

    /** A search tree with consistent links both ways, a black root, no red node below a red one and
        the same number of black nodes on every path. */
    ghost predicate Valid()
      reads this, repr
    {
      && Standing(Top, shape, Elements(shape))
      && Sorted(Elements(shape)) && Balanced(shape) && !Red(shape)
    }

    /** Which node is linked under which key. */
    ghost function Contents(): map<nat, Node>
      reads `shape
    {
      Model(Elements(shape))
    }

    /** What the fields of the nodes hold. */
    ghost function Mem(): Memory
      reads this`repr, repr
    {
      map n | n in repr :: Cell(n.left, n.right, n.parent, n.key, n.red)
    }

    /** TREE__ROTATE(left, right), field by field. */
    method RotateLeftFields(node: Node)
      requires node in repr && node.right != null && node.right in repr && node.right != node
      requires var q, b, parent := node.right, node.right.left, node.parent;
        && (parent != null ==> parent in repr && parent != node && parent != q)
        && (b != null ==> b in repr && b != node && b != q && b != parent)
      modifies `root, repr
      ensures var m := old(Mem()); var q: Node := old(node.right); var b, parent := old(node.right.left), old(node.parent);
        && Mem()[node] == m[node].(right := b, parent := q)
        && Mem()[q] == m[q].(left := node, parent := parent)
        && (b != null ==> Mem()[b] == m[b].(parent := node))
        && (parent != null ==>
              Mem()[parent] == if m[parent].left == node then m[parent].(left := q) else m[parent].(right := q))
        && root == (if parent == null then q else old(root))
        && SameExcept(m, Mem(), node, q, b, parent)
    {
      var p := node;
      var q := node.right;
      var parent := p.parent;
      if parent != null {
        if parent.left == p {
          parent.left := q;
        } else {
          parent.right := q;
        }
      } else {
        root := q;
      }
      q.parent := parent;
      p.parent := q;
      p.right := q.left;
      if p.right != null {
        p.right.parent := p;
      }
      q.left := p;
    }

    /** TREE__ROTATE(right, left), field by field. */
    method RotateRightFields(node: Node)
      requires node in repr && node.left != null && node.left in repr && node.left != node
      requires var q, b, parent := node.left, node.left.right, node.parent;
        && (parent != null ==> parent in repr && parent != node && parent != q)
        && (b != null ==> b in repr && b != node && b != q && b != parent)
      modifies `root, repr
      ensures var m := old(Mem()); var q: Node := old(node.left); var b, parent := old(node.left.right), old(node.parent);
        && Mem()[node] == m[node].(left := b, parent := q)
        && Mem()[q] == m[q].(right := node, parent := parent)
        && (b != null ==> Mem()[b] == m[b].(parent := node))
        && (parent != null ==>
              Mem()[parent] == if m[parent].left == node then m[parent].(left := q) else m[parent].(right := q))
        && root == (if parent == null then q else old(root))
        && SameExcept(m, Mem(), node, q, b, parent)
    {
      var p := node;
      var q := node.left;
      var parent := p.parent;
      if parent != null {
        if parent.left == p {
          parent.left := q;
        } else {
          parent.right := q;
        }
      } else {
        root := q;
      }
      q.parent := parent;
      p.parent := q;
      p.left := q.right;
      if p.left != null {
        p.left.parent := p;
      }
      q.right := p;
    }

    /** The walk stands at `t` inside `c`, and the whole tree holds exactly the entries `es`. */
    ghost predicate Standing(c: Context, t: Tree, es: seq<Entry>)
      reads this, repr
    {
      repr == Nodes(t) + ContextNodes(c) && At(Mem(), root, c, t) && Whole(c, t) == es
    }

    /** What the pointers around the walk hold. */
    lemma Stands(c: Context, t: Tree, es: seq<Entry>)
      requires Standing(c, t, es)
      ensures c.Top? ==> root == Root(t)
      ensures t.Branch? ==>
        && t.node in repr && t.node.key == t.key && t.node.red == t.red && t.node.parent == Parent(c)
        && t.node.left == Root(t.left) && t.node.right == Root(t.right)
      ensures c.Frame? ==>
        && c.node in repr && c.node.key == c.key && c.node.red == c.red && c.node.parent == Parent(c.up)
        && c.node.left == (if c.isLeft then Root(t) else Root(c.sibling))
        && c.node.right == (if c.isLeft then Root(c.sibling) else Root(t))
      ensures Root(t) != null ==> Root(t) != Parent(c)
      ensures c.Frame? && c.sibling.Branch? ==> Root(c.sibling) != Root(t)
      ensures c.Frame? && c.sibling.Branch? ==>
        && c.sibling.node in repr && c.sibling.node.red == c.sibling.red && c.sibling.node.parent == c.node
        && c.sibling.node.left == Root(c.sibling.left) && c.sibling.node.right == Root(c.sibling.right)
      ensures Whole(c, t) == es
    {
      if t.Branch? {
        assert Mem()[t.node] == Cell(Root(t.left), Root(t.right), Parent(c), t.key, t.red);
        DistinctParts(c, t);
      }
      if c.Frame? {
        assert Mem()[c.node] == HoleCell(c, Root(t));
        assert c.sibling.Branch? ==> Linked(Mem(), c.sibling, c.node) && c.sibling.node in Nodes(c.sibling);
        assert t.Branch? ==> t.node in Nodes(t);
      }
    }

    lemma NephewStands(c: Context, t: Tree, left: bool, es: seq<Entry>)
      requires Standing(c, t, es) && c.Frame? && c.sibling.Branch?
      ensures var n := Side(c.sibling, left); n.Branch? ==> n.node in repr && n.node.red == n.red
    {
      hide Standing;
      StandBeside(c, t, es);
      StandDown(Beside(c, t), c.sibling, left, es);
      Stands(Below(Beside(c, t), c.sibling, left), Side(c.sibling, left), es);
    }

    lemma StandUp(c: Context, t: Tree, es: seq<Entry>)
      requires Standing(c, t, es) && c.Frame?
      ensures Standing(c.up, Fill(c, t), es)
    {
      MoveUp(Mem(), root, c, t);
      FillElements(c, t);
    }

    lemma StandDown(c: Context, t: Tree, left: bool, es: seq<Entry>)
      requires Standing(c, t, es) && t.Branch?
      ensures Standing(Below(c, t, left), Side(t, left), es)
      ensures Side(t, left).Branch? ==> Side(t, left).node in repr
    {
      MoveDown(Mem(), root, c, t, left);
      FillElements(Below(c, t, left), Side(t, left));
    }

    lemma StandAtTop(c: Context, t: Tree, es: seq<Entry>)
      requires Standing(c, t, es)
      ensures Standing(Top, Plug(c, t), es) && Elements(Plug(c, t)) == es
      ensures root == Root(Plug(c, t))
    {
      MoveToTop(Mem(), root, c, t);
      PlugElements(c, t);
    }

    lemma RootIsTop(c: Context, t: Tree, es: seq<Entry>)
      requires Standing(c, t, es) && DeletePoint(c, t)
      ensures Root(t) == root <==> c.Top?
      ensures c.Frame? ==> (c.isLeft <==> Root(t) == c.node.left)
    {
      Stands(c, t, es);
      if c.Frame? {
        SiblingLiftedBalance(c, t);
        StandAtTop(c, t, es);
        PlugRoot(c, t);
      }
    }

    lemma IsValid(es: seq<Entry>)
      requires Standing(Top, shape, es) && Sorted(es) && Balanced(shape) && !Red(shape)
      ensures Valid() && Elements(shape) == es
    {
    }

    method Rotate(node: Node, left: bool, ghost c: Context, ghost t: Tree, ghost es: seq<Entry>)
      requires t.Branch? && t.node == node && Side(t, !left).Branch?
      requires Standing(c, t, es)
      modifies `root, repr
      ensures Standing(c, Rotated(t, left), es)
    {
      hide Linked, LinkedAround, Distinct, ContextDistinct, Nodes, ContextNodes, Elements, Before, After;
      ghost var mem := Mem();
      RotateFacts(c, t, left, es);
      if left {
        RotateLeftFields(node);
      } else {
        RotateRightFields(node);
      }
      RotatedLinks(mem, Mem(), old(root), root, c, t, left);
      RotatedElements(t, left);
      RotatedDistinct(t, left);
    }

    lemma RotateFacts(c: Context, t: Tree, left: bool, es: seq<Entry>)
      requires Standing(c, t, es) && t.Branch? && Side(t, !left).Branch?
      ensures At(Mem(), root, c, t) && Distinct(t)
      ensures var node, q, a, b, d :=
                t.node, Side(t, !left).node, Side(t, left), Side(Side(t, !left), left), Side(Side(t, !left), !left);
        && node in repr && q in repr && q != node
        && Mem()[node] == SidedCell(left, Root(a), q, Parent(c), t.key, t.red)
        && Mem()[q] == SidedCell(left, Root(b), Root(d), node, Side(t, !left).key, Side(t, !left).red)
        && (b.Branch? ==> b.node in repr && b.node != node && b.node != q && b.node != Parent(c))
        && (c.Frame? ==> c.node in repr && c.node != node && c.node != q && Mem()[c.node] == HoleCell(c, node))
        && (c.Frame? ==> (Mem()[c.node].left == node <==> c.isLeft)) && (c.Top? ==> root == node)
    {
      Stands(c, t, es);
      ghost var q := Side(t, !left);
      assert Linked(Mem(), q, t.node) && Linked(Mem(), Side(q, left), q.node);
      DistinctParts(c, t);
      DistinctParts(c, q);
      DistinctParts(Top, q);
    }

    /** One assignment to a colour field. */
    method Paint(node: Node, red: bool, ghost c: Context, ghost t: Tree, ghost es: seq<Entry>)
      requires t.Branch? && t.node == node && node in repr
      requires Standing(c, t, es)
      modifies node`red
      ensures Standing(c, t.(red := red), es)
    {
      ghost var mem := Mem();
      node.red := red;
      Painted(mem, Mem(), root, c, t, red);
    }

    /** TREE__REBALANCE_AFTER_INSERT with a red uncle: a colour flip. */
    method FlipColours(parent: Node, uncle: Node, grandparent: Node, ghost c: Context, ghost t: Tree, ghost es: seq<Entry>)
      requires Standing(c, t, es)
      requires c.Frame? && c.node == parent && c.up.Frame? && c.up.node == grandparent
      requires c.up.sibling.Branch? && c.up.sibling.node == uncle
      modifies repr
      ensures Standing(c.up.up, Flipped(c, t), es)
    {
      ghost var up, p := c.up, Fill(c, t);
      StandUp(c, t, es);
      Paint(parent, false, up, p, es);
      p := p.(red := false);
      StandUp(up, p, es);
      ghost var beside := Below(up.up, Fill(up, p), !up.isLeft);
      StandDown(up.up, Fill(up, p), !up.isLeft, es);
      Paint(uncle, false, beside, up.sibling, es);
      StandUp(beside, Blacken(up.sibling), es);
      up := up.(sibling := Blacken(up.sibling));
      Paint(grandparent, true, up.up, Fill(up, p), es);
    }

    /** TREE__REBALANCE_AFTER_INSERT with a black uncle, once the node is the outer grandchild. */
    method RotateGrandparent(parent: Node, grandparent: Node, cis: bool, ghost up: Context, ghost p: Tree, ghost es: seq<Entry>)
      requires Standing(up, p, es)
      requires up.Frame? && up.node == grandparent && up.isLeft == cis && p.Branch? && p.node == parent
      modifies `root, repr
      ensures Standing(up.up, Rotated(Fill(up.(red := true), p.(red := false)), !cis), es)
    {
      Paint(parent, false, up, p, es);
      ghost var p' := p.(red := false);
      StandUp(up, p', es);
      Paint(grandparent, true, up.up, Fill(up, p'), es);
      Rotate(grandparent, !cis, up.up, Fill(up.(red := true), p'), es);
    }

    /** One round of the loop of tree_add: TREE__REBALANCE_AFTER_INSERT(cis, trans). */
    method RebalanceAfterInsert(node: Node, parent: Node, cis: bool, ghost c: Context, ghost t: Tree, ghost es: seq<Entry>)
      returns (node': Node, ghost c': Context, ghost t': Tree)
      requires Standing(c, t, es) && InsertPoint(c, t) && t.node == node
      requires c.Frame? && c.node == parent && c.red && c.up.Frame? && c.up.isLeft == cis
      modifies `root, repr
      ensures Standing(c', t', es) && InsertPoint(c', t') && t'.Branch? && t'.node == node'
      ensures Depth(c') < Depth(c)
    {
      hide Standing, Elements, Balanced, ContextBalanced;
      ghost var up, p := c.up, Fill(c, t);
      Stands(c, t, es);
      StandUp(c, t, es);
      Stands(up, p, es);
      var grandparent: Node := parent.parent;
      var uncle := if cis then grandparent.right else grandparent.left;
      if uncle != null && uncle.red {
        FlipColours(parent, uncle, grandparent, c, t, es);
        FlippedBalance(c, t);
        node', c', t' := grandparent, up.up, Flipped(c, t);
      } else {
        node' := node;
        var parent': Node := parent;
        if node == (if cis then parent.right else parent.left) {
          assert c.isLeft != cis;
          Rotate(parent, cis, up, p, es);
          p := Rotated(p, cis);
          node' := parent;
          StandDown(up, p, cis, es);
          Stands(Below(up, p, cis), Side(p, cis), es);
          parent' := node'.parent;
        }
        RotateGrandparent(parent', grandparent, cis, up, p, es);
        StraightenedBalance(c, t);
        ghost var g := Straightened(c, t);
        StandDown(up.up, g, cis, es);
        c', t' := Below(up.up, g, cis), Side(g, cis);
      }
    }

    /** The last part of TREE__INSERT_OR_DESCEND and the node's own fields. */
    method AttachFields(node: Node, key: nat, parent: Node?, left: bool)
      requires node !in repr && (parent != null ==> parent in repr)
      modifies `root, `repr, node, parent
      ensures repr == old(repr) + {node}
      ensures root == if parent == null then node else old(root)
      ensures Mem()[node] == Cell(null, null, parent, key, true)
      ensures var m := old(Mem());
        && (parent != null ==>
              Mem()[parent] == if left then m[parent].(left := node) else m[parent].(right := node))
        && SameExcept(m, Mem(), node, parent, null, null)
    {
      if parent == null {
        root := node;
      } else if left {
        parent.left := node;
      } else {
        parent.right := node;
      }
      node.key := key;
      node.left, node.right := null, null;
      node.parent := parent;
      node.red := true;
      repr := repr + {node};
    }

    method Attach(node: Node, key: nat, parent: Node?, left: bool, ghost c: Context, ghost es: seq<Entry>)
      requires Standing(c, Leaf, es) && node !in repr
      requires Parent(c) == parent && (c.Frame? ==> c.isLeft == left && c.node in repr)
      modifies `root, `repr, repr, node
      ensures repr == old(repr) + {node}
      ensures Standing(c, Branch(Leaf, node, key, true, Leaf), Inserted(c, key, node))
    {
      ghost var mem := Mem();
      AttachFields(node, key, parent, left);
      AttachedLinks(mem, Mem(), old(root), root, c, node, key);
    }

    /** The loop of tree_add, run from a freshly attached red node. */
    method FixAfterInsert(newNode: Node, ghost c0: Context, ghost t0: Tree, ghost es: seq<Entry>)
      requires Standing(c0, t0, es) && Sorted(es) && InsertPoint(c0, t0) && t0.Branch? && t0.node == newNode
      modifies `root, `shape, repr
      ensures Valid() && Elements(shape) == es && Contents() == Model(es)
    {
      hide Standing, InsertPoint, Balanced, ContextBalanced, Sorted, Model, Elements;
      var node := newNode;
      Stands(c0, t0, es);
      var parent := node.parent;
      ghost var c, t := c0, t0;
      while parent != null && parent.red
        invariant Standing(c, t, es) && InsertPoint(c, t) && t.Branch? && t.node == node && Parent(c) == parent
        invariant parent != null ==> parent.red == c.red
        decreases Depth(c)
      {
        FlippedBalance(c, t);
        Stands(c, t, es);
        StandUp(c, t, es);
        Stands(c.up, Fill(c, t), es);
        node, c, t := RebalanceAfterInsert(node, parent, parent == parent.parent.left, c, t, es);
        Stands(c, t, es);
        parent := node.parent;
      }
      StandAtTop(c, t, es);
      InsertDone(c, t);
      Stands(Top, Plug(c, t), es);
      Paint(root, false, Top, Plug(c, t), es);
      shape := Blacken(Plug(c, t));
      IsValid(es);
    }

    /** What tree_add does once the search has reached an empty place. */
    method AddAt(node: Node, key: nat, parent: Node?, left: bool, ghost c: Context, ghost es: seq<Entry>)
      requires Standing(c, Leaf, es) && Sorted(es) && Bounds(c, key) && node !in repr
      requires ContextBalanced(c, 0, false)
      requires Parent(c) == parent && (c.Frame? ==> c.isLeft == left && c.node in repr)
      modifies this, repr, node
      ensures Valid() && repr == old(repr) + {node}
      ensures key !in Model(es) && Contents() == Model(es)[key := node]
    {
      hide *;
      Stands(c, Leaf, es);
      ghost var es' := Inserted(c, key, node);
      InsertedModel(c, key, node);
      AttachedBalance(c, node, key);
      Attach(node, key, parent, left, c, es);
      FixAfterInsert(node, c, Branch(Leaf, node, key, true, Leaf), es');
    }

    /** The search loop of tree_add: the node that has the key, or the empty place for it. */
    method Descend(key: nat) returns (found: bool, parent: Node?, left: bool, ghost c: Context)
      requires Valid()
      ensures found ==> key in Contents()
      ensures !found ==>
        && Standing(c, Leaf, Elements(shape)) && Bounds(c, key) && ContextBalanced(c, 0, false)
        && Parent(c) == parent && (c.Frame? ==> c.isLeft == left && c.node in repr)
    {
      ghost var es := Elements(shape);
      ghost var t := shape;
      c := Top;
      hide Standing, Bounds, Sorted, Balanced, ContextBalanced;
      Stands(c, t, es);
      BoundsTop(key);
      TopBalanced(shape);
      parent, left := root, false;
      if parent != null {
        while true
          invariant Standing(c, t, es) && t.Branch? && t.node == parent && Bounds(c, key)
          invariant Balanced(t) && ContextBalanced(c, BlackHeight(t), Red(t))
          decreases t
        {
          Stands(c, t, es);
          Narrow(c, t, key);
          if key < parent.key {
            StandDown(c, t, true, es);
            BalancedDown(c, t, true);
            c, t := Below(c, t, true), t.left;
            left := true;
            if parent.left == null {
              break;
            }
            parent := parent.left;
          } else if key > parent.key {
            StandDown(c, t, false, es);
            BalancedDown(c, t, false);
            c, t := Below(c, t, false), t.right;
            left := false;
            if parent.right == null {
              break;
            }
            parent := parent.right;
          } else {
            Found(c, t);
            found := true;
            return;
          }
        }
      }
      found := false;
    }

    /** tree_add: 0 and the node is linked under its key, or -1 and nothing is written. */
    method Add(node: Node, key: nat) returns (r: int)
      requires Valid() && node !in repr
      modifies this, repr, node
      ensures Valid()
      ensures key in old(Contents()) ==>
        && r == -1 && root == old(root) && repr == old(repr) && shape == old(shape)
        && Mem() == old(Mem()) && unchanged(node)
      ensures key !in old(Contents()) ==>
        && r == 0 && repr == old(repr) + {node}
        && Contents() == old(Contents())[key := node]
    {
      hide Standing, Bounds, Sorted, Balanced, ContextBalanced;
      var found, parent, left;
      ghost var c;
      found, parent, left, c := Descend(key);
      if found {
        return -1;
      }
      AddAt(node, key, parent, left, c, Elements(shape));
      return 0;
    }

    // ---- removal ----

    /** The walk steps over to the sibling. */
    lemma StandBeside(c: Context, t: Tree, es: seq<Entry>)
      requires Standing(c, t, es) && c.Frame?
      ensures Standing(Beside(c, t), c.sibling, es)
    {
      hide Standing;
      StandUp(c, t, es);
      StandDown(c.up, Fill(c, t), !c.isLeft, es);
    }

    method PaintParent(parent: Node, red: bool, ghost c: Context, ghost t: Tree, ghost es: seq<Entry>)
      requires Standing(c, t, es) && c.Frame? && c.node == parent
      modifies repr
      ensures Standing(c.(red := red), t, es)
    {
      hide Standing, Elements;
      Stands(c, t, es);
      StandUp(c, t, es);
      Paint(parent, red, c.up, Fill(c, t), es);
      StandDown(c.up, Fill(c, t).(red := red), c.isLeft, es);
    }

    method PaintSibling(sibling: Node, red: bool, ghost c: Context, ghost t: Tree, ghost es: seq<Entry>)
      requires Standing(c, t, es) && c.Frame? && c.sibling.Branch? && c.sibling.node == sibling
      modifies repr
      ensures Standing(c.(sibling := c.sibling.(red := red)), t, es)
    {
      hide Standing, Elements;
      Stands(c, t, es);
      StandBeside(c, t, es);
      Paint(sibling, red, Beside(c, t), c.sibling, es);
      StandBeside(Beside(c, t), c.sibling.(red := red), es);
    }

    /** The colour of the sibling's child on the side `left`. */
    method PaintNephew(nephew: Node, left: bool, ghost c: Context, ghost t: Tree, ghost es: seq<Entry>)
      requires Standing(c, t, es) && c.Frame? && c.sibling.Branch?
      requires Side(c.sibling, left).Branch? && Side(c.sibling, left).node == nephew
      modifies repr
      ensures Standing(c.(sibling := WithBlackSide(c.sibling, left)), t, es)
    {
      hide Standing, Elements;
      ghost var b, s := Beside(c, t), c.sibling;
      StandBeside(c, t, es);
      StandDown(b, s, left, es);
      Paint(nephew, false, Below(b, s, left), Side(s, left), es);
      StandUp(Below(b, s, left), Side(s, left).(red := false), es);
      StandBeside(b, WithBlackSide(s, left), es);
    }

    /** The first step of TREE__REBALANCE_AFTER_REMOVE: a red sibling is rotated away. */
    method LiftSibling(parent: Node, sibling: Node, cis: bool, ghost c: Context, ghost t: Tree, ghost es: seq<Entry>)
      requires Standing(c, t, es) && c.Frame? && c.node == parent && c.isLeft == cis
      requires c.sibling.Branch? && c.sibling.node == sibling
      modifies `root, repr
      ensures Standing(LiftedContext(c, t), t, es)
    {
      hide Standing, Elements;
      PaintSibling(sibling, false, c, t, es);
      ghost var c1 := c.(sibling := Blacken(c.sibling));
      PaintParent(parent, true, c1, t, es);
      ghost var c2 := c1.(red := true);
      StandUp(c2, t, es);
      Rotate(parent, cis, c.up, Fill(c2, t), es);
      ghost var f := SiblingLifted(c, t);
      StandDown(c.up, f, cis, es);
      StandDown(Below(c.up, f, cis), Side(f, cis), cis, es);
    }

    /** The second step: if only the near nephew is red, a rotation brings it to the far side. */
    method BringRedFar(parent: Node, sibling: Node, cis: bool, ghost c: Context, ghost t: Tree, ghost es: seq<Entry>)
      returns (sibling': Node)
      requires Standing(c, t, es) && c.Frame? && c.node == parent && c.isLeft == cis
      requires c.sibling.Branch? && c.sibling.node == sibling && (Red(c.sibling.left) || Red(c.sibling.right))
      modifies `root, repr
      ensures FarRed(c.sibling, cis).Branch? && sibling' == FarRed(c.sibling, cis).node
      ensures Standing(c.(sibling := FarRed(c.sibling, cis)), t, es)
    {
      hide Standing, Elements, Balanced, ContextBalanced;
      sibling' := sibling;
      Stands(c, t, es);
      NephewStands(c, t, !cis, es);
      var trans := if cis then sibling.right else sibling.left;
      if trans == null || !trans.red {
        var near := if cis then sibling.left else sibling.right;
        PaintNephew(near, cis, c, t, es);
        ghost var c1 := c.(sibling := WithBlackSide(c.sibling, cis));
        PaintSibling(sibling, true, c1, t, es);
        ghost var c2 := c1.(sibling := c1.sibling.(red := true));
        StandBeside(c2, t, es);
        Rotate(sibling, !cis, Beside(c2, t), c2.sibling, es);
        ghost var d := c.(sibling := FarRed(c.sibling, cis));
        StandBeside(Beside(d, t), d.sibling, es);
        Stands(d, t, es);
        sibling' := if cis then parent.right else parent.left;
      }
    }

    /** The last step: a red far nephew pays, and the loop is left. */
    method RepayWithNephew(parent: Node, sibling: Node, cis: bool, ghost c: Context, ghost t: Tree, ghost es: seq<Entry>)
      requires Standing(c, t, es) && c.Frame? && c.node == parent && c.isLeft == cis
      requires c.sibling.Branch? && c.sibling.node == sibling && Side(c.sibling, !cis).Branch?
      modifies `root, repr
      ensures Standing(c.up, RepaidBy(c, t), es)
    {
      hide Standing, Elements;
      Stands(c, t, es);
      PaintSibling(sibling, parent.red, c, t, es);
      ghost var d1 := c.(sibling := c.sibling.(red := c.red));
      PaintParent(parent, false, d1, t, es);
      ghost var d2 := d1.(red := false);
      Stands(d2, t, es);
      PaintNephew(if cis then sibling.right else sibling.left, !cis, d2, t, es);
      ghost var d3 := d2.(sibling := WithBlackSide(d2.sibling, !cis));
      StandUp(d3, t, es);
      Rotate(parent, cis, c.up, Fill(d3, t), es);
    }

    /** TREE__REBALANCE_AFTER_REMOVE from its second step on: the sibling is black. */
    method RebalanceBlackSibling(parent: Node, sibling: Node, cis: bool, ghost c: Context, ghost t: Tree, ghost es: seq<Entry>)
      returns (done: bool, node': Node, ghost c': Context, ghost t': Tree)
      requires Standing(c, t, es) && DeletePoint(c, t) && c.Frame? && c.node == parent && c.isLeft == cis
      requires c.sibling.Branch? && !Red(c.sibling) && c.sibling.node == sibling
      modifies `root, repr
      ensures Standing(c', t', es) && t'.Branch? && t'.node == node'
      ensures UpPoint(c', t') && (done ==> c'.Top? && !t'.red)
      ensures !done ==> c' == c.up && t'.red == c.red
    {
      hide Standing, Elements, Balanced, ContextBalanced, DeletePoint, UpPoint;
      Stands(c, t, es);
      NephewStands(c, t, true, es);
      NephewStands(c, t, false, es);
      if (sibling.left != null && sibling.left.red) || (sibling.right != null && sibling.right.red) {
        var sibling' := BringRedFar(parent, sibling, cis, c, t, es);
        RepayWithNephew(parent, sibling', cis, c.(sibling := FarRed(c.sibling, cis)), t, es);
        RepaidBalance(c, t);
        ghost var f := Repaid(c, t);
        PlugBalanced(c.up, f);
        PlugBranch(c.up, f);
        StandAtTop(c.up, f, es);
        DoneAtTop(Plug(c.up, f));
        done, node', c', t' := true, root, Top, Plug(c.up, f);
      } else {
        PaintSibling(sibling, true, c, t, es);
        PostponedBalance(c, t);
        StandUp(c.(sibling := c.sibling.(red := true)), t, es);
        done, node', c', t' := false, parent, c.up, Postponed(c, t);
      }
    }

    /** One round of the loop of tree_del: TREE__REBALANCE_AFTER_REMOVE(cis, trans). The node moves up
        to its parent, or the tree is whole again and the loop is left. */
    method RebalanceAfterRemove(parent: Node, cis: bool, ghost c0: Context, ghost t: Tree, ghost es: seq<Entry>)
      returns (done: bool, node': Node, ghost c': Context, ghost t': Tree)
      requires Standing(c0, t, es) && DeletePoint(c0, t) && c0.Frame? && c0.node == parent && c0.isLeft == cis
      modifies `root, repr
      ensures Standing(c', t', es) && t'.Branch? && t'.node == node'
      ensures UpPoint(c', t') && (done ==> c'.Top? && !t'.red)
      ensures !done && !t'.red ==> Depth(c') < Depth(c0)
    {
      hide Standing, Elements, Balanced, ContextBalanced, DeletePoint;
      ghost var c := c0;
      SiblingLiftedBalance(c, t);
      Stands(c, t, es);
      var sibling: Node := if cis then parent.right else parent.left;
      if sibling.red {
        LiftSibling(parent, sibling, cis, c, t, es);
        c := LiftedContext(c, t);
        SiblingLiftedBalance(c, t);
        Stands(c, t, es);
        sibling := if cis then parent.right else parent.left;
      }
      done, node', c', t' := RebalanceBlackSibling(parent, sibling, cis, c, t, es);
    }

    /** The loop of tree_del and the assignment after it. */
    method FixAfterRemove(node0: Node?, parent0: Node?, ghost c0: Context, ghost t0: Tree, ghost es: seq<Entry>)
      requires Standing(c0, t0, es) && Sorted(es) && DeletePoint(c0, t0)
      requires Root(t0) == node0 && Parent(c0) == parent0
      modifies `root, `shape, repr
      ensures Valid() && Elements(shape) == es && Contents() == Model(es)
    {
      hide Standing, Elements, Balanced, ContextBalanced, Sorted;
      var node, parent := node0, parent0;
      ghost var c, t := c0, t0;
      while true
        invariant Standing(c, t, es) && DeletePoint(c, t) && Root(t) == node && Parent(c) == parent
        decreases Depth(c)
      {
        Stands(c, t, es);
        RootIsTop(c, t, es);
        if node == root {
          break;
        }
        var done;
        done, node, c, t := RebalanceAfterRemove(parent, node == parent.left, c, t, es);
        if done {
          Stands(c, t, es);
          break;
        }
        Stands(c, t, es);
        parent := node.parent;
        if node.red {
          break;
        }
      }
      Stands(c, t, es);
      if node != null {
        Paint(node, false, c, t, es);
      }
      LoopLeft(c, t);
      StandAtTop(c, Blacken(t), es);
      shape := Plug(c, Blacken(t));
      IsValid(es);
    }

    /** tree_del: the pointer that led to `node` now leads to `next`. */
    method Redirect(node: Node, next: Node?)
      requires node in repr && (node.parent != null ==> node.parent in repr && node.parent != node)
      modifies `root, node.parent
      ensures var m := old(Mem()); var parent := old(node.parent);
        && root == (if parent == null then next else old(root))
        && (parent != null ==>
              Mem()[parent] == if m[parent].left == node then m[parent].(left := next) else m[parent].(right := next))
        && SameExcept(m, Mem(), parent, null, null, null)
      ensures node.parent == old(node.parent)
    {
      var parent := node.parent;
      if parent != null {
        if parent.left == node {
          parent.left := next;
        } else {
          parent.right := next;
        }
      } else {
        root := next;
      }
    }

    /** tree_del for a node whose right child has no left child: that child is the next node. */
    method TakeOverByChild(node: Node, next: Node) returns (red: bool)
      requires node in repr && node.left != null && node.left in repr && next in repr
      requires var left, x := node.left, next.right;
        && left != node && next != node && left != next
        && (x != null ==> x in repr && x != node && x != next && x != left)
      modifies `repr, repr
      ensures repr == old(repr) - {node} && red == old(next.red)
      ensures var m := old(Mem()); var left: Node, x := old(node.left), old(next.right);
        && Mem()[next] == Cell(left, x, old(node.parent), old(next.key), old(node.red))
        && Mem()[left] == m[left].(parent := next)
        && (x != null ==> Mem()[x] == m[x].(parent := next))
        && SameExcept(m, Mem(), node, next, left, x)
    {
      var parent, left := node.parent, node.left;
      red := next.red;
      next.red := node.red;
      next.left := left;
      left.parent := next;
      next.parent := parent;
      parent := next;
      var x := next.right;
      if x != null {
        x.parent := parent;
      }
      repr := repr - {node};
    }

    /** tree_del for a node whose next node lies deeper in its right subtree. */
    method TakeOverByDeeper(node: Node, next: Node) returns (red: bool)
      requires node in repr && node.left != null && node.left in repr && node.right != null && node.right in repr
      requires next in repr && next.parent != null && next.parent in repr
      requires var left, right, x, below := node.left, node.right, next.right, next.parent;
        && left != node && next != node && left != next && right != next && right != left && right != node
        && below != node && below != next && below != left
        && (x != null ==> x in repr && x != node && x != next && x != left && x != right && x != below)
      modifies `repr, next, node.left, node.right, next.parent, next.right
      ensures repr == old(repr) - {node} && red == old(next.red)
      ensures var left: Node, right: Node := old(node.left), old(node.right);
        var x, below: Node := old(next.right), old(next.parent);
        && next.left == left && next.right == right && next.parent == old(node.parent) && next.red == old(node.red)
        && next.key == old(next.key)
        && left.parent == next && unchanged(left`left) && unchanged(left`right) && unchanged(left`key) && unchanged(left`red)
        && right.parent == next && unchanged(right`right) && unchanged(right`key) && unchanged(right`red)
        && below.left == x && unchanged(below`right) && unchanged(below`key) && unchanged(below`red)
        && (right != below ==> unchanged(right`left) && unchanged(below`parent))
        && (x != null ==> x.parent == below && unchanged(x`left) && unchanged(x`right) && unchanged(x`key) && unchanged(x`red))
    {
      var left, right := node.left, node.right;
      red := next.red;
      next.red := node.red;
      next.left := left;
      left.parent := next;
      var parent: Node := next.parent;
      next.parent := node.parent;
      var x := next.right;
      parent.left := x;
      next.right := right;
      right.parent := next;
      if x != null {
        x.parent := parent;
      }
      repr := repr - {node};
    }

    method SpliceFields(node: Node, next: Node?)
      requires node in repr && (next != null ==> next in repr && next != node && next != node.parent)
      requires node.parent != null ==> node.parent in repr && node.parent != node
      modifies `root, `repr, repr
      ensures repr == old(repr) - {node}
      ensures var m := old(Mem()); var parent := old(node.parent);
        && root == (if parent == null then next else old(root))
        && (next != null ==> Mem()[next] == m[next].(parent := parent))
        && (parent != null ==>
              Mem()[parent] == if m[parent].left == node then m[parent].(left := next) else m[parent].(right := next))
        && SameExcept(m, Mem(), node, next, parent, null)
    {
      Redirect(node, next);
      if next != null {
        next.parent := node.parent;
      }
      repr := repr - {node};
    }

    /** tree_del for a node with at most one child. */
    method Splice(node: Node, next: Node?, ghost c: Context, ghost t: Tree, ghost child: Tree, ghost es: seq<Entry>)
      requires Standing(c, t, es) && t.Branch? && t.node == node && next == Root(child)
      requires (t.left == Leaf && child == t.right) || (t.right == Leaf && child == t.left)
      modifies `root, `repr, repr
      ensures Standing(c, child, Whole(c, child)) && repr == old(repr) - {node}
    {
      hide Linked, LinkedAround, Distinct, ContextDistinct, Nodes, ContextNodes, Elements, Before, After;
      ghost var mem := Mem();
      SpliceFacts(c, t, child, es);
      SpliceFields(node, next);
      SplicedLinks(mem, Mem(), old(root), root, c, t, child);
    }

    lemma SpliceFacts(c: Context, t: Tree, child: Tree, es: seq<Entry>)
      requires Standing(c, t, es) && t.Branch?
      requires (t.left == Leaf && child == t.right) || (t.right == Leaf && child == t.left)
      ensures At(Mem(), root, c, t) && t.node in repr && t.node.parent == Parent(c)
      ensures repr - {t.node} == Nodes(child) + ContextNodes(c)
      ensures var next := Root(child); next != null ==> next in repr && next != t.node && next != Parent(c)
      ensures c.Top? ==> root == t.node
      ensures c.Frame? ==> c.node in repr && c.node != t.node && Mem()[c.node] == HoleCell(c, t.node)
      ensures c.Frame? ==> (Mem()[c.node].left == t.node <==> c.isLeft)
    {
      Stands(c, t, es);
      DistinctParts(c, t);
      assert Linked(Mem(), child, t.node);
    }

    /** The nodes that tree_del touches when `next` takes the place of `node` do not alias. */
    ghost predicate Apart(node: Node, next: Node)
      reads `repr, repr
    {
      && node in repr && node.left != null && node.left in repr && node.right != null && node.right in repr
      && next in repr && next.parent != null && next.parent in repr && next != node
      && var left, right, parent, x, below := node.left, node.right, node.parent, next.right, next.parent;
      && left != node && left != next && right != left && right != node
      && (next == right <==> below == node) && below != next && below != left
      && (parent != null ==> (parent in repr && parent != node && parent != next && parent != left && parent != right
            && parent != below))
      && (x != null ==> (x in repr && x != node && x != next && x != left && x != parent && x != right && x != below))
    }

    /** `next` has taken the place of `node`: what each node that was written holds now. */
    ghost predicate TakenFields(m: Memory, m': Memory, root0: Node?, root1: Node?, node: Node, next: Node,
                                left: Node, right: Node, below: Node, parent: Node?, x: Node?)
    {
      && {node, next, left, right, below} <= m.Keys && {next, left, right} <= m'.Keys && (next != right ==> below in m')
      && (x != null ==> x in m && x in m') && (parent != null ==> parent in m && parent in m')
      && root1 == (if parent == null then next else root0)
      && m'[next] == Cell(left, if next == right then x else right, parent, m[next].key, m[node].red)
      && m'[left] == m[left].(parent := next)
      && (next != right ==>
            m'[right] == if right == below then m[right].(parent := next, left := x) else m[right].(parent := next))
      && (next != right && right != below ==> m'[below] == m[below].(left := x))
      && (x != null ==> m'[x] == m[x].(parent := if next == right then next else below))
      && (parent != null ==>
            m'[parent] == if m[parent].left == node then m[parent].(left := next) else m[parent].(right := next))
      && SameOutside(m, m', {node, next, left, right, below, x, parent})
    }

    /** tree_del for a node with two children, field by field. */
    method TakeOverFields(node: Node, next: Node) returns (red: bool, parent: Node)
      requires Apart(node, next)
      modifies `root, `repr, repr
      ensures repr == old(repr) - {node} && red == old(next.red)
      ensures parent == if next == old(node.right) then next else old(next.parent)
      ensures TakenFields(old(Mem()), Mem(), old(root), root, node, next, old(node.left), old(node.right), old(next.parent),
                          old(node.parent), old(next.right))
    {
      if next != node.right {
        red, parent := TakeOverDeeper(node, next);
      } else {
        red, parent := TakeOverRight(node, next);
      }
    }

    /** The same method, by what the nodes hold. */
    method TakeOverCells(node: Node, next: Node) returns (red: bool)
      requires Apart(node, next) && next != node.right
      modifies `repr, next, node.left, node.right, next.parent, next.right
      ensures repr == old(repr) - {node} && red == old(next.red) && Mem().Keys == repr
      ensures var m, left: Node, right: Node, x, below: Node :=
                old(Mem()), old(node.left), old(node.right), old(next.right), old(next.parent);
        && Mem()[next] == Cell(left, right, m[node].parent, m[next].key, m[node].red)
        && Mem()[left] == m[left].(parent := next)
        && Mem()[right] == (if right == below then m[right].(parent := next, left := x) else m[right].(parent := next))
        && (right != below ==> Mem()[below] == m[below].(left := x))
        && (x != null ==> Mem()[x] == m[x].(parent := below))
        && SameOutside(m, Mem(), {node, next, left, right, below, x})
    {
      red := TakeOverByDeeper(node, next);
    }

    method TakeOverDeeper(node: Node, next: Node) returns (red: bool, parent: Node)
      requires Apart(node, next) && next != node.right
      modifies `root, `repr, repr
      ensures repr == old(repr) - {node} && red == old(next.red) && parent == old(next.parent)
      ensures TakenFields(old(Mem()), Mem(), old(root), root, node, next, old(node.left), old(node.right), old(next.parent),
                          old(node.parent), old(next.right))
    {
      hide TakenFields, SameOutside;
      ghost var m := Mem();
      ghost var left: Node, right: Node, below: Node := node.left, node.right, next.parent;
      Redirect(node, next);
      ghost var m1 := Mem();
      parent := next.parent;
      red := TakeOverCells(node, next);
      TakenDeeper(m, m1, Mem(), old(root), root, node, next, left, right, below, node.parent, old(next.right));
    }

    lemma TakenDeeper(m: Memory, m1: Memory, m2: Memory, root0: Node?, root1: Node?, node: Node, next: Node,
                      left: Node, right: Node, below: Node, parent: Node?, x: Node?)
      requires {node, next, left, right, below} <= m.Keys && m1.Keys == m.Keys && m2.Keys == m.Keys - {node}
      requires node !in {next, left, right, below} && next !in {left, right, below} && left !in {right, below}
      requires x != null ==> x in m && x !in {node, next, left, right, below}
      requires parent != null ==> parent in m && parent !in {node, next, left, right, below} && parent != x
      requires root1 == if parent == null then next else root0
      requires SameExcept(m, m1, parent, null, null, null)
      requires parent != null ==>
        m1[parent] == if m[parent].left == node then m[parent].(left := next) else m[parent].(right := next)
      requires m[node].parent == parent
      requires m2[next] == Cell(left, right, m1[node].parent, m1[next].key, m1[node].red)
      requires m2[left] == m1[left].(parent := next)
      requires m2[right] == if right == below then m1[right].(parent := next, left := x) else m1[right].(parent := next)
      requires right != below ==> m2[below] == m1[below].(left := x)
      requires x != null ==> m2[x] == m1[x].(parent := below)
      requires SameOutside(m1, m2, {node, next, left, right, below, x})
      ensures next != right ==> TakenFields(m, m2, root0, root1, node, next, left, right, below, parent, x)
    {
      assert forall n :: n in m && n !in {node, next, left, right, below, x, parent} ==> n in m1 && m1[n] == m[n];
    }

    method TakeOverRight(node: Node, next: Node) returns (red: bool, parent: Node)
      requires Apart(node, next) && next == node.right
      modifies `root, `repr, repr
      ensures repr == old(repr) - {node} && red == old(next.red) && parent == next
      ensures TakenFields(old(Mem()), Mem(), old(root), root, node, next, old(node.left), old(node.right), old(next.parent),
                          old(node.parent), old(next.right))
    {
      Redirect(node, next);
      parent := next;
      red := TakeOverByChild(node, next);
    }

    /** Which pointer is which, once the walk has reached the next node `n`. */
    predicate Roles(c: Context, t: Tree, inner: Context, n: Tree, left: Node?, right: Node?, below: Node?, parent: Node?, x: Node?)
      requires t.Branch? && n.Branch?
    {
      && left == Root(t.left) && right == Root(t.right) && parent == Parent(c) && x == Root(n.right)
      && (inner.Top? ==> right == n.node && below == t.node)
      && (inner.Frame? ==> right != n.node && below == inner.node && right == Uppermost(inner, x))
    }

    /** The walk to the next node, seen from the pointers. */
    lemma TakeOverFacts(c: Context, t: Tree, inner: Context, n: Tree, es: seq<Entry>)
      requires Standing(c, t, es) && t.Branch? && t.left.Branch? && t.right.Branch?
      requires Standing(Graft(inner, RightOf(c, t)), n, es) && n.Branch?
      ensures At(Mem(), root, c, t) && At(Mem(), root, Graft(inner, RightOf(c, t)), n)
      ensures repr == Nodes(n) + ContextNodes(Graft(inner, RightOf(c, t)))
      ensures t.node.red == t.red && n.node.key == n.key && n.node.red == n.red
      ensures Root(t.left) == t.node.left && Root(t.right) == t.node.right && Mem().Keys == repr
    {
      Stands(c, t, es);
      Stands(Graft(inner, RightOf(c, t)), n, es);
    }

    lemma TakeOverApart(c: Context, t: Tree, inner: Context, n: Tree, es: seq<Entry>)
      requires Standing(c, t, es) && t.Branch? && t.left.Branch? && t.right.Branch?
      requires Standing(Graft(inner, RightOf(c, t)), n, es)
      requires n.Branch? && Uppermost(inner, n.node) == t.right.node
      ensures Apart(t.node, n.node)
      ensures Roles(c, t, inner, n, t.node.left, t.node.right, n.node.parent, t.node.parent, n.node.right)
    {
      ghost var g := Graft(inner, RightOf(c, t));
      Stands(c, t, es);
      Stands(g, n, es);
      WrittenApart(c, t, inner, n);
      DistinctParts(c, t);
      DistinctParts(g, n);
      StandDown(c, t, true, es);
      StandDown(c, t, false, es);
      StandDown(g, n, false, es);
      GraftDistinct(inner, RightOf(c, t));
      if inner.Frame? {
        UppermostIn(inner, n.node);
        assert inner.node in ContextNodes(inner);
      }
    }

    /** What TakeOverFields wrote is what the shape of the new tree asks for. */
    lemma TakenOver(m: Memory, root0: Node?, c: Context, t: Tree, inner: Context, n: Tree,
                    left: Node, right: Node, below: Node, parent: Node?, x: Node?)
      requires t.Branch? && t.left.Branch? && n.Branch? && n.left == Leaf && AllLeft(inner)
      requires Roles(c, t, inner, n, left, right, below, parent, x)
      requires At(m, root0, c, t) && At(m, root0, Graft(inner, RightOf(c, t)), n)
      requires m.Keys == Nodes(n) + ContextNodes(Graft(inner, RightOf(c, t)))
      requires repr == m.Keys - {t.node}
      requires m[t.node].red == t.red && m[n.node].key == n.key
      requires TakenFields(m, Mem(), root0, root, t.node, n.node, left, right, below, parent, x)
      ensures var c' := Graft(inner, Replaced(c, t, n)); Standing(c', n.right, Whole(c', n.right))
    {
      WrittenApart(c, t, inner, n);
      DistinctParts(c, t);
      ReplacedNodes(c, t, inner, n);
      assert c.Frame? ==> m[c.node] == HoleCell(c, t.node);
      assert {t.node, n.node, left, right, below, x, parent} <= Written(c, t, inner, n);
      assert ReplacedFields(m, Mem(), root0, root, c, t, inner, n);
      ReplacedLinks(m, Mem(), root0, root, c, t, inner, n);
    }

    /** tree_del for a node with two children, up to `node->parent = parent`. */
    method TakeOver(node: Node, next: Node, ghost c: Context, ghost t: Tree, ghost inner: Context, ghost n: Tree, ghost es: seq<Entry>)
      returns (red: bool, parent: Node)
      requires Standing(c, t, es) && t.Branch? && t.node == node && t.left.Branch? && t.right.Branch?
      requires Standing(Graft(inner, RightOf(c, t)), n, es) && AllLeft(inner)
      requires n.Branch? && n.node == next && n.left == Leaf
      requires Uppermost(inner, next) == t.right.node
      modifies `root, `repr, repr
      ensures red == n.red && repr == old(repr) - {node}
      ensures var c' := Graft(inner, Replaced(c, t, n)); Standing(c', n.right, Whole(c', n.right)) && Parent(c') == parent
    {
      hide Linked, LinkedAround, Distinct, ContextDistinct, AllLeft, Standing, At, Whole, Elements, Before, After,
        Nodes, ContextNodes, Sorted;
      ghost var mem := Mem();
      TakeOverApart(c, t, inner, n, es);
      TakeOverFacts(c, t, inner, n, es);
      red, parent := TakeOverFields(node, next);
      TakenOver(mem, old(root), c, t, inner, n, old(node.left), old(node.right), old(next.parent), old(node.parent), old(next.right));
    }

    /** The place of a linked node. */
    lemma Locate(node: Node, c: Context, t: Tree, es: seq<Entry>) returns (c': Context, t': Tree)
      requires Standing(c, t, es) && node in Nodes(t)
      requires Balanced(t) && ContextBalanced(c, BlackHeight(t), Red(t))
      ensures Standing(c', t', es) && t'.Branch? && t'.node == node
      ensures Balanced(t') && ContextBalanced(c', BlackHeight(t'), Red(t'))
      decreases t
    {
      if t.node == node {
        return c, t;
      }
      hide Standing, Balanced, ContextBalanced, BlackHeight;
      var left := node in Nodes(t.left);
      StandDown(c, t, left, es);
      BalancedDown(c, t, left);
      c', t' := Locate(node, Below(c, t, left), Side(t, left), es);
    }

    /** tree_del after the node was unlinked. */
    method FinishRemoval(node: Node?, parent: Node?, red: bool, ghost c: Context, ghost t: Tree, ghost es: seq<Entry>)
      requires Standing(c, t, es) && Sorted(es) && RemovalPoint(c, t, red) && Root(t) == node && Parent(c) == parent
      modifies `root, `shape, repr
      ensures Valid() && Contents() == Model(es)
    {
      hide Standing, Elements, Balanced, ContextBalanced, Sorted, BlackHeight;
      Stands(c, t, es);
      if red {
        RedRemoved(c, t);
        StandAtTop(c, t, es);
        shape := Plug(c, t);
        IsValid(es);
        return;
      }
      if node != null && node.red {
        RedChildPays(c, t);
        Paint(node, false, c, t, es);
        StandAtTop(c, Blacken(t), es);
        shape := Plug(c, Blacken(t));
        IsValid(es);
        return;
      }
      FixAfterRemove(node, parent, c, t, es);
    }

    method RemoveWithOneChild(node: Node, ghost c: Context, ghost t: Tree, ghost es: seq<Entry>)
      requires Standing(c, t, es) && Sorted(es) && t.Branch? && t.node == node
      requires Balanced(t) && ContextBalanced(c, BlackHeight(t), Red(t))
      requires t.left == Leaf || t.right == Leaf
      modifies this, repr
      ensures Valid() && repr == old(repr) - {node} && Contents() == Model(es) - {t.key}
    {
      hide Standing, Elements, Balanced, ContextBalanced, Sorted, BlackHeight;
      Stands(c, t, es);
      ghost var child := if t.left == Leaf then t.right else t.left;
      var next := if node.left == null then node.right else node.left;
      var red, parent := node.red, node.parent;
      Splice(node, next, c, t, child, es);
      SplicedModel(c, t, child);
      SplicedBalance(c, t, child);
      FinishRemoval(next, parent, red, c, child, Whole(c, child));
    }

    /** The walk to the next node: the leftmost one of the right subtree. */
    method NextNode(node: Node, ghost c: Context, ghost t: Tree, ghost es: seq<Entry>)
      returns (next: Node, ghost inner: Context, ghost n: Tree)
      requires Standing(c, t, es) && t.Branch? && t.node == node && t.right.Branch?
      requires Balanced(t) && ContextBalanced(c, BlackHeight(t), Red(t))
      ensures Standing(Graft(inner, RightOf(c, t)), n, es) && AllLeft(inner)
      ensures n.Branch? && n.node == next && n.left == Leaf && Uppermost(inner, next) == t.right.node
      ensures Balanced(n) && ContextBalanced(Graft(inner, RightOf(c, t)), BlackHeight(n), Red(n))
    {
      hide Standing, Elements, Balanced, ContextBalanced, BlackHeight;
      Stands(c, t, es);
      next := node.right;
      inner, n := Top, t.right;
      StandDown(c, t, false, es);
      BalancedDown(c, t, false);
      Stands(RightOf(c, t), n, es);
      while next.left != null
        invariant Standing(Graft(inner, RightOf(c, t)), n, es) && AllLeft(inner)
        invariant n.Branch? && n.node == next && Uppermost(inner, next) == t.right.node
        invariant Balanced(n) && ContextBalanced(Graft(inner, RightOf(c, t)), BlackHeight(n), Red(n))
        invariant next.left == Root(n.left)
        decreases n
      {
        ghost var g := Graft(inner, RightOf(c, t));
        StandDown(g, n, true, es);
        BalancedDown(g, n, true);
        inner, n := Below(inner, n, true), n.left;
        next := next.left;
        Stands(Graft(inner, RightOf(c, t)), n, es);
      }
    }

    method RemoveWithTwoChildren(node: Node, ghost c: Context, ghost t: Tree, ghost es: seq<Entry>)
      requires Standing(c, t, es) && Sorted(es) && t.Branch? && t.node == node
      requires Balanced(t) && ContextBalanced(c, BlackHeight(t), Red(t))
      requires t.left.Branch? && t.right.Branch?
      modifies this, repr
      ensures Valid() && repr == old(repr) - {node} && Contents() == Model(es) - {t.key}
    {
      hide Standing, Elements, Balanced, ContextBalanced, Sorted, BlackHeight;
      var next;
      ghost var inner, n;
      next, inner, n := NextNode(node, c, t, es);
      Stands(Graft(inner, RightOf(c, t)), n, es);
      var fix := next.right;
      var red, parent := TakeOver(node, next, c, t, inner, n, es);
      ReplacedModel(c, t, inner, n);
      ReplacedBalance(c, t, inner, n);
      ghost var c' := Graft(inner, Replaced(c, t, n));
      FinishRemoval(fix, parent, red, c', n.right, Whole(c', n.right));
    }

    /** tree_del on a linked node: exactly that node and its key are gone, and the tree is valid. */
    method Del(node: Node)
      requires Valid() && node in repr
      modifies this, repr
      ensures Valid() && repr == old(repr) - {node}
      ensures old(node.key) in old(Contents()) && old(Contents())[old(node.key)] == node
      ensures Contents() == old(Contents()) - {old(node.key)}
    {
      ghost var es := Elements(shape);
      TopBalanced(shape);
      ghost var c, t := Locate(node, Top, shape, es);
      hide Standing, Elements, Balanced, ContextBalanced, Sorted, BlackHeight;
      Stands(c, t, es);
      Found(c, t);
      if node.left == null || node.right == null {
        RemoveWithOneChild(node, c, t, es);
      } else {
        RemoveWithTwoChildren(node, c, t, es);
      }
    }

    // ---- search ----

    lemma ValidFacts()
      requires Valid()
      ensures Standing(Top, shape, Elements(shape)) && Sorted(Elements(shape)) && Contents() == Model(Elements(shape))
      ensures Balanced(shape) && ContextBalanced(Top, BlackHeight(shape), Red(shape))
      ensures Power2(Height(shape)) <= (|Contents()| + 1) * (|Contents()| + 1)
    {
      ContentsSize(Elements(shape));
      SearchDepth(shape);
      TopBalanced(shape);
    }

    /** What the map names is linked, under that key; the root is what it names first. */
    lemma LinkedUnder(key: nat)
      requires Valid() && key in Contents()
      ensures Contents()[key] in repr && Contents()[key].key == key
    {
      hide Balanced, Sorted;
      var es := Elements(shape);
      ModelLookup(es, key);
      var i :| 0 <= i < |es| && es[i].key == key;
      EntryLinked(Mem(), shape, null, i);
    }

    lemma NodeLinked(node: Node)
      requires Valid() && node in repr
      ensures node.key in Contents() && Contents()[node.key] == node
    {
      ghost var es := Elements(shape);
      ghost var c, t := Locate(node, Top, shape, es);
      hide Standing, Elements, Balanced, ContextBalanced, Sorted, BlackHeight;
      Stands(c, t, es);
      Found(c, t);
    }

    lemma RootLinked()
      requires Valid()
      ensures root == null <==> Contents() == map[]
      ensures root != null ==> root in repr && root.key in Contents() && Contents()[root.key] == root
    {
      hide Valid, Standing, Elements, Balanced, ContextBalanced, Sorted, BlackHeight, Bounds, Power2, Height, Whole;
      ValidFacts();
      Stands(Top, shape, Elements(shape));
      if root != null {
        FoundTop(shape);
      } else {
        NoEntries(shape);
      }
    }

    /** tree_find: the node linked under the key, or null when there is none. `steps` counts the nodes
        compared; with n linked nodes, it is at most 2 log2(n + 1). */
    method Find(key: nat) returns (found: Node?, ghost steps: nat)
      requires Valid()
      ensures found != null <==> key in Contents()
      ensures found != null ==> Contents()[key] == found
      ensures Power2(steps) <= (|Contents()| + 1) * (|Contents()| + 1)
    {
      hide Valid, Standing, Elements, Balanced, ContextBalanced, Sorted, BlackHeight, Bounds, Power2, Height,
        Model, Whole;
      ghost var es := Elements(shape);
      ghost var c, t := Top, shape;
      ValidFacts();
      BoundsTop(key);
      Stands(c, t, es);
      var node := root;
      steps := 0;
      while node != null
        invariant Standing(c, t, es) && Root(t) == node && Bounds(c, key) && Balanced(t)
        invariant ContextBalanced(c, BlackHeight(t), Red(t))
        invariant steps + Height(t) <= Height(shape)
        decreases t
      {
        Stands(c, t, es);
        Narrow(c, t, key);
        HeightBelow(t);
        steps := steps + 1;
        if key < node.key {
          StandDown(c, t, true, es);
          BalancedDown(c, t, true);
          c, t := Below(c, t, true), t.left;
          node := node.left;
        } else if key > node.key {
          StandDown(c, t, false, es);
          BalancedDown(c, t, false);
          c, t := Below(c, t, false), t.right;
          node := node.right;
        } else {
          Found(c, t);
          PowerMonotone(steps, Height(shape));
          return node, steps;
        }
      }
      Stands(c, t, es);
      NotFound(c, key);
      PowerMonotone(steps, Height(shape));
      return null, steps;
    }
  }
}
