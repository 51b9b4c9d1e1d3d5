/** The shape of the intrusive red-black tree of wepoll.c, seen as a value.

    `Tree` is a subtree, `Context` is what lies around it (a zipper, listed from the hole up to the
    root). The in-place code of RedBlackTree walks with a pointer; its proofs walk with the pair
    (context, subtree). This module holds everything about that pair that does not need the heap. */
module TreeShape {

  class Node {
    var left: Node?
    var right: Node?
    var parent: Node?
    var key: nat
    var red: bool

    /** tree_node_init: every field is zero. */
    constructor ()
      ensures left == null && right == null && parent == null && key == 0 && !red
    {
      left, right, parent, key, red := null, null, null, 0, false;
    }
  }

  datatype Tree = Leaf | Branch(left: Tree, node: Node, key: nat, red: bool, right: Tree)

  /** `Frame(up, true, ..)`: the hole is the left child of `node`; otherwise it is the right child. */
  datatype Context =
    | Top
    | Frame(up: Context, isLeft: bool, node: Node, key: nat, red: bool, sibling: Tree)

  datatype Entry = Entry(key: nat, node: Node)

  function Root(t: Tree): Node? {
    if t.Leaf? then null else t.node
  }

  function Parent(c: Context): Node? {
    if c.Top? then null else c.node
  }

  predicate Red(t: Tree) {
    t.Branch? && t.red
  }

  function Blacken(t: Tree): Tree {
    if t.Leaf? then t else t.(red := false)
  }

  function Nodes(t: Tree): set<Node> {
    if t.Leaf? then {} else Nodes(t.left) + {t.node} + Nodes(t.right)
  }

  function ContextNodes(c: Context): set<Node> {
    if c.Top? then {} else ContextNodes(c.up) + {c.node} + Nodes(c.sibling)
  }

  /** No node occurs twice in the subtree. */
  predicate Distinct(t: Tree) {
    t.Branch? ==>
      && Distinct(t.left) && Distinct(t.right)
      && Nodes(t.left) !! Nodes(t.right)
      && t.node !in Nodes(t.left) && t.node !in Nodes(t.right)
  }

  predicate ContextDistinct(c: Context) {
    !c.Top? ==>
      && ContextDistinct(c.up) && Distinct(c.sibling)
      && ContextNodes(c.up) !! Nodes(c.sibling)
      && c.node !in ContextNodes(c.up) && c.node !in Nodes(c.sibling)
  }

  function Elements(t: Tree): seq<Entry> {
    if t.Leaf? then [] else Elements(t.left) + [Entry(t.key, t.node)] + Elements(t.right)
  }

  /** The entries in front of the hole, in order. */
  function Before(c: Context): seq<Entry> {
    if c.Top? then []
    else if c.isLeft then Before(c.up)
    else Before(c.up) + (Elements(c.sibling) + [Entry(c.key, c.node)])
  }

  /** The entries behind the hole, in order. */
  function After(c: Context): seq<Entry> {
    if c.Top? then []
    else if c.isLeft then ([Entry(c.key, c.node)] + Elements(c.sibling)) + After(c.up)
    else After(c.up)
  }

  // ---- the two directions ----

  function Side(t: Tree, left: bool): Tree
    requires t.Branch?
  {
    if left then t.left else t.right
  }

  /** A branch with `a` on the side `left` and `b` on the other one. */
  function Join(left: bool, a: Tree, node: Node, key: nat, red: bool, b: Tree): Tree {
    if left then Branch(a, node, key, red, b) else Branch(b, node, key, red, a)
  }

  /** All entries of the tree obtained by filling the hole of `c` with `t`. */
  function Whole(c: Context, t: Tree): seq<Entry> {
    Before(c) + Elements(t) + After(c)
  }

  predicate Sorted(s: seq<Entry>) {
    forall i, j :: 0 <= i < j < |s| ==> s[i].key < s[j].key
  }

  // ---- colours and black heights ----

  function BlackHeight(t: Tree): nat {
    if t.Leaf? then 0 else BlackHeight(t.left) + (if t.red then 0 else 1)
  }

  /** No red node has a red child, and every path down has the same number of black nodes. */
  predicate Balanced(t: Tree) {
    t.Branch? ==>
      && Balanced(t.left) && Balanced(t.right)
      && BlackHeight(t.left) == BlackHeight(t.right)
      && (t.red ==> !Red(t.left) && !Red(t.right))
  }

  /** Filling the hole with a balanced tree of black height `h`, red at its root iff `red`,
      gives a balanced tree with a black root. */
  predicate ContextBalanced(c: Context, h: nat, red: bool) {
    if c.Top? then !red
    else
      && Balanced(c.sibling) && BlackHeight(c.sibling) == h
      && (c.red ==> !red && !Red(c.sibling))
      && ContextBalanced(c.up, h + (if c.red then 0 else 1), c.red)
  }

  /** The subtree one level up: the innermost frame of `c` with its hole filled by `t`. */
  function Fill(c: Context, t: Tree): Tree
    requires c.Frame?
  {
    Join(c.isLeft, t, c.node, c.key, c.red, c.sibling)
  }

  function Plug(c: Context, t: Tree): Tree {
    if c.Top? then t else Plug(c.up, Fill(c, t))
  }

  function Depth(c: Context): nat {
    if c.Top? then 0 else Depth(c.up) + 1
  }

  lemma FillElements(c: Context, t: Tree)
    requires c.Frame?
    ensures Whole(c.up, Fill(c, t)) == Whole(c, t)
  {
    var e := [Entry(c.key, c.node)];
    if c.isLeft {
      assert Elements(Fill(c, t)) == Elements(t) + e + Elements(c.sibling);
      Regroup(Before(c.up), Elements(t), e, Elements(c.sibling), After(c.up));
    } else {
      assert Elements(Fill(c, t)) == Elements(c.sibling) + e + Elements(t);
      Regroup(Before(c.up), Elements(c.sibling), e, Elements(t), After(c.up));
    }
  }

  lemma Regroup<T>(a: seq<T>, b: seq<T>, c: seq<T>, d: seq<T>, e: seq<T>)
    ensures a + (b + c + d) + e == a + b + ((c + d) + e)
    ensures a + (b + c + d) + e == (a + (b + c)) + d + e
  {
  }

  lemma PlugElements(c: Context, t: Tree)
    ensures Elements(Plug(c, t)) == Whole(c, t)
    ensures Nodes(Plug(c, t)) == Nodes(t) + ContextNodes(c)
  {
    if c.Frame? {
      FillElements(c, t);
      PlugElements(c.up, Fill(c, t));
    }
  }

  lemma PlugBalanced(c: Context, t: Tree)
    requires Balanced(t) && ContextBalanced(c, BlackHeight(t), Red(t))
    ensures Balanced(Plug(c, t)) && !Red(Plug(c, t))
  {
    if c.Frame? {
      PlugBalanced(c.up, Fill(c, t));
    }
  }

  // ---- rotations ----

  /** tree__rotate_left (`left`) and tree__rotate_right. */
  function Rotated(t: Tree, left: bool): Tree
    requires t.Branch? && Side(t, !left).Branch?
  {
    var q := Side(t, !left);
    Join(left, Join(left, Side(t, left), t.node, t.key, t.red, Side(q, left)), q.node, q.key, q.red, Side(q, !left))
  }

  lemma RotatedElements(t: Tree, left: bool)
    requires t.Branch? && Side(t, !left).Branch?
    ensures Elements(Rotated(t, left)) == Elements(t)
    ensures Nodes(Rotated(t, left)) == Nodes(t)
  {
    var q := Side(t, !left);
    var p := [Entry(t.key, t.node)];
    var e := [Entry(q.key, q.node)];
    if left {
      assert Elements(t) == Elements(t.left) + p + (Elements(q.left) + e + Elements(q.right));
      assert Elements(Rotated(t, left)) == (Elements(t.left) + p + Elements(q.left)) + e + Elements(q.right);
    } else {
      assert Elements(t) == (Elements(q.left) + e + Elements(q.right)) + p + Elements(t.right);
      assert Elements(Rotated(t, left)) == Elements(q.left) + e + (Elements(q.right) + p + Elements(t.right));
    }
  }

  // ---- the fields of the nodes, as a value ----

  datatype Cell = Cell(left: Node?, right: Node?, parent: Node?, key: nat, red: bool)
  type Memory = map<Node, Cell>

  /** The fields of the nodes of `t` say what `t` says, and its root points up to `parent`. */
  ghost predicate Linked(m: Memory, t: Tree, parent: Node?) {
    t.Branch? ==>
      && t.node in m && m[t.node] == Cell(Root(t.left), Root(t.right), parent, t.key, t.red)
      && Linked(m, t.left, t.node) && Linked(m, t.right, t.node)
  }

  function HoleCell(c: Context, hole: Node?): Cell
    requires c.Frame?
  {
    if c.isLeft then Cell(hole, Root(c.sibling), Parent(c.up), c.key, c.red)
    else Cell(Root(c.sibling), hole, Parent(c.up), c.key, c.red)
  }

  /** The same for a context whose hole holds the pointer `hole`. */
  ghost predicate LinkedAround(m: Memory, root: Node?, c: Context, hole: Node?) {
    if c.Top? then root == hole
    else
      && c.node in m && m[c.node] == HoleCell(c, hole)
      && Linked(m, c.sibling, c.node)
      && LinkedAround(m, root, c.up, c.node)
  }

  /** The memory holds the whole tree `Plug(c, t)`, with the walk standing at `t`. */
  ghost predicate At(m: Memory, root: Node?, c: Context, t: Tree) {
    && LinkedAround(m, root, c, Root(t)) && Linked(m, t, Parent(c))
    && Distinct(t) && ContextDistinct(c) && Nodes(t) !! ContextNodes(c)
  }

  ghost predicate SameOn(m: Memory, m': Memory, nodes: set<Node>, but: Node? := null) {
    forall n :: n in nodes && n != but && n in m ==> n in m' && m'[n] == m[n]
  }

  lemma {:induction false} LinkedFrame(m: Memory, m': Memory, t: Tree, parent: Node?)
    requires Linked(m, t, parent) && SameOn(m, m', Nodes(t))
    ensures Linked(m', t, parent)
  {
    if t.Branch? {
      assert t.node in Nodes(t);
      LinkedFrame(m, m', t.left, t.node);
      LinkedFrame(m, m', t.right, t.node);
    }
  }

  /** Only the parent pointer of the root of `t` was written, if anything. */
  lemma Relink(m: Memory, m': Memory, t: Tree, parent: Node?, parent': Node?)
    requires Linked(m, t, parent) && Distinct(t)
    requires SameOn(m, m', Nodes(t), Root(t))
    requires t.Branch? ==> t.node in m' && m'[t.node] == m[t.node].(parent := parent')
    ensures Linked(m', t, parent')
  {
    if t.Branch? {
      LinkedFrame(m, m', t.left, t.node);
      LinkedFrame(m, m', t.right, t.node);
    }
  }

  lemma {:induction false} LinkedAroundFrame(m: Memory, m': Memory, root: Node?, c: Context, hole: Node?)
    requires LinkedAround(m, root, c, hole) && SameOn(m, m', ContextNodes(c))
    ensures LinkedAround(m', root, c, hole)
  {
    if c.Frame? {
      assert c.node in m' && m'[c.node] == m[c.node];
      LinkedFrame(m, m', c.sibling, c.node);
      LinkedAroundFrame(m, m', root, c.up, c.node);
    }
  }

  /** Only the pointer that leads to the hole of `c` was written. */
  lemma RelinkAround(m: Memory, m': Memory, root: Node?, root': Node?, c: Context, hole: Node?, hole': Node?)
    requires LinkedAround(m, root, c, hole) && ContextDistinct(c)
    requires SameOn(m, m', ContextNodes(c), Parent(c))
    requires c.Top? ==> root' == hole'
    requires c.Frame? ==> root' == root && c.node in m' && m'[c.node] == HoleCell(c, hole')
    ensures LinkedAround(m', root', c, hole')
  {
    if c.Frame? {
      LinkedFrame(m, m', c.sibling, c.node);
      LinkedAroundFrame(m, m', root, c.up, c.node);
    }
  }

  /** Outside the four nodes that a rotation writes, nothing changes. */
  ghost predicate SameExcept(m: Memory, m': Memory, n0: Node?, n1: Node?, n2: Node?, n3: Node?) {
    forall n :: n in m && n != n0 && n != n1 && n != n2 && n != n3 ==> n in m' && m'[n] == m[n]
  }

  function SidedCell(left: bool, a: Node?, b: Node?, parent: Node?, key: nat, red: bool): Cell {
    if left then Cell(a, b, parent, key, red) else Cell(b, a, parent, key, red)
  }

  lemma RotatedLinks(m: Memory, m': Memory, root: Node?, root': Node?, c: Context, t: Tree, left: bool)
    requires t.Branch? && Side(t, !left).Branch? && At(m, root, c, t)
    requires var q := Side(t, !left); var b := Side(q, left);
      && {t.node, q.node} <= m'.Keys
      && m'[t.node] == SidedCell(left, Root(Side(t, left)), Root(b), q.node, t.key, t.red)
      && m'[q.node] == SidedCell(left, t.node, Root(Side(q, !left)), Parent(c), q.key, q.red)
      && (b.Branch? ==> b.node in m && b.node in m' && m'[b.node] == m[b.node].(parent := t.node))
      && root' == (if c.Top? then q.node else root)
      && (c.Frame? ==> c.node in m' && m'[c.node] == HoleCell(c, q.node))
      && SameExcept(m, m', t.node, q.node, Root(b), Parent(c))
    ensures At(m', root', c, Rotated(t, left))
  {
    hide Linked, LinkedAround, Distinct, ContextDistinct, Nodes, ContextNodes, HoleCell;
    var p, q := t.node, Side(t, !left);
    var a, b, d := Side(t, left), Side(q, left), Side(q, !left);
    RotationParts(m, root, c, t, left);
    RotationApart(c, t, left);
    assert Linked(m', a, p) by { LinkedFrame(m, m', a, p); }
    assert Linked(m', b, p) by { Relink(m, m', b, q.node, p); }
    assert Linked(m', d, q.node) by { LinkedFrame(m, m', d, q.node); }
    assert LinkedAround(m', root', c, q.node) by { RelinkAround(m, m', root, root', c, p, q.node); }
    LinkedJoin(m', left, a, p, t.key, t.red, b, q.node);
    LinkedJoin(m', left, Join(left, a, p, t.key, t.red, b), q.node, q.key, q.red, d, Parent(c));
    RotatedDistinct(t, left);
  }

  lemma RotationParts(m: Memory, root: Node?, c: Context, t: Tree, left: bool)
    requires t.Branch? && Side(t, !left).Branch? && At(m, root, c, t)
    ensures var q := Side(t, !left);
      && Linked(m, Side(t, left), t.node) && Linked(m, Side(q, left), q.node) && Linked(m, Side(q, !left), q.node)
      && LinkedAround(m, root, c, t.node) && Distinct(t) && Distinct(Side(q, left)) && ContextDistinct(c)
      && Nodes(t) !! ContextNodes(c)
  {
    assert Linked(m, Side(t, !left), t.node);
    assert Distinct(Side(t, !left));
  }

  /** Of the nodes that a rotation writes, each part of the tree holds its root at most. */
  lemma RotationApart(c: Context, t: Tree, left: bool)
    requires t.Branch? && Side(t, !left).Branch? && Distinct(t) && Nodes(t) !! ContextNodes(c)
    ensures var q := Side(t, !left); var a, b, d := Side(t, left), Side(q, left), Side(q, !left);
      && (forall n :: n in Nodes(a) ==> n != t.node && n != q.node && n != Root(b) && n != Parent(c))
      && (forall n :: n in Nodes(b) ==> n != t.node && n != q.node && n != Parent(c))
      && (forall n :: n in Nodes(d) ==> n != t.node && n != q.node && n != Root(b) && n != Parent(c))
      && (forall n :: n in ContextNodes(c) ==> n != t.node && n != q.node && n != Root(b))
      && (b.Branch? ==> b.node != t.node && b.node != q.node && b.node != Parent(c))
  {
    var q := Side(t, !left);
    DistinctParts(c, t);
    DistinctParts(c, q);
    assert q.node in Nodes(q) && Nodes(Side(q, left)) <= Nodes(q) && Nodes(Side(q, !left)) <= Nodes(q);
    assert Side(q, left).Branch? ==> Side(q, left).node in Nodes(Side(q, left));
    assert c.Frame? ==> c.node in ContextNodes(c);
  }

  lemma LinkedJoin(m: Memory, left: bool, a: Tree, node: Node, key: nat, red: bool, b: Tree, parent: Node?)
    requires Linked(m, a, node) && Linked(m, b, node)
    requires node in m && m[node] == SidedCell(left, Root(a), Root(b), parent, key, red)
    ensures Linked(m, Join(left, a, node, key, red, b), parent)
  {
  }

  lemma RotatedDistinct(t: Tree, left: bool)
    requires t.Branch? && Side(t, !left).Branch? && Distinct(t)
    ensures Distinct(Rotated(t, left)) && Nodes(Rotated(t, left)) == Nodes(t)
  {
  }

  lemma DistinctParts(c: Context, t: Tree)
    requires t.Branch? && Distinct(t) && Nodes(t) !! ContextNodes(c)
    ensures t.node !in Nodes(t.left) && t.node !in Nodes(t.right) && t.node !in ContextNodes(c)
    ensures Root(t.left) !in Nodes(t.right) && Root(t.left) !in ContextNodes(c) && Root(t.left) != t.node
    ensures Root(t.right) !in Nodes(t.left) && Root(t.right) !in ContextNodes(c) && Root(t.right) != t.node
    ensures Nodes(t.left) !! ContextNodes(c) && Nodes(t.right) !! ContextNodes(c) && Nodes(t.left) !! Nodes(t.right)
    ensures Parent(c) !in Nodes(t.left) && Parent(c) !in Nodes(t.right) && Parent(c) != t.node
  {
    assert t.left.Branch? ==> t.left.node in Nodes(t.left);
    assert t.right.Branch? ==> t.right.node in Nodes(t.right);
    assert c.Frame? ==> c.node in ContextNodes(c);
  }

  // ---- moving the walk and painting, without touching any pointer ----

  lemma MoveUp(m: Memory, root: Node?, c: Context, t: Tree)
    requires At(m, root, c, t) && c.Frame?
    ensures At(m, root, c.up, Fill(c, t))
  {
  }

  function Below(c: Context, t: Tree, left: bool): Context
    requires t.Branch?
  {
    Frame(c, left, t.node, t.key, t.red, Side(t, !left))
  }

  lemma MoveDown(m: Memory, root: Node?, c: Context, t: Tree, left: bool)
    requires At(m, root, c, t) && t.Branch?
    ensures At(m, root, Below(c, t, left), Side(t, left))
  {
  }

  lemma MoveToTop(m: Memory, root: Node?, c: Context, t: Tree)
    requires At(m, root, c, t)
    ensures At(m, root, Top, Plug(c, t))
  {
    if c.Frame? {
      MoveUp(m, root, c, t);
      MoveToTop(m, root, c.up, Fill(c, t));
    }
  }

  lemma Painted(m: Memory, m': Memory, root: Node?, c: Context, t: Tree, red: bool)
    requires At(m, root, c, t) && t.Branch?
    requires t.node in m' && m'[t.node] == m[t.node].(red := red)
    requires SameExcept(m, m', t.node, null, null, null)
    ensures At(m', root, c, t.(red := red))
  {
    DistinctParts(c, t);
    LinkedFrame(m, m', t.left, t.node);
    LinkedFrame(m, m', t.right, t.node);
    LinkedAroundFrame(m, m', root, c, t.node);
  }

  // ---- the balance argument, step by step ----

  lemma JoinBalanced(left: bool, a: Tree, node: Node, key: nat, red: bool, b: Tree)
    requires Balanced(a) && Balanced(b) && BlackHeight(a) == BlackHeight(b)
    requires red ==> !Red(a) && !Red(b)
    ensures var t := Join(left, a, node, key, red, b);
      Balanced(t) && BlackHeight(t) == BlackHeight(a) + (if red then 0 else 1)
  {
  }

  lemma BlackenBalanced(t: Tree)
    requires Balanced(t)
    ensures Balanced(Blacken(t)) && BlackHeight(Blacken(t)) == BlackHeight(t) + (if Red(t) then 1 else 0)
  {
  }

  lemma TopBalanced(t: Tree)
    requires !Red(t)
    ensures ContextBalanced(Top, BlackHeight(t), Red(t))
  {
  }

  lemma BalancedDown(c: Context, t: Tree, left: bool)
    requires t.Branch? && Balanced(t) && ContextBalanced(c, BlackHeight(t), Red(t))
    ensures Balanced(Side(t, left))
    ensures ContextBalanced(Below(c, t, left), BlackHeight(Side(t, left)), Red(Side(t, left)))
  {
  }

  /** Between two rounds of the loop of tree_add: all is well, except that the red root of `t` may
      have a red parent, or may be the root of the whole tree. */
  predicate InsertPoint(c: Context, t: Tree) {
    t.Branch? && t.red && Balanced(t) && ContextBalanced(c, BlackHeight(t), false)
  }

  lemma AttachedBalance(c: Context, node: Node, key: nat)
    requires ContextBalanced(c, 0, false)
    ensures InsertPoint(c, Branch(Leaf, node, key, true, Leaf))
  {
    JoinBalanced(true, Leaf, node, key, true, Leaf);
  }

  /** The subtree of the grandparent after the colour flip with a red uncle. */
  function Flipped(c: Context, t: Tree): Tree
    requires c.Frame? && c.up.Frame?
  {
    Fill(c.up.(red := true, sibling := Blacken(c.up.sibling)), Fill(c.(red := false), t))
  }

  lemma FlippedBalance(c: Context, t: Tree)
    requires InsertPoint(c, t) && c.Frame? && c.red
    ensures c.up.Frame?
    ensures Red(c.up.sibling) ==> InsertPoint(c.up.up, Flipped(c, t))
  {
    assert ContextBalanced(c.up, BlackHeight(t), true);
    if Red(c.up.sibling) {
      var p := Fill(c.(red := false), t);
      JoinBalanced(c.isLeft, t, c.node, c.key, false, c.sibling);
      BlackenBalanced(c.up.sibling);
      JoinBalanced(c.up.isLeft, p, c.up.node, c.up.key, true, Blacken(c.up.sibling));
    }
  }

  /** Painting the root black ends the loop of tree_add. */
  lemma InsertDone(c: Context, t: Tree)
    requires InsertPoint(c, t) && (c.Frame? ==> !c.red)
    ensures Plug(c, t).Branch? && Elements(Blacken(Plug(c, t))) == Elements(Plug(c, t))
    ensures Balanced(Blacken(Plug(c, t))) && !Red(Blacken(Plug(c, t)))
  {
    PlugBranch(c, t);
    if c.Frame? {
      PlugBalanced(c, t);
    }
    BlackenBalanced(Plug(c, t));
  }

  lemma PlugBranch(c: Context, t: Tree)
    requires t.Branch?
    ensures Plug(c, t).Branch?
  {
  }

  /** The parent after the inner rotation, if the node was the inner grandchild. */
  function Outer(c: Context, t: Tree, cis: bool): Tree
    requires c.Frame? && t.Branch?
  {
    if c.isLeft == cis then Fill(c, t) else Rotated(Fill(c, t), cis)
  }

  /** The subtree of the grandparent after the rotations with a black uncle. */
  function Straightened(c: Context, t: Tree): Tree
    requires c.Frame? && c.up.Frame? && t.Branch?
  {
    var p := Outer(c, t, c.up.isLeft);
    Rotated(Fill(c.up.(red := true), p.(red := false)), !c.up.isLeft)
  }

  lemma StraightenedBalance(c: Context, t: Tree)
    requires InsertPoint(c, t) && c.Frame? && c.red && c.up.Frame? && !Red(c.up.sibling)
    ensures var g := Straightened(c, t);
      !g.red && InsertPoint(Below(c.up.up, g, c.up.isLeft), Side(g, c.up.isLeft))
  {
    var cis, up := c.up.isLeft, c.up;
    var g := Straightened(c, t);
    assert ContextBalanced(up, BlackHeight(t), true);
    assert Balanced(t.left) && Balanced(t.right);
    if c.isLeft == cis {
      JoinBalanced(!cis, up.sibling, up.node, up.key, true, c.sibling);
    } else {
      JoinBalanced(cis, c.sibling, c.node, c.key, true, Side(t, cis));
      JoinBalanced(!cis, up.sibling, up.node, up.key, true, Side(t, !cis));
    }
    assert BlackHeight(Side(g, cis)) == BlackHeight(t);
  }

  /** Between two rounds of the loop of tree_del: the paths through `t` are one black node short. */
  predicate DeletePoint(c: Context, t: Tree) {
    !Red(t) && Balanced(t) && ContextBalanced(c, BlackHeight(t) + 1, false)
  }

  /** The parent's subtree after the rotation that gets rid of a red sibling. */
  function SiblingLifted(c: Context, t: Tree): Tree
    requires c.Frame? && c.sibling.Branch?
  {
    Rotated(Fill(c.(red := true, sibling := Blacken(c.sibling)), t), c.isLeft)
  }

  lemma SiblingLiftedBalance(c: Context, t: Tree)
    requires DeletePoint(c, t) && c.Frame?
    ensures c.sibling.Branch?
    ensures Red(c.sibling) ==>
      var f := SiblingLifted(c, t); var g := Side(f, c.isLeft);
      var c' := Below(Below(c.up, f, c.isLeft), g, c.isLeft);
      g.Branch? && Side(g, c.isLeft) == t && g.red && DeletePoint(c', t) && !Red(c'.sibling)
  {
    assert BlackHeight(c.sibling) == BlackHeight(t) + 1;
  }

  /** The context of the sibling of `t`. */
  function Beside(c: Context, t: Tree): Context
    requires c.Frame?
  {
    Frame(c.up, !c.isLeft, c.node, c.key, c.red, t)
  }

  function LiftedContext(c: Context, t: Tree): Context
    requires c.Frame? && c.sibling.Branch?
  {
    var f := SiblingLifted(c, t);
    Below(Below(c.up, f, c.isLeft), Side(f, c.isLeft), c.isLeft)
  }

  function WithBlackSide(s: Tree, left: bool): Tree
    requires s.Branch?
  {
    Join(left, Blacken(Side(s, left)), s.node, s.key, s.red, Side(s, !left))
  }

  /** The sibling after its red child was brought to the far side. */
  function FarRed(s: Tree, cis: bool): Tree
    requires s.Branch? && (Red(s.left) || Red(s.right))
  {
    if Red(Side(s, !cis)) then s
    else Rotated(Join(cis, Blacken(Side(s, cis)), s.node, s.key, true, Side(s, !cis)), !cis)
  }

  /** The parent's subtree when a red far nephew pays for the missing black node. */
  function RepaidBy(c: Context, t: Tree): Tree
    requires c.Frame? && c.sibling.Branch?
  {
    var s := c.sibling;
    var s' := Join(c.isLeft, Side(s, c.isLeft), s.node, s.key, c.red, Blacken(Side(s, !c.isLeft)));
    Rotated(Fill(c.(red := false, sibling := s'), t), c.isLeft)
  }

  function Repaid(c: Context, t: Tree): Tree
    requires c.Frame? && c.sibling.Branch? && (Red(c.sibling.left) || Red(c.sibling.right))
  {
    RepaidBy(c.(sibling := FarRed(c.sibling, c.isLeft)), t)
  }

  lemma RepaidBalance(c: Context, t: Tree)
    requires DeletePoint(c, t) && c.Frame? && c.sibling.Branch? && !Red(c.sibling)
    requires Red(c.sibling.left) || Red(c.sibling.right)
    ensures var f := Repaid(c, t); Balanced(f) && ContextBalanced(c.up, BlackHeight(f), Red(f))
  {
    var cis := c.isLeft;
    var s := FarRed(c.sibling, cis);
    var near, far := Side(s, cis), Blacken(Side(s, !cis));
    assert Balanced(c.sibling.left) && Balanced(c.sibling.right);
    assert BlackHeight(c.sibling.left) == BlackHeight(c.sibling.right) == BlackHeight(t);
    if !Red(Side(c.sibling, !cis)) {
      var n := Side(c.sibling, cis);
      assert Balanced(n.left) && Balanced(n.right);
      BlackenBalanced(n);
      JoinBalanced(!cis, Side(c.sibling, !cis), c.sibling.node, c.sibling.key, true, Side(n, !cis));
    }
    BlackenBalanced(Side(s, !cis));
    assert Balanced(near) && BlackHeight(near) == BlackHeight(t) == BlackHeight(far) - 1;
    JoinBalanced(cis, t, c.node, c.key, false, near);
    JoinBalanced(cis, Join(cis, t, c.node, c.key, false, near), s.node, s.key, c.red, far);
  }

  /** Where the loop of tree_del stands after `node = parent`: go on from a black node, paint a red one. */
  predicate UpPoint(c: Context, t: Tree) {
    if Red(t) then Balanced(Blacken(t)) && ContextBalanced(c, BlackHeight(Blacken(t)), false)
    else DeletePoint(c, t)
  }

  lemma DoneAtTop(t: Tree)
    requires Balanced(t) && !Red(t)
    ensures UpPoint(Top, t)
  {
  }

  /** Painting the current node black when the loop of tree_del is left at the root, with a whole tree,
      or at a red node. */
  lemma LoopLeft(c: Context, t: Tree)
    requires UpPoint(c, t) && (c.Top? || Red(t))
    ensures Balanced(Plug(c, Blacken(t))) && !Red(Plug(c, Blacken(t)))
  {
    if !Red(t) {
      assert Blacken(t) == t;
    }
    PlugBalanced(c, Blacken(t));
  }

  lemma PlugRoot(c: Context, t: Tree)
    requires c.Frame? && ContextDistinct(c) && Distinct(t) && Nodes(t) !! ContextNodes(c)
    ensures Root(Plug(c, t)) in ContextNodes(c)
  {
    if c.up.Frame? {
      PlugRoot(c.up, Fill(c, t));
    }
  }

  /** The parent's subtree when the sibling is painted red. */
  function Postponed(c: Context, t: Tree): Tree
    requires c.Frame? && c.sibling.Branch?
  {
    Fill(c.(sibling := c.sibling.(red := true)), t)
  }

  lemma PostponedBalance(c: Context, t: Tree)
    requires DeletePoint(c, t) && c.Frame? && c.sibling.Branch? && !Red(c.sibling)
    requires !Red(c.sibling.left) && !Red(c.sibling.right)
    ensures UpPoint(c.up, Postponed(c, t))
  {
    var s := c.sibling.(red := true);
    assert Balanced(s.left) && Balanced(s.right);
    assert Balanced(s) && BlackHeight(s) == BlackHeight(t);
    JoinBalanced(c.isLeft, t, c.node, c.key, false, s);
    assert Blacken(Postponed(c, t)) == Join(c.isLeft, t, c.node, c.key, false, s);
    assert ContextBalanced(c.up, BlackHeight(t) + 1 + (if c.red then 0 else 1), c.red);
  }

  // ---- search, insertion and removal on the ordered entries ----

  /** The finite map that a list of entries stands for. */
  function Model(es: seq<Entry>): map<nat, Node> {
    if es == [] then map[] else Model(es[..|es| - 1])[es[|es| - 1].key := es[|es| - 1].node]
  }

  lemma ModelLookup(es: seq<Entry>, key: nat)
    requires Sorted(es)
    ensures key in Model(es) <==> exists i :: 0 <= i < |es| && es[i].key == key
    ensures forall i :: 0 <= i < |es| && es[i].key == key ==> key in Model(es) && Model(es)[key] == es[i].node
  {
    if es != [] {
      ModelLookup(es[..|es| - 1], key);
    }
  }

  lemma {:induction false} EntryLinked(m: Memory, t: Tree, parent: Node?, i: nat)
    requires Linked(m, t, parent) && i < |Elements(t)|
    ensures var e := Elements(t)[i]; e.node in m && m[e.node].key == e.key
  {
    var n := |Elements(t.left)|;
    if i < n {
      EntryLinked(m, t.left, t.node, i);
    } else if i > n {
      EntryLinked(m, t.right, t.node, i - n - 1);
    }
  }

  lemma FoundTop(t: Tree)
    requires t.Branch? && Sorted(Elements(t))
    ensures t.key in Model(Elements(t)) && Model(Elements(t))[t.key] == t.node
  {
    hide Model;
    ModelLookup(Elements(t), t.key);
    assert Elements(t)[|Elements(t.left)|] == Entry(t.key, t.node);
  }

  lemma NoEntries(t: Tree)
    ensures t.Leaf? ==> Model(Elements(t)) == map[]
  {
  }

  lemma ModelWith(a: seq<Entry>, e: Entry, b: seq<Entry>)
    requires Sorted(a + [e] + b)
    ensures Sorted(a + b) && e.key !in Model(a + b)
    ensures Model(a + [e] + b) == Model(a + b)[e.key := e.node]
    ensures Model(a + b) == Model(a + [e] + b) - {e.key}
  {
    hide Model, Sorted;
    var s, s' := a + b, a + [e] + b;
    SortedWithout(a, e, b);
    forall k ensures k in Model(s') <==> k in Model(s) || k == e.key
      ensures k in Model(s) ==> k != e.key && Model(s')[k] == Model(s)[k]
      ensures k == e.key ==> k in Model(s') && Model(s')[k] == e.node
    {
      KeyWith(a, e, b, k);
    }
  }

  lemma SortedWithout(a: seq<Entry>, e: Entry, b: seq<Entry>)
    requires Sorted(a + [e] + b)
    ensures Sorted(a + b)
  {
    var s, s' := a + b, a + [e] + b;
    forall i, j | 0 <= i < j < |s| ensures s[i].key < s[j].key {
      assert s[i] == s'[if i < |a| then i else i + 1] && s[j] == s'[if j < |a| then j else j + 1];
    }
  }

  lemma KeyWith(a: seq<Entry>, e: Entry, b: seq<Entry>, k: nat)
    requires Sorted(a + [e] + b) && Sorted(a + b)
    ensures var s, s' := a + b, a + [e] + b;
      && (k in Model(s') <==> k in Model(s) || k == e.key)
      && (k in Model(s) ==> k != e.key && Model(s')[k] == Model(s)[k])
      && (k == e.key ==> k in Model(s') && Model(s')[k] == e.node)
  {
    hide Model;
    var s, s' := a + b, a + [e] + b;
    ModelLookup(s, k);
    ModelLookup(s', k);
    assert s'[|a|] == e;
    if i :| 0 <= i < |s| && s[i].key == k {
      assert s'[if i < |a| then i else i + 1] == s[i];
    }
    if i :| 0 <= i < |s'| && s'[i].key == k && i != |a| {
      assert s[if i < |a| then i else i - 1] == s'[i];
    }
  }

  /** All that lies in front of the hole is smaller than `key`, all that lies behind it is larger. */
  predicate Bounds(c: Context, key: nat) {
    && (forall i :: 0 <= i < |Before(c)| ==> Before(c)[i].key < key)
    && (forall i :: 0 <= i < |After(c)| ==> key < After(c)[i].key)
  }

  lemma BoundsTop(key: nat)
    ensures Bounds(Top, key)
  {
  }

  lemma Narrow(c: Context, t: Tree, key: nat)
    requires t.Branch? && Sorted(Whole(c, t)) && Bounds(c, key)
    ensures key < t.key ==> Bounds(Below(c, t, true), key)
    ensures key > t.key ==> Bounds(Below(c, t, false), key)
  {
    var a, e, b := Elements(t.left), Entry(t.key, t.node), Elements(t.right);
    var w, n := Whole(c, t), |Before(c)|;
    assert w == Before(c) + (a + [e] + b) + After(c);
    assert w[n + |a|] == e;
    forall i | 0 <= i < |a| ensures a[i].key < t.key { assert w[n + i] == a[i]; }
    forall i | 0 <= i < |b| ensures t.key < b[i].key { assert w[n + |a| + 1 + i] == b[i]; }
  }

  /** The entries once `node` fills the empty hole of `c`. */
  function Inserted(c: Context, key: nat, node: Node): seq<Entry> {
    Before(c) + [Entry(key, node)] + After(c)
  }

  lemma InsertedModel(c: Context, key: nat, node: Node)
    requires Sorted(Whole(c, Leaf)) && Bounds(c, key)
    ensures Sorted(Inserted(c, key, node)) && key !in Model(Whole(c, Leaf))
    ensures Model(Inserted(c, key, node)) == Model(Whole(c, Leaf))[key := node]
  {
    var w, w' := Before(c) + After(c), Inserted(c, key, node);
    var n := |Before(c)|;
    assert w == Whole(c, Leaf);
    forall i | 0 <= i < |w'| && i != n ensures w'[i] == w[if i < n then i else i - 1] {
    }
    ModelWith(Before(c), Entry(key, node), After(c));
  }

  lemma NotFound(c: Context, key: nat)
    requires Sorted(Whole(c, Leaf)) && Bounds(c, key)
    ensures key !in Model(Whole(c, Leaf))
  {
    ModelLookup(Whole(c, Leaf), key);
    assert Whole(c, Leaf) == Before(c) + After(c);
  }

  lemma Found(c: Context, t: Tree)
    requires t.Branch? && Sorted(Whole(c, t))
    ensures t.key in Model(Whole(c, t)) && Model(Whole(c, t))[t.key] == t.node
  {
    ModelLookup(Whole(c, t), t.key);
    assert Whole(c, t)[|Before(c)| + |Elements(t.left)|] == Entry(t.key, t.node);
  }

  /** A red leaf node takes the place of the empty hole. */
  lemma AttachedLinks(m: Memory, m': Memory, root: Node?, root': Node?, c: Context, node: Node, key: nat)
    requires At(m, root, c, Leaf) && node !in ContextNodes(c)
    requires node in m' && m'[node] == Cell(null, null, Parent(c), key, true)
    requires root' == if c.Top? then node else root
    requires c.Frame? ==> c.node in m' && m'[c.node] == HoleCell(c, node)
    requires SameExcept(m, m', node, Parent(c), null, null)
    ensures At(m', root', c, Branch(Leaf, node, key, true, Leaf))
  {
    RelinkAround(m, m', root, root', c, null, node);
  }

  // ---- how deep the search can go ----

  function Power2(n: nat): nat {
    if n == 0 then 1 else 2 * Power2(n - 1)
  }

  /** The number of nodes on the longest way down. */
  function Height(t: Tree): nat {
    if t.Leaf? then 0 else 1 + (if Height(t.left) < Height(t.right) then Height(t.right) else Height(t.left))
  }

  lemma HeightBelow(t: Tree)
    requires t.Branch?
    ensures 1 + Height(t.left) <= Height(t) && 1 + Height(t.right) <= Height(t)
  {
  }

  lemma {:induction false} PowerMonotone(m: nat, n: nat)
    requires m <= n
    ensures Power2(m) <= Power2(n)
  {
    if m < n {
      PowerMonotone(m, n - 1);
    }
  }

  lemma {:induction false} PowerSum(m: nat, n: nat)
    ensures Power2(m + n) == Power2(m) * Power2(n)
  {
    if m > 0 {
      PowerSum(m - 1, n);
      assert Power2(m + n) == 2 * Power2(m - 1 + n);
      assert Power2(m) * Power2(n) == 2 * (Power2(m - 1) * Power2(n));
    }
  }

  /** At most every other node of a path is red, and the black nodes alone fill 2^h - 1 places. */
  lemma {:induction false} HeightBounds(t: Tree)
    requires Balanced(t)
    ensures Height(t) <= 2 * BlackHeight(t) + (if Red(t) then 1 else 0)
    ensures Power2(BlackHeight(t)) <= |Elements(t)| + 1
  {
    if t.Branch? {
      HeightBounds(t.left);
      HeightBounds(t.right);
    }
  }

  /** 2^height <= (n + 1)^2: no search path has more than 2 log2(n + 1) nodes. */
  lemma {:induction false} SearchDepth(t: Tree)
    requires Balanced(t) && !Red(t)
    ensures Power2(Height(t)) <= (|Elements(t)| + 1) * (|Elements(t)| + 1)
  {
    var h := BlackHeight(t);
    HeightBounds(t);
    PowerMonotone(Height(t), h + h);
    PowerSum(h, h);
    MulMonotone(Power2(h), |Elements(t)| + 1);
  }

  lemma MulMonotone(a: nat, b: nat)
    requires a <= b
    ensures a * a <= b * b
  {
    assert a * a <= a * b <= b * b;
  }

  lemma {:induction false} ContentsSize(es: seq<Entry>)
    requires Sorted(es)
    ensures |Model(es)| == |es|
  {
    if es != [] {
      var init, last := es[..|es| - 1], es[|es| - 1];
      ContentsSize(init);
      ModelLookup(init, last.key);
      assert forall i :: 0 <= i < |init| ==> init[i] == es[i];
    }
  }
}
