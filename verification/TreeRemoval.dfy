/** Taking a node out of the tree, on shapes and memories: what the first half of tree_del leaves
    behind, and why the loop after it has exactly one missing black node to repair. */
module TreeRemoval {
  import opened TreeShape

  /** Put the context `inner` inside the hole of `outer`. */
  function Graft(inner: Context, outer: Context): Context {
    if inner.Top? then outer else inner.(up := Graft(inner.up, outer))
  }

  /** Every frame was entered to the left: the way down to the smallest node. */
  predicate AllLeft(c: Context) {
    c.Frame? ==> c.isLeft && AllLeft(c.up)
  }

  lemma {:induction false} GraftElements(inner: Context, outer: Context)
    requires AllLeft(inner)
    ensures Before(Graft(inner, outer)) == Before(outer)
    ensures After(Graft(inner, outer)) == After(inner) + After(outer)
  {
    if inner.Frame? {
      GraftElements(inner.up, outer);
    }
  }

  lemma {:induction false} GraftDistinct(inner: Context, outer: Context)
    ensures ContextNodes(Graft(inner, outer)) == ContextNodes(inner) + ContextNodes(outer)
    ensures ContextDistinct(Graft(inner, outer))
       <==> ContextDistinct(inner) && ContextDistinct(outer) && ContextNodes(inner) !! ContextNodes(outer)
  {
    if inner.Frame? {
      GraftDistinct(inner.up, outer);
    }
  }

  /** Colours and heights do not see which node stands in the frame below the graft. */
  lemma {:induction false} GraftBalanced(inner: Context, o: Context, node: Node, key: nat, h: nat, red: bool)
    requires o.Frame?
    requires ContextBalanced(Graft(inner, o), h, red)
    ensures ContextBalanced(Graft(inner, o.(node := node, key := key)), h, red)
  {
    if inner.Frame? {
      GraftBalanced(inner.up, o, node, key, h + (if inner.red then 0 else 1), inner.red);
    }
  }

  /** The pointer in the hole into which `inner` is grafted. */
  function Uppermost(inner: Context, hole: Node?): Node? {
    if inner.Top? then hole else Uppermost(inner.up, inner.node)
  }

  lemma {:induction false} UppermostIn(inner: Context, hole: Node?)
    requires inner.Frame?
    ensures Uppermost(inner, hole) in ContextNodes(inner)
  {
    if inner.up.Frame? {
      UppermostIn(inner.up, inner.node);
    }
  }

  /** The frame below the graft changes hands; above the graft only one parent pointer changes. */
  lemma {:induction false} GraftLinks(m: Memory, m': Memory, root: Node?, root': Node?,
                                      inner: Context, o: Context, o': Context, hole: Node?)
    requires LinkedAround(m, root, Graft(inner, o), hole) && ContextDistinct(inner)
    requires LinkedAround(m', root', o', Uppermost(inner, hole)) && o'.Frame? && o.Frame?
    requires SameOn(m, m', ContextNodes(inner), Uppermost(inner, hole))
    requires inner.Frame? ==>
      var top := Uppermost(inner, hole);
      top in m && top in m' && m'[top] == m[top].(parent := o'.node)
    ensures LinkedAround(m', root', Graft(inner, o'), hole)
  {
    if inner.Frame? {
      UppermostIn(inner, hole);
      if inner.up.Frame? {
        UppermostIn(inner.up, inner.node);
      } else {
        assert Uppermost(inner, hole) == inner.node;
      }
      GraftLinks(m, m', root, root', inner.up, o, o', inner.node);
      LinkedFrame(m, m', inner.sibling, inner.node);
      var g, g' := Graft(inner, o), Graft(inner, o');
      assert m[inner.node] == HoleCell(g, hole);
      assert m'[inner.node] == HoleCell(g', hole);
    }
  }

  // ---- a node with at most one child ----

  lemma SplicedLinks(m: Memory, m': Memory, root: Node?, root': Node?, c: Context, t: Tree, child: Tree)
    requires At(m, root, c, t) && t.Branch?
    requires (t.left == Leaf && child == t.right) || (t.right == Leaf && child == t.left)
    requires child.Branch? ==> child.node in m && child.node in m' && m'[child.node] == m[child.node].(parent := Parent(c))
    requires root' == if c.Top? then Root(child) else root
    requires c.Frame? ==> c.node in m' && m'[c.node] == HoleCell(c, Root(child))
    requires SameExcept(m, m', t.node, Root(child), Parent(c), null)
    ensures At(m', root', c, child)
  {
    DistinctParts(c, t);
    assert Linked(m', child, Parent(c)) by { Relink(m, m', child, t.node, Parent(c)); }
    assert LinkedAround(m', root', c, Root(child)) by { RelinkAround(m, m', root, root', c, t.node, Root(child)); }
  }

  // ---- a node with two children ----

  /** The frame of a node whose right subtree is being searched for the next node. */
  function RightOf(c: Context, t: Tree): Context
    requires t.Branch?
  {
    Below(c, t, false)
  }

  /** The frame after the next node took the place (and the colour) of the removed one. */
  function Replaced(c: Context, t: Tree, next: Tree): Context
    requires t.Branch? && next.Branch?
  {
    Frame(c, false, next.node, next.key, t.red, t.left)
  }

  ghost predicate SameOutside(m: Memory, m': Memory, written: set<Node?>) {
    forall n :: n in m && n !in written ==> n in m' && m'[n] == m[n]
  }

  function Written(c: Context, t: Tree, inner: Context, next: Tree): set<Node?>
    requires t.Branch? && next.Branch?
  {
    {t.node, next.node, Root(t.left), Root(next.right), Parent(c), Parent(inner), Uppermost(inner, Root(next.right))}
  }

  /** The memory after the next node, found at `Graft(inner, RightOf(c, t))`, replaced `t.node`. */
  ghost predicate ReplacedFields(m: Memory, m': Memory, root: Node?, root': Node?,
                                 c: Context, t: Tree, inner: Context, next: Tree)
    requires t.Branch? && next.Branch? && t.left.Branch?
  {
    var x := next.right;
    var top := Uppermost(inner, Root(x));
    && (next.node in m' && m'[next.node] == Cell(t.left.node, top, Parent(c), next.key, t.red))
    && (t.left.node in m && t.left.node in m' && m'[t.left.node] == m[t.left.node].(parent := next.node))
    && root' == (if c.Top? then next.node else root)
    && (c.Frame? ==> (c.node in m' && m'[c.node] == HoleCell(c, next.node)))
    && (x.Branch? ==> (
          && x.node in m && x.node in m'
          && m'[x.node] == m[x.node].(parent := if inner.Top? then next.node else inner.node)))
    && (inner.Frame? ==> (
          && top in m && top in m' && inner.node in m && inner.node in m'
          && m'[top] == (if top == inner.node then m[top].(parent := next.node, left := Root(x))
                         else m[top].(parent := next.node))
          && (top != inner.node ==> m'[inner.node] == m[inner.node].(left := Root(x)))))
    && SameOutside(m, m', Written(c, t, inner, next))
  }

  /** Where the written nodes are, and where they are not. */
  lemma WrittenApart(c: Context, t: Tree, inner: Context, next: Tree)
    requires t.Branch? && next.Branch?
    requires Distinct(t) && ContextDistinct(c) && Nodes(t) !! ContextNodes(c)
    requires Distinct(next) && ContextDistinct(Graft(inner, RightOf(c, t)))
    requires Nodes(next) !! ContextNodes(Graft(inner, RightOf(c, t)))
    ensures var w := Written(c, t, inner, next);
      && (forall n :: n in w && n in Nodes(t.left) ==> n == Root(t.left))
      && (forall n :: n in w && n in ContextNodes(c) ==> n == Parent(c))
      && (forall n :: n in w && n in Nodes(next.right) ==> n == Root(next.right))
      && (forall n :: n in w && n in ContextNodes(inner) ==> n == Parent(inner) || n == Uppermost(inner, Root(next.right)))
    ensures ContextDistinct(inner) && ContextDistinct(Graft(inner, Replaced(c, t, next)))
    ensures Nodes(next.right) !! ContextNodes(Graft(inner, Replaced(c, t, next)))
    ensures next.node !in ContextNodes(inner) && next.node !in ContextNodes(c) && next.node !in Nodes(t.left)
  {
    hide Distinct, ContextDistinct, AllLeft;
    var o, o' := RightOf(c, t), Replaced(c, t, next);
    DistinctParts(c, t);
    GraftDistinct(inner, o);
    GraftDistinct(inner, o');
    DistinctParts(Graft(inner, o), next);
    assert ContextNodes(o) == ContextNodes(c) + {t.node} + Nodes(t.left);
    assert ContextNodes(o') == ContextNodes(c) + {next.node} + Nodes(t.left);
    ReplacedDistinct(c, t, next);
    assert inner.Frame? ==> Parent(inner) in ContextNodes(inner);
    if inner.Frame? {
      UppermostIn(inner, Root(next.right));
    }
    assert next.right.Branch? ==> Root(next.right) in Nodes(next.right);
    assert t.left.Branch? ==> Root(t.left) in Nodes(t.left);
    assert c.Frame? ==> Parent(c) in ContextNodes(c);
  }

  lemma ReplacedDistinct(c: Context, t: Tree, next: Tree)
    requires t.Branch? && next.Branch? && Distinct(t) && ContextDistinct(c) && Nodes(t) !! ContextNodes(c)
    requires next.node !in ContextNodes(c) && next.node !in Nodes(t.left)
    ensures ContextDistinct(Replaced(c, t, next))
  {
  }

  lemma ReplacedNodes(c: Context, t: Tree, inner: Context, next: Tree)
    requires t.Branch? && next.Branch? && next.left == Leaf
    requires ContextDistinct(Graft(inner, RightOf(c, t))) && Distinct(next)
    requires Nodes(next) !! ContextNodes(Graft(inner, RightOf(c, t)))
    ensures Nodes(next.right) + ContextNodes(Graft(inner, Replaced(c, t, next)))
         == Nodes(next) + ContextNodes(Graft(inner, RightOf(c, t))) - {t.node}
  {
    GraftDistinct(inner, RightOf(c, t));
    GraftDistinct(inner, Replaced(c, t, next));
    assert t.node in ContextNodes(RightOf(c, t));
  }

  lemma ReplacedOuter(m: Memory, m': Memory, root: Node?, root': Node?,
                      c: Context, t: Tree, inner: Context, next: Tree)
    requires t.Branch? && t.left.Branch? && next.Branch?
    requires At(m, root, c, t) && At(m, root, Graft(inner, RightOf(c, t)), next)
    requires ReplacedFields(m, m', root, root', c, t, inner, next)
    ensures LinkedAround(m', root', Replaced(c, t, next), Uppermost(inner, Root(next.right)))
  {
    WrittenApart(c, t, inner, next);
    assert Linked(m', t.left, next.node) by { Relink(m, m', t.left, t.node, next.node); }
    assert LinkedAround(m', root', c, next.node) by { RelinkAround(m, m', root, root', c, t.node, next.node); }
  }

  lemma ReplacedLinks(m: Memory, m': Memory, root: Node?, root': Node?,
                      c: Context, t: Tree, inner: Context, next: Tree)
    requires t.Branch? && t.left.Branch? && next.Branch? && next.left == Leaf && AllLeft(inner)
    requires At(m, root, c, t) && At(m, root, Graft(inner, RightOf(c, t)), next)
    requires ReplacedFields(m, m', root, root', c, t, inner, next)
    ensures At(m', root', Graft(inner, Replaced(c, t, next)), next.right)
  {
    var o, o', x := RightOf(c, t), Replaced(c, t, next), next.right;
    WrittenApart(c, t, inner, next);
    ReplacedOuter(m, m', root, root', c, t, inner, next);
    assert Linked(m', x, Parent(Graft(inner, o'))) by { Relink(m, m', x, next.node, Parent(Graft(inner, o'))); }
    if inner.Frame? {
      ReplacedInner(m, m', root, root', c, t, inner, next);
    }
  }

  lemma ReplacedInner(m: Memory, m': Memory, root: Node?, root': Node?,
                      c: Context, t: Tree, inner: Context, next: Tree)
    requires t.Branch? && t.left.Branch? && next.Branch? && inner.Frame? && AllLeft(inner)
    requires At(m, root, c, t) && At(m, root, Graft(inner, RightOf(c, t)), next)
    requires ReplacedFields(m, m', root, root', c, t, inner, next)
    requires LinkedAround(m', root', Replaced(c, t, next), Uppermost(inner, Root(next.right)))
    ensures LinkedAround(m', root', Graft(inner, Replaced(c, t, next)), Root(next.right))
  {
    var o, o', pn := RightOf(c, t), Replaced(c, t, next), inner.node;
    var m1 := m'[pn := m'[pn].(left := next.node)];
    WrittenApart(c, t, inner, next);
    GraftDistinct(inner, o');
    assert pn in ContextNodes(inner);
    LinkedAroundFrame(m', m1, root', o', Uppermost(inner, Root(next.right)));
    assert m[pn] == HoleCell(Graft(inner, o), next.node);
    GraftLinks(m, m1, root, root', inner, o, o', next.node);
    RelinkAround(m1, m', root', root', Graft(inner, o'), next.node, Root(next.right));
  }

  // ---- what the removal does to the entries and to the balance ----

  lemma {:induction false} Split<T>(a: seq<T>, b: seq<T>, c: seq<T>, d: seq<T>, e: seq<T>)
    ensures a + (b + c + d) + e == (a + b) + c + (d + e)
    ensures b == [] ==> a + d + e == (a + b) + (d + e)
    ensures d == [] ==> a + b + e == (a + b) + (d + e)
  {
  }

  lemma {:induction false} SplicedModel(c: Context, t: Tree, child: Tree)
    requires t.Branch? && Sorted(Whole(c, t))
    requires (t.left == Leaf && child == t.right) || (t.right == Leaf && child == t.left)
    ensures Sorted(Whole(c, child)) && Model(Whole(c, child)) == Model(Whole(c, t)) - {t.key}
  {
    var e := Entry(t.key, t.node);
    Split(Before(c), Elements(t.left), [e], Elements(t.right), After(c));
    ModelWith(Before(c) + Elements(t.left), e, Elements(t.right) + After(c));
  }

  lemma FramesAround(c: Context, t: Tree, next: Tree)
    requires t.Branch? && next.Branch? && next.left == Leaf
    ensures Before(RightOf(c, t)) == Before(c) + (Elements(t.left) + [Entry(t.key, t.node)])
    ensures Before(Replaced(c, t, next)) == Before(c) + (Elements(t.left) + [Entry(next.key, next.node)])
    ensures After(RightOf(c, t)) == After(c) && After(Replaced(c, t, next)) == After(c)
    ensures Elements(next) == [Entry(next.key, next.node)] + Elements(next.right)
  {
  }

  lemma Regrouped(a: seq<Entry>, l: seq<Entry>, e: Entry, f: Entry, x: seq<Entry>, b: seq<Entry>)
    ensures (a + (l + [e])) + ([f] + x) + b == (a + l) + [e] + ([f] + x + b)
    ensures (a + (l + [f])) + x + b == (a + l) + ([f] + x + b)
  {
  }

  /** In order: what stands before the removed node, the node itself, and what follows it. */
  lemma ReplacedWhole(c: Context, t: Tree, inner: Context, next: Tree)
    requires t.Branch? && next.Branch? && next.left == Leaf && AllLeft(inner)
    ensures var e := Entry(t.key, t.node);
      var a, b := Before(c) + Elements(t.left), [Entry(next.key, next.node)] + Elements(next.right) + (After(inner) + After(c));
      && Whole(Graft(inner, RightOf(c, t)), next) == a + [e] + b
      && Whole(Graft(inner, Replaced(c, t, next)), next.right) == a + b
  {
    hide Before, After, Elements, Graft, AllLeft, RightOf, Replaced;
    GraftElements(inner, RightOf(c, t));
    GraftElements(inner, Replaced(c, t, next));
    FramesAround(c, t, next);
    Regrouped(Before(c), Elements(t.left), Entry(t.key, t.node), Entry(next.key, next.node), Elements(next.right),
              After(inner) + After(c));
  }

  lemma {:induction false} ReplacedModel(c: Context, t: Tree, inner: Context, next: Tree)
    requires t.Branch? && next.Branch? && next.left == Leaf && AllLeft(inner)
    requires Sorted(Whole(Graft(inner, RightOf(c, t)), next))
    ensures var w, w' := Whole(Graft(inner, RightOf(c, t)), next), Whole(Graft(inner, Replaced(c, t, next)), next.right);
      Sorted(w') && Model(w') == Model(w) - {t.key}
  {
    hide *;
    ReplacedWhole(c, t, inner, next);
    ModelWith(Before(c) + Elements(t.left), Entry(t.key, t.node),
              [Entry(next.key, next.node)] + Elements(next.right) + (After(inner) + After(c)));
  }

  /** After a node of colour `red` was taken from above `child`. */
  predicate RemovalPoint(c: Context, child: Tree, red: bool) {
    && Balanced(child) && (red ==> !Red(child))
    && ContextBalanced(c, BlackHeight(child) + (if red then 0 else 1), red)
  }

  lemma SplicedBalance(c: Context, t: Tree, child: Tree)
    requires t.Branch? && Balanced(t) && ContextBalanced(c, BlackHeight(t), Red(t))
    requires (t.left == Leaf && child == t.right) || (t.right == Leaf && child == t.left)
    ensures RemovalPoint(c, child, t.red)
  {
  }

  lemma ReplacedBalance(c: Context, t: Tree, inner: Context, next: Tree)
    requires t.Branch? && next.Branch? && next.left == Leaf && Balanced(next)
    requires ContextBalanced(Graft(inner, RightOf(c, t)), BlackHeight(next), Red(next))
    ensures RemovalPoint(Graft(inner, Replaced(c, t, next)), next.right, next.red)
  {
    GraftBalanced(inner, RightOf(c, t), next.node, next.key, BlackHeight(next), Red(next));
  }

  /** A red node was taken away: nothing is missing. */
  lemma RedRemoved(c: Context, child: Tree)
    requires RemovalPoint(c, child, true)
    ensures Balanced(Plug(c, child)) && !Red(Plug(c, child))
  {
    ContextAcceptsBlack(c, BlackHeight(child));
    PlugBalanced(c, child);
  }

  lemma ContextAcceptsBlack(c: Context, h: nat)
    requires ContextBalanced(c, h, true)
    ensures ContextBalanced(c, h, false)
  {
  }

  /** A red child pays for the missing black node by turning black. */
  lemma RedChildPays(c: Context, child: Tree)
    requires RemovalPoint(c, child, false) && Red(child)
    ensures Balanced(Plug(c, Blacken(child))) && !Red(Plug(c, Blacken(child)))
  {
    BlackenBalanced(child);
    PlugBalanced(c, Blacken(child));
  }
}
