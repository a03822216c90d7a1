/** The memory of a red-black tree: node and tree records, and the invariants
    that hold between calls.

    Every node carries a ghost label `pos` and a ghost open interval
    `(lo, hi)` around it.  The interval of a left child is `(lo, pos)` of its
    parent and the interval of a right child is `(pos, hi)`, so the labels
    order the nodes as an in-order walk does, yet every condition is local to
    one node and its children.  Labels are reals: a new node finds room between
    any two others, and an insertion or deletion relabels at most two nodes. */
module RbNodes {
  datatype Color = Black | Red

  class Node {
    var key: int
    var left: Node?
    var right: Node?
    var parent: Node?
    var color: Color

    ghost var pos: real
    ghost var lo: real
    ghost var hi: real
    ghost var bh: nat     // black nodes on every path from a child of this node down to the sentinel
    ghost var rank: int   // the quantity the key stands for: the key itself, or an unwrapped time

    constructor (k: int, ghost r: int)
      ensures key == k && rank == r
    {
      key, rank := k, r;
      left, right, parent, color := null, null, null, Black;
      pos, lo, hi, bh := 0.0, 0.0, 0.0, 0;
    }
  }

  class Tree {
    var root: Node
    const sentinel: Node
    const less: (int, int) -> bool   // the key comparison of the installed insert function

    ghost var nodes: set<Node>
    ghost var order: seq<Node>

    // rbtree_init
    constructor (s: Node, less: (int, int) -> bool)
      modifies s
      ensures s.color == Black && root == s && sentinel == s && this.less == less
      ensures nodes == {} && order == []
      ensures Valid(this)
      ensures s.key == old(s.key) && s.rank == old(s.rank)
    {
      root, sentinel, this.less := s, s, less;
      nodes, order := {}, [];
      new;
      s.color := Black;
    }
  }

  /** What a child link at `n` points to: the sentinel, or a node of the tree
      that points back and owns the interval on its side of `n`. */
  ghost predicate ChildOk(t: Tree, n: Node, c: Node?, lo: real, hi: real)
    reads t`nodes, t.nodes`parent, t.nodes`lo, t.nodes`hi
  {
    c != null && (c == t.sentinel || (c in t.nodes && c.parent == n && c.lo == lo && c.hi == hi))
  }

  /** Child, parent and interval conditions at one node.  The parent field of
      the root and every link of the sentinel are unconstrained: both may hold
      stale pointers. */
  ghost predicate Links(t: Tree, n: Node)
    requires n in t.nodes
    reads t`root, t`nodes, t.nodes`left, t.nodes`right, t.nodes`parent, t.nodes`lo, t.nodes`hi, t.nodes`pos
  {
    && 0.0 <= n.lo < n.pos < n.hi <= 1.0
    && ChildOk(t, n, n.left, n.lo, n.pos)
    && ChildOk(t, n, n.right, n.pos, n.hi)
    && (n != t.root ==> n.parent in t.nodes && (n.parent.left == n || n.parent.right == n))
  }

  ghost predicate Shape(t: Tree)
    reads t`root, t`nodes, t.nodes`left, t.nodes`right, t.nodes`parent, t.nodes`lo, t.nodes`hi, t.nodes`pos
  {
    && t.sentinel !in t.nodes
    && (t.nodes == {} <==> t.root == t.sentinel)
    && (t.nodes != {} ==> t.root in t.nodes && t.root.lo == 0.0 && t.root.hi == 1.0)
    && (forall n {:trigger Links(t, n)} :: n in t.nodes ==> Links(t, n))
  }

  ghost predicate IsRed(t: Tree, n: Node?)
    reads t`nodes, t.nodes`color
  {
    n in t.nodes && n.color.Red?
  }

  /** Black height of the subtree hanging at a child link. */
  ghost function Height(t: Tree, n: Node?): nat
    reads t`nodes, t.nodes`color, t.nodes`bh
  {
    if n !in t.nodes then 0 else n.bh + if n.color.Black? then 1 else 0
  }

  ghost predicate EqualHeights(t: Tree, n: Node)
    requires n in t.nodes
    reads t`nodes, t.nodes`left, t.nodes`right, t.nodes`color, t.nodes`bh
  {
    Height(t, n.left) == n.bh == Height(t, n.right)
  }

  /** A red node has no red child, except possibly `bad`. */
  ghost predicate NoRedRed(t: Tree, n: Node, bad: Node?)
    requires n in t.nodes
    reads t`nodes, t.nodes`left, t.nodes`right, t.nodes`color
  {
    n.color.Red? ==> (IsRed(t, n.left) ==> n.left == bad) && (IsRed(t, n.right) ==> n.right == bad)
  }

  ghost predicate Balanced(t: Tree)
    reads t`nodes, t.nodes`left, t.nodes`right, t.nodes`color, t.nodes`bh
  {
    forall n {:trigger EqualHeights(t, n)} :: n in t.nodes ==> EqualHeights(t, n)
  }

  ghost predicate Coloured(t: Tree, bad: Node?)
    reads t`nodes, t.nodes`left, t.nodes`right, t.nodes`color
  {
    forall n {:trigger NoRedRed(t, n, bad)} :: n in t.nodes ==> NoRedRed(t, n, bad)
  }

  /** The ghost sequence lists exactly the nodes, by increasing label. */
  ghost predicate Ordered(t: Tree)
    reads t`order, t`nodes, t.nodes`pos
  {
    && (forall n :: n in t.order ==> n in t.nodes)
    && (forall n :: n in t.nodes ==> n in t.order)
    && (forall i, j :: 0 <= i < j < |t.order| ==> t.order[i].pos < t.order[j].pos)
  }

  /** A red-black tree between two calls. */
  ghost predicate Valid(t: Tree)
    reads t, t.sentinel, t.nodes
  {
    && Shape(t) && Ordered(t)
    && t.sentinel.color == Black && !IsRed(t, t.root)
    && Balanced(t) && Coloured(t, null)
  }
}
