/** The two rotations (src/ds_rbtree.c:311-366). */
module RbRotate {
  import opened RbNodes

  /** Every link to `x` in the tree is the one its parent holds, and no parent holds it twice. */
  ghost predicate OneLinkTo(t: Tree, x: Node)
    reads t, t.nodes
  {
    && x in t.nodes
    && (x != t.root ==> x.parent in t.nodes && (x.parent.left == x) != (x.parent.right == x))
    && (forall n :: n in t.nodes && (n.left == x || n.right == x) ==> x != t.root && n == x.parent)
  }

  lemma ShapeOneLink(t: Tree, x: Node)
    requires Shape(t) && x in t.nodes
    ensures OneLinkTo(t, x)
  {
    if x != t.root {
      assert Links(t, x) && Links(t, x.parent);
    }
    forall n | n in t.nodes && (n.left == x || n.right == x)
      ensures x != t.root && n == x.parent
    {
      assert Links(t, n);
    }
  }

  /** Redirects the one link that points to `x`, lines 325-333 of the left rotation. */
  method Relink(t: Tree, x: Node, y: Node)
    requires OneLinkTo(t, x)
    modifies t`root, t.nodes`left, t.nodes`right
    ensures t.root == if x == old(t.root) then y else old(t.root)
    ensures forall n :: n in t.nodes ==> n.left == if old(n.left) == x then y else old(n.left)
    ensures forall n :: n in t.nodes ==> n.right == if old(n.right) == x then y else old(n.right)
  {
    if x == t.root {
      t.root := y;
    } else if x == x.parent.left {
      x.parent.left := y;
    } else {
      x.parent.right := y;
    }
  }

  /** `x`, its child `y`, the subtree `b` below `y` and the parent of `x` are pairwise distinct. */
  ghost predicate Detached(t: Tree, x: Node, y: Node, b: Node?)
    reads t, x
  {
    && x != y && b != x && b != y
    && (b == t.sentinel || b in t.nodes)
    && (x != t.root ==> x.parent != x && x.parent != y && x.parent != b)
  }

  /** The assignments of the left rotation, on links alone. */
  method LeftRotateLinks(t: Tree, node: Node)
    requires t.sentinel !in t.nodes && OneLinkTo(t, node) && node.right in t.nodes
    requires Detached(t, node, node.right, node.right.left)
    requires node.left != node && node.right.right != node
    modifies t`root, t.nodes`left, t.nodes`right, t.nodes`parent, t.nodes`lo, t.nodes`hi
    ensures t.root == if node == old(t.root) then old(node.right) else old(t.root)
    ensures var y, b := old(node.right), old(node.right.left);
      forall n :: n in t.nodes ==>
        && n.left == (if n == y then node else if old(n.left) == node then y else old(n.left))
        && n.right == (if n == node then b else if old(n.right) == node then y else old(n.right))
        && n.parent == (if n == node then y else if n == y then old(node.parent) else if n == b then node else old(n.parent))
        && n.lo == (if n == y then old(node.lo) else old(n.lo))
        && n.hi == (if n == node then y.pos else old(n.hi))
  {
    var temp := node.right;
    node.right := temp.left;
    if temp.left != t.sentinel {
      temp.left.parent := node;
    }
    temp.parent := node.parent;
    Relink(t, node, temp);
    temp.left := node;
    node.parent := temp;
    temp.lo, node.hi := node.lo, temp.pos;
  }

  method LeftRotate(t: Tree, node: Node)
    requires Shape(t) && node in t.nodes && node.right in t.nodes
    modifies t`root, t.nodes`left, t.nodes`right, t.nodes`parent, t.nodes`lo, t.nodes`hi
    ensures t.root == if node == old(t.root) then old(node.right) else old(t.root)
    ensures var y, b := old(node.right), old(node.right.left);
      forall n :: n in t.nodes ==>
        && n.left == (if n == y then node else if old(n.left) == node then y else old(n.left))
        && n.right == (if n == node then b else if old(n.right) == node then y else old(n.right))
        && n.parent == (if n == node then y else if n == y then old(node.parent) else if n == b then node else old(n.parent))
        && n.lo == (if n == y then old(node.lo) else old(n.lo))
        && n.hi == (if n == node then y.pos else old(n.hi))
    ensures Shape(t)
  {
    assert Links(t, node) && Links(t, node.right) && (node != t.root ==> Links(t, node.parent));
    ShapeOneLink(t, node);
    ShapeOneLink(t, node.right);
    LeftRotateLinks(t, node);
    forall n | n in t.nodes
      ensures Links(t, n)
    {
      assert old(Links(t, n));
    }
  }

  /** The assignments of the right rotation, on links alone. */
  method RightRotateLinks(t: Tree, node: Node)
    requires t.sentinel !in t.nodes && OneLinkTo(t, node) && node.left in t.nodes
    requires Detached(t, node, node.left, node.left.right)
    requires node.right != node && node.left.left != node
    modifies t`root, t.nodes`left, t.nodes`right, t.nodes`parent, t.nodes`lo, t.nodes`hi
    ensures t.root == if node == old(t.root) then old(node.left) else old(t.root)
    ensures var y, b := old(node.left), old(node.left.right);
      forall n :: n in t.nodes ==>
        && n.right == (if n == y then node else if old(n.right) == node then y else old(n.right))
        && n.left == (if n == node then b else if old(n.left) == node then y else old(n.left))
        && n.parent == (if n == node then y else if n == y then old(node.parent) else if n == b then node else old(n.parent))
        && n.hi == (if n == y then old(node.hi) else old(n.hi))
        && n.lo == (if n == node then y.pos else old(n.lo))
  {
    var temp := node.left;
    node.left := temp.right;
    if temp.right != t.sentinel {
      temp.right.parent := node;
    }
    temp.parent := node.parent;
    Relink(t, node, temp);
    temp.right := node;
    node.parent := temp;
    temp.hi, node.lo := node.hi, temp.pos;
  }

  method RightRotate(t: Tree, node: Node)
    requires Shape(t) && node in t.nodes && node.left in t.nodes
    modifies t`root, t.nodes`left, t.nodes`right, t.nodes`parent, t.nodes`lo, t.nodes`hi
    ensures t.root == if node == old(t.root) then old(node.left) else old(t.root)
    ensures var y, b := old(node.left), old(node.left.right);
      forall n :: n in t.nodes ==>
        && n.right == (if n == y then node else if old(n.right) == node then y else old(n.right))
        && n.left == (if n == node then b else if old(n.left) == node then y else old(n.left))
        && n.parent == (if n == node then y else if n == y then old(node.parent) else if n == b then node else old(n.parent))
        && n.hi == (if n == y then old(node.hi) else old(n.hi))
        && n.lo == (if n == node then y.pos else old(n.lo))
    ensures Shape(t)
  {
    assert Links(t, node) && Links(t, node.left) && (node != t.root ==> Links(t, node.parent));
    ShapeOneLink(t, node);
    ShapeOneLink(t, node.left);
    RightRotateLinks(t, node);
    forall n | n in t.nodes
      ensures Links(t, n)
    {
      assert old(Links(t, n));
    }
  }

  /** Colours the right child of `x` black and `x` red, then rotates `x` to the left. */
  method LeftRotateRed(t: Tree, x: Node)
    requires Shape(t) && x in t.nodes && x.right in t.nodes
    modifies t`root, t.nodes`left, t.nodes`right, t.nodes`parent, t.nodes`lo, t.nodes`hi, t.nodes`color
    ensures Shape(t)
    ensures t.root == if x == old(t.root) then old(x.right) else old(t.root)
    ensures var y, b := old(x.right), old(x.right.left);
      forall n :: n in t.nodes ==>
        && n.left == (if n == y then x else if old(n.left) == x then y else old(n.left))
        && n.right == (if n == x then b else if old(n.right) == x then y else old(n.right))
        && n.parent == (if n == x then y else if n == y then old(x.parent) else if n == b then x else old(n.parent))
        && n.lo == (if n == y then old(x.lo) else old(n.lo))
        && n.hi == (if n == x then y.pos else old(n.hi))
        && n.color == (if n == y then Black else if n == x then Red else old(n.color))
  {
    assert Links(t, x) && Links(t, x.right);
    x.right.color := Black;
    x.color := Red;
    LeftRotate(t, x);
  }

  /** Colours the left child of `x` black and `x` red, then rotates `x` to the right. */
  method RightRotateRed(t: Tree, x: Node)
    requires Shape(t) && x in t.nodes && x.left in t.nodes
    modifies t`root, t.nodes`left, t.nodes`right, t.nodes`parent, t.nodes`lo, t.nodes`hi, t.nodes`color
    ensures Shape(t)
    ensures t.root == if x == old(t.root) then old(x.left) else old(t.root)
    ensures var y, b := old(x.left), old(x.left.right);
      forall n :: n in t.nodes ==>
        && n.right == (if n == y then x else if old(n.right) == x then y else old(n.right))
        && n.left == (if n == x then b else if old(n.left) == x then y else old(n.left))
        && n.parent == (if n == x then y else if n == y then old(x.parent) else if n == b then x else old(n.parent))
        && n.hi == (if n == y then old(x.hi) else old(n.hi))
        && n.lo == (if n == x then y.pos else old(n.lo))
        && n.color == (if n == y then Black else if n == x then Red else old(n.color))
  {
    assert Links(t, x) && Links(t, x.left);
    x.left.color := Black;
    x.color := Red;
    RightRotate(t, x);
  }
}
