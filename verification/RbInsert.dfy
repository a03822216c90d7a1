/** Insertion (src/ds_rbtree.c:16-142). */
module RbInsert {
  import opened RbNodes
  import opened RbRotate
  import opened RbOrder

  /** The state at the head of the re-balancing loop: a red-black tree, except
      that `node` is red and its parent may be red too. */
  ghost predicate RedAt(t: Tree, node: Node)
    reads t`root, t`nodes, t.sentinel`color
    reads t.nodes`left, t.nodes`right, t.nodes`parent, t.nodes`lo, t.nodes`hi, t.nodes`pos, t.nodes`color, t.nodes`bh
  {
    && Shape(t)
    && t.sentinel.color == Black
    && IsRed(t, node)
    && (IsRed(t, t.root) ==> t.root == node)
    && Balanced(t) && Coloured(t, node)
  }

  ghost function Outside(t: Tree, n: Node): set<Node>
    reads t, t.nodes, n
  {
    t.nodes - Inside(t, n)
  }

  method Paint(t: Tree, p: Node, u: Node, g: Node)
    requires p in t.nodes && u in t.nodes && g in t.nodes && p != u && p != g && u != g
    modifies t.nodes`color, t.nodes`bh
    ensures forall n :: n in t.nodes ==>
      && n.color == (if n == g then Red else if n == p || n == u then Black else old(n.color))
      && n.bh == (if n == g then old(n.bh) + 1 else old(n.bh))
  {
    p.color := Black;
    u.color := Black;
    g.color := Red;
    g.bh := g.bh + 1;
  }

  method Recolour(t: Tree, node: Node, temp: Node)
    requires RedAt(t, node) && node != t.root && IsRed(t, node.parent)
    requires node.parent.parent in t.nodes
    requires IsRed(t, temp) && temp != node.parent
    requires temp == node.parent.parent.left || temp == node.parent.parent.right
    modifies t.nodes`color, t.nodes`bh
    ensures node.parent.parent in t.nodes
    ensures RedAt(t, node.parent.parent)
    ensures Outside(t, node.parent.parent) < Outside(t, node)
  {
    ghost var p, g := node.parent, node.parent.parent;
    assert Links(t, node) && Links(t, p) && Links(t, g);
    assert EqualHeights(t, g) && NoRedRed(t, p, node) && NoRedRed(t, g, node);
    Paint(t, node.parent, temp, node.parent.parent);
    forall n | n in t.nodes
      ensures EqualHeights(t, n) && NoRedRed(t, n, g)
    {
      assert Links(t, n);
      assert old(EqualHeights(t, n));
      assert old(NoRedRed(t, n, node));
      if n != g {
        assert n.left != p && n.left != temp && n.right != p && n.right != temp;
        assert Height(t, n.left) == old(Height(t, n.left)) && Height(t, n.right) == old(Height(t, n.right));
      }
    }
    assert p in Inside(t, g) && p !in Inside(t, node);
  }

  /** Rotates a red node above its red parent `x`, so that the two lie on the same side. */
  method LeftLift(t: Tree, x: Node)
    requires x in t.nodes && x != t.root && x.right in t.nodes && RedAt(t, x.right) && IsRed(t, x)
    modifies t`root, t.nodes`left, t.nodes`right, t.nodes`parent, t.nodes`lo, t.nodes`hi
    ensures RedAt(t, x) && x != t.root && t.root == old(t.root)
    ensures x.parent == old(x.right) && x.parent.left == x && x.parent.parent == old(x.parent)
    ensures x.parent.parent in t.nodes && (old(x.parent.left) == x ==> x.parent.parent.left == x.parent)
    ensures old(x.parent.right) == x ==> x.parent.parent.right == x.parent
    ensures forall n :: n in t.nodes && n != x && n != x.parent ==>
      (old(n.left) != x ==> n.left == old(n.left)) && (old(n.right) != x ==> n.right == old(n.right))
  {
    ghost var y, p := x.right, x.parent;
    assert Links(t, x) && Links(t, y) && Links(t, p);
    assert EqualHeights(t, x) && EqualHeights(t, y);
    assert NoRedRed(t, x, y) && NoRedRed(t, y, y) && NoRedRed(t, p, y);
    LeftRotate(t, x);
    forall n | n in t.nodes
      ensures EqualHeights(t, n) && NoRedRed(t, n, x)
    {
      assert old(EqualHeights(t, n)) && old(NoRedRed(t, n, y)) && old(Links(t, n));
    }
  }

  /** The final rotation: the red parent of `node` takes the place and the colour of its own parent. */
  method RightSettle(t: Tree, node: Node)
    requires RedAt(t, node) && node != t.root && IsRed(t, node.parent) && node == node.parent.left
    requires node.parent.parent in t.nodes && node.parent == node.parent.parent.left
    requires !IsRed(t, node.parent.parent.right)
    modifies t`root, t.nodes`left, t.nodes`right, t.nodes`parent, t.nodes`lo, t.nodes`hi, t.nodes`color
    ensures RedAt(t, node) && node.parent == old(node.parent) && node.parent.color == Black
  {
    ghost var p, g := node.parent, node.parent.parent;
    assert Links(t, node) && Links(t, p) && Links(t, g);
    assert EqualHeights(t, p) && EqualHeights(t, g);
    assert NoRedRed(t, p, node) && NoRedRed(t, g, node) && NoRedRed(t, node, node);
    RightRotateRed(t, node.parent.parent);
    forall n | n in t.nodes
      ensures EqualHeights(t, n) && NoRedRed(t, n, node)
    {
      assert old(EqualHeights(t, n)) && old(NoRedRed(t, n, node)) && old(Links(t, n));
    }
  }

  /** One turn of the loop when the parent of `node` is a left child: lines 42-59. */
  method FixLeft(t: Tree, node: Node) returns (next: Node)
    requires RedAt(t, node) && node != t.root && IsRed(t, node.parent)
    requires node.parent.parent in t.nodes && node.parent == node.parent.parent.left
    modifies t`root, t.nodes`left, t.nodes`right, t.nodes`parent, t.nodes`lo, t.nodes`hi, t.nodes`color, t.nodes`bh
    ensures RedAt(t, next)
    ensures next == t.root || !IsRed(t, next.parent) || Outside(t, next) < old(Outside(t, node))
  {
    assert Links(t, node) && Links(t, node.parent) && Links(t, node.parent.parent);
    var temp := node.parent.parent.right;
    next := node;
    if temp.color.Red? {
      Recolour(t, next, temp);
      next := next.parent.parent;
    } else {
      if next == next.parent.right {
        next := next.parent;
        LeftLift(t, next);
      }
      RightSettle(t, next);
      assert Links(t, next);
    }
  }

  /** Rotates a red node above its red parent `x`, so that the two lie on the same side. */
  method RightLift(t: Tree, x: Node)
    requires x in t.nodes && x != t.root && x.left in t.nodes && RedAt(t, x.left) && IsRed(t, x)
    modifies t`root, t.nodes`left, t.nodes`right, t.nodes`parent, t.nodes`lo, t.nodes`hi
    ensures RedAt(t, x) && x != t.root && t.root == old(t.root)
    ensures x.parent == old(x.left) && x.parent.right == x && x.parent.parent == old(x.parent)
    ensures x.parent.parent in t.nodes && (old(x.parent.right) == x ==> x.parent.parent.right == x.parent)
    ensures old(x.parent.left) == x ==> x.parent.parent.left == x.parent
    ensures forall n :: n in t.nodes && n != x && n != x.parent ==>
      (old(n.left) != x ==> n.left == old(n.left)) && (old(n.right) != x ==> n.right == old(n.right))
  {
    ghost var y, p := x.left, x.parent;
    assert Links(t, x) && Links(t, y) && Links(t, p);
    assert EqualHeights(t, x) && EqualHeights(t, y);
    assert NoRedRed(t, x, y) && NoRedRed(t, y, y) && NoRedRed(t, p, y);
    RightRotate(t, x);
    forall n | n in t.nodes
      ensures EqualHeights(t, n) && NoRedRed(t, n, x)
    {
      assert old(EqualHeights(t, n)) && old(NoRedRed(t, n, y)) && old(Links(t, n));
    }
  }

  /** The final rotation: the red parent of `node` takes the place and the colour of its own parent. */
  method LeftSettle(t: Tree, node: Node)
    requires RedAt(t, node) && node != t.root && IsRed(t, node.parent) && node == node.parent.right
    requires node.parent.parent in t.nodes && node.parent == node.parent.parent.right
    requires !IsRed(t, node.parent.parent.left)
    modifies t`root, t.nodes`left, t.nodes`right, t.nodes`parent, t.nodes`lo, t.nodes`hi, t.nodes`color
    ensures RedAt(t, node) && node.parent == old(node.parent) && node.parent.color == Black
  {
    ghost var p, g := node.parent, node.parent.parent;
    assert Links(t, node) && Links(t, p) && Links(t, g);
    assert EqualHeights(t, p) && EqualHeights(t, g);
    assert NoRedRed(t, p, node) && NoRedRed(t, g, node) && NoRedRed(t, node, node);
    LeftRotateRed(t, node.parent.parent);
    forall n | n in t.nodes
      ensures EqualHeights(t, n) && NoRedRed(t, n, node)
    {
      assert old(EqualHeights(t, n)) && old(NoRedRed(t, n, node)) && old(Links(t, n));
    }
  }

  /** One turn of the loop when the parent of `node` is a right child: lines 62-79. */
  method FixRight(t: Tree, node: Node) returns (next: Node)
    requires RedAt(t, node) && node != t.root && IsRed(t, node.parent)
    requires node.parent.parent in t.nodes && node.parent == node.parent.parent.right
    modifies t`root, t.nodes`left, t.nodes`right, t.nodes`parent, t.nodes`lo, t.nodes`hi, t.nodes`color, t.nodes`bh
    ensures RedAt(t, next)
    ensures next == t.root || !IsRed(t, next.parent) || Outside(t, next) < old(Outside(t, node))
  {
    assert Links(t, node) && Links(t, node.parent) && Links(t, node.parent.parent);
    var temp := node.parent.parent.left;
    next := node;
    if temp.color.Red? {
      Recolour(t, next, temp);
      next := next.parent.parent;
    } else {
      if next == next.parent.left {
        next := next.parent;
        RightLift(t, next);
      }
      LeftSettle(t, next);
      assert Links(t, next);
    }
  }

  /** The installed comparison agrees with the ranks, for `node` against every node of the tree. */
  ghost predicate Faithful(t: Tree, node: Node)
    reads t`nodes, t.nodes`key, t.nodes`rank, node`key, node`rank
  {
    forall m :: m in t.nodes ==> (t.less(node.key, m.key) <==> node.rank < m.rank)
  }

  ghost predicate RankPlace(s: seq<Node>, k: nat, rank: int)
    requires k <= |s|
    reads s`rank
  {
    (forall i :: 0 <= i < k ==> s[i].rank <= rank) && (forall i :: k <= i < |s| ==> rank < s[i].rank)
  }

  /** If the tree is sorted and the comparison faithful, `k` is the place after every rank that is not larger. */
  ghost predicate PlacedByRank(t: Tree, node: Node, k: nat)
    requires k <= |t.order|
    reads t`order, t`nodes, t.nodes, t.order, node
  {
    Sorted(t) && Faithful(t, node) ==> RankPlace(t.order, k, node.rank)
  }

  /** Nodes up to the label `lo` have a rank not above that of `node`, nodes from `hi` on a larger one. */
  ghost predicate Bracketed(t: Tree, node: Node, lo: real, hi: real)
    reads t`nodes, t.nodes`pos, t.nodes`rank, node`rank
  {
    forall m :: m in t.nodes ==> (m.pos <= lo ==> m.rank <= node.rank) && (hi <= m.pos ==> node.rank < m.rank)
  }

  /** One comparison narrows the interval. */
  lemma Narrow(t: Tree, node: Node, n: Node)
    requires Ordered(t) && Sorted(t) && Faithful(t, node) && n in t.nodes && Bracketed(t, node, n.lo, n.hi)
    ensures if t.less(node.key, n.key) then Bracketed(t, node, n.lo, n.pos) else Bracketed(t, node, n.pos, n.hi)
  {
    forall m | m in t.nodes
      ensures (m.pos <= n.pos ==> m.rank <= n.rank) && (n.pos <= m.pos ==> n.rank <= m.rank)
    {
      if m.pos <= n.pos { RankByLabel(t, m, n); }
      if n.pos <= m.pos { RankByLabel(t, n, m); }
    }
  }

  lemma RootBracketed(t: Tree, node: Node)
    requires Shape(t) && t.nodes != {}
    ensures Bracketed(t, node, t.root.lo, t.root.hi)
  {
    forall m | m in t.nodes ensures t.root.lo < m.pos < t.root.hi { assert Links(t, m); }
  }

  /** Going to a child leaves a smaller part of the tree. */
  lemma OneDown(t: Tree, n: Node, c: Node)
    requires Shape(t) && n in t.nodes && c in t.nodes && (c == n.left || c == n.right)
    ensures Links(t, c) && Depth(t, c) < Depth(t, n) && Inside(t, c) < Inside(t, n)
    ensures c.lo == (if c == n.left then n.lo else n.pos) && c.hi == (if c == n.left then n.pos else n.hi)
  {
    assert Links(t, n) && Links(t, c);
    assert n in Inside(t, n) && n !in Inside(t, c);
  }

  /** The descent shared by rbtree_insert_value and rbtree_insert_timer_value
      (lines 92-101 and 116-135), which differ in the comparison alone. */
  method Descend(t: Tree, node: Node)
    returns (temp: Node, goLeft: bool, ghost lo: real, ghost hi: real, ghost steps: nat)
    requires Shape(t) && Ordered(t) && t.nodes != {}
    ensures temp in t.nodes && Links(t, temp) && steps <= Depth(t, t.root)
    ensures if goLeft then temp.left == t.sentinel && lo == temp.lo && hi == temp.pos
            else temp.right == t.sentinel && lo == temp.pos && hi == temp.hi
    ensures forall m :: m in t.nodes ==> m.pos <= lo || hi <= m.pos
    ensures Sorted(t) && Faithful(t, node) ==> Bracketed(t, node, lo, hi)
  {
    temp, steps := t.root, 0;
    assert Links(t, temp);
    RootBracketed(t, node);
    hide Ordered, Sorted, Faithful, Bracketed, Inside, Depth;
    while true
      invariant temp in t.nodes && Links(t, temp) && steps + Depth(t, temp) <= Depth(t, t.root)
      invariant Sorted(t) && Faithful(t, node) ==> Bracketed(t, node, temp.lo, temp.hi)
      decreases Inside(t, temp)
    {
      steps := steps + 1;
      goLeft := t.less(node.key, temp.key);
      var p := if goLeft then temp.left else temp.right;
      if Sorted(t) && Faithful(t, node) {
        Narrow(t, node, temp);
      }
      if p == t.sentinel {
        break;
      }
      OneDown(t, temp, p);
      temp := p;
    }
    lo, hi := if goLeft then temp.lo else temp.pos, if goLeft then temp.pos else temp.hi;
    forall m | m in t.nodes ensures m.pos <= lo || hi <= m.pos { Gap(t, temp, m); }
  }

  /** `now` is `before` with `node` put in at `k`. */
  ghost predicate Inserted(before: seq<Node>, k: nat, node: Node, now: seq<Node>)
  {
    k <= |before| && now == before[..k] + [node] + before[k..]
  }

  ghost method Record(t: Tree, before: set<Node>, k: nat, node: Node)
    requires Increasing(t.order) && k <= |t.order|
    requires forall n :: n in t.order ==> n in before
    requires forall n :: n in before ==> n in t.order
    requires node !in before && t.nodes == before + {node}
    requires forall i :: 0 <= i < k ==> t.order[i].pos < node.pos
    requires forall i :: k <= i < |t.order| ==> node.pos < t.order[i].pos
    modifies t`order
    ensures Ordered(t) && Inserted(old(t.order), k, node, t.order)
    ensures old(Sorted(t) && RankPlace(t.order, k, node.rank)) ==> Sorted(t)
  {
    ghost var was := t.order;
    t.order := t.order[..k] + [node] + t.order[k..];
    assert t.order[k] == node;
    assert forall i :: 0 <= i < k ==> t.order[i] == was[i];
    assert forall i :: k < i < |t.order| ==> t.order[i] == was[i - 1];
    forall n | n in t.nodes ensures n in t.order {
      if n != node {
        var i :| 0 <= i < |was| && was[i] == n;
        assert if i < k then t.order[i] == n else t.order[i + 1] == n;
      }
    }
    assert Ordered(t) by { hide Sorted, RankPlace; }
    hide Ordered, Increasing;
  }

  /** The link fields of lines 103-107. */
  method Attach(t: Tree, temp: Node, node: Node, goLeft: bool, ghost lo: real, ghost hi: real)
    requires temp in t.nodes && node !in t.nodes && node != t.sentinel
    modifies t`nodes, temp`left, temp`right, node`left, node`right, node`parent, node`color, node`pos, node`lo, node`hi, node`bh
    ensures t.nodes == old(t.nodes) + {node}
    ensures temp.left == if goLeft then node else old(temp.left)
    ensures temp.right == if goLeft then old(temp.right) else node
    ensures node.left == node.right == t.sentinel && node.parent == temp && node.color == Red
    ensures node.lo == lo && node.hi == hi && node.pos == (lo + hi) / 2.0 && node.bh == 0
  {
    if goLeft {
      temp.left := node;
    } else {
      temp.right := node;
    }
    node.parent := temp;
    node.left := t.sentinel;
    node.right := t.sentinel;
    node.color := Red;
    t.nodes := t.nodes + {node};
    node.pos, node.lo, node.hi, node.bh := (lo + hi) / 2.0, lo, hi, 0;
  }

  method AttachLeaf(t: Tree, temp: Node, node: Node, goLeft: bool, ghost lo: real, ghost hi: real)
    requires Shape(t) && t.sentinel.color == Black && !IsRed(t, t.root) && Balanced(t) && Coloured(t, null)
    requires temp in t.nodes && node !in t.nodes && node != t.sentinel
    requires if goLeft then temp.left == t.sentinel && lo == temp.lo && hi == temp.pos
             else temp.right == t.sentinel && lo == temp.pos && hi == temp.hi
    modifies t`nodes, temp`left, temp`right, node`left, node`right, node`parent, node`color, node`pos, node`lo, node`hi, node`bh
    ensures RedAt(t, node) && t.nodes == old(t.nodes) + {node} && node.pos == (lo + hi) / 2.0
  {
    assert Links(t, temp);
    assert node != t.root;
    Attach(t, temp, node, goLeft, lo, hi);
    forall n | n in t.nodes
      ensures Links(t, n) && EqualHeights(t, n) && NoRedRed(t, n, node)
    {
      assert n != node ==> old(Links(t, n) && EqualHeights(t, n) && NoRedRed(t, n, null));
    }
  }

  /** The descent, with its place in the ghost sequence. */
  method FindPlace(t: Tree, node: Node) returns (temp: Node, goLeft: bool, ghost lo: real, ghost hi: real, ghost k: nat)
    requires Shape(t) && Ordered(t) && t.nodes != {}
    ensures temp in t.nodes
    ensures if goLeft then temp.left == t.sentinel && lo == temp.lo && hi == temp.pos
            else temp.right == t.sentinel && lo == temp.pos && hi == temp.hi
    ensures k <= |t.order|
    ensures forall i :: 0 <= i < k ==> t.order[i].pos < (lo + hi) / 2.0
    ensures forall i :: k <= i < |t.order| ==> (lo + hi) / 2.0 < t.order[i].pos
    ensures PlacedByRank(t, node, k)
  {
    ghost var steps;
    temp, goLeft, lo, hi, steps := Descend(t, node);
    k := Place(t.order, hi);
  }

  /** Links `node` as a red leaf below the place found. */
  method InsertValue(t: Tree, node: Node) returns (ghost k: nat)
    requires Valid(t) && t.nodes != {} && node !in t.nodes && node != t.sentinel
    modifies t`nodes, t`order, t.nodes`left, t.nodes`right, node`left, node`right, node`parent, node`color, node`pos, node`lo, node`hi, node`bh
    ensures RedAt(t, node) && Ordered(t) && t.nodes == old(t.nodes) + {node}
    ensures Inserted(old(t.order), k, node, t.order)
    ensures old(PlacedByRank(t, node, k))
    ensures old(Sorted(t) && Faithful(t, node)) ==> Sorted(t)
  {
    hide Shape, Balanced, Coloured, Inserted, Sorted, Faithful, RankPlace;
    var temp, goLeft, lo, hi, at := FindPlace(t, node);
    k := at;
    AttachLeaf(t, temp, node, goLeft, lo, hi);
    Record(t, old(t.nodes), k, node);
  }

  /** Insertion into an empty tree: lines 25-33. */
  method Plant(t: Tree, node: Node)
    requires Valid(t) && t.root == t.sentinel && node != t.sentinel
    modifies t`root, t`nodes, t`order
    modifies node`left, node`right, node`parent, node`color, node`pos, node`lo, node`hi, node`bh
    ensures Valid(t) && t.nodes == {node} && old(t.nodes) == {}
    ensures Inserted(old(t.order), 0, node, t.order) && Sorted(t) && old(PlacedByRank(t, node, 0))
  {
    WalkIsOrder(t);
    node.parent := null;
    node.left := t.sentinel;
    node.right := t.sentinel;
    node.color := Black;
    t.root := node;
    node.lo, node.pos, node.hi, node.bh := 0.0, 0.5, 1.0, 0;
    t.nodes, t.order := {node}, [node];
  }

  method Insert(t: Tree, node: Node) returns (ghost k: nat)
    requires Valid(t) && node !in t.nodes && node != t.sentinel
    modifies t`root, t`nodes, t`order
    modifies t.nodes`left, t.nodes`right, t.nodes`parent, t.nodes`color, t.nodes`pos, t.nodes`lo, t.nodes`hi, t.nodes`bh
    modifies node`left, node`right, node`parent, node`color, node`pos, node`lo, node`hi, node`bh
    ensures Valid(t) && t.nodes == old(t.nodes) + {node}
    ensures Inserted(old(t.order), k, node, t.order)
    ensures old(PlacedByRank(t, node, k))
    ensures old(Sorted(t) && Faithful(t, node)) ==> Sorted(t)
    ensures Walk(t, t.root) == t.order
  {
    assert t.root == t.sentinel <==> t.nodes == {};
    hide *;
    if t.root == t.sentinel {
      Plant(t, node);
      k := 0;
    } else {
      k := InsertBelow(t, node);
    }
    WalkIsOrder(t);
  }

  /** Insertion into a tree that is not empty: lines 35-83. */
  method InsertBelow(t: Tree, node: Node) returns (ghost k: nat)
    requires Valid(t) && t.nodes != {} && node !in t.nodes && node != t.sentinel
    modifies t`root, t`nodes, t`order
    modifies t.nodes`left, t.nodes`right, t.nodes`parent, t.nodes`color, t.nodes`pos, t.nodes`lo, t.nodes`hi, t.nodes`bh
    modifies node`left, node`right, node`parent, node`color, node`pos, node`lo, node`hi, node`bh
    ensures Valid(t) && t.nodes == old(t.nodes) + {node}
    ensures Inserted(old(t.order), k, node, t.order)
    ensures old(PlacedByRank(t, node, k))
    ensures old(Sorted(t) && Faithful(t, node)) ==> Sorted(t)
  {
    hide Shape, Ordered, Balanced, Coloured, RedAt, PlacedByRank, Inserted, Sorted, Faithful;
    k := InsertValue(t, node);
    Rebalance(t, node);
  }

  /** The re-balancing loop and the final blackening of the root: lines 39-83. */
  method Rebalance(t: Tree, start: Node)
    requires RedAt(t, start)
    modifies t`root, t.nodes`left, t.nodes`right, t.nodes`parent, t.nodes`lo, t.nodes`hi, t.nodes`color, t.nodes`bh
    ensures Shape(t) && t.sentinel.color == Black && !IsRed(t, t.root) && Balanced(t) && Coloured(t, null)
  {
    var node := start;
    assert Links(t, node);
    while node != t.root && node.parent.color.Red?
      invariant RedAt(t, node) && Links(t, node)
      decreases node != t.root && IsRed(t, node.parent), Outside(t, node)
    {
      assert Links(t, node.parent) && Links(t, node.parent.parent);
      if node.parent == node.parent.parent.left {
        node := FixLeft(t, node);
      } else {
        node := FixRight(t, node);
      }
      assert Links(t, node);
    }
    BlackenRoot(t, node);
  }

  method BlackenRoot(t: Tree, ghost node: Node)
    requires RedAt(t, node) && (node == t.root || !IsRed(t, node.parent))
    modifies t.nodes`color
    ensures t.sentinel.color == Black && !IsRed(t, t.root) && Balanced(t) && Coloured(t, null)
  {
    t.root.color := Black;
    forall n | n in t.nodes
      ensures EqualHeights(t, n) && NoRedRed(t, n, null)
    {
      assert Links(t, n);
      assert old(EqualHeights(t, n) && NoRedRed(t, n, node));
    }
  }
}
