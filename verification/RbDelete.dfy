/** Deletion (src/ds_rbtree.c:145-308, src/ds_rbtree.h:62-70). */
module RbDelete {
  import opened RbNodes
  import opened RbRotate
  import opened RbOrder
  import opened RbInsert
  import opened RbFixup

  /** rbtree_min: the leftmost node of the subtree at `start`, within its depth. */
  method Min(t: Tree, start: Node) returns (node: Node, ghost steps: nat)
    requires Shape(t) && start in t.nodes
    ensures steps < Depth(t, start)
    ensures node in t.nodes && node in Inside(t, start)
    ensures node.left == t.sentinel && node.lo == start.lo
    ensures forall n :: n in Inside(t, start) ==> node.pos <= n.pos
  {
    node, steps := start, 0;
    assert Links(t, node);
    while node.left != t.sentinel
      invariant node in t.nodes && Links(t, node) && steps + Depth(t, node) <= Depth(t, start)
      invariant node.lo == start.lo && node in Inside(t, start)
      decreases Inside(t, node)
    {
      assert Links(t, node.left);
      assert node in Inside(t, node) && node !in Inside(t, node.left);
      node, steps := node.left, steps + 1;
    }
    forall n | n in Inside(t, start) ensures node.pos <= n.pos { Gap(t, node, n); }
  }

  /** Redirects the link that points to `s`, which is not the root: lines 188-193. */
  method Bypass(t: Tree, s: Node, temp: Node)
    requires OneLinkTo(t, s) && s != t.root
    modifies t.nodes`left, t.nodes`right
    ensures forall n :: n in t.nodes ==> n.left == if old(n.left) == s then temp else old(n.left)
    ensures forall n :: n in t.nodes ==> n.right == if old(n.right) == s then temp else old(n.right)
  {
    if s == s.parent.left {
      s.parent.left := temp;
    } else {
      s.parent.right := temp;
    }
  }

  /** The new parent's children learn who it is: lines 224-230, and line 202 for the sentinel. */
  method Adopt(t: Tree, node: Node, subst: Node, temp: Node)
    requires Hangs(t, subst.left) && Hangs(t, subst.right) && t.sentinel !in t.nodes && Hangs(t, temp)
    requires temp in t.nodes ==> (temp.parent == node <==> temp == subst.left || temp == subst.right)
    modifies t.nodes`parent, t.sentinel`parent
    ensures forall n :: n in t.nodes ==>
      n.parent == if n == subst.left || n == subst.right then subst else old(n.parent)
    ensures temp.parent == if old(temp.parent) == node then subst else old(temp.parent)
  {
    if subst.left != t.sentinel {
      subst.left.parent := subst;
    }
    if subst.right != t.sentinel {
      subst.right.parent := subst;
    }
    if temp.parent == node {
      temp.parent := subst;
    }
  }

  /** `subst`, which is outside the tree, takes over the links, colour and
      labels of `node`: lines 208-231. */
  method TakePlace(t: Tree, node: Node, subst: Node, temp: Node)
    requires OneLinkTo(t, node) && subst !in t.nodes && subst != t.sentinel && t.sentinel !in t.nodes && subst != t.root
    requires Hangs(t, node.left) && Hangs(t, node.right) && Hangs(t, temp) && node.left != node && node.right != node
    requires node != t.root ==> node.parent != node.left && node.parent != node.right && node.parent != node
    requires temp in t.nodes ==> (temp.parent == node <==> temp == node.left || temp == node.right)
    modifies t`root, t`nodes, t.nodes`left, t.nodes`right, t.nodes`parent, t.sentinel`parent
    modifies subst`left, subst`right, subst`parent, subst`color, subst`pos, subst`lo, subst`hi, subst`bh
    ensures t.nodes == old(t.nodes) - {node} + {subst}
    ensures t.root == if node == old(t.root) then subst else old(t.root)
    ensures subst.left == old(node.left) && subst.right == old(node.right) && subst.parent == old(node.parent)
    ensures subst.color == node.color && subst.pos == node.pos && subst.lo == node.lo && subst.hi == node.hi && subst.bh == node.bh
    ensures forall n :: n in old(t.nodes) && n != node ==>
      && n.left == (if old(n.left) == node then subst else old(n.left))
      && n.right == (if old(n.right) == node then subst else old(n.right))
      && n.parent == (if n == old(node.left) || n == old(node.right) then subst else old(n.parent))
    ensures temp.parent == if old(temp.parent) == node then subst else old(temp.parent)
  {
    subst.left := node.left;
    subst.right := node.right;
    subst.parent := node.parent;
    Relink(t, node, subst);
    Adopt(t, node, subst, temp);
    t.nodes := t.nodes - {node} + {subst};
    CopyLook(node, subst);
  }

  /** `subst` takes over the colour and the labels. */
  method CopyLook(node: Node, subst: Node)
    modifies subst`color, subst`pos, subst`lo, subst`hi, subst`bh
    ensures subst.color == node.color && subst.pos == node.pos && subst.lo == node.lo && subst.hi == node.hi && subst.bh == node.bh
  {
    subst.color := node.color;
    subst.pos, subst.lo, subst.hi, subst.bh := node.pos, node.lo, node.hi, node.bh;
  }

  /** What a node with a missing child looks like: its other child, if any, is a red leaf. */
  lemma OnlyChild(t: Tree, s: Node, temp: Node)
    requires Shape(t) && Balanced(t) && Coloured(t, null) && s in t.nodes
    requires (s.left == t.sentinel && temp == s.right) || (s.right == t.sentinel && temp == s.left)
    ensures s.bh == 0 && Height(t, temp) == 0
    ensures temp in t.nodes ==> IsRed(t, temp) && !IsRed(t, s) && temp.left == temp.right == t.sentinel
    ensures temp in t.nodes ==> temp.parent == s && temp.bh == 0 && temp != s && Links(t, temp)
    ensures Hangs(t, temp)
  {
    assert Links(t, s) && EqualHeights(t, s) && NoRedRed(t, s, null);
    if temp in t.nodes {
      assert Links(t, temp) && EqualHeights(t, temp) && NoRedRed(t, temp, null);
    }
  }

  /** The link assignments when a node with a missing child leaves the tree: lines 186-197. */
  method DropLinks(t: Tree, s: Node, temp: Node)
    requires OneLinkTo(t, s) && s != t.root && Hangs(t, temp) && temp != s && s.parent != s && s.parent != temp && t.sentinel !in t.nodes
    requires s.left != s && s.right != s
    modifies t`nodes, t.nodes`left, t.nodes`right, t.nodes`parent, t.nodes`lo, t.nodes`hi, t.sentinel`parent
    ensures t.nodes == old(t.nodes) - {s}
    ensures temp.parent == old(s.parent) && s.parent == old(s.parent)
    ensures forall n :: n in t.nodes ==>
      && n.left == (if old(n.left) == s then temp else old(n.left))
      && n.right == (if old(n.right) == s then temp else old(n.right))
      && n.parent == (if n == temp then old(s.parent) else old(n.parent))
      && n.lo == (if n == temp then old(s.lo) else old(n.lo))
      && n.hi == (if n == temp then old(s.hi) else old(n.hi))
  {
    Bypass(t, s, temp);
    temp.parent := s.parent;
    if temp != t.sentinel {
      temp.lo, temp.hi := s.lo, s.hi;
    }
    t.nodes := t.nodes - {s};
  }

  /** The same, for a node of a tree: the shape survives. */
  method DropShape(t: Tree, s: Node, temp: Node)
    requires Shape(t) && s in t.nodes && s != t.root && Hangs(t, temp) && temp != s
    requires temp in t.nodes ==> temp.left == temp.right == t.sentinel
    requires (s.left == t.sentinel && temp == s.right) || (s.right == t.sentinel && temp == s.left)
    modifies t`nodes, t.nodes`left, t.nodes`right, t.nodes`parent, t.nodes`lo, t.nodes`hi, t.sentinel`parent
    ensures Shape(t) && t.nodes != {} && t.nodes == old(t.nodes) - {s}
    ensures temp.parent == old(s.parent) && s.parent == old(s.parent) && temp != t.root
    ensures forall n :: n in t.nodes ==>
      && n.left == (if old(n.left) == s then temp else old(n.left))
      && n.right == (if old(n.right) == s then temp else old(n.right))
  {
    ShapeOneLink(t, s);
    assert Links(t, s) && Links(t, s.parent);
    assert temp in t.nodes ==> Links(t, temp);
    DropLinks(t, s, temp);
    forall n | n in t.nodes
      ensures Links(t, n)
    {
      assert old(Links(t, n));
    }
    assert t.root in t.nodes;
  }

  method Drop(t: Tree, s: Node, temp: Node)
    requires Shape(t) && Balanced(t) && Coloured(t, null) && !IsRed(t, t.root) && t.sentinel.color == Black
    requires s in t.nodes && s != t.root
    requires (s.left == t.sentinel && temp == s.right) || (s.right == t.sentinel && temp == s.left)
    modifies t`nodes, t.nodes`left, t.nodes`right, t.nodes`parent, t.nodes`lo, t.nodes`hi, t.sentinel`parent
    ensures t.nodes == old(t.nodes) - {s} && s.parent == old(s.parent) && temp.parent == s.parent && temp != t.root
    ensures if s.color == Black then MissingAt(t, temp)
            else Shape(t) && t.nodes != {} && Balanced(t) && Coloured(t, null) && !IsRed(t, t.root)
  {
    OnlyChild(t, s, temp);
    assert Links(t, s) && Links(t, s.parent) && EqualHeights(t, s.parent) && NoRedRed(t, s.parent, null);
    DropShape(t, s, temp);
    hide Shape;
    if s.color == Black {
      assert Deficits(t, temp) by {
        hide Coloured, NoRedRed;
        forall n | n in t.nodes
          ensures Deficit(t, n, temp)
        {
          assert old(Links(t, n) && EqualHeights(t, n));
        }
      }
      assert RedFree(t, temp) by {
        hide Balanced, EqualHeights, Height;
        forall n | n in t.nodes && n != temp
          ensures NoRedRed(t, n, temp)
        {
          assert old(Links(t, n) && NoRedRed(t, n, null));
        }
      }
    } else {
      assert Balanced(t) by {
        forall n | n in t.nodes
          ensures EqualHeights(t, n)
        {
          assert old(Links(t, n) && EqualHeights(t, n));
        }
      }
      forall n | n in t.nodes
        ensures NoRedRed(t, n, null)
      {
        assert old(Links(t, n) && NoRedRed(t, n, null));
      }
    }
  }

  /** Replacing `node` by a node from outside keeps the shape. */
  method TakeOver(t: Tree, node: Node, subst: Node, temp: Node)
    requires Shape(t) && node in t.nodes && subst !in t.nodes && subst != t.sentinel
    requires Hangs(t, temp) && temp != t.root
    modifies t`root, t`nodes, t.nodes`left, t.nodes`right, t.nodes`parent, t.sentinel`parent
    modifies subst`left, subst`right, subst`parent, subst`color, subst`pos, subst`lo, subst`hi, subst`bh
    ensures Shape(t) && t.nodes == old(t.nodes) - {node} + {subst}
    ensures t.root == if node == old(t.root) then subst else old(t.root)
    ensures subst.left == old(node.left) && subst.right == old(node.right) && subst.parent == old(node.parent)
    ensures subst.color == node.color && subst.pos == node.pos && subst.bh == node.bh
    ensures forall n :: n in old(t.nodes) && n != node ==>
      && n.left == (if old(n.left) == node then subst else old(n.left))
      && n.right == (if old(n.right) == node then subst else old(n.right))
    ensures temp.parent == if old(temp.parent) == node then subst else old(temp.parent)
  {
    ShapeOneLink(t, node);
    assert Links(t, node) && (node != t.root ==> Links(t, node.parent)) && (temp in t.nodes ==> Links(t, temp));
    TakePlace(t, node, subst, temp);
    forall n | n in t.nodes
      ensures Links(t, n)
    {
      assert n != subst ==> old(Links(t, n));
    }
  }

  /** Replacing `node` in the state that Drop leaves behind keeps that state. */
  method Substitute(t: Tree, node: Node, subst: Node, temp: Node)
    requires MissingAt(t, temp) && !IsRed(t, t.root) && temp != t.root
    requires node in t.nodes && temp != node && subst !in t.nodes && subst != t.sentinel
    modifies t`root, t`nodes, t.nodes`left, t.nodes`right, t.nodes`parent, t.sentinel`parent
    modifies subst`left, subst`right, subst`parent, subst`color, subst`pos, subst`lo, subst`hi, subst`bh
    ensures t.nodes == old(t.nodes) - {node} + {subst}
    ensures MissingAt(t, temp)
    ensures subst.pos == node.pos
  {
    assert Deficit(t, node, temp) && NoRedRed(t, node, temp) && Links(t, node);
    TakeOver(t, node, subst, temp);
    assert Deficits(t, temp) by {
      hide RedFree, NoRedRed, IsRed;
      assert Height(t, subst) == old(Height(t, node));
      forall n | n in t.nodes
        ensures Deficit(t, n, temp)
      {
        if n == subst {
          assert Height(t, n.left) == old(Height(t, node.left)) && Height(t, n.right) == old(Height(t, node.right));
        } else {
          assert old(Links(t, n) && Deficit(t, n, temp));
          assert Height(t, n.left) == old(Height(t, n.left)) && Height(t, n.right) == old(Height(t, n.right));
        }
      }
    }
    hide Deficits, Deficit, EqualHeights, Height;
    forall n | n in t.nodes && n != temp
      ensures NoRedRed(t, n, temp)
    {
      assert n != subst ==> old(Links(t, n) && NoRedRed(t, n, temp));
    }
  }

  /** The same, when nothing is missing. */
  method SubstituteWhole(t: Tree, node: Node, subst: Node, temp: Node)
    requires Shape(t) && Balanced(t) && Coloured(t, null) && !IsRed(t, t.root)
    requires Hangs(t, temp) && temp != t.root
    requires node in t.nodes && temp != node && subst !in t.nodes && subst != t.sentinel
    modifies t`root, t`nodes, t.nodes`left, t.nodes`right, t.nodes`parent, t.sentinel`parent
    modifies subst`left, subst`right, subst`parent, subst`color, subst`pos, subst`lo, subst`hi, subst`bh
    ensures t.nodes == old(t.nodes) - {node} + {subst}
    ensures Shape(t) && Balanced(t) && Coloured(t, null) && !IsRed(t, t.root)
    ensures subst.pos == node.pos
  {
    assert EqualHeights(t, node) && NoRedRed(t, node, null) && Links(t, node);
    TakeOver(t, node, subst, temp);
    assert Balanced(t) by {
      hide Coloured, NoRedRed, IsRed;
      assert Height(t, subst) == old(Height(t, node));
      forall n | n in t.nodes
        ensures EqualHeights(t, n)
      {
        if n == subst {
          assert Height(t, n.left) == old(Height(t, node.left)) && Height(t, n.right) == old(Height(t, node.right));
        } else {
          assert old(Links(t, n) && EqualHeights(t, n));
          assert Height(t, n.left) == old(Height(t, n.left)) && Height(t, n.right) == old(Height(t, n.right));
        }
      }
    }
    hide Balanced, EqualHeights, Height;
    forall n | n in t.nodes
      ensures NoRedRed(t, n, null)
    {
      assert n != subst ==> old(Links(t, n) && NoRedRed(t, n, null));
    }
  }

  /** `now` is `before` without the node at `k`. */
  ghost predicate Removed(before: seq<Node>, k: nat, node: Node, now: seq<Node>)
  {
    k < |before| && before[k] == node && now == before[..k] + before[k + 1..]
  }

  /** Lines 173-183: the root has at most one child, which is a red leaf or the sentinel. */
  method DeleteRoot(t: Tree, temp: Node)
    requires Shape(t) && Balanced(t) && Coloured(t, null) && !IsRed(t, t.root) && t.sentinel.color == Black && t.nodes != {}
    requires (t.root.left == t.sentinel && temp == t.root.right) || (t.root.right == t.sentinel && temp == t.root.left)
    modifies t`root, t`nodes, t.nodes`color, t.nodes`lo, t.nodes`hi, t.sentinel`color
    ensures t.nodes == old(t.nodes) - {old(t.root)}
    ensures Shape(t) && t.sentinel.color == Black && !IsRed(t, t.root) && Balanced(t) && Coloured(t, null)
  {
    ghost var node := t.root;
    OnlyChild(t, t.root, temp);
    assert Links(t, node);
    assert forall n :: n in t.nodes ==> n == node || n == temp by {
      forall n | n in t.nodes
        ensures n == node || n == temp
      {
        assert Links(t, n);
        InsideIsWalked(t, node, n);
        assert Walk(t, temp) == if temp in t.nodes then [temp] else [];
      }
    }
    t.root := temp;
    temp.color := Black;
    t.nodes := t.nodes - {node};
    if temp != t.sentinel {
      temp.lo, temp.hi := 0.0, 1.0;
      assert t.nodes == {temp};
      assert Links(t, temp) && EqualHeights(t, temp) && NoRedRed(t, temp, null);
    }
  }

  /** The sequence lists the nodes but `gone`, increasing once `subst` has the label `at`. */
  ghost predicate ListsRest(s: seq<Node>, nodes: set<Node>, gone: set<Node>, subst: Node, at: real)
    reads nodes`pos, s`pos
  {
    && (forall n :: n in s ==> n in nodes && n !in gone)
    && (forall n :: n in nodes && n !in gone ==> n in s)
    && (forall i, j :: 0 <= i < j < |s| ==>
          (if s[i] == subst then at else s[i].pos) < (if s[j] == subst then at else s[j].pos))
  }

  ghost predicate OrderedAfter(t: Tree, gone: set<Node>, subst: Node, at: real)
    reads t`order, t`nodes, t.nodes`pos, t.order`pos
  {
    ListsRest(t.order, t.nodes, gone, subst, at)
  }

  lemma StillThere(s: seq<Node>, k: nat, n: Node)
    requires k < |s| && n in s && n != s[k]
    ensures n in s[..k] + s[k + 1..]
  {
    assert s == s[..k] + [s[k]] + s[k + 1..];
  }

  /** Removes `node` from the ghost sequence; `subst`, the next node or `node` itself, will take its label. */
  ghost method Forget(t: Tree, node: Node, subst: Node) returns (k: nat)
    requires Ordered(t) && node in t.nodes && subst in t.nodes && node.pos <= subst.pos
    requires forall n :: n in t.nodes ==> n.pos <= node.pos || subst.pos <= n.pos
    modifies t`order
    ensures Removed(old(t.order), k, node, t.order)
    ensures OrderedAfter(t, {node}, subst, node.pos)
    ensures old(Sorted(t)) ==> Sorted(t)
  {
    k :| 0 <= k < |t.order| && t.order[k] == node;
    RestListed(t, k, subst);
    hide *;
    t.order := t.order[..k] + t.order[k + 1..];
  }

  lemma RestListed(t: Tree, k: nat, subst: Node)
    requires Ordered(t) && k < |t.order| && t.order[k].pos <= subst.pos
    requires forall n :: n in t.nodes ==> n.pos <= t.order[k].pos || subst.pos <= n.pos
    ensures var now := t.order[..k] + t.order[k + 1..];
      && ListsRest(now, t.nodes, {t.order[k]}, subst, t.order[k].pos)
      && (Sorted(t) ==> SortedSeq(now))
  {
    var now := t.order[..k] + t.order[k + 1..];
    GapOrder(t.order, k, subst);
    SkippingAll(t.order, k);
    assert Sorted(t) ==> SortedSeq(now);
    hide Sorted, SortedSeq;
    forall n | n in t.nodes && n != t.order[k]
      ensures n in now
    {
      StillThere(t.order, k, n);
    }
  }

  /** The old index of the i-th element after the k-th is gone. */
  function Skipping(i: nat, k: nat): nat {
    if i < k then i else i + 1
  }

  lemma SkippingAll(was: seq<Node>, k: nat)
    requires k < |was|
    ensures var now := was[..k] + was[k + 1..];
      |now| == |was| - 1 && forall i :: 0 <= i < |now| ==> now[i] == was[Skipping(i, k)]
  {
  }

  /** Without its k-th node the sequence stays increasing if the next node, or
      nobody, takes over the label. */
  lemma GapOrder(was: seq<Node>, k: nat, subst: Node)
    requires Increasing(was) && k < |was| && was[k].pos <= subst.pos
    requires forall n :: n in was ==> n.pos <= was[k].pos || subst.pos <= n.pos
    ensures var now, at := was[..k] + was[k + 1..], was[k].pos;
      forall i, j :: 0 <= i < j < |now| ==>
        (if now[i] == subst then at else now[i].pos) < (if now[j] == subst then at else now[j].pos)
  {
    var now, at := was[..k] + was[k + 1..], was[k].pos;
    forall i, j | 0 <= i < j < |now|
      ensures (if now[i] == subst then at else now[i].pos) < (if now[j] == subst then at else now[j].pos)
    {
      var a, b := Skipping(i, k), Skipping(j, k);
      var x, y := was[a], was[b];
      assert now[i] == x && now[j] == y;
      assert x.pos < y.pos;
      assert if a < k then x.pos < at else at < x.pos;
      assert if b < k then y.pos < at else at < y.pos;
      assert x in was && y in was;
    }
  }

  /** Lines 155-171: the node to splice out and its only child. */
  method Choose(t: Tree, node: Node) returns (subst: Node, temp: Node)
    requires Shape(t) && Balanced(t) && Coloured(t, null) && node in t.nodes
    ensures subst in t.nodes && Hangs(t, temp) && temp != node && node.pos <= subst.pos
    ensures (subst.left == t.sentinel && temp == subst.right) || (subst.right == t.sentinel && temp == subst.left)
    ensures forall n :: n in t.nodes ==> n.pos <= node.pos || subst.pos <= n.pos
    ensures subst == node || subst != t.root
  {
    assert Links(t, node);
    if node.left == t.sentinel {
      temp := node.right;
      subst := node;
    } else if node.right == t.sentinel {
      temp := node.left;
      subst := node;
    } else {
      assert Links(t, node.right);
      ghost var steps;
      subst, steps := Min(t, node.right);
      assert Links(t, subst);
      temp := subst.right;  // subst.left is the sentinel: the test of lines 166-170 always falls through
      forall n | n in t.nodes
        ensures n.pos <= node.pos || subst.pos <= n.pos
      {
        Gap(t, subst, n);
      }
    }
    OnlyChild(t, subst, temp);
  }

  /** Takes `subst` out and lets it replace `node`: lines 186-231. */
  method Splice(t: Tree, node: Node, subst: Node, temp: Node)
    requires Shape(t) && Balanced(t) && Coloured(t, null) && !IsRed(t, t.root) && t.sentinel.color == Black
    requires node in t.nodes && subst in t.nodes && subst != t.root && temp != node && Hangs(t, temp)
    requires (subst.left == t.sentinel && temp == subst.right) || (subst.right == t.sentinel && temp == subst.left)
    modifies t`root, t`nodes, t.nodes`left, t.nodes`right, t.nodes`parent, t.nodes`lo, t.nodes`hi, t.sentinel`parent
    modifies subst`color, subst`pos, subst`bh
    ensures t.nodes == old(t.nodes) - {node}
    ensures subst.pos == node.pos
    ensures if old(subst.color) == Black then MissingAt(t, temp)
            else Shape(t) && Balanced(t) && Coloured(t, null) && !IsRed(t, t.root)
  {
    OnlyChild(t, subst, temp);
    assert Links(t, subst);
    var red := subst.color.Red?;
    Drop(t, subst, temp);
    hide Shape, Balanced, Coloured, Deficits, RedFree;
    if subst != node {
      if red {
        SubstituteWhole(t, node, subst, temp);
      } else {
        Substitute(t, node, subst, temp);
      }
    }
  }

  /** Everything before the fix-up: lines 173-231. */
  method Excise(t: Tree, node: Node, subst: Node, temp: Node) returns (ghost k: nat)
    requires Valid(t) && node in t.nodes && subst in t.nodes && temp != node && Hangs(t, temp) && node.pos <= subst.pos
    requires (subst.left == t.sentinel && temp == subst.right) || (subst.right == t.sentinel && temp == subst.left)
    requires forall n :: n in t.nodes ==> n.pos <= node.pos || subst.pos <= n.pos
    requires subst == node || subst != t.root
    modifies t`root, t`nodes, t`order
    modifies t.nodes`left, t.nodes`right, t.nodes`parent, t.nodes`color, t.nodes`pos, t.nodes`lo, t.nodes`hi, t.nodes`bh
    modifies t.sentinel`parent, t.sentinel`color
    ensures t.nodes == old(t.nodes) - {node}
    ensures Ordered(t) && Removed(old(t.order), k, node, t.order)
    ensures old(Sorted(t)) ==> Sorted(t)
    ensures if old(subst == t.root || subst.color == Red)
            then Shape(t) && t.sentinel.color == Black && !IsRed(t, t.root) && Balanced(t) && Coloured(t, null)
            else MissingAt(t, temp)
  {
    hide Shape, Balanced, Coloured, MissingAt, Removed, Sorted;
    k := Forget(t, node, subst);
    if subst == t.root {
      DeleteRoot(t, temp);
    } else {
      Splice(t, node, subst, temp);
    }
  }

  method Clear(node: Node)
    modifies node`left, node`right, node`parent, node`key
    ensures node.left == null && node.right == null && node.parent == null && node.key == 0
  {
    node.left := null;
    node.right := null;
    node.parent := null;
    node.key := 0;
  }

  /** Removes `node`; its successor, if it has two children, takes its place. */
  method Delete(t: Tree, node: Node) returns (ghost k: nat)
    requires Valid(t) && node in t.nodes
    modifies t`root, t`nodes, t`order
    modifies t.nodes`left, t.nodes`right, t.nodes`parent, t.nodes`color, t.nodes`pos, t.nodes`lo, t.nodes`hi, t.nodes`bh
    modifies t.sentinel`parent, t.sentinel`color, node`key
    ensures Valid(t) && t.nodes == old(t.nodes) - {node}
    ensures Removed(old(t.order), k, node, t.order)
    ensures old(Sorted(t)) ==> Sorted(t)
    ensures Walk(t, t.root) == t.order
    ensures node.left == null && node.right == null && node.parent == null && node.key == 0
  {
    hide Shape, Ordered, Balanced, Coloured, Removed, Deficits, RedFree, Sorted;
    var subst, temp := Choose(t, node);
    var done := subst == t.root || subst.color.Red?;
    k := Excise(t, node, subst, temp);
    Clear(node);
    if !done {
      Fixup(t, temp);
    }
    WalkIsOrder(t);
  }
}
