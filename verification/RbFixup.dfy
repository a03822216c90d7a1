/** The fix-up loop of a deletion (src/ds_rbtree.c:243-307). */
module RbFixup {
  import opened RbNodes
  import opened RbRotate
  import opened RbOrder
  import opened RbInsert

  /** Equal black heights, except that the side of `temp` lacks one black node at its parent. */
  ghost predicate Deficit(t: Tree, n: Node, temp: Node)
    requires n in t.nodes
    reads t`root, t`nodes, t.nodes`left, t.nodes`right, t.nodes`color, t.nodes`bh, temp`parent
  {
    if temp != t.root && n == temp.parent then
      || (n.left == temp && Height(t, n.left) + 1 == n.bh == Height(t, n.right))
      || (n.right == temp && Height(t, n.right) + 1 == n.bh == Height(t, n.left))
    else EqualHeights(t, n)
  }

  ghost predicate Deficits(t: Tree, temp: Node)
    reads t`root, t`nodes, t.nodes`left, t.nodes`right, t.nodes`color, t.nodes`bh, temp`parent
  {
    forall n {:trigger Deficit(t, n, temp)} :: n in t.nodes ==> Deficit(t, n, temp)
  }

  /** No red-red edge, except edges at `temp`. */
  ghost predicate RedFree(t: Tree, temp: Node)
    reads t`nodes, t.nodes`left, t.nodes`right, t.nodes`color
  {
    forall n {:trigger NoRedRed(t, n, temp)} :: n in t.nodes && n != temp ==> NoRedRed(t, n, temp)
  }

  /** The state at the head of the delete fix-up: one black node is missing on
      every path through `temp`, which may be the shared sentinel. */
  ghost predicate MissingAt(t: Tree, temp: Node)
    reads t`root, t`nodes, t.sentinel`color, temp`parent
    reads t.nodes`left, t.nodes`right, t.nodes`parent, t.nodes`lo, t.nodes`hi, t.nodes`pos, t.nodes`color, t.nodes`bh
  {
    && Shape(t) && t.nodes != {}
    && t.sentinel.color == Black
    && Hangs(t, temp)
    && (temp != t.root ==> temp.parent in t.nodes && (temp.parent.left == temp || temp.parent.right == temp))
    && (IsRed(t, t.root) ==> t.root == temp)
    && Deficits(t, temp)
    && RedFree(t, temp)
  }

  /** The nodes outside the gap or subtree that `temp` fills. */
  ghost function Beyond(t: Tree, temp: Node): set<Node>
    reads t`root, t`nodes, t.nodes`pos, temp`parent, temp.parent
  {
    if temp == t.root || temp.parent == null then {}
    else if temp.parent.left == temp then set n | n in t.nodes && !(temp.parent.lo < n.pos < temp.parent.pos)
    else set n | n in t.nodes && !(temp.parent.pos < n.pos < temp.parent.hi)
  }

  lemma Climb(t: Tree, temp: Node)
    requires MissingAt(t, temp) && temp != t.root
    ensures Beyond(t, temp.parent) < Beyond(t, temp)
  {
    var p := temp.parent;
    assert Links(t, p) && p in Beyond(t, temp);
    if p != t.root {
      assert Links(t, p.parent);
    }
  }

  /** A red-black tree misses nothing: the fix-up may stop at the root. */
  lemma RootMissing(t: Tree)
    requires Shape(t) && t.nodes != {} && t.sentinel.color == Black
    requires !IsRed(t, t.root) && Balanced(t) && Coloured(t, null)
    ensures MissingAt(t, t.root)
  {
    forall n | n in t.nodes
      ensures Deficit(t, n, t.root) && NoRedRed(t, n, t.root)
    {
      assert EqualHeights(t, n) && NoRedRed(t, n, null);
    }
  }

  method Redden(t: Tree, w: Node, ghost p: Node)
    requires w in t.nodes && p in t.nodes && p.bh > 0
    modifies t.nodes`color, t.nodes`bh
    ensures forall n :: n in t.nodes ==>
      n.color == (if n == w then Red else old(n.color)) && n.bh == (if n == p then old(p.bh) - 1 else old(n.bh))
  {
    w.color := Red;
    p.bh := p.bh - 1;
  }

  method PaintLast(t: Tree, p: Node, w: Node, r: Node)
    requires p in t.nodes && w in t.nodes && r in t.nodes && p != w && p != r && w != r && p.bh > 0
    modifies t.nodes`color, t.nodes`bh
    ensures forall n :: n in t.nodes ==>
      && n.color == (if n == w then old(p.color) else if n == p || n == r then Black else old(n.color))
      && n.bh == (if n == w then old(w.bh) + 1 else if n == p then old(p.bh) - 1 else old(n.bh))
  {
    w.color := p.color;
    p.color := Black;
    r.color := Black;
    w.bh, p.bh := w.bh + 1, p.bh - 1;
  }

  /** The sibling of a left child that misses a black node is a node, never the sentinel. */
  lemma RightSibling(t: Tree, temp: Node)
    requires MissingAt(t, temp) && temp != t.root && temp == temp.parent.left
    ensures temp.parent.right in t.nodes && temp.parent.right != temp
    ensures Height(t, temp) + 1 == temp.parent.bh == Height(t, temp.parent.right)
    ensures Links(t, temp.parent) && Links(t, temp.parent.right) && (temp.parent != t.root ==> Links(t, temp.parent.parent))
    ensures EqualHeights(t, temp.parent.right) && NoRedRed(t, temp.parent, temp) && NoRedRed(t, temp.parent.right, temp)
  {
    assert Deficit(t, temp.parent, temp);
    assert Links(t, temp.parent) && Links(t, temp.parent.right);
    assert Deficit(t, temp.parent.right, temp);
  }

  /** Red sibling: lines 250-255. */
  method LeftRedSibling(t: Tree, temp: Node)
    requires MissingAt(t, temp) && temp != t.root && temp == temp.parent.left && !IsRed(t, temp)
    requires IsRed(t, temp.parent.right)
    modifies t`root, t.nodes`left, t.nodes`right, t.nodes`parent, t.nodes`lo, t.nodes`hi, t.nodes`color
    ensures MissingAt(t, temp) && temp != t.root && temp.parent == old(temp.parent) && temp == temp.parent.left
    ensures !IsRed(t, temp) && !IsRed(t, temp.parent.right) && IsRed(t, temp.parent)
    ensures temp.parent.lo == old(temp.parent.lo)
  {
    RightSibling(t, temp);
    ghost var p, w := temp.parent, temp.parent.right;
    LeftRotateRed(t, temp.parent);
    assert Deficits(t, temp) by {
      hide NoRedRed, RedFree, Coloured, IsRed;
      forall n | n in t.nodes
        ensures Deficit(t, n, temp)
      {
        assert old(Deficit(t, n, temp)) && old(Links(t, n));
      }
    }
    hide Deficits, Deficit, EqualHeights, Height;
    forall n | n in t.nodes && n != temp
      ensures NoRedRed(t, n, temp)
    {
      assert old(NoRedRed(t, n, temp)) && old(Links(t, n));
    }
  }

  /** Black sibling without a red child: lines 257-259. */
  method LeftDarken(t: Tree, temp: Node)
    requires MissingAt(t, temp) && temp != t.root && temp == temp.parent.left && !IsRed(t, temp)
    requires temp.parent.right in t.nodes && !IsRed(t, temp.parent.right)
    requires !IsRed(t, temp.parent.right.left) && !IsRed(t, temp.parent.right.right)
    modifies t.nodes`color, t.nodes`bh
    ensures temp.parent in t.nodes && MissingAt(t, temp.parent)
  {
    RightSibling(t, temp);
    ghost var p, w := temp.parent, temp.parent.right;
    Redden(t, temp.parent.right, p);
    assert Deficits(t, p) by {
      hide NoRedRed, RedFree, Coloured, IsRed;
      forall n | n in t.nodes
        ensures Deficit(t, n, p)
      {
        assert old(Deficit(t, n, temp)) && Links(t, n);
        if n != p && n != p.parent {
          assert Height(t, n.left) == old(Height(t, n.left)) && Height(t, n.right) == old(Height(t, n.right));
        }
      }
    }
    hide Deficits, Deficit, EqualHeights, Height;
    forall n | n in t.nodes && n != p
      ensures NoRedRed(t, n, p)
    {
      assert n != temp ==> old(NoRedRed(t, n, temp));
      assert Links(t, n);
    }
  }

  /** Black sibling whose only red child is the near one: lines 262-267. */
  method LeftTurnSibling(t: Tree, temp: Node)
    requires MissingAt(t, temp) && temp != t.root && temp == temp.parent.left && !IsRed(t, temp)
    requires temp.parent.right in t.nodes && !IsRed(t, temp.parent.right)
    requires IsRed(t, temp.parent.right.left) && !IsRed(t, temp.parent.right.right)
    modifies t`root, t.nodes`left, t.nodes`right, t.nodes`parent, t.nodes`lo, t.nodes`hi, t.nodes`color
    ensures MissingAt(t, temp) && temp != t.root && temp.parent == old(temp.parent) && temp == temp.parent.left && !IsRed(t, temp)
    ensures temp.parent.right in t.nodes && !IsRed(t, temp.parent.right) && IsRed(t, temp.parent.right.right)
    ensures temp.parent.lo == old(temp.parent.lo)
  {
    RightSibling(t, temp);
    ghost var p, w := temp.parent, temp.parent.right;
    assert Links(t, w.left) && NoRedRed(t, w.left, temp) && Deficit(t, w.left, temp);
    RightRotateRed(t, temp.parent.right);
    assert Deficits(t, temp) by {
      hide NoRedRed, RedFree, Coloured, IsRed;
      forall n | n in t.nodes
        ensures Deficit(t, n, temp)
      {
        assert old(Deficit(t, n, temp)) && old(Links(t, n));
      }
    }
    hide Deficits, Deficit, EqualHeights, Height;
    forall n | n in t.nodes && n != temp
      ensures NoRedRed(t, n, temp)
    {
      assert old(NoRedRed(t, n, temp)) && old(Links(t, n));
    }
  }

  /** The assignments of the last case, on links, colours and heights alone. */
  method LeftTurnPainted(t: Tree, p: Node)
    requires Shape(t) && p in t.nodes && p.right in t.nodes && p.right.right in t.nodes && p.bh > 0
    modifies t`root, t.nodes`left, t.nodes`right, t.nodes`parent, t.nodes`lo, t.nodes`hi, t.nodes`color, t.nodes`bh
    ensures t.root == if p == old(t.root) then old(p.right) else old(t.root)
    ensures Shape(t)
    ensures var w, b, r := old(p.right), old(p.right.left), old(p.right.right);
      forall n :: n in t.nodes ==>
        && n.left == (if n == w then p else if old(n.left) == p then w else old(n.left))
        && n.right == (if n == p then b else if old(n.right) == p then w else old(n.right))
        && n.color == (if n == w then old(p.color) else if n == p || n == r then Black else old(n.color))
        && n.bh == (if n == w then old(w.bh) + 1 else if n == p then old(p.bh) - 1 else old(n.bh))
  {
    assert Links(t, p) && Links(t, p.right) && Links(t, p.right.right);
    PaintLast(t, p, p.right, p.right.right);
    LeftRotate(t, p);
  }

  /** Black sibling with a red child on the far side: lines 269-273. */
  method LeftLastTurn(t: Tree, temp: Node)
    requires MissingAt(t, temp) && temp != t.root && temp == temp.parent.left && !IsRed(t, temp)
    requires temp.parent.right in t.nodes && !IsRed(t, temp.parent.right) && IsRed(t, temp.parent.right.right)
    modifies t`root, t.nodes`left, t.nodes`right, t.nodes`parent, t.nodes`lo, t.nodes`hi, t.nodes`color, t.nodes`bh
    ensures Shape(t) && !IsRed(t, t.root) && Balanced(t) && Coloured(t, null)
  {
    RightSibling(t, temp);
    ghost var p, w := temp.parent, temp.parent.right;
    LeftTurnPainted(t, temp.parent);
    assert Balanced(t) by {
      hide NoRedRed, RedFree, Coloured, IsRed;
      forall n | n in t.nodes
        ensures EqualHeights(t, n)
      {
        assert old(Links(t, n));
        if n != p && n != w {
          assert old(Deficit(t, n, temp));
          assert Height(t, n.left) == old(Height(t, n.left)) && Height(t, n.right) == old(Height(t, n.right));
        }
      }
    }
    hide Balanced, Deficit, EqualHeights, Height;
    forall n | n in t.nodes
      ensures NoRedRed(t, n, null)
    {
      assert n != temp ==> old(NoRedRed(t, n, temp));
      assert old(Links(t, n));
    }
  }

  /** One turn of the loop when `temp` is a left child: lines 247-274. */
  method MissingLeft(t: Tree, temp: Node) returns (next: Node)
    requires MissingAt(t, temp) && temp != t.root && temp == temp.parent.left && !IsRed(t, temp)
    modifies t`root, t.nodes`left, t.nodes`right, t.nodes`parent, t.nodes`lo, t.nodes`hi, t.nodes`color, t.nodes`bh
    ensures MissingAt(t, next) && Beyond(t, next) < old(Beyond(t, temp))
  {
    hide Deficits, RedFree, Balanced, Coloured, EqualHeights, NoRedRed, Height;
    RightSibling(t, temp);
    var w := temp.parent.right;
    if w.color.Red? {
      LeftRedSibling(t, temp);
      RightSibling(t, temp);
      assert Beyond(t, temp) == old(Beyond(t, temp));
      w := temp.parent.right;
    }
    if w.left.color.Black? && w.right.color.Black? {
      Climb(t, temp);
      LeftDarken(t, temp);
      next := temp.parent;
    } else {
      if w.right.color.Black? {
        LeftTurnSibling(t, temp);
        RightSibling(t, temp);
        assert Beyond(t, temp) == old(Beyond(t, temp));
      }
      assert temp.parent in Beyond(t, temp);
      LeftLastTurn(t, temp);
      RootMissing(t);
      next := t.root;
    }
  }

  /** The sibling of a right child that misses a black node is a node, never the sentinel. */
  lemma LeftSibling(t: Tree, temp: Node)
    requires MissingAt(t, temp) && temp != t.root && temp == temp.parent.right
    ensures temp.parent.left in t.nodes && temp.parent.left != temp
    ensures Height(t, temp) + 1 == temp.parent.bh == Height(t, temp.parent.left)
    ensures Links(t, temp.parent) && Links(t, temp.parent.left) && (temp.parent != t.root ==> Links(t, temp.parent.parent))
    ensures EqualHeights(t, temp.parent.left) && NoRedRed(t, temp.parent, temp) && NoRedRed(t, temp.parent.left, temp)
  {
    assert Deficit(t, temp.parent, temp);
    assert Links(t, temp.parent) && Links(t, temp.parent.left);
    assert Deficit(t, temp.parent.left, temp);
  }

  /** Red sibling: lines 279-284. */
  method RightRedSibling(t: Tree, temp: Node)
    requires MissingAt(t, temp) && temp != t.root && temp == temp.parent.right && !IsRed(t, temp)
    requires IsRed(t, temp.parent.left)
    modifies t`root, t.nodes`left, t.nodes`right, t.nodes`parent, t.nodes`lo, t.nodes`hi, t.nodes`color
    ensures MissingAt(t, temp) && temp != t.root && temp.parent == old(temp.parent) && temp == temp.parent.right
    ensures !IsRed(t, temp) && !IsRed(t, temp.parent.left) && IsRed(t, temp.parent)
    ensures temp.parent.hi == old(temp.parent.hi)
  {
    LeftSibling(t, temp);
    ghost var p, w := temp.parent, temp.parent.left;
    RightRotateRed(t, temp.parent);
    assert Deficits(t, temp) by {
      hide NoRedRed, RedFree, Coloured, IsRed;
      forall n | n in t.nodes
        ensures Deficit(t, n, temp)
      {
        assert old(Deficit(t, n, temp)) && old(Links(t, n));
      }
    }
    hide Deficits, Deficit, EqualHeights, Height;
    forall n | n in t.nodes && n != temp
      ensures NoRedRed(t, n, temp)
    {
      assert old(NoRedRed(t, n, temp)) && old(Links(t, n));
    }
  }

  /** Black sibling without a red child: lines 286-288. */
  method RightDarken(t: Tree, temp: Node)
    requires MissingAt(t, temp) && temp != t.root && temp == temp.parent.right && !IsRed(t, temp)
    requires temp.parent.left in t.nodes && !IsRed(t, temp.parent.left)
    requires !IsRed(t, temp.parent.left.left) && !IsRed(t, temp.parent.left.right)
    modifies t.nodes`color, t.nodes`bh
    ensures temp.parent in t.nodes && MissingAt(t, temp.parent)
  {
    LeftSibling(t, temp);
    ghost var p, w := temp.parent, temp.parent.left;
    Redden(t, temp.parent.left, p);
    assert Deficits(t, p) by {
      hide NoRedRed, RedFree, Coloured, IsRed;
      forall n | n in t.nodes
        ensures Deficit(t, n, p)
      {
        assert old(Deficit(t, n, temp)) && Links(t, n);
        if n != p && n != p.parent {
          assert Height(t, n.left) == old(Height(t, n.left)) && Height(t, n.right) == old(Height(t, n.right));
        }
      }
    }
    hide Deficits, Deficit, EqualHeights, Height;
    forall n | n in t.nodes && n != p
      ensures NoRedRed(t, n, p)
    {
      assert n != temp ==> old(NoRedRed(t, n, temp));
      assert Links(t, n);
    }
  }

  /** Black sibling whose only red child is the near one: lines 291-296. */
  method RightTurnSibling(t: Tree, temp: Node)
    requires MissingAt(t, temp) && temp != t.root && temp == temp.parent.right && !IsRed(t, temp)
    requires temp.parent.left in t.nodes && !IsRed(t, temp.parent.left)
    requires IsRed(t, temp.parent.left.right) && !IsRed(t, temp.parent.left.left)
    modifies t`root, t.nodes`left, t.nodes`right, t.nodes`parent, t.nodes`lo, t.nodes`hi, t.nodes`color
    ensures MissingAt(t, temp) && temp != t.root && temp.parent == old(temp.parent) && temp == temp.parent.right && !IsRed(t, temp)
    ensures temp.parent.left in t.nodes && !IsRed(t, temp.parent.left) && IsRed(t, temp.parent.left.left)
    ensures temp.parent.hi == old(temp.parent.hi)
  {
    LeftSibling(t, temp);
    ghost var p, w := temp.parent, temp.parent.left;
    assert Links(t, w.right) && NoRedRed(t, w.right, temp) && Deficit(t, w.right, temp);
    LeftRotateRed(t, temp.parent.left);
    assert Deficits(t, temp) by {
      hide NoRedRed, RedFree, Coloured, IsRed;
      forall n | n in t.nodes
        ensures Deficit(t, n, temp)
      {
        assert old(Deficit(t, n, temp)) && old(Links(t, n));
      }
    }
    hide Deficits, Deficit, EqualHeights, Height;
    forall n | n in t.nodes && n != temp
      ensures NoRedRed(t, n, temp)
    {
      assert old(NoRedRed(t, n, temp)) && old(Links(t, n));
    }
  }

  /** The assignments of the last case, on links, colours and heights alone. */
  method RightTurnPainted(t: Tree, p: Node)
    requires Shape(t) && p in t.nodes && p.left in t.nodes && p.left.left in t.nodes && p.bh > 0
    modifies t`root, t.nodes`left, t.nodes`right, t.nodes`parent, t.nodes`lo, t.nodes`hi, t.nodes`color, t.nodes`bh
    ensures t.root == if p == old(t.root) then old(p.left) else old(t.root)
    ensures Shape(t)
    ensures var w, b, r := old(p.left), old(p.left.right), old(p.left.left);
      forall n :: n in t.nodes ==>
        && n.right == (if n == w then p else if old(n.right) == p then w else old(n.right))
        && n.left == (if n == p then b else if old(n.left) == p then w else old(n.left))
        && n.color == (if n == w then old(p.color) else if n == p || n == r then Black else old(n.color))
        && n.bh == (if n == w then old(w.bh) + 1 else if n == p then old(p.bh) - 1 else old(n.bh))
  {
    assert Links(t, p) && Links(t, p.left) && Links(t, p.left.left);
    PaintLast(t, p, p.left, p.left.left);
    RightRotate(t, p);
  }

  /** Black sibling with a red child on the far side: lines 298-302. */
  method RightLastTurn(t: Tree, temp: Node)
    requires MissingAt(t, temp) && temp != t.root && temp == temp.parent.right && !IsRed(t, temp)
    requires temp.parent.left in t.nodes && !IsRed(t, temp.parent.left) && IsRed(t, temp.parent.left.left)
    modifies t`root, t.nodes`left, t.nodes`right, t.nodes`parent, t.nodes`lo, t.nodes`hi, t.nodes`color, t.nodes`bh
    ensures Shape(t) && !IsRed(t, t.root) && Balanced(t) && Coloured(t, null)
  {
    LeftSibling(t, temp);
    ghost var p, w := temp.parent, temp.parent.left;
    RightTurnPainted(t, temp.parent);
    assert Balanced(t) by {
      hide NoRedRed, RedFree, Coloured, IsRed;
      forall n | n in t.nodes
        ensures EqualHeights(t, n)
      {
        assert old(Links(t, n));
        if n != p && n != w {
          assert old(Deficit(t, n, temp));
          assert Height(t, n.left) == old(Height(t, n.left)) && Height(t, n.right) == old(Height(t, n.right));
        }
      }
    }
    hide Balanced, Deficit, EqualHeights, Height;
    forall n | n in t.nodes
      ensures NoRedRed(t, n, null)
    {
      assert n != temp ==> old(NoRedRed(t, n, temp));
      assert old(Links(t, n));
    }
  }

  /** One turn of the loop when `temp` is a right child: lines 276-303. */
  method MissingRight(t: Tree, temp: Node) returns (next: Node)
    requires MissingAt(t, temp) && temp != t.root && temp == temp.parent.right && !IsRed(t, temp)
    modifies t`root, t.nodes`left, t.nodes`right, t.nodes`parent, t.nodes`lo, t.nodes`hi, t.nodes`color, t.nodes`bh
    ensures MissingAt(t, next) && Beyond(t, next) < old(Beyond(t, temp))
  {
    hide Deficits, RedFree, Balanced, Coloured, EqualHeights, NoRedRed, Height;
    LeftSibling(t, temp);
    var w := temp.parent.left;
    if w.color.Red? {
      RightRedSibling(t, temp);
      LeftSibling(t, temp);
      assert Beyond(t, temp) == old(Beyond(t, temp));
      w := temp.parent.left;
    }
    if w.left.color.Black? && w.right.color.Black? {
      Climb(t, temp);
      RightDarken(t, temp);
      next := temp.parent;
    } else {
      if w.left.color.Black? {
        RightTurnSibling(t, temp);
        LeftSibling(t, temp);
        assert Beyond(t, temp) == old(Beyond(t, temp));
      }
      assert temp.parent in Beyond(t, temp);
      RightLastTurn(t, temp);
      RootMissing(t);
      next := t.root;
    }
  }

  /** The fix-up loop and the final blackening: lines 245-307. */
  method Fixup(t: Tree, start: Node)
    requires MissingAt(t, start)
    modifies t`root, t.nodes`left, t.nodes`right, t.nodes`parent, t.nodes`lo, t.nodes`hi, t.nodes`color, t.nodes`bh
    ensures Shape(t) && !IsRed(t, t.root) && Balanced(t) && Coloured(t, null)
  {
    var temp := start;
    while temp != t.root && temp.color.Black?
      invariant MissingAt(t, temp)
      decreases Beyond(t, temp)
    {
      if temp == temp.parent.left {
        temp := MissingLeft(t, temp);
      } else {
        temp := MissingRight(t, temp);
      }
    }
    Blacken(t, temp);
  }

  method Blacken(t: Tree, temp: Node)
    requires MissingAt(t, temp) && (temp == t.root || IsRed(t, temp))
    modifies t.nodes`color
    ensures !IsRed(t, t.root) && Balanced(t) && Coloured(t, null)
  {
    temp.color := Black;
    forall n | n in t.nodes
      ensures EqualHeights(t, n) && NoRedRed(t, n, null)
    {
      assert Links(t, n);
      assert old(Deficit(t, n, temp)) && (n != temp ==> old(NoRedRed(t, n, temp)));
    }
  }
}
