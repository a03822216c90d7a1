/** The in-order walk along the child pointers, and why it lists the ghost
    sequence `order`: labels inside a node's interval belong to its subtree. */
module RbOrder {
  import opened RbNodes

  ghost function Inside(t: Tree, n: Node): set<Node>
    reads t`nodes, t.nodes`pos, n`lo, n`hi
  {
    set m | m in t.nodes && n.lo < m.pos < n.hi
  }

  ghost predicate Hangs(t: Tree, c: Node?)
    reads t`nodes
  {
    c != null && (c == t.sentinel || c in t.nodes)
  }

  /** The nodes of the subtree at `c`, left to right, read off the pointers. */
  ghost function Walk(t: Tree, c: Node): seq<Node>
    requires Shape(t) && Hangs(t, c)
    reads t, t.nodes
    decreases if c in t.nodes then Inside(t, c) else {}
  {
    if c == t.sentinel then []
    else
      assert Links(t, c) && c in Inside(t, c);
      assert c.left == t.sentinel || c !in Inside(t, c.left);
      assert c.right == t.sentinel || c !in Inside(t, c.right);
      Walk(t, c.left) + [c] + Walk(t, c.right)
  }

  function Max(a: nat, b: nat): nat {
    if a < b then b else a
  }

  /** The longest path from `c` down to the sentinel, in nodes. */
  ghost function Depth(t: Tree, c: Node): nat
    requires Shape(t) && Hangs(t, c)
    reads t, t.nodes
    decreases if c in t.nodes then Inside(t, c) else {}
  {
    if c == t.sentinel then 0
    else
      assert Links(t, c) && c in Inside(t, c);
      assert c.left == t.sentinel || c !in Inside(t, c.left);
      assert c.right == t.sentinel || c !in Inside(t, c.right);
      1 + Max(Depth(t, c.left), Depth(t, c.right))
  }

  ghost predicate Increasing(s: seq<Node>)
    reads s
  {
    forall i, j :: 0 <= i < j < |s| ==> s[i].pos < s[j].pos
  }

  lemma JoinIncreasing(l: seq<Node>, c: Node, r: seq<Node>)
    requires Increasing(l) && Increasing(r)
    requires forall i :: 0 <= i < |l| ==> l[i].pos < c.pos
    requires forall i :: 0 <= i < |r| ==> c.pos < r[i].pos
    ensures Increasing(l + [c] + r)
  {
  }

  lemma {:induction false} WalkInside(t: Tree, c: Node)
    requires Shape(t) && c in t.nodes
    ensures forall m :: m in Walk(t, c) ==> m in Inside(t, c)
    ensures Increasing(Walk(t, c))
    decreases Inside(t, c)
  {
    assert Links(t, c) && c in Inside(t, c);
    if c.left != t.sentinel {
      assert c !in Inside(t, c.left);
      WalkInside(t, c.left);
    }
    if c.right != t.sentinel {
      assert c !in Inside(t, c.right);
      WalkInside(t, c.right);
    }
    var l, r := Walk(t, c.left), Walk(t, c.right);
    forall i | 0 <= i < |l| ensures l[i].pos < c.pos { assert l[i] in l; }
    forall i | 0 <= i < |r| ensures c.pos < r[i].pos { assert r[i] in r; }
    JoinIncreasing(l, c, r);
  }

  /** Climbing from `m` to `c` one parent at a time: whatever `c`'s ancestors reach, the root reaches. */
  lemma {:induction false} RootReaches(t: Tree, c: Node, m: Node)
    requires Shape(t) && c in t.nodes && m in Walk(t, c)
    ensures m in Walk(t, t.root)
    decreases t.nodes - Inside(t, c)
  {
    if c != t.root {
      assert Links(t, c) && Links(t, c.parent);
      assert c.parent in Inside(t, c.parent) && c.parent !in Inside(t, c);
      RootReaches(t, c.parent, m);
    }
  }

  /** A label inside the interval of `c` is the label of a node below `c`. */
  lemma {:induction false} InsideIsWalked(t: Tree, c: Node, m: Node)
    requires Shape(t) && c in t.nodes && m in Inside(t, c)
    ensures m in Walk(t, c)
    decreases t.nodes - Inside(t, c)
  {
    assert Links(t, c);
    if c == t.root {
      assert Links(t, m);
      RootReaches(t, m, m);
    } else {
      var p := c.parent;
      assert Links(t, p);
      assert p in Inside(t, p) && p !in Inside(t, c);
      InsideIsWalked(t, p, m);
      if p.left != t.sentinel { WalkInside(t, p.left); }
      if p.right != t.sentinel { WalkInside(t, p.right); }
    }
  }

  /** No label lies in the gap beside a missing child. */
  lemma Gap(t: Tree, c: Node, m: Node)
    requires Shape(t) && c in t.nodes && m in t.nodes
    ensures c.left == t.sentinel ==> !(c.lo < m.pos < c.pos)
    ensures c.right == t.sentinel ==> !(c.pos < m.pos < c.hi)
  {
    assert Links(t, c);
    if c.lo < m.pos < c.hi {
      InsideIsWalked(t, c, m);
      if c.left != t.sentinel { WalkInside(t, c.left); }
      if c.right != t.sentinel { WalkInside(t, c.right); }
    }
  }

  lemma {:induction false} SameOrder(a: seq<Node>, b: seq<Node>)
    requires Increasing(a) && Increasing(b)
    requires forall m :: m in a ==> m in b
    requires forall m :: m in b ==> m in a
    ensures a == b
  {
    if a != [] {
      assert a[0] in a;
    }
    if b != [] {
      assert b[0] in b;
    }
    if a != [] {
      assert a[0] == b[0];
      forall m | m in a[1..] ensures m in b[1..] { assert m in b && m != b[0]; }
      forall m | m in b[1..] ensures m in a[1..] { assert m in a && m != a[0]; }
      SameOrder(a[1..], b[1..]);
    }
  }

  /** The pointer walk from the root is the ghost sequence. */
  lemma WalkIsOrder(t: Tree)
    requires Shape(t) && Ordered(t)
    ensures Walk(t, t.root) == t.order
  {
    if t.nodes != {} {
      WalkInside(t, t.root);
    }
    forall m | m in t.nodes
      ensures m in Walk(t, t.root)
    {
      assert Links(t, m);
      InsideIsWalked(t, t.root, m);
    }
    SameOrder(Walk(t, t.root), t.order);
  }

  ghost predicate SortedSeq(s: seq<Node>)
    reads s`rank
  {
    forall i, j :: 0 <= i < j < |s| ==> s[i].rank <= s[j].rank
  }

  /** Ranks never decrease along the tree. */
  ghost predicate Sorted(t: Tree)
    reads t`order, t.order`rank
  {
    SortedSeq(t.order)
  }

  lemma RankByLabel(t: Tree, a: Node, b: Node)
    requires Ordered(t) && Sorted(t) && a in t.nodes && b in t.nodes && a.pos <= b.pos
    ensures a.rank <= b.rank
  {
    var i :| 0 <= i < |t.order| && t.order[i] == a;
    var j :| 0 <= j < |t.order| && t.order[j] == b;
  }

  /** Where a fresh label falls in the sequence. */
  lemma {:induction false} Place(s: seq<Node>, at: real) returns (k: nat)
    requires Increasing(s)
    ensures k <= |s|
    ensures forall i :: 0 <= i < k ==> s[i].pos < at
    ensures forall i :: k <= i < |s| ==> at <= s[i].pos
  {
    if s == [] || at <= s[0].pos {
      k := 0;
    } else {
      var rest := Place(s[1..], at);
      k := rest + 1;
    }
  }
}
