/** What the invariants of a red-black tree are for: the height bound, and the
    order of keys and of wrap-around timers. */
module RbTheory {
  import opened RbNodes
  import opened RbOrder
  import opened RbInsert
  import opened RbDelete

  function Pow2(n: nat): nat {
    if n == 0 then 1 else 2 * Pow2(n - 1)
  }

  lemma {:induction false} SubtreeBounds(t: Tree, c: Node)
    requires Valid(t) && Hangs(t, c)
    ensures Depth(t, c) <= 2 * Height(t, c) + if IsRed(t, c) then 1 else 0
    ensures Pow2(Height(t, c)) <= |Walk(t, c)| + 1
    decreases if c in t.nodes then Inside(t, c) else {}
  {
    if c in t.nodes {
      assert Links(t, c) && EqualHeights(t, c) && NoRedRed(t, c, null);
      assert c in Inside(t, c);
      assert c.left == t.sentinel || c !in Inside(t, c.left);
      assert c.right == t.sentinel || c !in Inside(t, c.right);
      SubtreeBounds(t, c.left);
      SubtreeBounds(t, c.right);
    }
  }

  lemma {:induction false} Pow2Monotone(a: nat, b: nat)
    requires a <= b
    ensures Pow2(a) <= Pow2(b)
  {
    if a < b {
      Pow2Monotone(a, b - 1);
    }
  }

  /** A tree of n nodes has depth at most 2 log2(n + 1). */
  lemma HeightBound(t: Tree)
    requires Valid(t)
    ensures Pow2((Depth(t, t.root) + 1) / 2) <= |t.order| + 1
  {
    SubtreeBounds(t, t.root);
    WalkIsOrder(t);
    Pow2Monotone((Depth(t, t.root) + 1) / 2, Height(t, t.root));
  }

  // ----- keys and timers

  const WORD: int := 0x1_0000_0000_0000_0000

  predicate PlainLess(a: int, b: int) {
    a < b
  }

  /** The sign of the word-sized difference, as rbtree_insert_timer_value tests it. */
  predicate TimerLess(a: int, b: int) {
    (a - b) % WORD >= WORD / 2
  }

  /** For two times less than one word apart, the test orders the pair
      correctly both ways round exactly when they are less than half a word apart. */
  lemma TimerExact(ta: int, tb: int)
    requires -WORD < ta - tb < WORD
    ensures (TimerLess(ta % WORD, tb % WORD) <==> ta < tb) && (TimerLess(tb % WORD, ta % WORD) <==> tb < ta)
            <==> -(WORD / 2) < ta - tb < WORD / 2
  {
    var qa, qb := ta / WORD, tb / WORD;
    assert ta == qa * WORD + ta % WORD && tb == qb * WORD + tb % WORD;
    assert -1 <= qa - qb <= 1;
    assert (ta % WORD - tb % WORD) % WORD == if ta >= tb then ta - tb else if ta == tb then 0 else ta - tb + WORD;
    assert (tb % WORD - ta % WORD) % WORD == if tb >= ta then tb - ta else if ta == tb then 0 else tb - ta + WORD;
  }

  /** Keys are times modulo the word, and no two of the times compared are a word apart. */
  ghost predicate TimerKeys(t: Tree, node: Node)
    reads t`nodes, t.nodes`key, t.nodes`rank, node`key, node`rank
  {
    && node.key == node.rank % WORD
    && (forall m :: m in t.nodes ==> m.key == m.rank % WORD && -WORD < node.rank - m.rank < WORD)
  }

  /** Every live timer lies less than half the word range from the new one. */
  ghost predicate Window(t: Tree, node: Node)
    reads t`nodes, t.nodes`rank, node`rank
  {
    forall m :: m in t.nodes ==> -(WORD / 2) <= node.rank - m.rank < WORD / 2
  }

  /** One way round the test is right from half a word below to half a word above. */
  lemma TimerOneWay(ta: int, tb: int)
    requires -WORD < ta - tb < WORD
    ensures (TimerLess(ta % WORD, tb % WORD) <==> ta < tb) <==> -(WORD / 2) <= ta - tb < WORD / 2
  {
    var qa, qb := ta / WORD, tb / WORD;
    assert ta == qa * WORD + ta % WORD && tb == qb * WORD + tb % WORD;
    assert -1 <= qa - qb <= 1;
    assert (ta % WORD - tb % WORD) % WORD == if ta >= tb then ta - tb else ta - tb + WORD;
  }

  /** The timer comparison is the order of the true times exactly when the window is that short. */
  lemma TimersAreFaithful(t: Tree, node: Node)
    requires (forall a, b :: t.less(a, b) <==> TimerLess(a, b)) && TimerKeys(t, node)
    ensures Faithful(t, node) <==> Window(t, node)
  {
    forall m | m in t.nodes
      ensures (t.less(node.key, m.key) <==> node.rank < m.rank) <==> -(WORD / 2) <= node.rank - m.rank < WORD / 2
    {
      TimerOneWay(node.rank, m.rank);
    }
  }

  lemma KeysAreFaithful(t: Tree, node: Node)
    requires (forall a, b :: t.less(a, b) <==> PlainLess(a, b)) && node.rank == node.key
    requires forall m :: m in t.nodes ==> m.rank == m.key
    ensures Faithful(t, node)
  {
  }

  /** Timer insertion: sorted by true time, across overflow of the word, stays sorted
      by true time, and the new timer comes behind all that are not later. */
  method InsertTimer(t: Tree, node: Node) returns (ghost k: nat)
    requires Valid(t) && node !in t.nodes && node != t.sentinel
    requires forall a, b :: t.less(a, b) <==> TimerLess(a, b)
    requires Sorted(t) && TimerKeys(t, node) && Window(t, node)
    modifies t`root, t`nodes, t`order
    modifies t.nodes`left, t.nodes`right, t.nodes`parent, t.nodes`color, t.nodes`pos, t.nodes`lo, t.nodes`hi, t.nodes`bh
    modifies node`left, node`right, node`parent, node`color, node`pos, node`lo, node`hi, node`bh
    ensures Valid(t) && t.nodes == old(t.nodes) + {node} && Walk(t, t.root) == t.order
    ensures Sorted(t) && forall m :: m in t.nodes ==> m.key == m.rank % WORD
    ensures Inserted(old(t.order), k, node, t.order) && old(RankPlace(t.order, k, node.rank))
  {
    TimersAreFaithful(t, node);
    hide Valid, Inserted, RankPlace, Faithful, Window;
    k := Insert(t, node);
  }

  ghost predicate ByKey(s: seq<Node>)
    reads s`key
  {
    forall i, j :: 0 <= i < j < |s| ==> s[i].key <= s[j].key
  }

  ghost predicate KeyPlace(s: seq<Node>, k: nat, key: int)
    requires k <= |s|
    reads s`key
  {
    (forall i :: 0 <= i < k ==> s[i].key <= key) && (forall i :: k <= i < |s| ==> key < s[i].key)
  }

  ghost predicate RankIsKey(s: set<Node>)
    reads s`key, s`rank
  {
    forall m :: m in s ==> m.rank == m.key
  }

  /** Key insertion: sorted by key stays sorted by key, and the new key comes behind equal ones. */
  method InsertKey(t: Tree, node: Node) returns (ghost k: nat)
    requires Valid(t) && node !in t.nodes && node != t.sentinel
    requires forall a, b :: t.less(a, b) <==> PlainLess(a, b)
    requires RankIsKey(t.nodes) && RankIsKey({node}) && ByKey(t.order)
    modifies t`root, t`nodes, t`order
    modifies t.nodes`left, t.nodes`right, t.nodes`parent, t.nodes`color, t.nodes`pos, t.nodes`lo, t.nodes`hi, t.nodes`bh
    modifies node`left, node`right, node`parent, node`color, node`pos, node`lo, node`hi, node`bh
    ensures Valid(t) && t.nodes == old(t.nodes) + {node} && Walk(t, t.root) == t.order
    ensures ByKey(t.order) && Inserted(old(t.order), k, node, t.order) && old(KeyPlace(t.order, k, node.key))
  {
    KeysAreFaithful(t, node);
    KeyOrder(t, node);
    hide Valid, Inserted, RankPlace, Faithful, Sorted, ByKey, KeyPlace;
    k := Insert(t, node);
    KeyOrder(t, node);
  }

  lemma KeyOrder(t: Tree, node: Node)
    requires Valid(t) && RankIsKey(t.nodes) && RankIsKey({node})
    ensures Sorted(t) <==> ByKey(t.order)
    ensures forall k: nat :: k <= |t.order| ==> (RankPlace(t.order, k, node.rank) <==> KeyPlace(t.order, k, node.key))
  {
    assert forall n :: n in t.order ==> n in t.nodes;
  }

  /** rbtree_min on the root of a sorted tree gives the earliest timer, in at most 2 log2(n + 1) steps. */
  method Earliest(t: Tree) returns (node: Node, ghost steps: nat)
    requires Valid(t) && Sorted(t) && t.nodes != {}
    ensures Pow2(steps / 2 + 1) <= |t.order| + 1
    ensures node in t.nodes && node == t.order[0]
    ensures forall n :: n in t.nodes ==> node.rank <= n.rank
  {
    node, steps := Min(t, t.root);
    HeightBound(t);
    Pow2Monotone(steps / 2 + 1, (Depth(t, t.root) + 1) / 2);
    forall n | n in t.nodes
      ensures node.pos <= n.pos && node.rank <= n.rank
    {
      assert Links(t, n);
      RankByLabel(t, node, n);
    }
    assert t.order[0] in t.nodes;
  }
}
