/** The bucketed hash table (src/ds_hasht.c:12-98, :147-188, :205-308, :335-407)
    against a bounded multiset of items.

    Every call uses the same key descriptor, so an item has one key, and two
    keys are compared over the same number of bytes.  A slot is a pointer to an
    item, null when it is free. */
module HashTable {

  type byte = x: int | 0 <= x < 256
  type Key = seq<byte>

  const BUCKET_DEFAULT_SIZE := 1024

  /** A caller's item; callbacks may change its data but not its key. */
  class Item {
    const key: Key
    var data: int

    constructor (key: Key, data: int)
      ensures this.key == key && this.data == data
    {
      this.key, this.data := key, data;
    }
  }

  // ----- the items in a row of slots

  function One(x: Item?): multiset<Item> {
    if x == null then multiset{} else multiset{x}
  }

  lemma OneSize(x: Item?)
    ensures |One(x)| == if x == null then 0 else 1
  {
  }

  /** The items in the slots of a bucket. */
  function Live(row: seq<Item?>): multiset<Item> {
    if row == [] then multiset{} else One(row[0]) + Live(row[1..])
  }

  lemma Together<T>(p: multiset<T>, a: multiset<T>, b: multiset<T>, c: multiset<T>, d: multiset<T>)
    requires a + b == c + d
    ensures p + a + b == p + c + d
  {
    assert p + a + b == p + (a + b) && p + c + d == p + (c + d);
  }

  lemma {:induction false} LiveUpdate(row: seq<Item?>, i: nat, x: Item?)
    requires i < |row|
    ensures Live(row[i := x]) + One(row[i]) == Live(row) + One(x)
  {
    hide One;
    if i == 0 {
      assert row[0 := x][1..] == row[1..];
      assert One(x) + Live(row[1..]) + One(row[0]) == One(row[0]) + Live(row[1..]) + One(x);
    } else {
      assert row[i := x][1..] == row[1..][i - 1 := x];
      LiveUpdate(row[1..], i - 1, x);
      Together(One(row[0]), Live(row[1..][i - 1 := x]), One(row[i]), Live(row[1..]), One(x));
    }
  }

  lemma LiveCount(row: seq<Item?>, i: nat, x: Item?)
    requires i < |row|
    ensures |Live(row[i := x])| + (if row[i] == null then 0 else 1) == |Live(row)| + (if x == null then 0 else 1)
  {
    LiveUpdate(row, i, x);
    OneSize(x);
    OneSize(row[i]);
    hide Live, One;
    assert |Live(row[i := x]) + One(row[i])| == |Live(row) + One(x)|;
  }

  lemma {:induction false} LiveMember(row: seq<Item?>, x: Item)
    ensures x in Live(row) <==> x in row
  {
    if row != [] {
      LiveMember(row[1..], x);
      assert row == [row[0]] + row[1..];
    }
  }

  function Nulls(n: nat): seq<Item?> {
    seq(n, _ => null)
  }

  lemma {:induction false} LiveNulls(n: nat)
    ensures Live(Nulls(n)) == multiset{}
  {
    if n > 0 {
      assert Nulls(n)[1..] == Nulls(n - 1);
      LiveNulls(n - 1);
    }
  }

  lemma {:induction false} LiveGrow(row: seq<Item?>, n: nat)
    ensures Live(row + Nulls(n)) == Live(row)
  {
    if row == [] {
      assert row + Nulls(n) == Nulls(n);
      LiveNulls(n);
    } else {
      assert (row + Nulls(n))[1..] == row[1..] + Nulls(n);
      LiveGrow(row[1..], n);
    }
  }

  /** The number of slots in use. */
  function Used(row: seq<Item?>): nat {
    if row == [] then 0 else (if row[0] == null then 0 else 1) + Used(row[1..])
  }

  lemma {:induction false} UsedIsLive(row: seq<Item?>)
    ensures Used(row) == |Live(row)|
  {
    if row != [] {
      UsedIsLive(row[1..]);
    }
  }

  // ----- the items of a table

  function AllLive(rows: seq<seq<Item?>>): multiset<Item> {
    if rows == [] then multiset{} else Live(rows[0]) + AllLive(rows[1..])
  }

  function Count(rows: seq<seq<Item?>>): nat {
    |AllLive(rows)|
  }

  lemma {:induction false} AllLiveUpdate(rows: seq<seq<Item?>>, h: nat, row: seq<Item?>)
    requires h < |rows|
    ensures AllLive(rows[h := row]) + Live(rows[h]) == AllLive(rows) + Live(row)
  {
    hide Live;
    if h == 0 {
      assert rows[0 := row][1..] == rows[1..];
      assert Live(row) + AllLive(rows[1..]) + Live(rows[0]) == Live(rows[0]) + AllLive(rows[1..]) + Live(row);
    } else {
      assert rows[h := row][1..] == rows[1..][h - 1 := row];
      AllLiveUpdate(rows[1..], h - 1, row);
      Together(Live(rows[0]), AllLive(rows[1..][h - 1 := row]), Live(rows[h]), AllLive(rows[1..]), Live(row));
    }
  }

  /** Changing one slot changes the contents by its old and its new item. */
  lemma SlotUpdate(rows: seq<seq<Item?>>, h: nat, i: nat, x: Item?)
    requires h < |rows| && i < |rows[h]|
    ensures AllLive(rows[h := rows[h][i := x]]) + One(rows[h][i]) == AllLive(rows) + One(x)
  {
    AllLiveUpdate(rows, h, rows[h][i := x]);
    LiveUpdate(rows[h], i, x);
    hide Live, AllLive, One;
    Cancel(AllLive(rows[h := rows[h][i := x]]), Live(rows[h]), AllLive(rows), Live(rows[h][i := x]), One(rows[h][i]), One(x));
  }

  lemma CountUpdate(rows: seq<seq<Item?>>, h: nat, i: nat, x: Item?)
    requires h < |rows| && i < |rows[h]|
    ensures Count(rows[h := rows[h][i := x]]) + (if rows[h][i] == null then 0 else 1) == Count(rows) + (if x == null then 0 else 1)
  {
    SlotUpdate(rows, h, i, x);
    OneSize(x);
    OneSize(rows[h][i]);
    hide AllLive, One;
    assert |AllLive(rows[h := rows[h][i := x]]) + One(rows[h][i])| == |AllLive(rows) + One(x)|;
  }

  lemma SlotTaken(rows: seq<seq<Item?>>, h: nat, i: nat)
    requires h < |rows| && i < |rows[h]| && rows[h][i] != null
    ensures AllLive(rows[h := rows[h][i := null]]) == AllLive(rows) - multiset{rows[h][i]}
  {
    SlotUpdate(rows, h, i, null);
    hide AllLive;
    assert AllLive(rows[h := rows[h][i := null]]) == AllLive(rows[h := rows[h][i := null]]) + multiset{rows[h][i]} - multiset{rows[h][i]};
  }

  lemma SlotGiven(rows: seq<seq<Item?>>, h: nat, i: nat, x: Item)
    requires h < |rows| && i < |rows[h]| && rows[h][i] == null
    ensures AllLive(rows[h := rows[h][i := x]]) == AllLive(rows) + multiset{x}
  {
    SlotUpdate(rows, h, i, x);
  }

  /** Replacing the row of a bucket by one with the same items keeps the contents. */
  lemma AllLiveSame(rows: seq<seq<Item?>>, h: nat, row: seq<Item?>)
    requires h < |rows| && Live(row) == Live(rows[h])
    ensures AllLive(rows[h := row]) == AllLive(rows) && Count(rows[h := row]) == Count(rows)
  {
    AllLiveUpdate(rows, h, row);
    hide Live, AllLive;
    assert AllLive(rows[h := row]) == AllLive(rows[h := row]) + Live(row) - Live(row);
  }

  lemma Cancel<T>(a: multiset<T>, l: multiset<T>, b: multiset<T>, m: multiset<T>, y: multiset<T>, x: multiset<T>)
    requires a + l == b + m && m + y == l + x
    ensures a + y == b + x
  {
    forall t | t in a + y + b + x
      ensures (a + y)[t] == (b + x)[t]
    {
      assert (a + l)[t] == (b + m)[t] && (m + y)[t] == (l + x)[t];
    }
  }

  lemma {:induction false} AllLiveMember(rows: seq<seq<Item?>>, x: Item)
    ensures x in AllLive(rows) <==> exists h :: 0 <= h < |rows| && x in rows[h]
  {
    if rows != [] {
      LiveMember(rows[0], x);
      AllLiveMember(rows[1..], x);
      if h :| 0 <= h < |rows| && x in rows[h] {
        assert h > 0 ==> rows[1..][h - 1] == rows[h];
      }
      if h :| 0 <= h < |rows[1..]| && x in rows[1..][h] {
        assert rows[h + 1] == rows[1..][h];
      }
    }
  }

  /** The slots in use over all buckets. */
  function AllUsed(rows: seq<seq<Item?>>): nat {
    if rows == [] then 0 else Used(rows[0]) + AllUsed(rows[1..])
  }

  lemma {:induction false} AllUsedIsLive(rows: seq<seq<Item?>>)
    ensures AllUsed(rows) == |AllLive(rows)|
  {
    if rows != [] {
      UsedIsLive(rows[0]);
      AllUsedIsLive(rows[1..]);
    }
  }

  // ----- buckets

  class Bucket {
    var node: array?<Item?>
    var nrNodes: nat
    var bucketSize: nat

    constructor ()
      ensures Holds([])
    {
      node, nrNodes, bucketSize := null, 0, 0;
    }

    /** The slots of the bucket, and its counters. */
    ghost predicate Holds(row: seq<Item?>)
      reads this, node
    {
      && bucketSize == |row| && nrNodes == |Live(row)|
      && (if node == null then row == [] else row != [] && node[..] == row)
    }

    /** Fills or clears one slot: lines 229 and 238, 350-351. */
    method Put(ghost row: seq<Item?>, i: nat, x: Item?)
      requires Holds(row) && i < |row| && (x == null) != (row[i] == null)
      modifies this`nrNodes, node
      ensures Holds(row[i := x])
    {
      LiveCount(row, i, x);
      hide Live;
      node[i] := x;
      nrNodes := if x == null then nrNodes - 1 else nrNodes + 1;
    }

    /** The inner loop of hasht_clean_table: lines 368-375. */
    method Clear(ghost row: seq<Item?>) returns (num: nat)
      requires Holds(row)
      modifies this`nrNodes, node
      ensures Holds(Nulls(|row|)) && num == Used(row)
    {
      num := 0;
      var j := 0;
      if node != null {
        while j < bucketSize
          invariant j <= |row| && num + Used(row[j..]) == Used(row)
          invariant forall k :: 0 <= k < j ==> node[k] == null
          invariant forall k :: j <= k < |row| ==> node[k] == row[k]
        {
          assert row[j..][0] == row[j] && row[j..][1..] == row[j + 1..];
          if node[j] != null {
            node[j] := null;
            num := num + 1;
          }
          j := j + 1;
        }
        assert row[j..] == [];
      }
      nrNodes := 0;
      LiveNulls(|row|);
    }

    /** The scan of bucket_get_free_pos: lines 81-85. */
    method FirstFree(ghost row: seq<Item?>) returns (pos: nat)
      requires Holds(row) && node != null
      ensures pos <= |row| && (pos < |row| ==> row[pos] == null)
      ensures forall i :: 0 <= i < pos ==> row[i] != null
    {
      pos := 0;
      while pos < bucketSize
        invariant pos <= bucketSize && forall i :: 0 <= i < pos ==> row[i] != null
      {
        assert node[..][pos] == node[pos];
        if node[pos] == null {
          return;
        }
        pos := pos + 1;
      }
    }

    /** bucket_get_free_pos: the first free slot, in a bucket that has grown by
        a quarter and one if there was none. */
    method FreePos(ghost row: seq<Item?>) returns (pos: nat, ghost grown: seq<Item?>)
      requires Holds(row)
      modifies this
      ensures Holds(grown) && node != null && (node == old(node) || fresh(node))
      ensures grown == Roomy(row) && FirstNull(grown, pos)
      ensures Live(grown) == Live(row)
    {
      hide Live;
      if node == null {
        node := NewSlots(BUCKET_DEFAULT_SIZE);
        bucketSize := BUCKET_DEFAULT_SIZE;
        LiveNulls(BUCKET_DEFAULT_SIZE);
        LiveNone();
        return 0, Nulls(BUCKET_DEFAULT_SIZE);
      }
      pos := FirstFree(row);
      if pos < bucketSize {
        return pos, row;
      }
      grown := row + Nulls(|row| / 4 + 1);
      LiveGrow(row, |row| / 4 + 1);
      node := Realloc(node, row, bucketSize + bucketSize / 4 + 1);
      bucketSize := bucketSize + bucketSize / 4 + 1;
    }
  }

  lemma LiveNone()
    ensures Live([]) == multiset{}
  {
  }

  /** realloc, and the loop that clears the new slots: lines 86-96. */
  method Realloc(node: array<Item?>, ghost row: seq<Item?>, size: nat) returns (tmp: array<Item?>)
    requires node[..] == row && |row| <= size
    ensures fresh(tmp) && tmp[..] == row + Nulls(size - |row|)
  {
    tmp := new Item?[size];
    forall i | 0 <= i < node.Length {
      tmp[i] := node[i];
    }
    var i := node.Length;
    while i < size
      invariant |row| <= i <= size
      invariant forall k :: 0 <= k < |row| ==> tmp[k] == row[k]
      invariant forall k :: |row| <= k < i ==> tmp[k] == null
    {
      tmp[i] := null;
      i := i + 1;
    }
  }

  /** bucket_new_bucket */
  method NewSlots(size: nat) returns (n: array<Item?>)
    ensures fresh(n) && n[..] == Nulls(size)
  {
    n := new Item?[size];
    var i := 0;
    while i < size
      invariant i <= size && forall k :: 0 <= k < i ==> n[k] == null
    {
      n[i] := null;
      i := i + 1;
    }
  }

  // ----- the table

  /** volume>>3, and at least one. */
  function NrBuckets(volume: nat): (n: nat)
    ensures n > 0
  {
    if volume / 8 == 0 then 1 else volume / 8
  }

  /** The bucket of a key. */
  function Home(hash: Key -> nat, key: Key, n: nat): (h: nat)
    requires n > 0
    ensures h < n
  {
    hash(key) % n
  }

  lemma {:induction false} AllUsedTake(rows: seq<seq<Item?>>, k: nat)
    requires k < |rows|
    ensures AllUsed(rows[..k + 1]) == AllUsed(rows[..k]) + Used(rows[k])
  {
    if k > 0 {
      assert rows[..k + 1][1..] == rows[1..][..k] && rows[..k][1..] == rows[1..][..k - 1];
      AllUsedTake(rows[1..], k - 1);
    } else {
      assert rows[..1][1..] == [];
    }
  }

  /** The i-th slot is the first one in use with the key. */
  ghost predicate FirstWith(row: seq<Item?>, i: nat, key: Key) {
    i < |row| && row[i] != null && row[i].key == key && Lacks(row[..i], key)
  }

  lemma FirstHas(row: seq<Item?>, i: nat, key: Key)
    requires FirstWith(row, i, key)
    ensures i < |row| && row[i] != null && row[i].key == key
  {
  }

  ghost predicate Lacks(row: seq<Item?>, key: Key) {
    forall k :: 0 <= k < |row| && row[k] != null ==> row[k].key != key
  }

  /** The slots of a bucket after the search for a free one. */
  function Roomy(row: seq<Item?>): seq<Item?> {
    if row == [] then Nulls(BUCKET_DEFAULT_SIZE) else if null in row then row else row + Nulls(|row| / 4 + 1)
  }

  /** The i-th slot is the first free one. */
  ghost predicate FirstNull(row: seq<Item?>, i: nat) {
    i < |row| && row[i] == null && forall k :: 0 <= k < i ==> row[k] != null
  }

  /** Every item sits in the bucket of its key. */
  ghost predicate Placed(rows: seq<seq<Item?>>, hash: Key -> nat, n: nat) {
    n > 0 && forall h, i :: 0 <= h < |rows| && 0 <= i < |rows[h]| && rows[h][i] != null ==> Home(hash, rows[h][i].key, n) == h
  }

  lemma PlacedUpdate(rows: seq<seq<Item?>>, hash: Key -> nat, n: nat, h: nat, i: nat, x: Item?)
    requires Placed(rows, hash, n) && h < |rows| && i < |rows[h]|
    requires n > 0 && (x != null ==> Home(hash, x.key, n) == h)
    ensures Placed(rows[h := rows[h][i := x]], hash, n)
  {
  }

  lemma PlacedGrown(rows: seq<seq<Item?>>, hash: Key -> nat, n: nat, h: nat, grown: seq<Item?>)
    requires Placed(rows, hash, n) && h < |rows|
    requires forall i :: 0 <= i < |grown| && grown[i] != null ==> i < |rows[h]| && grown[i] == rows[h][i]
    ensures Placed(rows[h := grown], hash, n)
  {
  }

  class Table {
    const hash: Key -> nat
    const volume: nat
    var nrNodes: nat
    const bucket: seq<Bucket>
    var lookupCount: nat
    var hitCount: nat
    /** The slots of every bucket. */
    ghost var rows: seq<seq<Item?>>

    /** The slot arrays of the buckets. */
    ghost function Arrays(): set<array?<Item?>>
      reads bucket
    {
      set b | b in bucket && b.node != null :: b.node
    }

    ghost predicate Apart()
      reads bucket
    {
      forall i, j :: 0 <= i < j < |bucket| ==>
        bucket[i] != bucket[j] && (bucket[i].node != null ==> bucket[i].node != bucket[j].node)
    }

    ghost predicate Held()
      reads this`rows, bucket, Arrays()
    {
      |rows| == |bucket| && forall i :: 0 <= i < |bucket| ==> bucket[i].Holds(rows[i])
    }

    ghost predicate Valid()
      reads this`rows, this`nrNodes, bucket, Arrays()
    {
      && |bucket| == NrBuckets(volume)
      && Apart() && Held() && Placed(rows, hash, |bucket|)
      && nrNodes == Count(rows) <= volume
    }

    /** The multiset of items that the table stands for. */
    ghost function Contents(): multiset<Item>
      reads this`rows
    {
      AllLive(rows)
    }

    constructor (hash: Key -> nat, volume: nat, bucket: seq<Bucket>)
      requires |bucket| == NrBuckets(volume)
      requires forall i :: 0 <= i < |bucket| ==> bucket[i].Holds([]) && bucket[i].node == null
      requires forall i, j :: 0 <= i < j < |bucket| ==> bucket[i] != bucket[j]
      ensures Valid() && Contents() == multiset{} && this.volume == volume && this.hash == hash
      ensures this.bucket == bucket && lookupCount == hitCount == 0
    {
      this.hash, this.volume, this.bucket := hash, volume, bucket;
      nrNodes, lookupCount, hitCount := 0, 0, 0;
      rows := seq(|bucket|, _ => []);
      new;
      AllLiveEmpty(|bucket|);
    }

    method CountLookup()
      requires Valid()
      modifies this`lookupCount
      ensures Valid() && lookupCount == old(lookupCount) + 1 && Arrays() == old(Arrays())
    {
      hide *;
      NotMine();
      lookupCount := lookupCount + 1;
    }

    method CountHit()
      requires Valid()
      modifies this`hitCount
      ensures Valid() && hitCount == old(hitCount) + 1 && Arrays() == old(Arrays())
    {
      hide *;
      NotMine();
      hitCount := hitCount + 1;
    }

    /** The scan of a bucket: lines 273-287. */
    method Scan(h: nat, key: Key) returns (found: bool, i: nat)
      requires Valid() && h < |rows|
      ensures found ==> FirstWith(rows[h], i, key)
      ensures !found ==> Lacks(rows[h], key)
    {
      i := 0;
      var b := bucket[h];
      assert b.Holds(rows[h]);
      while i < b.bucketSize
        invariant i <= |rows[h]|
        invariant forall k :: 0 <= k < i && rows[h][k] != null ==> rows[h][k].key != key
      {
        assert b.node[..][i] == b.node[i];
        if b.node[i] != null && b.node[i].key == key {
          return true, i;
        }
        i := i + 1;
      }
      return false, i;
    }

    /** hasht_find_node: the key is looked for in its own bucket only. */
    method FindNode(key: Key) returns (found: bool, h: nat, i: nat)
      requires Valid()
      modifies this`lookupCount, this`hitCount
      ensures Valid() && Arrays() == old(Arrays())
      ensures lookupCount == old(lookupCount) + 1 && hitCount == old(hitCount) + if found then 1 else 0
      ensures h == Home(hash, key, |bucket|) && h < |rows|
      ensures found ==> FirstWith(rows[h], i, key)
      ensures !found ==> Lacks(rows[h], key)
    {
      assert |rows| == |bucket| && |bucket| > 0;
      h := Home(hash, key, |bucket|);
      hide *;
      CountLookup();
      found, i := Scan(h, key);
      ghost var row := rows[h];
      if found {
        CountHit();
      }
      assert rows[h] == row;
    }

    /** An empty bucket of the key means that no item of the table has it. */
    lemma NotInTable(key: Key)
      requires Valid()
      requires Lacks(rows[Home(hash, key, |bucket|)], key)
      ensures forall x :: x in Contents() ==> x.key != key
    {
      forall x | x in Contents()
        ensures x.key != key
      {
        AllLiveMember(rows, x);
        var g :| 0 <= g < |rows| && x in rows[g];
        var k :| 0 <= k < |rows[g]| && rows[g][k] == x;
      }
    }

    lemma InTable(h: nat, i: nat)
      requires h < |rows| && i < |rows[h]| && rows[h][i] != null
      ensures rows[h][i] in Contents()
    {
      AllLiveMember(rows, rows[h][i]);
    }

    /** hasht_find_item: an item with the key, exactly if there is one. */
    method Find(key: Key) returns (r: Item?, ghost h: nat, ghost i: nat)
      requires Valid()
      modifies this`lookupCount, this`hitCount
      ensures Valid()
      ensures lookupCount == old(lookupCount) + 1 && hitCount == old(hitCount) + if r != null then 1 else 0
      ensures r != null ==> r in Contents() && r.key == key && h < |rows| && FirstWith(rows[h], i, key) && r == rows[h][i]
      ensures r != null ==> h == Home(hash, key, |bucket|)
      ensures r == null ==> forall x :: x in Contents() ==> x.key != key
    {
      var found, slot, pos := FindNode(key);
      h, i := slot, pos;
      if !found {
        NotInTable(key);
        return null, h, i;
      }
      InTable(h, i);
      r := Slot(slot, pos);
    }

    /** The item in a slot in use. */
    method Slot(h: nat, i: nat) returns (x: Item)
      requires Valid() && h < |rows| && i < |rows[h]| && rows[h][i] != null
      ensures x == rows[h][i]
    {
      assert bucket[h].Holds(rows[h]) && bucket[h].node[..][i] == bucket[h].node[i];
      x := bucket[h].node[i];
    }

    /** hasht_modify_item: the callback changes the data of one item with the
        key, and of no other item. */
    method Modify(key: Key, change: int -> int) returns (ok: bool, ghost h: nat, ghost i: nat)
      requires Valid()
      modifies this`lookupCount, this`hitCount, set y | y in Contents()
      ensures Valid() && rows == old(rows)
      ensures lookupCount == old(lookupCount) + 1 && hitCount == old(hitCount) + if ok then 1 else 0
      ensures ok ==> h == Home(hash, key, |bucket|) < |rows| && FirstWith(rows[h], i, key)
      ensures ok ==> rows[h][i].data == change(old(rows[h][i].data))
      ensures forall g, k :: 0 <= g < |rows| && 0 <= k < |rows[g]| && rows[g][k] != null && !(ok && rows[g][k] == rows[h][i]) ==>
        rows[g][k].data == old(rows[g][k].data)
      ensures !ok ==> forall y :: y in Contents() ==> y.key != key
    {
      var item;
      item, h, i := Find(key);
      assert item != null ==> h < |rows| && i < |rows[h]| && rows[h][i] == item;
      hide *;
      ok := item != null;
      if ok {
        ChangeData(item, change);
      }
    }

    /** `modify(res->value, args)` */
    method ChangeData(item: Item, change: int -> int)
      requires Valid()
      modifies item`data
      ensures Valid() && item.data == change(old(item.data))
    {
      hide *;
      assert forall b :: b in bucket ==> b as object != item;
      assert forall a :: a in Arrays() ==> a as object != item;
      item.data := change(item.data);
    }

    /** One slot of one bucket is filled or cleared. */
    method StoreSlot(h: nat, i: nat, x: Item?)
      requires Apart() && Held() && h < |rows| && i < |rows[h]| && (x == null) != (rows[h][i] == null)
      modifies this`rows, bucket, Arrays()
      ensures Apart() && Held() && rows == old(rows)[h := old(rows)[h][i := x]]
      ensures Arrays() == old(Arrays())
    {
      hide Bucket.Holds;
      bucket[h].Put(rows[h], i, x);
      rows := rows[h := rows[h][i := x]];
    }

    /** `self->nr_nodes` follows the slots in use: lines 241-243, 354-356. */
    method SetNodes(n: nat)
      requires Apart() && Held() && n == Count(rows)
      modifies this`nrNodes
      ensures Apart() && Held() && nrNodes == n && Arrays() == old(Arrays())
    {
      hide *;
      NotMine();
      nrNodes := n;
    }

    /** No field of the table is a field of a bucket or of its slots. */
    lemma NotMine()
      ensures forall b :: b in bucket ==> b as object != this
      ensures forall a :: a in Arrays() ==> a as object != this
    {
    }

    /** One slot is filled or cleared, with the counters of its bucket and of the table. */
    method StoreAndCount(h: nat, i: nat, x: Item?)
      requires Apart() && Held() && nrNodes == Count(rows)
      requires h < |rows| && i < |rows[h]| && (x == null) != (rows[h][i] == null)
      modifies this`rows, this`nrNodes, bucket, Arrays()
      ensures Apart() && Held() && nrNodes == Count(rows) && Arrays() == old(Arrays())
      ensures nrNodes == old(nrNodes) + (if x == null then -1 else 1)
      ensures rows == old(rows)[h := old(rows)[h][i := x]]
    {
      CountUpdate(rows, h, i, x);
      hide *;
      StoreSlot(h, i, x);
      SetNodes(if x == null then nrNodes - 1 else nrNodes + 1);
    }

    method PutSlot(h: nat, i: nat, x: Item?)
      requires Valid() && h < |rows| && i < |rows[h]|
      requires (x == null) != (rows[h][i] == null) && (x != null ==> nrNodes < volume)
      requires x != null ==> Home(hash, x.key, |bucket|) == h
      modifies this`rows, this`nrNodes, bucket, Arrays()
      ensures Valid() && rows == old(rows)[h := old(rows)[h][i := x]]
      ensures Arrays() == old(Arrays())
    {
      PlacedUpdate(rows, hash, |bucket|, h, i, x);
      hide Apart, Held, Placed, Count, Arrays;
      StoreAndCount(h, i, x);
    }

    /** hasht_delete_item: one item with the key goes, if there is one. */
    method Delete(key: Key) returns (ok: bool, ghost x: Item?, ghost h: nat, ghost i: nat)
      requires Valid()
      modifies this, bucket, Arrays()
      ensures Valid() && Arrays() == old(Arrays())
      ensures lookupCount == old(lookupCount) + 1 && hitCount == old(hitCount) + if ok then 1 else 0
      ensures ok ==> h == Home(hash, key, |bucket|) < |old(rows)| && FirstWith(old(rows)[h], i, key) && x == old(rows)[h][i]
      ensures ok ==> rows == old(rows)[h := old(rows)[h][i := null]]
      ensures ok ==> x != null && x.key == key && x in old(Contents()) && Contents() == old(Contents()) - multiset{x}
      ensures !ok ==> rows == old(rows) && forall y :: y in Contents() ==> y.key != key
    {
      hide *;
      var found, slot, pos := FindNode(key);
      ok, x, h, i := found, null, slot, pos;
      if !ok {
        NotInTable(key);
        return;
      }
      FirstHas(rows[h], i, key);
      x := rows[h][i];
      EmptySlot(slot, pos);
    }

    /** `node->value = NULL`, with the counters: lines 352-356. */
    method EmptySlot(h: nat, i: nat)
      requires Valid() && h < |rows| && i < |rows[h]| && rows[h][i] != null
      modifies this`rows, this`nrNodes, bucket, Arrays()
      ensures Valid() && rows == old(rows)[h := old(rows)[h][i := null]] && Arrays() == old(Arrays())
      ensures old(rows[h][i]) in old(Contents()) && Contents() == old(Contents()) - multiset{old(rows[h][i])}
    {
      SlotTaken(rows, h, i);
      InTable(h, i);
      hide AllLive, Valid, Arrays;
      PutSlot(h, i, null);
    }

    /** The bucket of an item gets a free slot. */
    method MakeRoom(h: nat) returns (pos: nat)
      requires Valid() && h < |bucket|
      modifies this`rows, bucket
      ensures Valid() && AllLive(rows) == old(AllLive(rows))
      ensures rows == old(rows)[h := Roomy(old(rows)[h])] && FirstNull(rows[h], pos)
      ensures forall a :: a in Arrays() ==> a in old(Arrays()) || fresh(a)
    {
      hide Live, AllLive, Bucket.Holds, Count, Placed;
      ghost var grown;
      pos, grown := bucket[h].FreePos(rows[h]);
      AllLiveSame(rows, h, grown);
      PlacedGrown(rows, hash, |bucket|, h, grown);
      rows := rows[h := grown];
    }

    /** A new item goes to the first free slot of its bucket. */
    method AddToBucket(h: nat, data: Item) returns (pos: nat)
      requires Valid() && nrNodes < volume && h < |bucket| && h == Home(hash, data.key, |bucket|)
      modifies this`rows, this`nrNodes, bucket, Arrays()
      ensures Valid() && AllLive(rows) == old(AllLive(rows)) + multiset{data}
      ensures h < |old(rows)| && FirstNull(Roomy(old(rows)[h]), pos) && rows == old(rows)[h := Roomy(old(rows)[h])[pos := data]]
      ensures forall a :: a in Arrays() ==> a in old(Arrays()) || fresh(a)
    {
      ghost var was := rows;
      assert h < |rows|;
      pos := MakeRoom(h);
      assert rows[h] == Roomy(was[h]) && pos < |rows[h]| && rows[h][pos] == null;
      SlotGiven(rows, h, pos, data);
      UpdateTwice(was, h, Roomy(was[h]), rows[h][pos := data]);
      hide *;
      PutSlot(h, pos, data);
    }

    /** hasht_add_item: refuses when `volume` items are held, else adds the item. */
    method Add(data: Item) returns (ok: bool, ghost pos: nat)
      requires Valid()
      modifies this`rows, this`nrNodes, bucket, Arrays()
      ensures Valid() && ok == (old(|Contents()|) < volume)
      ensures Contents() == if ok then old(Contents()) + multiset{data} else old(Contents())
      ensures !ok ==> rows == old(rows)
      ensures var h := Home(hash, data.key, |bucket|);
        ok ==> h < |old(rows)| && FirstNull(Roomy(old(rows)[h]), pos) && rows == old(rows)[h := Roomy(old(rows)[h])[pos := data]]
      ensures forall a :: a in Arrays() ==> a in old(Arrays()) || fresh(a)
    {
      if nrNodes >= volume {
        return false, 0;
      }
      var h := Home(hash, data.key, |bucket|);
      assert h < |bucket| && nrNodes == |Contents()|;
      hide Valid, AllLive, Arrays, FirstNull, Roomy, Home;
      var at := AddToBucket(h, data);
      return true, at;
    }

    /** One turn of the outer loop of hasht_clean_table. */
    method CleanBucket(h: nat)
      requires Valid() && h < |bucket|
      modifies this`rows, this`nrNodes, bucket, Arrays()
      ensures Valid() && rows == old(rows)[h := Nulls(|old(rows)[h]|)]
      ensures Arrays() == old(Arrays())
    {
      RowCleared(rows, h);
      PlacedGrown(rows, hash, |bucket|, h, Nulls(|rows[h]|));
      hide Placed, Count, Used;
      var num := StoreClear(h);
      hide Apart, Held;
      SetNodes(nrNodes - num);
    }

    method StoreClear(h: nat) returns (num: nat)
      requires Apart() && Held() && h < |rows|
      modifies this`rows, bucket, Arrays()
      ensures Apart() && Held() && rows == old(rows)[h := Nulls(|old(rows)[h]|)]
      ensures num == Used(old(rows)[h]) && Arrays() == old(Arrays())
    {
      hide Bucket.Holds, Used;
      num := bucket[h].Clear(rows[h]);
      rows := rows[h := Nulls(|rows[h]|)];
    }

    /** hasht_clean_table: no item is left. */
    method Clean()
      requires Valid()
      modifies this`rows, this`nrNodes, bucket, Arrays()
      ensures Valid() && Contents() == multiset{} && nrNodes == 0
      ensures Arrays() == old(Arrays())
    {
      var i := 0;
      while i < |bucket|
        invariant Valid() && i <= |bucket| && Arrays() == old(Arrays())
        invariant forall h :: 0 <= h < i ==> rows[h] == Nulls(|rows[h]|)
      {
        CleanBucket(i);
        i := i + 1;
      }
      AllNulls(rows);
    }

    /** The counters of the first k buckets together. */
    ghost function SumNodes(k: nat): nat
      requires k <= |bucket|
      reads bucket
    {
      if k == 0 then 0 else SumNodes(k - 1) + bucket[k - 1].nrNodes
    }

    lemma BucketCount(h: nat)
      requires Held() && h < |bucket|
      ensures |rows| == |bucket| && bucket[h].nrNodes == Used(rows[h]) && SumNodes(h + 1) == SumNodes(h) + Used(rows[h])
    {
      assert bucket[h].Holds(rows[h]);
      UsedIsLive(rows[h]);
    }

    lemma {:induction false} SumIsUsed(k: nat)
      requires Held() && k <= |bucket|
      ensures SumNodes(k) == AllUsed(rows[..k])
    {
      if k > 0 {
        BucketCount(k - 1);
        SumIsUsed(k - 1);
        AllUsedTake(rows, k - 1);
        hide *;
      }
    }

    /** The table counts as many items as its buckets together, which is the
        number of slots in use. */
    lemma CountersAgree()
      requires Valid()
      ensures nrNodes == SumNodes(|bucket|) == AllUsed(rows) == |Contents()| <= volume
    {
      SumIsUsed(|bucket|);
      AllUsedIsLive(rows);
      assert rows[..|bucket|] == rows;
    }

    /** hasht_new: no table for a volume that is not positive. */
    static method New(hash: Key -> nat, volume: int) returns (t: Table?)
      ensures t == null <==> volume <= 0
      ensures t != null ==> fresh(t) && fresh(t.bucket) && t.Valid() && t.Contents() == multiset{} && t.volume == volume && t.hash == hash
    {
      if volume <= 0 {
        return null;
      }
      var n := NrBuckets(volume);
      var bucket: seq<Bucket> := [];
      while |bucket| < n
        invariant |bucket| <= n && fresh(bucket)
        invariant forall i :: 0 <= i < |bucket| ==> bucket[i].Holds([]) && bucket[i].node == null
        invariant forall i, j :: 0 <= i < j < |bucket| ==> bucket[i] != bucket[j]
      {
        var b := new Bucket();
        bucket := bucket + [b];
      }
      t := new Table(hash, volume, bucket);
    }
  }

  lemma UpdateTwice<T>(s: seq<T>, i: nat, x: T, y: T)
    requires i < |s|
    ensures s[i := x][i := y] == s[i := y]
  {
  }

  lemma RowCleared(rows: seq<seq<Item?>>, h: nat)
    requires h < |rows|
    ensures Count(rows[h := Nulls(|rows[h]|)]) + Used(rows[h]) == Count(rows)
  {
    AllLiveUpdate(rows, h, Nulls(|rows[h]|));
    LiveNulls(|rows[h]|);
    UsedIsLive(rows[h]);
    hide AllLive, Live, Used;
    assert |AllLive(rows[h := Nulls(|rows[h]|)]) + Live(rows[h])| == |AllLive(rows) + multiset{}|;
  }

  lemma {:induction false} AllNulls(rows: seq<seq<Item?>>)
    requires forall h :: 0 <= h < |rows| ==> rows[h] == Nulls(|rows[h]|)
    ensures AllLive(rows) == multiset{}
  {
    if rows != [] {
      LiveNulls(|rows[0]|);
      assert rows[0] == Nulls(|rows[0]|);
      AllNulls(rows[1..]);
    }
  }

  lemma {:induction false} AllLiveEmpty(n: nat)
    ensures AllLive(seq(n, _ => [])) == multiset{}
  {
    if n > 0 {
      assert seq<seq<Item?>>(n, _ => [])[1..] == seq(n - 1, _ => []);
      AllLiveEmpty(n - 1);
    }
  }
}
