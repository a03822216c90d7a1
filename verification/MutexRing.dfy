/** The mutex-protected ring (src/ds_queue2.c), one call at a time: what each
    critical section does to the array.  Waiting and signalling are in
    BlockingQueue. */
module MutexRing {
  type Item = int

  const U32: int := 0x1_0000_0000

  /** The next index, wrapping at the end of the ring. */
  function Next(n: nat, max: nat): nat {
    if n + 1 >= max then 0 else n + 1
  }

  /** `nr` items from index `r` on, wrapping at the end of the ring. */
  ghost function Unwrapped(bucket: seq<Item>, r: nat, nr: nat): (q: seq<Item>)
    requires r <= |bucket| && nr <= |bucket|
    ensures |q| == nr
  {
    if r + nr <= |bucket| then bucket[r..r + nr] else bucket[r..] + bucket[..r + nr - |bucket|]
  }

  lemma DropFirst(bucket: seq<Item>, r: nat, nr: nat)
    requires r < |bucket| && 0 < nr <= |bucket|
    ensures Unwrapped(bucket, r, nr) == [bucket[r]] + Unwrapped(bucket, Next(r, |bucket|), nr - 1)
  {
  }

  /** The index behind the last of `nr` items. */
  function Behind(max: nat, r: nat, nr: nat): nat {
    if r + nr < max || max == 0 then r + nr else r + nr - max
  }

  lemma AddLast(bucket: seq<Item>, r: nat, nr: nat, data: Item)
    requires r < |bucket| && nr < |bucket|
    ensures var w := Behind(|bucket|, r, nr);
      w < |bucket| && Unwrapped(bucket[w := data], r, nr + 1) == Unwrapped(bucket, r, nr) + [data]
  {
  }

  /** The 32-bit counters keep telling the number of items. */
  lemma Count32(en: nat, de: nat, nr: nat)
    requires en < U32 && de < U32 && (en - de) % U32 == nr
    ensures nr + 1 < U32 ==> ((en + 1) % U32 - de) % U32 == nr + 1
    ensures 0 < nr ==> (en - (de + 1) % U32) % U32 == nr - 1
  {
  }

  predicate NoDuplicates(q: seq<Item>) {
    forall i, j :: 0 <= i < j < |q| ==> q[i] != q[j]
  }

  class Ring {
    const bucket: array<Item>
    var nr: nat
    var rindex: nat
    var windex: nat
    var enCount: nat
    var deCount: nat

    ghost predicate Valid()
      reads this
    {
      && bucket.Length < U32
      && nr <= bucket.Length
      && (if bucket.Length == 0 then rindex == 0 else rindex < bucket.Length)
      && windex == Behind(bucket.Length, rindex, nr)
      && enCount < U32 && deCount < U32
      && (enCount - deCount) % U32 == nr
    }

    ghost function Contents(): (q: seq<Item>)
      requires Valid()
      reads this, bucket
      ensures |q| == nr
    {
      Unwrapped(bucket[..], rindex, nr)
    }

    // queue_new
    constructor (max: nat)
      requires max < U32
      ensures Valid() && fresh(bucket) && bucket.Length == max && Contents() == []
    {
      bucket := new Item[max];
      nr, enCount, deCount, rindex, windex := 0, 0, 0, 0, 0;
    }

    /** The statements shared by the three enqueue functions: store, advance, count. */
    method Store(data: Item)
      requires Valid() && nr < bucket.Length
      modifies this, bucket
      ensures Valid() && Contents() == old(Contents()) + [data]
      ensures enCount == (old(enCount) + 1) % U32 && deCount == old(deCount) && rindex == old(rindex)
    {
      AddLast(bucket[..], rindex, nr, data);
      Count32(enCount, deCount, nr);
      hide Unwrapped;
      ghost var after := bucket[..][windex := data];
      bucket[windex] := data;
      assert bucket[..] == after;
      windex := Next(windex, bucket.Length);
      nr := nr + 1;
      enCount := (enCount + 1) % U32;
    }

    method EnqueueNb(data: Item) returns (ret: int)
      requires Valid()
      modifies this, bucket
      ensures Valid()
      ensures ret == if old(nr) < bucket.Length then 0 else -1
      ensures Contents() == if ret == 0 then old(Contents()) + [data] else old(Contents())
      ensures enCount == (if ret == 0 then (old(enCount) + 1) % U32 else old(enCount)) && deCount == old(deCount) && rindex == old(rindex)
    {
      if nr >= bucket.Length {
        return -1;
      }
      Store(data);
      return 0;
    }

    method DequeueNb() returns (ret: int, data: Item)
      requires Valid()
      modifies this
      ensures Valid()
      ensures ret == if old(nr) > 0 then 0 else -1
      ensures ret == 0 ==> old(Contents()) == [data] + Contents() && deCount == (old(deCount) + 1) % U32
      ensures enCount == old(enCount) && windex == old(windex)
      ensures ret != 0 ==> unchanged(this)
    {
      if nr <= 0 {
        return -1, 0;
      }
      DropFirst(bucket[..], rindex, nr);
      Count32(enCount, deCount, nr);
      hide Unwrapped;
      data := bucket[rindex];
      rindex := Next(rindex, bucket.Length);
      nr := nr - 1;
      deCount := (deCount + 1) % U32;
      return 0, data;
    }

    /** One of the two or three scans for a duplicate. */
    method Scan(from: nat, to: nat, data: Item) returns (found: bool)
      requires from <= to <= bucket.Length
      ensures found <==> data in bucket[from..to]
    {
      var i := from;
      while i < to
        invariant from <= i <= to
        invariant data !in bucket[from..i]
      {
        if bucket[i] == data {
          return true;
        }
        i := i + 1;
      }
      return false;
    }

    method EnqueueUniqNb(data: Item) returns (ret: int)
      requires Valid()
      modifies this, bucket
      ensures Valid()
      ensures ret == if old(nr) < bucket.Length then 0 else -1
      ensures Contents() == if ret == 0 && data !in old(Contents()) then old(Contents()) + [data] else old(Contents())
      ensures enCount == (if ret == 0 && data !in old(Contents()) then (old(enCount) + 1) % U32 else old(enCount))
      ensures deCount == old(deCount) && rindex == old(rindex)
      ensures NoDuplicates(old(Contents())) ==> NoDuplicates(Contents())
    {
      if nr >= bucket.Length {
        return -1;
      }
      var found: bool;
      if rindex <= windex {
        found := Scan(rindex, windex, data);
      } else {
        found := Scan(rindex, bucket.Length, data);
        if !found {
          found := Scan(0, windex, data);
        }
      }
      assert found <==> data in Contents();
      if !found {
        Store(data);
      }
      return 0;
    }

    method Size() returns (n: nat)
      requires Valid()
      ensures n == |Contents()| == (enCount - deCount) % U32
    {
      n := nr;
    }
  }
}
