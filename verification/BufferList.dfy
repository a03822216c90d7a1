/** The byte buffer over a linked list (src/ds_bufferlist.h:11-23,
    src/ds_bufferlist.c:10-178) and the vectored send that empties it
    (src/util_conn_tcp.c:227-288).

    A `void *` into a block is the block with an offset. */
module BufferList {
  import opened LinkedList

  type byte = x: int | 0 <= x < 256

  const DEFAULT_BUFSIZE := 65536
  const DEFAULT_IOVS := 8

  class BufferNode {
    const start: seq<byte>
    var pos: nat
    var size: nat

    /** buffer_new_node, on a copy of the caller's bytes. */
    constructor (data: seq<byte>)
      ensures Holds(data)
    {
      start, pos, size := data, 0, |data|;
    }

    /** The bytes of the node that have not been consumed. */
    ghost predicate Holds(chunk: seq<byte>)
      reads this
    {
      size == |chunk| && pos + size == |start| && start[pos..] == chunk
    }
  }

  /** The bytes of a chain of chunks. */
  function Concat(chunks: seq<seq<byte>>): seq<byte> {
    if chunks == [] then [] else chunks[0] + Concat(chunks[1..])
  }

  lemma {:induction false} ConcatSnoc(chunks: seq<seq<byte>>, c: seq<byte>)
    ensures Concat(chunks + [c]) == Concat(chunks) + c
  {
    if chunks == [] {
      assert ([] + [c])[1..] == [] && c + [] == c;
    } else {
      assert (chunks + [c])[1..] == chunks[1..] + [c];
      ConcatSnoc(chunks[1..], c);
      assert chunks[0] + (Concat(chunks[1..]) + c) == chunks[0] + Concat(chunks[1..]) + c;
    }
  }

  lemma {:induction false} ConcatSplit(chunks: seq<seq<byte>>, k: nat)
    requires k <= |chunks|
    ensures Concat(chunks) == Concat(chunks[..k]) + Concat(chunks[k..])
  {
    if k == 0 {
      assert chunks[0..] == chunks && [] + Concat(chunks) == Concat(chunks);
    } else {
      ConcatSplit(chunks[1..], k - 1);
      assert chunks[..k][1..] == chunks[1..][..k - 1] && chunks[1..][k - 1..] == chunks[k..];
      assert chunks[0] + (Concat(chunks[1..][..k - 1]) + Concat(chunks[k..])) == Concat(chunks[..k]) + Concat(chunks[k..]);
    }
  }

  lemma ConcatHead(chunks: seq<seq<byte>>)
    requires chunks != []
    ensures Concat(chunks) == chunks[0] + Concat(chunks[1..])
  {
  }

  class BufferList {
    const base: LList<BufferNode?>
    var bufsize: nat
    const max: nat
    var nbytes: nat
    /** The unconsumed bytes of every node. */
    ghost var chunks: seq<seq<byte>>

    ghost predicate Valid()
      reads this, base, base.ring, base.contents
    {
      && base.Valid() && base.volume == max
      && |chunks| == |base.contents| && bufsize == |chunks| && nbytes == |Concat(chunks)|
      && (forall i :: 0 <= i < |chunks| ==> base.contents[i] != null && base.contents[i].Holds(chunks[i]))
      && (forall i, j :: 0 <= i < j < |chunks| ==> base.contents[i] != base.contents[j])
    }

    /** The FIFO of bytes that the list stands for. */
    ghost function Bytes(): seq<byte>
      reads this
    {
      Concat(chunks)
    }

    /** buffer_new */
    constructor (size: nat)
      ensures Valid() && Bytes() == [] && max == if size == 0 then DEFAULT_BUFSIZE else size
      ensures fresh(base) && fresh(base.ring)
    {
      var n := if size == 0 then DEFAULT_BUFSIZE else size;
      var ll := new LList<BufferNode?>(null, n);
      base, max, bufsize, nbytes, chunks := ll, n, 0, 0, [];
    }

    /** buffer_write: the bytes go to the end, unless `max` chunks are held. */
    method Write(buf: seq<byte>) returns (res: int)
      requires Valid()
      modifies this, base, base.ring
      ensures Valid()
      ensures old(|chunks|) < max ==> res == |buf| && chunks == old(chunks) + [buf] && Bytes() == old(Bytes()) + buf
      ensures old(|chunks|) >= max ==> res == -1 && chunks == old(chunks)
      ensures forall i :: 0 <= i < |base.ring| ==> base.ring[i] in old(base.ring) || fresh(base.ring[i])
      ensures forall i :: 0 <= i < |base.contents| ==> base.contents[i] in old(base.contents) || fresh(base.contents[i])
    {
      var bn := new BufferNode(buf);
      var ok := base.Append(bn);
      if !ok {
        return -1;
      }
      ConcatSnoc(chunks, buf);
      hide Concat;
      bufsize := bufsize + 1;
      nbytes := nbytes + |buf|;
      chunks := chunks + [buf];
      return |buf|;
    }

    /** buffer_pop: takes the first node out. */
    method Pop() returns (ok: bool)
      requires Valid()
      modifies this, base, base.ring
      ensures Valid() && ok == (old(chunks) != [])
      ensures chunks == if ok then old(chunks)[1..] else []
      ensures base.contents == if ok then old(base.contents)[1..] else []
      ensures forall i :: 0 <= i < |base.ring| ==> base.ring[i] in old(base.ring)
    {
      assert |chunks| == |base.contents|;
      if chunks != [] {
        ConcatHead(chunks);
      }
      hide Concat;
      var bn;
      ok, bn := base.FetchHead();
      if !ok {
        return;
      }
      nbytes := nbytes - bn.size;
      bufsize := bufsize - 1;
      chunks := chunks[1..];
    }

    /** buffer_move_head: consumes bytes of the first node if it holds more than that. */
    method MoveHead(n: nat) returns (ok: bool)
      requires Valid()
      modifies this, base.contents
      ensures Valid() && ok == (old(chunks) != [] && |old(chunks)[0]| > n)
      ensures chunks == if ok then [old(chunks)[0][n..]] + old(chunks)[1..] else old(chunks)
    {
      var some, bn := base.GetHead();
      if !some || bn.size <= n {
        return false;
      }
      ConcatHead(chunks);
      hide Concat;
      bn.pos := bn.pos + n;
      bn.size := bn.size - n;
      nbytes := nbytes - n;
      ghost var was := chunks;
      chunks := [chunks[0][n..]] + chunks[1..];
      ConcatHead(chunks);
      assert chunks[1..] == was[1..];
      return true;
    }

    /** Lines 122-137: the whole first node is copied and dropped. */
    method TakeNode(data: array<byte>, res: nat) returns (n: nat)
      requires Valid() && chunks != [] && res + |chunks[0]| <= data.Length
      modifies this, base, base.ring, data
      ensures Valid() && n == |old(chunks)[0]| && chunks == old(chunks)[1..]
      ensures forall k :: 0 <= k < data.Length && !(res <= k < res + n) ==> data[k] == old(data[k])
      ensures forall k :: 0 <= k < n ==> data[res + k] == old(chunks)[0][k]
      ensures base.contents == old(base.contents)[1..]
      ensures forall i :: 0 <= i < |base.ring| ==> base.ring[i] in old(base.ring)
    {
      var ok, bn := base.GetHead();
      n := bn.size;
      ghost var head := chunks[0];
      ok := Pop();
      hide Valid;
      Memcpy(data, res, bn, n, head);
    }

    /** Lines 138-146: the first bytes of the first node are copied and consumed. */
    method TakePart(data: array<byte>, res: nat, n: nat)
      requires Valid() && chunks != [] && n < |chunks[0]| && res + n <= data.Length
      modifies this, base.contents, data
      ensures Valid() && chunks == [old(chunks)[0][n..]] + old(chunks)[1..]
      ensures forall k :: 0 <= k < data.Length && !(res <= k < res + n) ==> data[k] == old(data[k])
      ensures forall k :: 0 <= k < n ==> data[res + k] == old(chunks)[0][k]
    {
      var ok, bn := base.GetHead();
      ghost var head := chunks[0];
      Memcpy(data, res, bn, n, head);
      ok := MoveHead(n);
    }

    /** One turn of the loop of buffer_read (lines 116-147): the bytes that are
        copied and dropped are the first ones. */
    method ReadTurn(data: array<byte>, res: nat, left: nat) returns (n: nat)
      requires Valid() && nbytes > 0 && res + left <= data.Length
      modifies this, base, base.ring, base.contents, data
      ensures Valid() && n <= left && n <= old(|Bytes()|)
      ensures Bytes() == old(Bytes())[n..]
      ensures forall k :: 0 <= k < data.Length && !(res <= k < res + n) ==> data[k] == old(data[k])
      ensures forall k :: 0 <= k < n ==> data[res + k] == old(Bytes())[k]
      ensures |chunks| <= old(|chunks|) && (n == left || |chunks| < old(|chunks|))
      ensures forall i :: 0 <= i < |base.ring| ==> base.ring[i] in old(base.ring)
      ensures forall i :: 0 <= i < |base.contents| ==> base.contents[i] in old(base.contents)
    {
      assert chunks != [];
      ghost var was := chunks;
      ConcatHead(chunks);
      var ok, bn := base.GetHead();
      assert bn.Holds(chunks[0]);
      hide *;
      if bn.size <= left {
        n := TakeNode(data, res);
      } else {
        n := left;
        TakePart(data, res, left);
        ConcatHead(chunks);
        assert chunks[1..] == was[1..];
      }
    }

    /** buffer_read: the first min(size, nbytes) bytes, whatever the nodes. */
    method Read(data: array<byte>, size: nat) returns (res: nat)
      requires Valid() && size <= data.Length
      modifies this, base, base.ring, base.contents, data
      ensures Valid() && res == if size <= old(nbytes) then size else old(nbytes)
      ensures data[..res] == old(Bytes())[..res] && data[res..] == old(data[res..])
      ensures Bytes() == old(Bytes())[res..]
    {
      hide Concat;
      res := 0;
      var left: nat := size;
      ghost var all := Bytes();
      while nbytes > 0 && left > 0
        invariant Valid() && res + left == size && res <= |all|
        invariant forall k :: 0 <= k < res ==> data[k] == all[k]
        invariant forall k :: res <= k < data.Length ==> data[k] == old(data[k])
        invariant Bytes() == all[res..]
        invariant forall i :: 0 <= i < |base.ring| ==> base.ring[i] in old(base.ring)
        invariant forall i :: 0 <= i < |base.contents| ==> base.contents[i] in old(base.contents)
        decreases left + |chunks|
      {
        var n := ReadTurn(data, res, left);
        assert forall k :: res <= k < res + n ==> data[k] == data[res + (k - res)];
        res, left := res + n, left - n;
      }
    }

    // ----- conn_tcp_sendv_nb

    /** The entry for the i-th node, and the node behind it: lines 242-253. */
    method Entry(buf: Link<BufferNode?>, ghost i: nat, bytes: nat) returns (v: Iovec, next: Link?<BufferNode?>)
      requires Valid() && i < |chunks| && buf == base.ring[i + 1] && bytes > 0
      ensures v.len == (if bytes > |chunks[i]| then |chunks[i]| else bytes) && v.Carried() == chunks[i][..v.len]
      ensures next == if i + 1 < |chunks| then base.ring[i + 2] else null
    {
      hide Concat;
      var bn := buf.ptr;
      assert bn == base.contents[i];
      var len := if bytes > bn.size then bn.size else bytes;
      v := Iovec(bn.start, bn.pos, len);
      assert bn.start[bn.pos..][..len] == chunks[i][..len];
      next := base.GetNext(buf, i + 1);
    }

    /** One turn of the gathering loop. */
    method GatherTurn(iovs: array<Iovec>, i: nat, buf: Link<BufferNode?>, size: nat, bytes: nat)
      returns (left: nat, next: Link?<BufferNode?>)
      requires Valid() && i < |chunks| && buf == base.ring[i + 1] && i < iovs.Length && 0 < bytes <= size
      requires Gathered(iovs[..i], chunks, i, size, bytes)
      modifies iovs
      ensures left <= bytes && Gathered(iovs[..i + 1], chunks, i + 1, size, left)
      ensures next == if i + 1 < |chunks| then base.ring[i + 2] else null
    {
      var v;
      v, next := Entry(buf, i, bytes);
      GatheredStep(iovs[..i], v, chunks, i, size, bytes);
      hide Gathered, Concat, Valid;
      ghost var before := iovs[..i];
      iovs[i] := v;
      assert iovs[..i + 1] == before + [v];
      left := bytes - v.len;
    }

    /** The gathering loop: at most 8 nodes and at most `size` bytes, from the front. */
    method Gather(size: nat) returns (iovs: array<Iovec>, i: nat)
      requires Valid()
      ensures fresh(iovs) && i <= iovs.Length == DEFAULT_IOVS
      ensures Vector(iovs[..i]) == Bytes()[..Offer(chunks, size)]
    {
      iovs := new Iovec[DEFAULT_IOVS];
      i := 0;
      var bytes: nat := size;
      var buf := base.GetHeadNode();
      GatheredNone(chunks, size);
      assert iovs[..0] == [];
      hide Concat, Vector, Gathered, Offer, Valid;
      while buf != null && bytes > 0 && i < DEFAULT_IOVS
        invariant Valid()
        invariant i <= |chunks| && i <= DEFAULT_IOVS && bytes <= size
        invariant buf == if i < |chunks| then base.ring[i + 1] else null
        invariant Gathered(iovs[..i], chunks, i, size, bytes)
        decreases |chunks| - i
      {
        bytes, buf := GatherTurn(iovs, i, buf, size, bytes);
        i := i + 1;
      }
      GatheredAll(iovs[..i], chunks, i, size, bytes);
    }

    /** The consuming loop. */
    method Consume(res: nat)
      requires Valid() && res <= |Bytes()|
      modifies this, base, base.ring, base.contents
      ensures Valid() && Bytes() == old(Bytes())[res..]
    {
      hide Concat;
      var bytes: nat := res;
      ghost var all := Bytes();
      while bytes > 0
        invariant Valid() && bytes <= res && Bytes() == all[res - bytes..]
        invariant forall i :: 0 <= i < |base.ring| ==> base.ring[i] in old(base.ring)
        invariant forall i :: 0 <= i < |base.contents| ==> base.contents[i] in old(base.contents)
        decreases bytes + |chunks|
      {
        var n := ConsumeTurn(bytes);
        bytes := bytes - n;
      }
    }

    method ConsumeTurn(bytes: nat) returns (n: nat)
      requires Valid() && 0 < bytes <= |Bytes()|
      modifies this, base, base.ring, base.contents
      ensures Valid() && n <= bytes && Bytes() == old(Bytes())[n..]
      ensures |chunks| <= old(|chunks|) && (n == bytes || |chunks| < old(|chunks|))
      ensures forall i :: 0 <= i < |base.ring| ==> base.ring[i] in old(base.ring)
      ensures forall i :: 0 <= i < |base.contents| ==> base.contents[i] in old(base.contents)
    {
      assert chunks != [];
      ghost var was := chunks;
      ConcatHead(chunks);
      var some, bn := base.GetHead();
      assert bn.Holds(chunks[0]);
      hide *;
      if bytes >= bn.size {
        n := bn.size;
        some := Pop();
      } else {
        n := bytes;
        some := MoveHead(bytes);
        ConcatHead(chunks);
        assert chunks[1..] == was[1..];
      }
    }

    /** conn_tcp_sendv_nb, where `outcome` is what writev returns: an error, or
        any number of the bytes it was offered.  Exactly the bytes sent are
        dropped, so the sent bytes followed by the rest are the old contents. */
    method SendV(size: nat, outcome: int) returns (res: int, ghost sent: seq<byte>)
      requires Valid() && outcome <= Offer(chunks, size)
      modifies this, base, base.ring, base.contents
      ensures Valid() && res == outcome && (res < 0 ==> sent == [])
      ensures 0 <= res ==> |sent| == res && sent == old(Bytes())[..res]
      ensures sent + Bytes() == old(Bytes())
    {
      hide Concat, Vector, Offer, Valid;
      var iovs, i := Gather(size);
      res := outcome;
      if res < 0 {
        sent := [];
        return;
      }
      sent := Vector(iovs[..i])[..res];
      Consume(res);
    }
  }

  // ----- writev

  /** An entry of the vector: `len` bytes of a block from an offset on. */
  datatype Iovec = Iovec(base: seq<byte>, pos: nat, len: nat) {
    function Carried(): seq<byte> {
      if pos + len <= |base| then base[pos..pos + len] else []
    }
  }

  /** The bytes that a vector offers to writev. */
  function Vector(iovs: seq<Iovec>): seq<byte> {
    if iovs == [] then [] else Vector(iovs[..|iovs| - 1]) + iovs[|iovs| - 1].Carried()
  }

  /** How many bytes a vector for `size` bytes of these chunks offers. */
  function Offer(chunks: seq<seq<byte>>, size: nat): (n: nat)
    ensures n <= size && n <= |Concat(chunks)|
  {
    var k := if |chunks| < DEFAULT_IOVS then |chunks| else DEFAULT_IOVS;
    ConcatSplit(chunks, k);
    if size <= |Concat(chunks[..k])| then size else |Concat(chunks[..k])|
  }

  /** The first i chunks have been gathered, or enough of them for `size` bytes. */
  ghost predicate Gathered(iovs: seq<Iovec>, chunks: seq<seq<byte>>, i: nat, size: nat, bytes: nat)
    requires i <= |chunks| && bytes <= size
  {
    && size - bytes <= |Concat(chunks[..i])|
    && (bytes > 0 ==> size - bytes == |Concat(chunks[..i])|)
    && Vector(iovs) == Concat(chunks[..i])[..size - bytes]
  }

  lemma GatheredNone(chunks: seq<seq<byte>>, size: nat)
    ensures Gathered([], chunks, 0, size, size)
  {
  }

  lemma GatheredStep(iovs: seq<Iovec>, v: Iovec, chunks: seq<seq<byte>>, i: nat, size: nat, bytes: nat)
    requires i < |chunks| && 0 < bytes <= size && Gathered(iovs, chunks, i, size, bytes)
    requires v.len == (if bytes > |chunks[i]| then |chunks[i]| else bytes) && v.Carried() == chunks[i][..v.len]
    ensures Gathered(iovs + [v], chunks, i + 1, size, bytes - v.len)
  {
    ConcatSnoc(chunks[..i], chunks[i]);
    assert chunks[..i] + [chunks[i]] == chunks[..i + 1];
    var done := Concat(chunks[..i]);
    hide Concat;
    assert (iovs + [v])[..|iovs|] == iovs;
    assert done[..size - bytes] == done;
    assert done + chunks[i][..v.len] == (done + chunks[i])[..|done| + v.len];
  }

  lemma GatheredAll(iovs: seq<Iovec>, chunks: seq<seq<byte>>, i: nat, size: nat, bytes: nat)
    requires i <= |chunks| && i <= DEFAULT_IOVS && bytes <= size && Gathered(iovs, chunks, i, size, bytes)
    requires bytes == 0 || i == |chunks| || i == DEFAULT_IOVS
    ensures Vector(iovs) == Concat(chunks)[..Offer(chunks, size)]
  {
    var k := if |chunks| < DEFAULT_IOVS then |chunks| else DEFAULT_IOVS;
    ConcatSplit(chunks, i);
    ConcatSplit(chunks[..k], i);
    assert chunks[..k][..i] == chunks[..i];
    hide Concat;
  }

  /** memcpy(data + at, bn->pos, n), from a node whose block holds the chunk behind `pos`. */
  method Memcpy(data: array<byte>, at: nat, bn: BufferNode, n: nat, ghost chunk: seq<byte>)
    requires bn.Holds(chunk) && n <= |chunk| && at + n <= data.Length
    modifies data
    ensures forall k :: 0 <= k < data.Length && !(at <= k < at + n) ==> data[k] == old(data[k])
    ensures forall k :: 0 <= k < n ==> data[at + k] == chunk[k]
  {
    for i := 0 to n
      invariant forall k :: 0 <= k < data.Length && !(at <= k < at + i) ==> data[k] == old(data[k])
      invariant forall k :: 0 <= k < i ==> data[at + k] == chunk[k]
    {
      assert bn.start[bn.pos..][i] == chunk[i];
      data[at + i] := bn.start[bn.pos + i];
    }
  }
}
