/** The doubly linked ring around a sentinel (src/ds_llist.h:20-36,
    src/ds_llist.c:27-57, :97-116, :148-156, :176-191, :223-238, :269-290). */
module LinkedList {

  class Link<T(0)> {
    var prev: Link?<T>
    var next: Link?<T>
    var ptr: T

    constructor (data: T)
      ensures ptr == data
    {
      prev, next, ptr := null, null, data;
    }
  }

  class LList<T(0)> {
    var nrNodes: nat
    const volume: int
    const dumb: Link<T>
    /** The sentinel followed by the nodes in their order. */
    ghost var ring: seq<Link<T>>
    /** What the nodes point to, in the same order. */
    ghost var contents: seq<T>

    ghost predicate Distinct()
      reads this
    {
      forall i, j :: 0 <= i < j < |ring| ==> ring[i] != ring[j]
    }

    ghost predicate Linked()
      reads this, ring
    {
      && |ring| > 0 && ring[0] == dumb
      && (forall i :: 0 <= i < |ring| - 1 ==> ring[i].next == ring[i + 1])
      && (forall i :: 0 < i < |ring| ==> ring[i].prev == ring[i - 1])
      && ring[|ring| - 1].next == dumb && dumb.prev == ring[|ring| - 1]
    }

    ghost predicate Valid()
      reads this, ring
    {
      && Distinct() && Linked()
      && nrNodes == |contents| && |contents| == |ring| - 1
      && forall i :: 0 <= i < |contents| ==> ring[i + 1].ptr == contents[i]
    }

    /** llist_new */
    constructor (default: T, volume: int)
      ensures Valid() && contents == [] && this.volume == volume && fresh(ring)
    {
      var d := new Link(default);
      this.volume := volume;
      dumb := d;
      nrNodes := 0;
      ring := [d];
      contents := [];
      new;
      d.prev, d.next := d, d;
    }

    /** llist_append_unlocked: refuses when full, else puts the item last. */
    method Append(data: T) returns (ok: bool)
      requires Valid()
      modifies this, ring
      ensures Valid() && ok == (|old(contents)| < volume)
      ensures !ok ==> ring == old(ring) && contents == old(contents)
      ensures ok ==> contents == old(contents) + [data]
      ensures ok ==> |ring| == |old(ring)| + 1 && ring[..|old(ring)|] == old(ring) && fresh(ring[|old(ring)|])
    {
      ok := nrNodes < volume;
      if ok {
        var lnode := new Link(data);
        var last := dumb.prev;
        assert last == ring[|ring| - 1];
        lnode.prev := dumb.prev;
        lnode.next := dumb;
        last.next := lnode;
        dumb.prev := lnode;
        nrNodes := nrNodes + 1;
        ring := ring + [lnode];
        contents := contents + [data];
      }
    }

    /** llist_get_head_unlocked */
    method GetHead() returns (ok: bool, data: T)
      requires Valid()
      ensures ok == (contents != []) && (ok ==> data == contents[0])
    {
      ok, data := false, dumb.ptr;
      if nrNodes > 0 {
        assert ring[0].next == ring[1];
        var ln := dumb.next;
        if ln != dumb {
          ok, data := true, ln.ptr;
        }
      }
    }

    /** llist_get_head_node_unlocked */
    method GetHeadNode() returns (node: Link?<T>)
      requires Valid()
      ensures node == if contents == [] then null else ring[1]
    {
      node := null;
      if nrNodes > 0 && dumb.next != dumb {
        node := dumb.next;
      }
    }

    /** llist_get_next_unlocked, for the i-th node */
    method GetNext(node: Link<T>, ghost i: nat) returns (next: Link?<T>)
      requires Valid() && 0 < i < |ring| && node == ring[i]
      ensures next == if i + 1 < |ring| then ring[i + 1] else null
    {
      if node.next == dumb {
        next := null;
      } else {
        next := node.next;
      }
    }

    /** llist_fetch_head_unlocked: takes the first item out. */
    method FetchHead() returns (ok: bool, data: T)
      requires Valid()
      modifies this, ring
      ensures Valid() && ok == (old(contents) != [])
      ensures !ok ==> ring == old(ring) && contents == old(contents)
      ensures ok ==> data == old(contents)[0] && contents == old(contents)[1..]
      ensures ok ==> |old(ring)| >= 2 && ring == [dumb] + old(ring)[2..]
    {
      ok, data := false, dumb.ptr;
      if nrNodes > 0 {
        assert ring[0].next == ring[1];
        assert ring[1].next == if |ring| == 2 then dumb else ring[2];
        var ln := dumb.next;
        if ln != dumb {
          data := ln.ptr;
          var second := ln.next;
          dumb.next := second;
          second.prev := dumb;
          ln.prev, ln.next := null, null;
          nrNodes := nrNodes - 1;
          ok := true;
          ring := [dumb] + ring[2..];
          contents := contents[1..];
        }
      }
    }
  }
}
