/**
 The index allocator (include/sddf/util/ialloc.h): free indices form a linked list inside an array; an index that is
 allocated, and the last one of the list, hold -1.
 */
module Ialloc {
  import opened FreeList
  import opened Sequences

  /** The list runs through exactly the free indices, in this order. */
  ghost predicate ListIs(list: seq<int>, head: int, tail: int, free: seq<nat>)
  {
    && NoRepeats(free) && Below(free, |list|)
    && (free != [] ==> head == free[0] && tail == free[|free| - 1])
    && (forall i :: 0 <= i < |free| ==> list[free[i]] == NextOf(free, i))
    && (forall id: nat :: id < |list| && id !in free ==> list[id] == NIL)
  }

  /** ialloc_in_use, for an index in range. */
  predicate InUseTest(list: seq<int>, id: nat)
    requires id < |list|
  {
    list[id] == NIL
  }

  /** The test takes an index for allocated exactly when it is, or is the last of the free ones. */
  lemma InUseExact(list: seq<int>, head: int, tail: int, free: seq<nat>, id: nat)
    requires ListIs(list, head, tail, free) && id < |list|
    ensures InUseTest(list, id) <==> id !in free || id == free[|free| - 1]
  {
    if id in free {
      var i :| 0 <= i < |free| && free[i] == id;
      assert list[free[i]] == NextOf(free, i);
    }
  }

  lemma InRest(free: seq<nat>, id: nat)
    requires free != []
    ensures id in free <==> id == free[0] || id in free[1..]
  {
    assert free == [free[0]] + free[1..];
  }

  lemma AfterAlloc(list: seq<int>, head: int, tail: int, free: seq<nat>)
    requires ListIs(list, head, tail, free) && free != []
    ensures 0 <= head < |list| && ListIs(list[head := NIL], list[head], tail, free[1..])
  {
    var rest, list' := free[1..], list[head := NIL];
    assert list[free[0]] == NextOf(free, 0);
    AllocLinks(list, free);
    forall id: nat | id < |list| && id !in rest
      ensures list'[id] == NIL
    {
      InRest(free, id);
    }
  }

  /** The links after the first stay as they are. */
  lemma AllocLinks(list: seq<int>, free: seq<nat>)
    requires NoRepeats(free) && Below(free, |list|) && free != []
    requires forall i :: 0 <= i < |free| ==> list[free[i]] == NextOf(free, i)
    ensures var rest := free[1..];
            NoRepeats(rest) && Below(rest, |list|)
            && forall i :: 0 <= i < |rest| ==> list[free[0] := NIL][rest[i]] == NextOf(rest, i)
  {
    var rest := free[1..];
    forall i | 0 <= i < |rest|
      ensures list[free[0] := NIL][rest[i]] == NextOf(rest, i)
    {
      assert rest[i] == free[i + 1] != free[0];
      assert list[free[i + 1]] == NextOf(free, i + 1);
    }
  }

  /** Appending an allocated index. */
  lemma AfterFree(list: seq<int>, head: int, tail: int, free: seq<nat>, id: nat)
    requires ListIs(list, head, tail, free) && id < |list| && id !in free
    ensures free == [] ==> ListIs(list, id, id, [id])
    ensures free != [] ==> 0 <= tail < |list| && ListIs(list[tail := id], head, id, free + [id])
  {
    if free != [] {
      var free', list' := free + [id], list[tail := id];
      assert forall i :: 0 <= i < |free| ==> free[i] in free;
      forall i | 0 <= i < |free'|
        ensures list'[free'[i]] == NextOf(free', i)
      {
        if i < |free| {
          assert list[free[i]] == NextOf(free, i);
        }
      }
    }
  }

  /** Freeing the last free index again is accepted, and then no list of free indices fits any more. */
  lemma DoubleFreeOfLast(list: seq<int>, head: int, tail: int, free: seq<nat>, free': seq<nat>)
    requires ListIs(list, head, tail, free) && free != []
    ensures 0 <= tail < |list| && InUseTest(list, tail) && !ListIs(list[tail := tail], head, tail, free')
  {
    assert list[free[|free| - 1]] == NextOf(free, |free| - 1);
    var id: nat, list' := tail, list[tail := tail];
    assert list'[id] == id;
    forall i | 0 <= i < |free'| && free'[i] == id
      ensures NoRepeats(free') ==> NextOf(free', i) != id
    {
      assert i + 1 < |free'| && NoRepeats(free') ==> free'[i] != free'[i + 1];
    }
    assert id in free' ==> exists i :: 0 <= i < |free'| && free'[i] == id;
  }

  /** Nothing is the list of free indices. */
  ghost predicate NoList(list: seq<int>, head: int, tail: int)
  {
    forall f :: !ListIs(list, head, tail, f)
  }

  lemma NothingIsList(list: seq<int>, head: int, tail: int, free: seq<nat>)
    requires ListIs(list, head, tail, free) && free != []
    ensures 0 <= tail < |list| && NoList(list[tail := tail], head, tail)
  {
    assert tail == free[|free| - 1];
    var list' := list[tail := tail];
    forall f | ListIs(list', head, tail, f)
      ensures false
    {
      DoubleFreeOfLast(list, head, tail, free, f);
    }
  }

  lemma InitialList(list: seq<int>)
    requires list != [] && list[|list| - 1] == NIL && forall k :: 0 <= k < |list| - 1 ==> list[k] == k + 1
    ensures ListIs(list, 0, |list| - 1, Identity(|list|))
  {
    var free := Identity(|list|);
    forall i | 0 <= i < |free|
      ensures list[free[i]] == NextOf(free, i)
    {
    }
    forall id: nat | id < |list|
      ensures id in free
    {
      assert free[id] == id;
    }
  }

  class Allocator {
    const idxlist: array<int>
    const offset: nat
    var head: int
    var tail: int
    var numFree: nat
    ghost var free: seq<nat>       // free indices, in the order they will be handed out

    ghost predicate Valid()
      reads this, idxlist
    {
      ListIs(idxlist[..], head, tail, free) && numFree == |free|
    }

    /** ialloc_init_with_offset. */
    constructor (size: nat, off: nat)
      requires size > 0
      ensures Valid() && fresh(idxlist) && idxlist.Length == size && offset == off && free == Identity(size)
    {
      offset, head, tail, numFree := off, 0, size - 1, size;
      free := Identity(size);
      idxlist := new int[size];
      new;
      for i := 0 to size - 1
        invariant head == 0 && tail == size - 1 && numFree == size && free == Identity(size) && fresh(idxlist)
        invariant forall k :: 0 <= k < i ==> idxlist[k] == k + 1
      {
        idxlist[i] := i + 1;
      }
      idxlist[size - 1] := NIL;
      InitialList(idxlist[..]);
    }

    /** This is the last of the free indices. */
    predicate IsLast(id: nat, list: seq<nat>)
    {
      list != [] && id == list[|list| - 1] + offset
    }

    /** ialloc_in_use. */
    method InUse(id: nat) returns (r: bool)
      requires Valid()
      ensures r <==> offset <= id < offset + idxlist.Length && (id - offset !in free || id - offset == free[|free| - 1])
    {
      if id >= idxlist.Length + offset || id < offset {
        return false;
      }
      InUseExact(idxlist[..], head, tail, free, id - offset);
      return idxlist[id - offset] == NIL;
    }

    /** ialloc_alloc: fails exactly when nothing is free; otherwise the index longest free. */
    method Alloc() returns (ok: bool, id: nat)
      requires Valid()
      modifies this`head, this`numFree, this`free, idxlist
      ensures Valid() && (ok <==> old(free) != [])
      ensures ok ==> id == old(free)[0] + offset && free == old(free)[1..]
      ensures !ok ==> free == old(free)
    {
      if numFree == 0 {
        return false, 0;
      }
      AfterAlloc(idxlist[..], head, tail, free);
      var i := head;
      id := i + offset;
      head := idxlist[i];
      idxlist[i] := NIL;
      assert idxlist[..] == old(idxlist[..])[i := NIL];
      numFree := numFree - 1;
      free := free[1..];
      ok := true;
    }

    /**
     ialloc_free. An index out of range, or free and not the last of the list, is refused. An allocated index goes to
     the end of the list. The last free index itself is accepted, and then nothing is a list of free indices any more.
     */
    method Free(id: nat) returns (ok: bool)
      requires Valid()
      modifies this`head, this`tail, this`numFree, this`free, idxlist
      ensures !IsLast(id, old(free)) ==>
                Valid()
                && (ok <==> offset <= id < offset + idxlist.Length && id - offset !in old(free))
      ensures !IsLast(id, old(free)) ==> free == if ok then old(free) + [id - offset] else old(free)
      ensures IsLast(id, old(free)) ==> ok && NoList(idxlist[..], head, tail)
    {
      var used := InUse(id);
      if id >= idxlist.Length + offset || id < offset || !used {
        return false;
      }
      var i := id - offset;
      if IsLast(id, free) {
        NothingIsList(idxlist[..], head, tail, free);
      } else {
        AfterFree(idxlist[..], head, tail, free, i);
      }
      if numFree == 0 {
        head, tail := i, i;
      } else {
        idxlist[tail] := i;
        assert idxlist[..] == old(idxlist[..])[tail := i];
        tail := i;
      }
      numFree := numFree + 1;
      free := free + [i];
      ok := true;
    }
  }
}
