/**
 The K&R heap of `ftl_malloc` as it is: headers in memory, chained by their `next` fields. Each operation is proved
 to do what its namesake in `HeapSpec` says.
 */
module Malloc {
  import opened Prelude
  import opened Alignment
  import opened HeapSpec

  const MAGIC_FREE: nat := 0x5f5f_5f5f
  const MAGIC_ALLOCATED: nat := 0x5a5a_5a5a

  datatype Header = Header(next: Option<nat>, capacity: nat, magic: nat)

  function Nth(order: seq<nat>, k: nat): Option<nat> {
    if k < |order| then Some(order[k]) else None
  }

  function MagicOf(b: Block): nat {
    if b.free then MAGIC_FREE else MAGIC_ALLOCATED
  }

  predicate Links(mem: map<nat, Header>, order: seq<nat>, i: nat)
    requires i < |order|
  {
    order[i] in mem && mem[order[i]].next == Nth(order, i + 1)
  }

  /** Whatever pointed at place `k` of the list now points at `to`. */
  predicate Relinked(mem: map<nat, Header>, head: Option<nat>, order: seq<nat>, k: nat, to: Option<nat>,
                     mem': map<nat, Header>, head': Option<nat>)
    requires k < |order|
  {
    if k == 0 then mem' == mem && head' == to
    else head' == head && order[k - 1] in mem && mem' == mem[order[k - 1] := mem[order[k - 1]].(next := to)]
  }

  /** The headers in memory spell out the heap: a list threads the free blocks in order. */
  predicate Spells(mem: map<nat, Header>, head: Option<nat>, h: Heap) {
    && mem.Keys == h.blocks.Keys
    && (forall a :: a in mem ==> mem[a].capacity == h.blocks[a].capacity && mem[a].magic == MagicOf(h.blocks[a]))
    && (forall a :: a in mem && !h.blocks[a].free ==> mem[a].next == None)
    && head == Nth(h.order, 0)
    && (forall i :: 0 <= i < |h.order| ==> Links(mem, h.order, i))
  }

  /** Replacing the block in place `k` of the free list by what a split leaves of it, by the writes that do it. */
  lemma SplitSpells(mem: map<nat, Header>, head: Option<nat>, h: Heap, k: nat, size: nat, rest: nat,
                    mem1: map<nat, Header>, mem2: map<nat, Header>, head': Option<nat>)
    requires Spells(mem, head, h) && Ordered(h.blocks, h.order) && k < |h.order|
    requires h.blocks[h.order[k]].capacity >= size + HEADER_SIZE + MIN_CAPACITY
    requires rest == h.order[k] + HEADER_SIZE + size && rest !in mem
    requires mem1 == mem[h.order[k] := Header(None, size, MAGIC_ALLOCATED)]
                        [rest := Header(mem[h.order[k]].next,
                                        mem[h.order[k]].capacity - size - HEADER_SIZE, MAGIC_FREE)]
    requires Relinked(mem1, head, h.order, k, Some(rest), mem2, head')
    ensures Spells(mem2, head', Take(h, k, size))
  {
    var h' := Take(h, k, size);
    assert Links(mem, h.order, k);
    forall i | 0 <= i < |h'.order| ensures Links(mem2, h'.order, i) {
      assert Links(mem, h.order, i);
    }
  }

  /** Removing the block in place `k` of the free list. */
  lemma RemoveSpells(mem: map<nat, Header>, head: Option<nat>, h: Heap, k: nat, size: nat,
                     mem1: map<nat, Header>, mem2: map<nat, Header>, head': Option<nat>)
    requires Spells(mem, head, h) && Ordered(h.blocks, h.order) && k < |h.order|
    requires size <= h.blocks[h.order[k]].capacity < size + HEADER_SIZE + MIN_CAPACITY
    requires mem1 == mem[h.order[k] := Header(None, mem[h.order[k]].capacity, MAGIC_ALLOCATED)]
    requires Relinked(mem1, head, h.order, k, mem[h.order[k]].next, mem2, head')
    ensures Spells(mem2, head', Take(h, k, size))
  {
    var h' := Take(h, k, size);
    assert Links(mem, h.order, k);
    forall i | 0 <= i < |h'.order| ensures Links(mem2, h'.order, i) {
      assert Links(mem, h.order, if i < k then i else i + 1);
    }
  }

  /** Putting a block in front of the free list. */
  lemma PushSpells(mem: map<nat, Header>, head: Option<nat>, h: Heap, a: nat, b: Header, h': Heap)
    requires Spells(mem, head, h) && Ordered(h.blocks, h.order)
    requires a in h.blocks ==> !h.blocks[a].free
    requires b.next == head && b.magic == MAGIC_FREE
    requires h'.order == [a] + h.order && h'.blocks == h.blocks[a := Block(b.capacity, true)]
    ensures Spells(mem[a := b], Some(a), h')
  {
    var mem' := mem[a := b];
    forall i | 0 <= i < |h'.order| ensures Links(mem', h'.order, i) {
      if i > 0 { assert Links(mem, h.order, i - 1); }
    }
  }

  lemma AtFree(mem: map<nat, Header>, head: Option<nat>, h: Heap, k: nat)
    requires Spells(mem, head, h) && Ordered(h.blocks, h.order) && k < |h.order|
    ensures Links(mem, h.order, k) && (k > 0 ==> h.order[k - 1] in mem && h.order[k - 1] != h.order[k])
    ensures mem[h.order[k]].magic == MAGIC_FREE && mem[h.order[k]].capacity == h.blocks[h.order[k]].capacity
    ensures h.blocks[h.order[k]].free
  {
  }

  lemma AtAllocated(mem: map<nat, Header>, head: Option<nat>, h: Heap, a: nat)
    requires Spells(mem, head, h) && a in h.blocks && !h.blocks[a].free
    ensures a in mem && mem[a].magic == MAGIC_ALLOCATED && mem[a].capacity == h.blocks[a].capacity
  {
  }

  lemma HeadIsFirst(mem: map<nat, Header>, head: Option<nat>, h: Heap)
    requires Spells(mem, head, h)
    ensures head == Nth(h.order, 0) && mem.Keys == h.blocks.Keys
  {
  }

  class LinkedListAllocator {
    var head: Option<nat>
    var mem: map<nat, Header>  // the headers that lie in the chunks, by address
    ghost var heap: Heap

    ghost predicate Valid()
      reads this
    {
      WellFormed(heap) && Spells(mem, head, heap)
    }

    constructor ()
      ensures Valid() && heap == Empty
    {
      head, mem, heap := None, map[], Empty;
    }

    method AddChunk(ptr: nat, size: nat)
      requires Valid() && Owned(heap, ptr, size)
      modifies this
      ensures Valid() && heap == Extend(old(heap), ptr, size)
    {
      hide Tiled, Spells;
      SixteenIsPower();
      IsAlignedIsMultiple(ptr, MIN_SIZE);
      AddChunkKeeps(heap, ptr, size);
      if ptr == 0 || !IsAligned(ptr, MIN_SIZE) || size < HEADER_SIZE { return; }
      var capacity := size - HEADER_SIZE;
      if capacity < MIN_CAPACITY || capacity > U32_MAX { return; }
      if ptr in heap.blocks { BlockAway(heap, ptr, ptr, size); }
      PushSpells(mem, head, heap, ptr, Header(head, capacity, MAGIC_FREE), Extend(heap, ptr, size));
      mem := mem[ptr := Header(head, capacity, MAGIC_FREE)];
      head := Some(ptr);
      heap := Extend(heap, ptr, size);
    }

    /** The part of `malloc` after `can_fit`: split the block if that is worth it, and unlink it. */
    method TakeBlock(prev: Option<nat>, a: nat, size: nat, ghost k: nat)
      requires Valid() && k < |heap.order| && a == heap.order[k] && a in heap.blocks
      requires prev == if k == 0 then None else Some(heap.order[k - 1])
      requires heap.blocks[a].capacity >= size >= MIN_CAPACITY && size % MIN_SIZE == 0
      modifies this
      ensures Spells(mem, head, heap) && heap == Take(old(heap), k, size)
    {
      hide Tiled, Spells, Ordered, Take;
      AtFree(mem, head, heap, k);
      ghost var mem0, head0 := mem, head;
      var header := mem[a];
      var nextFree := header.next;
      if header.capacity - size >= HEADER_SIZE + MIN_CAPACITY {
        var rest := a + HEADER_SIZE + size;
        SplitTiled(heap, a, rest, size,
                   heap.blocks[a := Block(size, false)][rest := Block(header.capacity - size - HEADER_SIZE, true)]);
        HeadIsFirst(mem, head, heap);
        mem := mem[a := Header(None, size, MAGIC_ALLOCATED)]
                  [rest := Header(header.next, header.capacity - size - HEADER_SIZE, MAGIC_FREE)];
        nextFree := Some(rest);
      } else {
        mem := mem[a := Header(None, header.capacity, MAGIC_ALLOCATED)];
      }
      ghost var mem1 := mem;
      if prev.Some? {
        mem := mem[prev.value := mem[prev.value].(next := nextFree)];
      } else {
        head := nextFree;
      }
      if header.capacity - size >= HEADER_SIZE + MIN_CAPACITY {
        SplitSpells(mem0, head0, heap, k, size, a + HEADER_SIZE + size, mem1, mem, head);
      } else {
        RemoveSpells(mem0, head0, heap, k, size, mem1, mem, head);
      }
      heap := Take(heap, k, size);
    }

    method Malloc(size: nat, align: nat) returns (r: Option<nat>)
      requires Valid() && 0 < size < WORDS && IsPowerOfTwo(align)
      modifies this
      ensures Valid() && align > 0 && (heap, r) == Allocate(old(heap), size, align)
    {
      hide Tiled, Spells, Ordered, Take, ChunksApart, IsAligned, AlignUp, Fits, FirstFit, IsPowerOfTwo, Rounded;
      PowerBounds(align);
      AllocateKeeps(heap, size, align);
      if size > U32_MAX / 2 { return None; }
      var size' := AlignUp(size, MIN_SIZE);
      RoundedIsAlignUp(size);
      var prev: Option<nat>, next := None, head;
      HeadIsFirst(mem, head, heap);
      ghost var k := 0;
      while next.Some?
        invariant heap == old(heap) && mem == old(mem) && head == old(head)
        invariant k <= |heap.order| && next == Nth(heap.order, k)
        invariant prev == if k == 0 then None else Some(heap.order[k - 1])
        invariant FirstFit(heap, 0, size', align) == FirstFit(heap, k, size', align)
        decreases |heap.order| - k
      {
        var a := next.value;
        AtFree(mem, head, heap, k);
        var header := mem[a];
        assert header.magic == MAGIC_FREE;
        FitsIsTest(heap, a, size', align);
        FirstFitStep(heap, k, size', align);
        if header.capacity >= size' && IsAligned(a + HEADER_SIZE, align) {
          TakeBlock(prev, a, size', k);
          return Some(a + HEADER_SIZE);
        }
        prev, next := next, header.next;
        k := k + 1;
      }
      FirstFitStep(heap, k, size', align);
      r := None;
    }

    method Free(ptr: nat)
      requires Valid() && (ptr == 0 || IsAllocated(heap, ptr))
      modifies this
      ensures Valid() && heap == Release(old(heap), ptr)
    {
      hide Tiled, Spells;
      ReleaseKeeps(heap, ptr);
      if ptr == 0 { return; }
      var a := ptr - HEADER_SIZE;
      AtAllocated(mem, head, heap, a);
      assert mem[a].magic == MAGIC_ALLOCATED;
      PushSpells(mem, head, heap, a, mem[a].(magic := MAGIC_FREE, next := head), Release(heap, ptr));
      mem := mem[a := mem[a].(magic := MAGIC_FREE, next := head)];
      head := Some(a);
      heap := Release(heap, ptr);
    }
  }

  /** The test that the loop makes of a free block. */
  lemma FitsIsTest(h: Heap, a: nat, size: nat, align: nat)
    requires IsPowerOfTwo(align) && a in h.blocks && h.blocks[a].free
    ensures align > 0
    ensures Fits(h, a, size, align) <==> h.blocks[a].capacity >= size && IsAligned(a + HEADER_SIZE, align)
  {
    hide IsPowerOfTwo, IsAligned;
    IsAlignedIsMultiple(a + HEADER_SIZE, align);
  }

  lemma FirstFitStep(h: Heap, k: nat, size: nat, align: nat)
    requires k <= |h.order| && align > 0
    ensures FirstFit(h, k, size, align) ==
            if k == |h.order| || Fits(h, h.order[k], size, align) then k else FirstFit(h, k + 1, size, align)
  {
    hide Fits;
  }

  lemma SixteenIsPower()
    ensures IsPowerOfTwo(MIN_SIZE)
  {
    assert Pow2(4) == MIN_SIZE;
  }

  lemma RoundedIsAlignUp(size: nat)
    requires size <= U32_MAX / 2
    ensures AlignUp(size, MIN_SIZE) == Rounded(size) <= U32_MAX
    ensures Rounded(size) % MIN_SIZE == 0 && (size > 0 ==> Rounded(size) >= MIN_SIZE)
  {
    SixteenIsPower();
    AlignUpIsDiv(size, MIN_SIZE);
  }
}
