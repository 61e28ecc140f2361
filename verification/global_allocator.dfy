/** The kernel's `GlobalAllocator`: the heap, grown from the page allocator when a request does not fit. */
module GlobalAllocation {
  import opened Prelude
  import opened Alignment
  import opened Paging
  import opened PageAllocation
  import HeapSpec
  import opened Malloc

  /** The chunk is the kernel's view of a block that the page allocator handed out. */
  predicate IsGrowth(blocks: seq<Block>, c: HeapSpec.Chunk) {
    exists k :: 0 <= k < |blocks| && blocks[k].len == HeapSpec.GROWTH
                && c == HeapSpec.Chunk(blocks[k].addr + KERNEL_BASE, blocks[k].addr + KERNEL_BASE + HeapSpec.GROWTH)
  }

  /** The last block handed out is in no chunk of the heap yet. */
  lemma GrowthIsOwned(pools: seq<Range>, regions: seq<Bump>, blocks: seq<Block>, h: HeapSpec.Heap)
    requires Sound(pools, regions, blocks) && |blocks| > 0 && blocks[|blocks| - 1].len == HeapSpec.GROWTH
    requires forall i :: 0 <= i < |h.chunks| ==> IsGrowth(blocks[..|blocks| - 1], h.chunks[i])
    ensures var addr := blocks[|blocks| - 1].addr;
      addr % MIN_PAGE_SIZE == 0 && addr < USER_END && HeapSpec.Owned(h, addr + KERNEL_BASE, HeapSpec.GROWTH)
  {
    var last := |blocks| - 1;
    assert Placed(pools, regions, blocks[last]);
    forall i | 0 <= i < |h.chunks|
      ensures h.chunks[i].end <= blocks[last].addr + KERNEL_BASE
              || blocks[last].addr + KERNEL_BASE + HeapSpec.GROWTH <= h.chunks[i].start
    {
      var before := blocks[..last];
      assert IsGrowth(before, h.chunks[i]);
      var k :| 0 <= k < last && before[k].len == HeapSpec.GROWTH && h.chunks[i] ==
               HeapSpec.Chunk(before[k].addr + KERNEL_BASE, before[k].addr + KERNEL_BASE + HeapSpec.GROWTH);
      assert before[k] == blocks[k];
      BlocksApart(pools, regions, blocks, k, last);
    }
  }

  lemma StillGrowth(blocks: seq<Block>, b: Block, c: HeapSpec.Chunk)
    requires IsGrowth(blocks, c)
    ensures IsGrowth(blocks + [b], c)
  {
    var k :| 0 <= k < |blocks| && blocks[k].len == HeapSpec.GROWTH && c ==
             HeapSpec.Chunk(blocks[k].addr + KERNEL_BASE, blocks[k].addr + KERNEL_BASE + HeapSpec.GROWTH);
    assert (blocks + [b])[k] == blocks[k];
  }

  class GlobalAllocator {
    const inner: LinkedListAllocator
    const pages: PageAllocator

    ghost predicate Valid()
      reads this, inner, pages
    {
      && inner.Valid() && pages.Valid()
      && forall i :: 0 <= i < |inner.heap.chunks| ==> IsGrowth(pages.blocks, inner.heap.chunks[i])
    }

    constructor (pages: PageAllocator)
      requires pages.Valid()
      ensures Valid() && fresh(inner) && this.pages == pages && inner.heap == HeapSpec.Empty
    {
      this.pages := pages;
      inner := new LinkedListAllocator();
    }

    /** Add the chunk that the page allocator just handed out. */
    method Grow(paddr: nat)
      requires inner.Valid() && pages.Valid() && |pages.blocks| > 0
      requires pages.blocks[|pages.blocks| - 1].addr == paddr && pages.blocks[|pages.blocks| - 1].len == HeapSpec.GROWTH
      requires forall i :: 0 <= i < |inner.heap.chunks| ==>
                             IsGrowth(pages.blocks[..|pages.blocks| - 1], inner.heap.chunks[i])
      modifies inner
      ensures Valid() && HeapSpec.Owned(old(inner.heap), paddr + KERNEL_BASE, HeapSpec.GROWTH)
      ensures paddr % MIN_PAGE_SIZE == 0 && paddr + KERNEL_BASE < WORDS
      ensures inner.heap == HeapSpec.Extend(old(inner.heap), paddr + KERNEL_BASE, HeapSpec.GROWTH)
    {
      hide Sound, IsGrowth, HeapSpec.Tiled, HeapSpec.Ordered, Spells;
      ghost var blocks := pages.blocks;
      ghost var last := |blocks| - 1;
      GrowthIsOwned(pages.pools, pages.regions, blocks, inner.heap);
      DirectMapRoundTrip(paddr);
      inner.AddChunk(Paddr2Vaddr(paddr), HeapSpec.GROWTH);
      assert blocks == blocks[..last] + [blocks[last]];
      forall i | 0 <= i < |old(inner.heap).chunks| ensures IsGrowth(blocks, old(inner.heap).chunks[i]) {
        StillGrowth(blocks[..last], blocks[last], old(inner.heap).chunks[i]);
      }
      LastIsGrowth(blocks, paddr);
    }

    /** Grow the heap by a chunk, if the page allocator has one. */
    method GrowByChunk() returns (r: Option<nat>)
      requires Valid()
      modifies inner, pages
      ensures Valid() && HeapSpec.WellFormed(old(inner.heap))
      ensures r.None? <==> old(NoRoom(pages.regions, HeapSpec.GROWTH))
      ensures r.Some? ==> |pages.blocks| > 0 && pages.blocks[|pages.blocks| - 1].addr == r.value
      ensures r.Some? ==> r.value % MIN_PAGE_SIZE == 0 && r.value + KERNEL_BASE < WORDS
      ensures r.Some? ==> HeapSpec.Owned(old(inner.heap), r.value + KERNEL_BASE, HeapSpec.GROWTH)
      ensures r.Some? ==> inner.heap == HeapSpec.Extend(old(inner.heap), r.value + KERNEL_BASE, HeapSpec.GROWTH)
    {
      hide PageAllocation.Sound, NoRoom, IsGrowth, HeapSpec.WellFormed, Spells, HeapSpec.Extend, HeapSpec.Owned;
      hide IsPowerOfTwo;
      HeapOk();
      r := pages.Alloc(HeapSpec.GROWTH);
      if r.Some? {
        assert pages.blocks[..|pages.blocks| - 1] == old(pages.blocks);
        Grow(r.value);
      }
    }

    /** The part of `alloc` after the heap could not serve the request: grow it by a chunk, and try once more. */
    method AllocFromGrowth(size: nat, align: nat) returns (r: Option<nat>)
      requires Valid() && 0 < size < WORDS && IsPowerOfTwo(align) && align > 0
      requires HeapSpec.Allocate(inner.heap, size, align).1.None?
      modifies inner, pages
      ensures Valid()
      ensures r.None? <==>
              old(NoRoom(pages.regions, HeapSpec.GROWTH)) || HeapSpec.Rounded(size) > 131056 || align > 16
      ensures r.Some? ==> ServedFrom(old(inner.heap), inner.heap, pages.blocks, size, align, r.value)
    {
      hide PageAllocation.Sound, NoRoom, IsGrowth, HeapSpec.WellFormed, Spells, HeapSpec.Extend, HeapSpec.Allocate;
      hide IsPowerOfTwo, HeapSpec.Owned, HeapSpec.Rounded;
      ghost var h := inner.heap;
      var paddr := GrowByChunk();
      if paddr.None? { return None; }
      PageMultiple(paddr.value);
      HeapSpec.GrowthServes(h, paddr.value + KERNEL_BASE, size, align);
      AllocateChunks(inner.heap, size, align);
      r := inner.Malloc(size, align);
    }

    lemma HeapOk()
      requires Valid()
      ensures HeapSpec.WellFormed(inner.heap)
    {
      hide PageAllocation.Sound, IsGrowth, HeapSpec.WellFormed, Spells;
    }

    /**
     `alloc`; None stands for a kernel panic. A request that the heap cannot serve panics exactly when there are no
     128 KiB left or no fresh chunk could serve it.
     */
    method Alloc(size: nat, align: nat) returns (r: Option<nat>)
      requires Valid() && 0 < size < WORDS && IsPowerOfTwo(align)
      modifies inner, pages
      ensures Valid() && align > 0
      ensures r.None? <==>
              && HeapSpec.Allocate(old(inner.heap), size, align).1.None?
              && (old(NoRoom(pages.regions, HeapSpec.GROWTH)) || HeapSpec.Rounded(size) > 131056 || align > 16)
      ensures r.Some? && HeapSpec.Allocate(old(inner.heap), size, align).1.Some? ==>
              (inner.heap, r) == HeapSpec.Allocate(old(inner.heap), size, align) && pages.blocks == old(pages.blocks)
      ensures r.Some? && HeapSpec.Allocate(old(inner.heap), size, align).1.None? ==>
              ServedFrom(old(inner.heap), inner.heap, pages.blocks, size, align, r.value)
    {
      hide PageAllocation.Sound, NoRoom, IsGrowth, HeapSpec.WellFormed, Spells, HeapSpec.Extend, HeapSpec.Allocate;
      hide ServedFrom;
      PowerBounds(align);
      ghost var h := inner.heap;
      r := inner.Malloc(size, align);
      AllocateChunks(h, size, align);
      if r.None? { r := AllocFromGrowth(size, align); }
    }

    method Dealloc(ptr: nat)
      requires Valid() && (ptr == 0 || HeapSpec.IsAllocated(inner.heap, ptr))
      modifies inner
      ensures Valid() && inner.heap == HeapSpec.Release(old(inner.heap), ptr)
    {
      inner.Free(ptr);
    }
  }

  /** The request was served at the start of the chunk that the last block handed out became. */
  ghost predicate ServedFrom(h: HeapSpec.Heap, h': HeapSpec.Heap, blocks: seq<Block>, size: nat, align: nat, ptr: nat)
    requires align > 0
  {
    && |blocks| > 0
    && var base := blocks[|blocks| - 1].addr + KERNEL_BASE;
    && ptr == base + HeapSpec.HEADER_SIZE
    && h' == HeapSpec.Allocate(HeapSpec.Extend(h, base, HeapSpec.GROWTH), size, align).0
  }

  lemma PageMultiple(paddr: nat)
    requires paddr % MIN_PAGE_SIZE == 0
    ensures (paddr + KERNEL_BASE) % 4096 == 0
  {
  }

  lemma LastIsGrowth(blocks: seq<Block>, addr: nat)
    requires |blocks| > 0 && blocks[|blocks| - 1].addr == addr && blocks[|blocks| - 1].len == HeapSpec.GROWTH
    ensures IsGrowth(blocks, HeapSpec.Chunk(addr + KERNEL_BASE, addr + KERNEL_BASE + HeapSpec.GROWTH))
  {
    assert blocks[|blocks| - 1].addr == addr;
  }

  lemma AllocateChunks(h: HeapSpec.Heap, size: nat, align: nat)
    requires align > 0
    ensures HeapSpec.Allocate(h, size, align).0.chunks == h.chunks
    ensures HeapSpec.Allocate(h, size, align).1.None? ==> HeapSpec.Allocate(h, size, align).0 == h
  {
  }
}
