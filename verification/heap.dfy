/**
 What the K&R heap of `ftl_malloc` means: a map of blocks that tiles the chunks, and the order in which free
 blocks are tried. The laws of the heap are proved here, for every run of its operations.
 */
module HeapSpec {
  import opened Prelude
  import opened Alignment

  const HEADER_SIZE: nat := 16
  const MIN_CAPACITY: nat := 16
  const MIN_SIZE: nat := 16
  const U32_MAX: nat := 0xffff_ffff

  /** A header at `a` is followed by `capacity` bytes of data. */
  datatype Block = Block(capacity: nat, free: bool)

  datatype Chunk = Chunk(start: nat, end: nat)

  /** `blocks` is keyed by header address; `order` lists the free ones as the free list does. */
  datatype Heap = Heap(blocks: map<nat, Block>, order: seq<nat>, chunks: seq<Chunk>)

  const Empty: Heap := Heap(map[], [], [])

  // -- well-formed heaps

  function End(blocks: map<nat, Block>, a: nat): nat
    requires a in blocks
  {
    a + HEADER_SIZE + blocks[a].capacity
  }

  predicate ChunksApart(chunks: seq<Chunk>) {
    forall i, j :: 0 <= i < j < |chunks| ==> chunks[i].end <= chunks[j].start || chunks[j].end <= chunks[i].start
  }

  /** The block at `a` lies in chunk `i`, and ends it or is followed by another block. */
  predicate LiesIn(blocks: map<nat, Block>, chunks: seq<Chunk>, a: nat, i: nat)
    requires a in blocks
  {
    && i < |chunks|
    && chunks[i].start <= a
    && End(blocks, a) <= chunks[i].end
    && (End(blocks, a) < chunks[i].end ==> End(blocks, a) in blocks)
  }

  /** A block is aligned, of a legal size, and in a chunk. */
  ghost predicate Homed(blocks: map<nat, Block>, chunks: seq<Chunk>, a: nat) {
    a in blocks ==>
      && 0 < a && a % MIN_SIZE == 0
      && MIN_CAPACITY <= blocks[a].capacity <= U32_MAX
      && exists i: nat :: LiesIn(blocks, chunks, a, i)
  }

  ghost predicate Tiled(blocks: map<nat, Block>, chunks: seq<Chunk>) {
    && (forall a: nat :: Homed(blocks, chunks, a))
    && (forall a, b :: a in blocks && b in blocks && a < b ==> End(blocks, a) <= b)
    && (forall i :: 0 <= i < |chunks| ==> chunks[i].start in blocks && chunks[i].start < chunks[i].end <= WORDS)
  }

  /** The free list holds every free block once, and nothing else. */
  predicate Ordered(blocks: map<nat, Block>, order: seq<nat>) {
    && (forall i :: 0 <= i < |order| ==> order[i] in blocks && blocks[order[i]].free)
    && (forall a :: a in blocks && blocks[a].free ==> a in order)
    && (forall i, j :: 0 <= i < j < |order| ==> order[i] != order[j])
  }

  ghost predicate WellFormed(h: Heap) {
    ChunksApart(h.chunks) && Tiled(h.blocks, h.chunks) && Ordered(h.blocks, h.order)
  }

  // -- the operations

  predicate Accepts(ptr: nat, size: nat) {
    ptr != 0 && ptr % MIN_SIZE == 0 && HEADER_SIZE + MIN_CAPACITY <= size && size - HEADER_SIZE <= U32_MAX
  }

  function Extend(h: Heap, ptr: nat, size: nat): Heap {
    if Accepts(ptr, size) then
      Heap(h.blocks[ptr := Block(size - HEADER_SIZE, true)], [ptr] + h.order, h.chunks + [Chunk(ptr, ptr + size)])
    else h
  }

  function Rounded(size: nat): nat {
    (size + 15) / 16 * 16
  }

  /** The free block at `a` has room for `size` bytes, and its data is aligned. */
  predicate Fits(h: Heap, a: nat, size: nat, align: nat)
    requires align > 0
  {
    a in h.blocks && h.blocks[a].free && h.blocks[a].capacity >= size && (a + HEADER_SIZE) % align == 0
  }

  /** The first place in `order`, from `k` on, whose block fits; the length of `order` if there is none. */
  function FirstFit(h: Heap, k: nat, size: nat, align: nat): (f: nat)
    requires k <= |h.order| && align > 0
    ensures k <= f <= |h.order|
    ensures f < |h.order| ==> Fits(h, h.order[f], size, align)
    ensures forall i :: k <= i < f ==> !Fits(h, h.order[i], size, align)
    decreases |h.order| - k
  {
    if k == |h.order| || Fits(h, h.order[k], size, align) then k else FirstFit(h, k + 1, size, align)
  }

  /** Allocate `size` bytes of the free block in place `k`, splitting off what is left if that is worth a block. */
  function Take(h: Heap, k: nat, size: nat): Heap
    requires k < |h.order| && h.order[k] in h.blocks && h.blocks[h.order[k]].capacity >= size
  {
    var a := h.order[k];
    var left := h.blocks[a].capacity - size;
    if left < HEADER_SIZE + MIN_CAPACITY then
      h.(blocks := h.blocks[a := h.blocks[a].(free := false)], order := h.order[..k] + h.order[k + 1..])
    else
      var n := a + HEADER_SIZE + size;
      h.(blocks := h.blocks[a := Block(size, false)][n := Block(left - HEADER_SIZE, true)], order := h.order[k := n])
  }

  function Allocate(h: Heap, size: nat, align: nat): (Heap, Option<nat>)
    requires align > 0
  {
    if size > U32_MAX / 2 then (h, None)
    else
      var k := FirstFit(h, 0, Rounded(size), align);
      if k == |h.order| then (h, None) else (Take(h, k, Rounded(size)), Some(h.order[k] + HEADER_SIZE))
  }

  predicate IsAllocated(h: Heap, ptr: nat) {
    ptr >= HEADER_SIZE && ptr - HEADER_SIZE in h.blocks && !h.blocks[ptr - HEADER_SIZE].free
  }

  /** `free` does nothing on null; any other pointer must be allocated, or the caller broke its contract. */
  function Release(h: Heap, ptr: nat): Heap {
    if !IsAllocated(h, ptr) then h
    else
      var a := ptr - HEADER_SIZE;
      h.(blocks := h.blocks[a := h.blocks[a].(free := true)], order := [a] + h.order)
  }

  // -- each operation keeps heaps well-formed

  /** The caller of `add_chunk` owns the memory it hands over. */
  predicate Owned(h: Heap, ptr: nat, size: nat) {
    && ptr + size <= WORDS
    && forall i :: 0 <= i < |h.chunks| ==> h.chunks[i].end <= ptr || ptr + size <= h.chunks[i].start
  }

  /** A block of a well-formed heap is inside a chunk, so away from memory that is in none. */
  lemma BlockAway(h: Heap, a: nat, ptr: nat, size: nat)
    requires WellFormed(h) && a in h.blocks && Owned(h, ptr, size) && size > 0
    ensures End(h.blocks, a) <= ptr || ptr + size <= a
  {
    assert Homed(h.blocks, h.chunks, a);
    var i: nat :| LiesIn(h.blocks, h.chunks, a, i);
  }

  /** More blocks and more chunks leave a block that keeps its size where it was. */
  lemma HomedKept(blocks: map<nat, Block>, chunks: seq<Chunk>, blocks': map<nat, Block>, chunks': seq<Chunk>, a: nat)
    requires a in blocks && Homed(blocks, chunks, a) && chunks <= chunks'
    requires blocks.Keys <= blocks'.Keys && blocks'[a].capacity == blocks[a].capacity
    ensures Homed(blocks', chunks', a)
  {
    var i: nat :| LiesIn(blocks, chunks, a, i);
    assert LiesIn(blocks', chunks', a, i);
  }

  lemma AddChunkKeeps(h: Heap, ptr: nat, size: nat)
    requires WellFormed(h) && Owned(h, ptr, size)
    ensures WellFormed(Extend(h, ptr, size))
  {
    hide Homed, LiesIn;
    if Accepts(ptr, size) {
      var h' := Extend(h, ptr, size);
      forall a | a in h.blocks ensures End(h.blocks, a) <= ptr || ptr + size <= a {
        BlockAway(h, a, ptr, size);
      }
      forall a: nat ensures Homed(h'.blocks, h'.chunks, a) {
        ExtendedHomed(h, ptr, size, a);
      }
    }
  }

  lemma ExtendedHomed(h: Heap, ptr: nat, size: nat, a: nat)
    requires WellFormed(h) && Owned(h, ptr, size) && Accepts(ptr, size)
    ensures Homed(Extend(h, ptr, size).blocks, Extend(h, ptr, size).chunks, a)
  {
    hide Homed, LiesIn;
    var h' := Extend(h, ptr, size);
    if a in h.blocks {
      BlockAway(h, a, ptr, size);
      assert Homed(h.blocks, h.chunks, a);
      HomedKept(h.blocks, h.chunks, h'.blocks, h'.chunks, a);
    } else {
      NewBlockHomed(h, ptr, size);
      NotABlock(h'.blocks, h'.chunks, a);
    }
  }

  lemma NotABlock(blocks: map<nat, Block>, chunks: seq<Chunk>, a: nat)
    ensures a !in blocks ==> Homed(blocks, chunks, a)
  {
  }

  lemma NewBlockHomed(h: Heap, ptr: nat, size: nat)
    requires Accepts(ptr, size)
    ensures var h' := Extend(h, ptr, size);
      Homed(h'.blocks, h'.chunks, ptr)
  {
    var h' := Extend(h, ptr, size);
    assert LiesIn(h'.blocks, h'.chunks, ptr, |h.chunks|);
  }

  /** Tiling is a matter of where blocks are and how big, not of which are free. */
  lemma TiledSame(blocks: map<nat, Block>, chunks: seq<Chunk>, blocks': map<nat, Block>)
    requires Tiled(blocks, chunks) && blocks.Keys == blocks'.Keys
    requires forall a :: a in blocks ==> blocks'[a].capacity == blocks[a].capacity
    ensures Tiled(blocks', chunks)
  {
    hide Homed, LiesIn;
    forall a: nat ensures Homed(blocks', chunks, a) {
      assert Homed(blocks, chunks, a);
      NotABlock(blocks', chunks, a);
      if a in blocks { HomedKept(blocks, chunks, blocks', chunks, a); }
    }
  }

  lemma ReleaseKeeps(h: Heap, ptr: nat)
    requires WellFormed(h)
    ensures WellFormed(Release(h, ptr))
  {
    hide Tiled;
    TiledSame(h.blocks, h.chunks, Release(h, ptr).blocks);
  }

  lemma RemoveOrdered(blocks: map<nat, Block>, order: seq<nat>, k: nat, blocks': map<nat, Block>, order': seq<nat>)
    requires Ordered(blocks, order) && k < |order|
    requires blocks' == blocks[order[k] := blocks[order[k]].(free := false)]
    requires order' == order[..k] + order[k + 1..]
    ensures Ordered(blocks', order')
  {
    forall a | a in blocks' && blocks'[a].free ensures a in order' {
      var i :| 0 <= i < |order| && order[i] == a;
      if i < k { assert order'[i] == a; } else { assert order'[i - 1] == a; }
    }
  }

  lemma TakeWholeKeeps(h: Heap, k: nat, size: nat)
    requires WellFormed(h) && k < |h.order| && size <= h.blocks[h.order[k]].capacity < size + HEADER_SIZE + MIN_CAPACITY
    ensures WellFormed(Take(h, k, size))
  {
    hide Tiled;
    var h' := Take(h, k, size);
    TiledSame(h.blocks, h.chunks, h'.blocks);
    RemoveOrdered(h.blocks, h.order, k, h'.blocks, h'.order);
  }

  /** The two parts of a split block lie where the whole did. */
  lemma SplitHomed(blocks: map<nat, Block>, chunks: seq<Chunk>, a: nat, n: nat, size: nat, blocks': map<nat, Block>)
    requires a in blocks && Homed(blocks, chunks, a)
    requires size % MIN_SIZE == 0 && n == a + HEADER_SIZE + size && size >= MIN_CAPACITY
    requires blocks[a].capacity >= size + HEADER_SIZE + MIN_CAPACITY
    requires blocks' == blocks[a := Block(size, false)][n := Block(blocks[a].capacity - size - HEADER_SIZE, true)]
    ensures Homed(blocks', chunks, a) && Homed(blocks', chunks, n)
  {
    var i: nat :| LiesIn(blocks, chunks, a, i);
    assert LiesIn(blocks', chunks, a, i) && LiesIn(blocks', chunks, n, i);
  }

  /** Splitting: the block at `a` shrinks, and the rest becomes a block of its own at `n`. */
  lemma SplitTiled(h: Heap, a: nat, n: nat, size: nat, blocks': map<nat, Block>)
    requires WellFormed(h) && a in h.blocks && size % MIN_SIZE == 0 && n == a + HEADER_SIZE + size
             && size >= MIN_CAPACITY
    requires h.blocks[a].capacity >= size + HEADER_SIZE + MIN_CAPACITY
    requires blocks' == h.blocks[a := Block(size, false)][n := Block(h.blocks[a].capacity - size - HEADER_SIZE, true)]
    ensures n !in h.blocks && Tiled(blocks', h.chunks)
  {
    hide Homed, LiesIn, Ordered;
    assert End(blocks', n) == End(h.blocks, a) && End(blocks', a) == n;
    assert Homed(h.blocks, h.chunks, a);
    SplitHomed(h.blocks, h.chunks, a, n, size, blocks');
    forall b: nat ensures Homed(blocks', h.chunks, b) {
      assert Homed(h.blocks, h.chunks, b);
      NotABlock(blocks', h.chunks, b);
      if b in h.blocks && b != a { HomedKept(h.blocks, h.chunks, blocks', h.chunks, b); }
    }
  }

  lemma TakePartKeeps(h: Heap, k: nat, size: nat)
    requires WellFormed(h) && k < |h.order| && size % MIN_SIZE == 0 && size >= MIN_CAPACITY
    requires h.blocks[h.order[k]].capacity >= size + HEADER_SIZE + MIN_CAPACITY
    ensures WellFormed(Take(h, k, size))
  {
    hide Tiled;
    var h', a := Take(h, k, size), h.order[k];
    var n := a + HEADER_SIZE + size;
    SplitTiled(h, a, n, size, h'.blocks);
    forall b | b in h'.blocks && h'.blocks[b].free ensures b in h'.order {
      if b == n {
        assert h'.order[k] == n;
      } else {
        var i :| 0 <= i < |h.order| && h.order[i] == b;
        assert h'.order[i] == b;
      }
    }
  }

  lemma AllocateKeeps(h: Heap, size: nat, align: nat)
    requires WellFormed(h) && align > 0 && size > 0
    ensures WellFormed(Allocate(h, size, align).0)
  {
    hide Tiled;
    var k := FirstFit(h, 0, Rounded(size), align);
    if size <= U32_MAX / 2 && k < |h.order| {
      if h.blocks[h.order[k]].capacity < Rounded(size) + HEADER_SIZE + MIN_CAPACITY {
        TakeWholeKeeps(h, k, Rounded(size));
      } else {
        TakePartKeeps(h, k, Rounded(size));
      }
    }
  }

  // -- what a request gets

  /** `malloc` fails exactly when the size is over the limit or no free block fits. */
  lemma AllocateIsComplete(h: Heap, size: nat, align: nat)
    requires WellFormed(h) && align > 0
    ensures Allocate(h, size, align).1.None? <==>
            size > U32_MAX / 2 || forall a :: a in h.blocks ==> !Fits(h, a, Rounded(size), align)
  {
    hide Tiled;
    var k := FirstFit(h, 0, Rounded(size), align);
    if k == |h.order| {
      forall a | a in h.blocks ensures !Fits(h, a, Rounded(size), align) {
        if h.blocks[a].free {
          var i :| 0 <= i < |h.order| && h.order[i] == a;
        }
      }
    }
  }

  /** A served request takes a fitting free block, and leaves every other allocation as it was. */
  lemma AllocateServes(h: Heap, size: nat, align: nat, q: nat)
    requires WellFormed(h) && align > 0 && size > 0
    ensures var (h', r) := Allocate(h, size, align);
      && (r.None? ==> h' == h)
      && (r.Some? ==>
        && r.value % align == 0 && !IsAllocated(h, r.value)
        && IsAllocated(h', r.value) && h'.blocks[r.value - HEADER_SIZE].capacity >= size
        && h'.blocks[r.value - HEADER_SIZE].capacity - Rounded(size) < HEADER_SIZE + MIN_CAPACITY
        && (q != r.value ==> (IsAllocated(h', q) <==> IsAllocated(h, q)))
        && (IsAllocated(h, q) ==> h'.blocks[q - HEADER_SIZE] == h.blocks[q - HEADER_SIZE]))
  {
    hide Tiled;
    var k := FirstFit(h, 0, Rounded(size), align);
    if size <= U32_MAX / 2 && k < |h.order| {
      var a := h.order[k];
      if h.blocks[a].capacity >= Rounded(size) + HEADER_SIZE + MIN_CAPACITY {
        SplitTiled(h, a, a + HEADER_SIZE + Rounded(size), Rounded(size), Take(h, k, Rounded(size)).blocks);
      }
    }
  }

  /** A block just freed serves the next request that fits it. */
  lemma FreedIsReusedFirst(h: Heap, ptr: nat, size: nat, align: nat)
    requires WellFormed(h) && IsAllocated(h, ptr) && align > 0 && size <= U32_MAX / 2
    requires Rounded(size) <= h.blocks[ptr - HEADER_SIZE].capacity && ptr % align == 0
    ensures Allocate(Release(h, ptr), size, align).1 == Some(ptr)
  {
    hide Tiled, Ordered;
    assert Fits(Release(h, ptr), Release(h, ptr).order[0], Rounded(size), align);
  }

  const GROWTH: nat := 0x2_0000  // the 128 KiB that the kernel asks its page allocator for

  lemma MultipleOfLarge(x: nat, m: nat)
    requires m > 0 && x % (32 * m) == 0
    ensures x % 32 == 0
  {
    DivMod(x, 32 * m);
    Associate(32, m, x / (32 * m));
    ModUnique(x, 32, m * (x / (32 * m)), 0);
  }

  lemma SmallPowers(k: nat)
    requires k <= 5
    ensures Pow2(k) == if k == 0 then 1 else if k == 1 then 2 else if k == 2 then 4 else if k == 3 then 8
                       else if k == 4 then 16 else 32
  {
    assert Pow2(0) == 1;
    assert Pow2(1) == 2;
    assert Pow2(2) == 4;
    assert Pow2(3) == 8;
    assert Pow2(4) == 16;
    assert Pow2(5) == 32;
  }

  lemma SmallPower(align: nat)
    requires IsPowerOfTwo(align)
    ensures align == 1 || align == 2 || align == 4 || align == 8 || align == 16 || (align >= 32 && align % 32 == 0)
  {
    hide Pow2;
    var k: nat :| k < 64 && align == Pow2(k);
    if k < 5 {
      SmallPowers(k);
    } else {
      SmallPowers(5);
      Pow2Add(5, k - 5);
      ModUnique(align, 32, Pow2(k - 5), 0);
    }
  }

  lemma SmallDivides(q: nat, align: nat, k: nat, j: nat)
    requires align > 0 && align * k == 4096 && align * j == 16
    ensures (4096 * q + 16) % align == 0
  {
    Distribute(align, k * q, j);
    Associate(align, k, q);
    ModUnique(4096 * q + 16, align, k * q + j, 0);
  }

  lemma PageDataOdd(q: nat)
    ensures (4096 * q + HEADER_SIZE) % 32 == 16
  {
    ModUnique(4096 * q + HEADER_SIZE, 32, 128 * q, 16);
  }

  lemma PageDataAligned(ptr: nat, align: nat)
    requires ptr % 4096 == 0 && IsPowerOfTwo(align)
    ensures align > 0 && ((ptr + HEADER_SIZE) % align == 0 <==> align <= 16)
  {
    SmallPower(align);
    hide IsPowerOfTwo;
    var q := ptr / 4096;
    if align >= 32 {
      if (ptr + HEADER_SIZE) % align == 0 { MultipleOfLarge(ptr + HEADER_SIZE, align / 32); }
      PageDataOdd(q);
    } else if align == 16 {
      SmallDivides(q, 16, 256, 1);
    } else if align == 8 {
      SmallDivides(q, 8, 512, 2);
    } else if align == 4 {
      SmallDivides(q, 4, 1024, 4);
    } else if align == 2 {
      SmallDivides(q, 2, 2048, 8);
    }
  }

  /**
   After the heap grew by a page-aligned chunk, a request it could not serve before is served if and only if
   its rounded size is at most 131056 and its alignment at most 16; it gets the start of the chunk.
   */
  lemma GrowthServes(h: Heap, ptr: nat, size: nat, align: nat)
    requires WellFormed(h) && Owned(h, ptr, GROWTH) && ptr != 0 && ptr % 4096 == 0
    requires size > 0 && IsPowerOfTwo(align)
    ensures align > 0 && Accepts(ptr, GROWTH)
    ensures Rounded(size) <= 131056 && align <= 16 ==>
            Allocate(Extend(h, ptr, GROWTH), size, align).1 == Some(ptr + HEADER_SIZE)
    ensures Allocate(h, size, align).1.None? ==>
            (Allocate(Extend(h, ptr, GROWTH), size, align).1.Some? <==> Rounded(size) <= 131056 && align <= 16)
  {
    hide Fits, FirstFit, WellFormed, Owned, Extend, Take;
    FreshChunkFits(h, ptr, Rounded(size), align);
    hide IsPowerOfTwo;
    var h' := Extend(h, ptr, GROWTH);
    if Rounded(size) <= 131056 && align <= 16 {
      FirstIsFirst(h', Rounded(size), align);
    } else if Allocate(h, size, align).1.None? {
      AllocateIsComplete(h, size, align);
      AddChunkKeeps(h, ptr, GROWTH);
      AllocateIsComplete(h', size, align);
      forall a | a in h'.blocks ensures size > U32_MAX / 2 || !Fits(h', a, Rounded(size), align) {
        FitsElsewhere(h, ptr, a, Rounded(size), align);
      }
    }
  }

  /** A request fits the fresh chunk if it is small enough and not aligned to more than 16 bytes. */
  lemma FreshChunkFits(h: Heap, ptr: nat, size: nat, align: nat)
    requires ptr != 0 && ptr % 4096 == 0 && IsPowerOfTwo(align)
    ensures align > 0 && Accepts(ptr, GROWTH)
    ensures Extend(h, ptr, GROWTH).order == [ptr] + h.order
    ensures Fits(Extend(h, ptr, GROWTH), ptr, size, align) <==> size <= 131056 && align <= 16
  {
    PageDataAligned(ptr, align);
  }

  lemma FitsElsewhere(h: Heap, ptr: nat, a: nat, size: nat, align: nat)
    requires align > 0
    ensures a in Extend(h, ptr, GROWTH).blocks && a != ptr ==>
            a in h.blocks && Fits(Extend(h, ptr, GROWTH), a, size, align) == Fits(h, a, size, align)
  {
  }

  lemma FirstIsFirst(h: Heap, size: nat, align: nat)
    requires align > 0 && h.order != [] && Fits(h, h.order[0], size, align)
    ensures FirstFit(h, 0, size, align) == 0
  {
  }

  // -- tiling and conservation

  /** Every byte of a chunk belongs to a block. Since blocks are apart, to exactly one. */
  lemma {:induction false} ByteIsInBlock(h: Heap, i: nat, a: nat, x: nat) returns (b: nat)
    requires WellFormed(h) && i < |h.chunks| && a in h.blocks && h.chunks[i].start <= a <= x < h.chunks[i].end
    ensures b in h.blocks && b <= x < End(h.blocks, b)
    decreases x - a
  {
    hide Homed, Ordered;
    if x < End(h.blocks, a) {
      b := a;
    } else {
      FollowedInChunk(h, i, a);
      b := ByteIsInBlock(h, i, End(h.blocks, a), x);
    }
  }

  /** A block that starts in a chunk ends in it, and unless it ends it another follows. */
  lemma FollowedInChunk(h: Heap, i: nat, a: nat)
    requires WellFormed(h) && i < |h.chunks| && a in h.blocks && h.chunks[i].start <= a < h.chunks[i].end
    ensures LiesIn(h.blocks, h.chunks, a, i)
  {
    assert Homed(h.blocks, h.chunks, a);
    OneHome(h.blocks, h.chunks, i, a);
  }

  lemma OneHome(blocks: map<nat, Block>, chunks: seq<Chunk>, i: nat, a: nat)
    requires ChunksApart(chunks) && i < |chunks| && a in blocks && Homed(blocks, chunks, a)
    requires chunks[i].start <= a < chunks[i].end
    ensures LiesIn(blocks, chunks, a, i)
  {
    var j: nat :| LiesIn(blocks, chunks, a, j);
    assert i == j;
  }

  /** Bytes in headers, in free blocks and in allocated ones. */
  datatype Census = Census(headers: nat, free: nat, used: nat)

  function Count(c: Census, b: Block): Census {
    if b.free then Census(c.headers + HEADER_SIZE, c.free + b.capacity, c.used)
    else Census(c.headers + HEADER_SIZE, c.free, c.used + b.capacity)
  }

  /** The blocks met walking from `a` to `e`, each block leading to the next. */
  function ChunkCensus(blocks: map<nat, Block>, a: nat, e: nat): Census
    decreases e - a
  {
    if a >= e || a !in blocks then Census(0, 0, 0) else Count(ChunkCensus(blocks, End(blocks, a), e), blocks[a])
  }

  function HeapCensus(blocks: map<nat, Block>, chunks: seq<Chunk>): Census {
    if chunks == [] then Census(0, 0, 0)
    else
      var rest, last := HeapCensus(blocks, chunks[..|chunks| - 1]), chunks[|chunks| - 1];
      var c := ChunkCensus(blocks, last.start, last.end);
      Census(rest.headers + c.headers, rest.free + c.free, rest.used + c.used)
  }

  function Added(chunks: seq<Chunk>): int {
    if chunks == [] then 0
    else Added(chunks[..|chunks| - 1]) + (chunks[|chunks| - 1].end - chunks[|chunks| - 1].start)
  }

  lemma {:induction false} ChunkConserved(h: Heap, i: nat, a: nat)
    requires WellFormed(h) && i < |h.chunks| && h.chunks[i].start <= a <= h.chunks[i].end
    requires a < h.chunks[i].end ==> a in h.blocks
    ensures var c := ChunkCensus(h.blocks, a, h.chunks[i].end);
      c.headers + c.free + c.used == h.chunks[i].end - a
    decreases h.chunks[i].end - a
  {
    hide Homed, Tiled, Ordered;
    if a < h.chunks[i].end {
      FollowedInChunk(h, i, a);
      ChunkConserved(h, i, End(h.blocks, a));
    }
  }

  /** Headers, free bytes and allocated bytes add up to the bytes of the chunks added. */
  lemma {:induction false} BytesConserved(h: Heap, k: nat)
    requires WellFormed(h) && k <= |h.chunks|
    ensures var c := HeapCensus(h.blocks, h.chunks[..k]);
      c.headers + c.free + c.used == Added(h.chunks[..k])
  {
    hide Homed, Ordered;
    if k > 0 {
      BytesConserved(h, k - 1);
      ChunkConserved(h, k - 1, h.chunks[k - 1].start);
      assert h.chunks[..k][..k - 1] == h.chunks[..k - 1];
    }
  }

  // -- runs

  datatype Call = Donate(ptr: nat, size: nat) | Request(size: nat, align: nat) | Return(ptr: nat)

  /** A heap, and the allocations its clients hold with the sizes they asked for. */
  datatype State = State(heap: Heap, live: map<nat, nat>)

  /** What clients owe: memory nobody else uses, a sane layout, and only pointers that they hold. */
  ghost predicate Permitted(s: State, c: Call) {
    match c
    case Donate(ptr, size) => Owned(s.heap, ptr, size)
    case Request(size, align) => size > 0 && IsPowerOfTwo(align)
    case Return(ptr) => ptr == 0 || ptr in s.live
  }

  ghost function Perform(s: State, c: Call): State
    requires Permitted(s, c)
  {
    match c
    case Donate(ptr, size) => State(Extend(s.heap, ptr, size), s.live)
    case Request(size, align) =>
      PowerBounds(align);
      var (h, r) := Allocate(s.heap, size, align);
      State(h, if r.Some? then s.live[r.value := size] else s.live)
    case Return(ptr) => State(Release(s.heap, ptr), s.live - {ptr})
  }

  ghost predicate IsRun(states: seq<State>, calls: seq<Call>) {
    && |states| == |calls| + 1
    && states[0] == State(Empty, map[])
    && forall i :: 0 <= i < |calls| ==> Permitted(states[i], calls[i]) && states[i + 1] == Perform(states[i], calls[i])
  }

  predicate LiveOk(s: State, p: nat) {
    && (p in s.live <==> IsAllocated(s.heap, p))
    && (p in s.live ==> s.live[p] <= s.heap.blocks[p - HEADER_SIZE].capacity)
  }

  ghost predicate Agreed(s: State) {
    WellFormed(s.heap) && forall p :: LiveOk(s, p)
  }

  lemma PerformKeepsLive(s: State, c: Call, p: nat)
    requires Agreed(s) && Permitted(s, c)
    ensures LiveOk(Perform(s, c), p)
  {
    hide Tiled, Ordered;
    assert LiveOk(s, p);
    match c
    case Donate(ptr, size) =>
      if Accepts(ptr, size) && p >= HEADER_SIZE && p - HEADER_SIZE == ptr && ptr in s.heap.blocks {
        BlockAway(s.heap, ptr, ptr, size);
      }
    case Request(size, align) =>
      PowerBounds(align);
      AllocateServes(s.heap, size, align, p);
    case Return(ptr) =>
  }

  lemma PerformKeeps(s: State, c: Call)
    requires Agreed(s) && Permitted(s, c)
    ensures Agreed(Perform(s, c))
  {
    hide Tiled, Ordered, LiveOk;
    forall p ensures LiveOk(Perform(s, c), p) {
      PerformKeepsLive(s, c, p);
    }
    match c
    case Donate(ptr, size) => AddChunkKeeps(s.heap, ptr, size);
    case Request(size, align) =>
      PowerBounds(align);
      AllocateKeeps(s.heap, size, align);
    case Return(ptr) => ReleaseKeeps(s.heap, ptr);
  }

  lemma {:induction false} RunAgreed(states: seq<State>, calls: seq<Call>, i: nat)
    requires IsRun(states, calls) && i < |states|
    ensures Agreed(states[i])
  {
    if i > 0 {
      RunAgreed(states, calls, i - 1);
      PerformKeeps(states[i - 1], calls[i - 1]);
    }
  }

  /** A live allocation is inside a chunk, and away from every header and every other live allocation. */
  ghost predicate Safe(s: State, p: nat)
    requires p in s.live
  {
    && (exists c :: c in s.heap.chunks && c.start <= p && p + s.live[p] <= c.end)
    && (forall a :: a in s.heap.blocks ==> a + HEADER_SIZE <= p || p + s.live[p] <= a)
    && (forall q :: q in s.live && p < q ==> p + s.live[p] <= q)
  }

  lemma LiveIsSafe(s: State, p: nat)
    requires Agreed(s) && p in s.live
    ensures Safe(s, p)
  {
    hide Ordered, LiesIn;
    assert LiveOk(s, p);
    var a := p - HEADER_SIZE;
    LiesSomewhere(s.heap, a);
    forall q | q in s.live && p < q ensures p + s.live[p] <= q {
      assert LiveOk(s, q);
    }
  }

  lemma LiesSomewhere(h: Heap, a: nat)
    requires WellFormed(h) && a in h.blocks
    ensures exists c :: c in h.chunks && c.start <= a && End(h.blocks, a) <= c.end
  {
    assert Homed(h.blocks, h.chunks, a);
    var i: nat :| LiesIn(h.blocks, h.chunks, a, i);
    assert h.chunks[i] in h.chunks;
  }

  /** In every run: chunks are tiled, live allocations are safe, the free list is exact, no byte is lost. */
  lemma RunsAreSafe(states: seq<State>, calls: seq<Call>, i: nat)
    requires IsRun(states, calls) && i < |states|
    ensures var s := states[i]; var h := s.heap;
      && (forall p :: p in s.live ==> Safe(s, p))
      && (forall c, x: nat :: c in h.chunks && c.start <= x < c.end ==> InBlock(h.blocks, x))
      && (forall a, b :: a in h.blocks && b in h.blocks && a < b ==> End(h.blocks, a) <= b)
      && Ordered(h.blocks, h.order)
      && (var c := HeapCensus(h.blocks, h.chunks); c.headers + c.free + c.used == Added(h.chunks))
  {
    hide LiveOk, Safe, InBlock, Homed;
    RunAgreed(states, calls, i);
    var s := states[i];
    var h := s.heap;
    forall p | p in s.live ensures Safe(s, p) { LiveIsSafe(s, p); }
    forall c, x: nat | c in h.chunks && c.start <= x < c.end ensures InBlock(h.blocks, x) {
      ByteIsCovered(h, c, x);
    }
    BytesConserved(h, |h.chunks|);
    assert h.chunks[..|h.chunks|] == h.chunks;
  }

  ghost predicate InBlock(blocks: map<nat, Block>, x: nat) {
    exists b :: b in blocks && b <= x < End(blocks, b)
  }

  lemma ByteIsCovered(h: Heap, c: Chunk, x: nat)
    requires WellFormed(h) && c in h.chunks && c.start <= x < c.end
    ensures InBlock(h.blocks, x)
  {
    hide Homed;
    var i :| 0 <= i < |h.chunks| && h.chunks[i] == c;
    var b := ByteIsInBlock(h, i, c.start, x);
  }
}
