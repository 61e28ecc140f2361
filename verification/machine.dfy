/**
 Physical memory as the virtual memory system uses it. A frame holds a page table or a page of user data; which, and
 whose, is settled when the page allocator hands it out.
 */
module Machinery {
  import opened Prelude
  import opened Alignment
  import opened Paging
  import opened PageAllocation
  import opened PageTree

  function ZeroPage(): seq<Byte> {
    seq(MIN_PAGE_SIZE, _ => 0)
  }

  /** `BOOT_PDPT`: the first 4 GiB of physical memory in four huge pages. */
  function BootPdpt(): seq<nat> {
    seq(ENTRIES, i requires 0 <= i < ENTRIES => if i < 4 then PteNew(i * 0x4000_0000, 0x83) else 0)
  }

  /** Frame `f` is a page that the allocator handed out. */
  predicate Backed(blocks: seq<Block>, f: nat) {
    exists k :: 0 <= k < |blocks| && blocks[k].addr == f && blocks[k].len == MIN_PAGE_SIZE
  }

  predicate OutsidePools(pools: seq<Range>, f: nat) {
    forall i :: 0 <= i < |pools| ==> !In(f, pools[i])
  }

  /** A block handed out after a backed frame is another frame. */
  lemma LaterIsFresh(pools: seq<Range>, regions: seq<Bump>, blocks: seq<Block>, f: nat)
    requires Sound(pools, regions, blocks) && |blocks| > 0
    requires Backed(blocks[..|blocks| - 1], f) || OutsidePools(pools, f)
    ensures blocks[|blocks| - 1].addr != f
  {
    var last := |blocks| - 1;
    if Backed(blocks[..last], f) {
      var k :| 0 <= k < last && blocks[..last][k].addr == f && blocks[..last][k].len == MIN_PAGE_SIZE;
      assert blocks[k] == blocks[..last][k];
      BlocksApart(pools, regions, blocks, k, last);
    } else {
      assert Placed(pools, regions, blocks[last]);
    }
  }

  lemma StillBacked(blocks: seq<Block>, more: seq<Block>, f: nat)
    requires Backed(blocks, f)
    ensures Backed(blocks + more, f)
  {
    var k :| 0 <= k < |blocks| && blocks[k].addr == f && blocks[k].len == MIN_PAGE_SIZE;
    assert (blocks + more)[k] == blocks[k];
  }

  /** The frame just handed out is none of those in use; they all stay backed. */
  lemma NewBlockIsFresh(pools: seq<Range>, regions: seq<Bump>, before: seq<Block>, after: seq<Block>,
                        frames: set<nat>, boot: nat)
    requires Sound(pools, regions, after) && OutsidePools(pools, boot)
    requires |after| == |before| + 1 && after[..|before|] == before && after[|before|].len == MIN_PAGE_SIZE
    requires forall f :: f in frames && f != boot ==> Backed(before, f)
    ensures var n := after[|before|].addr; n !in frames && n != boot && IsFrame(n) && Backed(after, n)
    ensures forall f :: Backed(before, f) ==> Backed(after, f)
  {
    hide OutsidePools, Backed;
    assert Placed(pools, regions, after[|before|]);
    hide Sound;
    LaterIsFresh(pools, regions, after, boot);
    forall f | f in frames ensures f != after[|before|].addr {
      LaterIsFresh(pools, regions, after, f);
    }
    assert after == before + [after[|before|]];
    forall f | Backed(before, f) ensures Backed(after, f) {
      StillBacked(before, [after[|before|]], f);
    }
    LastIsBacked(after);
  }

  lemma LastIsBacked(blocks: seq<Block>)
    requires |blocks| > 0 && blocks[|blocks| - 1].len == MIN_PAGE_SIZE
    ensures Backed(blocks, blocks[|blocks| - 1].addr)
  {
  }

  lemma BootEntry(i: nat)
    requires i < ENTRIES
    ensures |BootPdpt()| == ENTRIES
    ensures if i < 4 then IsPresent(BootPdpt()[i]) && IsHuge(BootPdpt()[i]) else BootPdpt()[i] == 0
  {
    hide IsPresent, IsHuge, IsUser, IsWritable, PteAddr, PteNew;
    if i < 4 { PteFields(i * 0x4000_0000, 0x83); }
  }

  lemma BootIsTree(boot: nat)
    ensures KernelTree(map[boot := BootPdpt()], boot, map[boot := Pdpt(KERNEL_SLOT)])
  {
    hide IsPresent, IsHuge, PteAddr, BootPdpt;
    BitsAre(0);
    var mem: Memory, kernel: Places := map[boot := BootPdpt()], map[boot := Pdpt(KERNEL_SLOT)];
    forall f, i: nat ensures KernelEntryOk(mem, kernel, f, i) {
      BootEntry(if i < ENTRIES then i else 0);
    }
  }

  ghost predicate Kept(owner: map<nat, object>, owner': map<nat, object>) {
    forall f :: f in owner ==> f in owner' && owner'[f] == owner[f]
  }

  /** Frames stay, with their owners; what others than `who` own stays as it is. */
  ghost predicate Undisturbed(data: map<nat, seq<Byte>>, owner: map<nat, object>,
                              data': map<nat, seq<Byte>>, owner': map<nat, object>, who: object) {
    && Kept(owner, owner')
    && forall f :: f in data ==> f in data' && (f in owner && owner[f] != who ==> data'[f] == data[f])
  }

  /** The frames in use, what they hold, and whose they are. */
  datatype Frames = Frames(tables: Memory, data: map<nat, seq<Byte>>, owner: map<nat, object>)

  ghost predicate Grows(data: map<nat, seq<Byte>>, data': map<nat, seq<Byte>>) {
    forall f :: f in data ==> f in data' && data'[f] == data[f]
  }

  /** More frames, and more entries in the tables of `who`; nothing that was there has changed. */
  ghost predicate Extends(before: Frames, after: Frames, who: set<object>) {
    && Kept(before.owner, after.owner)
    && Grows(before.data, after.data)
    && EntriesGrow(before.tables, after.tables)
    && forall f :: f in before.tables && f in before.owner && before.owner[f] !in who ==>
         f in after.tables && after.tables[f] == before.tables[f]
  }

  lemma ExtendsNothing(a: Frames, who: set<object>)
    ensures Extends(a, a, who)
  {
  }

  lemma ExtendsKeeps(a: Frames, b: Frames, who: set<object>)
    requires Extends(a, b, who)
    ensures Kept(a.owner, b.owner) && Grows(a.data, b.data) && EntriesGrow(a.tables, b.tables)
  {
    hide EntriesGrow;
  }

  lemma TakingExtends(a: Frames, b: Frames, who: set<object>)
    requires b.tables == a.tables && Kept(a.owner, b.owner) && Grows(a.data, b.data)
    ensures Extends(a, b, who)
  {
  }

  lemma ExtendsTwice(a: Frames, b: Frames, c: Frames, who: set<object>)
    requires Extends(a, b, who) && Extends(b, c, who)
    ensures Extends(a, c, who)
  {
    GrowsTwice(a.tables, b.tables, c.tables);
    hide EntriesGrow;
  }

  lemma ExtendsWider(a: Frames, b: Frames, who: set<object>, all: set<object>)
    requires Extends(a, b, who) && who <= all
    ensures Extends(a, b, all)
  {
    hide EntriesGrow;
  }

  /** An empty entry is filled. */
  lemma FillExtends(a: Frames, b: Frames, f: nat, i: nat, e: nat)
    requires f in a.tables && f in a.owner && i < |a.tables[f]| && !IsPresent(a.tables[f][i])
    requires b == a.(tables := Filled(a.tables, f, i, e))
    ensures Extends(a, b, {a.owner[f]})
  {
    FillGrows(a.tables, f, i, e);
    hide EntriesGrow;
  }

  /** A fresh table is linked. */
  lemma LinkExtends(a: Frames, b: Frames, f: nat, i: nat, n: nat, who: object)
    requires f in a.tables && f in a.owner && i < |a.tables[f]| && !IsPresent(a.tables[f][i])
    requires n !in a.owner && a.tables.Keys <= a.owner.Keys
    requires b == Frames(Linked(a.tables, f, i, n), a.data, a.owner[n := who])
    ensures Extends(a, b, {a.owner[f]})
  {
    var mem := a.tables[n := Zeros()];
    FreshGrows(a.tables, n);
    FillGrows(mem, f, i, n + LINK);
    FilledIsLinked(a.tables, f, i, n);
    GrowsTwice(a.tables, mem, b.tables);
    hide EntriesGrow;
  }

  class Machine {
    const pages: PageAllocator
    const boot: nat  // the frame of BOOT_PDPT, inside the kernel image
    var tables: Memory
    var data: map<nat, seq<Byte>>
    ghost var owner: map<nat, object>
    ghost var kernel: Places

    ghost predicate Valid()
      reads this, pages
    {
      && pages.Valid()
      && tables.Keys !! data.Keys
      && owner.Keys == tables.Keys + data.Keys
      && boot in tables && IsFrame(boot) && boot < USER_END && OutsidePools(pages.pools, boot)
      && (forall f :: f in owner ==> IsFrame(f) && (f != boot ==> Backed(pages.blocks, f)))
      && (forall f :: f in tables ==> |tables[f]| == ENTRIES)
      && (forall f :: f in data ==> |data[f]| == MIN_PAGE_SIZE)
      && (forall f :: f in kernel ==> f in owner && owner[f] == this)
      && KernelTree(tables, boot, kernel)
    }

    ghost function Now(): Frames
      reads this
    {
      Frames(tables, data, owner)
    }

    ghost function BootTable(): seq<nat>
      reads this
    {
      if boot in tables then tables[boot] else []
    }

    lemma Facts()
      requires Valid()
      ensures boot in tables && tables.Keys <= owner.Keys && data.Keys <= owner.Keys && IsFrame(boot) && boot < USER_END
      ensures forall f :: f in owner ==> IsFrame(f)
      ensures forall f :: f in tables ==> |tables[f]| == ENTRIES
      ensures forall f :: f in data ==> |data[f]| == MIN_PAGE_SIZE
      ensures forall f :: f in kernel ==> f in tables && f in owner && owner[f] == this
      ensures boot in kernel && kernel[boot] == Pdpt(KERNEL_SLOT)
      ensures KernelTree(tables, boot, kernel)
    {
      hide KernelEntryOk, Sound, Backed, OutsidePools;
    }

    /** Where a table of the kernel leads. */
    lemma KernelEntry(f: nat, i: nat)
      requires Valid() && f in kernel && !kernel[f].Pt? && i < ENTRIES
      ensures f in tables && |tables[f]| == ENTRIES
      ensures IsPresent(tables[f][i]) && !IsHuge(tables[f][i]) ==>
              PteAddr(tables[f][i]) in kernel && kernel[PteAddr(tables[f][i])] == Child(kernel[f], i)
    {
      hide IsPresent, IsHuge, PteAddr, Sound, Backed, OutsidePools;
      assert KernelEntryOk(tables, kernel, f, i);
    }

    constructor (pages: PageAllocator, boot: nat)
      requires pages.Valid() && IsFrame(boot) && boot < USER_END && OutsidePools(pages.pools, boot)
      ensures Valid() && this.pages == pages && this.boot == boot
      ensures tables == map[boot := BootPdpt()] && data == map[]
    {
      hide BootPdpt, Sound, Backed, OutsidePools, KernelTree;
      this.pages, this.boot := pages, boot;
      tables, data, kernel := map[boot := BootPdpt()], map[], map[boot := Pdpt(KERNEL_SLOT)];
      BootIsTree(boot);
      BootEntry(0);
      new;
      owner := map[boot := this];
    }

    /** A frame of the page allocator that nothing uses yet. */
    method AllocFrame() returns (r: Option<nat>)
      requires Valid()
      modifies pages
      ensures pages.Valid() && pages.pools == old(pages.pools)
      ensures IsPowerOfTwo(MIN_PAGE_SIZE) && old(Usable(pages.regions))
      ensures (State(pages.regions, pages.blocks), r) == Serve(old(State(pages.regions, pages.blocks)), MIN_PAGE_SIZE)
      ensures r.None? <==> old(NoRoom(pages.regions, MIN_PAGE_SIZE))
      ensures r.None? ==> Valid() && pages.regions == old(pages.regions) && pages.blocks == old(pages.blocks)
      ensures r.Some? ==> r.value !in owner && r.value != boot && IsFrame(r.value)
      ensures r.Some? ==> pages.blocks != old(pages.blocks) && Backed(pages.blocks, r.value)
      ensures forall f :: Backed(old(pages.blocks), f) ==> Backed(pages.blocks, f)
    {
      hide KernelTree, Sound, Backed, OutsidePools, NoRoom, FirstFit, Carve;
      r := pages.Alloc(MIN_PAGE_SIZE);
      if r.Some? { NewBlockIsFresh(pages.pools, pages.regions, old(pages.blocks), pages.blocks, owner.Keys, boot); }
    }

    /** `alloc_table`. */
    method AllocTable(ghost who: object) returns (r: Option<nat>)
      requires Valid()
      modifies this, pages
      ensures Valid() && data == old(data) && kernel == old(kernel) && pages.pools == old(pages.pools)
      ensures r.None? <==> old(NoRoom(pages.regions, MIN_PAGE_SIZE))
      ensures r.None? ==> tables == old(tables) && owner == old(owner)
      ensures r.None? ==> pages.blocks == old(pages.blocks) && pages.regions == old(pages.regions)
      ensures r.Some? ==> r.value !in old(owner) && IsFrame(r.value) && pages.blocks != old(pages.blocks)
      ensures r.Some? ==> tables == old(tables)[r.value := Zeros()] && owner == old(owner)[r.value := who]
    {
      hide Sound, Backed, OutsidePools, NoRoom, KernelTree, Serve, Usable, IsPowerOfTwo;
      Facts();
      r := AllocFrame();
      if r.Some? {
        KernelElsewhere(tables, tables[r.value := Zeros()], boot, kernel);
        tables, owner := tables[r.value := Zeros()], owner[r.value := who];
      }
    }

    ghost method Reown(f: nat, who: object)
      requires Valid() && f in owner && f !in kernel
      modifies this`owner
      ensures Valid() && owner == old(owner)[f := who]
    {
      hide Sound, Backed, OutsidePools, KernelTree;
      owner := owner[f := who];
    }

    /** An empty table becomes one of the kernel's. */
    ghost method Adopt(f: nat, place: Node)
      requires Valid() && f in tables && f !in kernel && tables[f] == Zeros() && owner[f] == this
      modifies this`kernel
      ensures Valid() && kernel == old(kernel)[f := place]
    {
      hide Sound, Backed, OutsidePools, KernelTree;
      KernelJoined(tables, boot, kernel, f, place);
      kernel := kernel[f := place];
    }

    method SetEntry(f: nat, i: nat, e: nat)
      requires Valid() && f in tables && i < ENTRIES
      requires f in kernel && !kernel[f].Pt? ==> PteAddr(e) in kernel && kernel[PteAddr(e)] == Child(kernel[f], i)
      modifies this`tables
      ensures Valid() && tables == Filled(old(tables), f, i, e)
    {
      hide Sound, Backed, OutsidePools, KernelTree, PteAddr;
      Facts();
      if f in kernel {
        KernelFilled(tables, boot, kernel, f, i, e);
      } else {
        KernelElsewhere(tables, Filled(tables, f, i, e), boot, kernel);
      }
      tables := tables[f := WithEntry(tables[f], i, e)];
    }

    method SetData(f: nat, bytes: seq<Byte>)
      requires Valid() && f in data && |bytes| == MIN_PAGE_SIZE
      modifies this`data
      ensures Valid() && data == old(data)[f := bytes]
    {
      hide Sound, Backed, OutsidePools, KernelTree;
      data := data[f := bytes];
    }

    /** A zeroed page for user data. */
    method AllocData(ghost who: object) returns (r: Option<nat>)
      requires Valid()
      modifies this, pages
      ensures Valid() && tables == old(tables) && kernel == old(kernel) && pages.pools == old(pages.pools)
      ensures r.None? <==> old(NoRoom(pages.regions, MIN_PAGE_SIZE))
      ensures r.None? ==> data == old(data) && owner == old(owner) && pages.regions == old(pages.regions)
      ensures r.Some? ==> r.value !in old(owner) && IsFrame(r.value)
      ensures r.Some? ==> data == old(data)[r.value := ZeroPage()] && owner == old(owner)[r.value := who]
    {
      hide Sound, Backed, OutsidePools, NoRoom, KernelTree, Serve, Usable, IsPowerOfTwo;
      r := AllocFrame();
      if r.Some? {
        data, owner := data[r.value := ZeroPage()], owner[r.value := who];
      }
    }
  }
}
