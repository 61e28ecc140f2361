/** `arch::VmSpace`: four-level page tables, and the proof that they refine a flat map of pages. */
module PageTables {
  import opened Prelude
  import opened Alignment
  import opened Paging
  import opened PageAllocation
  import opened PageTree
  import opened Machinery

  function LeafFlags(attrs: nat): nat {
    Or(Or(PTE_V, PTE_U), attrs)
  }

  predicate Writable(attrs: nat) {
    attrs / 2 % 2 == 1
  }

  /** `attrs` is a combination of READ, WRITE and EXEC. */
  predicate IsAttrs(attrs: nat) {
    attrs < 8
  }

  lemma LeafFlagsAre(attrs: nat)
    requires IsAttrs(attrs)
    ensures LeafFlags(attrs) < 8
    ensures LeafFlags(attrs) % 2 == 1 && LeafFlags(attrs) / 4 % 2 == 1
    ensures LeafFlags(attrs) / 2 % 2 == 1 <==> Writable(attrs)
  {
    assert Or(PTE_V, PTE_U) == 5;
    if attrs == 0 { assert Or(5, 0) == 5; }
    else if attrs == 1 { assert Or(5, 1) == 5; }
    else if attrs == 2 { assert Or(5, 2) == 7; }
    else if attrs == 3 { assert Or(5, 3) == 7; }
    else if attrs == 4 { assert Or(5, 4) == 5; }
    else if attrs == 5 { assert Or(5, 5) == 5; }
    else if attrs == 6 { assert Or(5, 6) == 7; }
    else { assert Or(5, 7) == 7; }
  }

  lemma LinkFlags()
    ensures Or(Or(PTE_V, PTE_W), PTE_U) == LINK
  {
    assert Or(1, 2) == 3 && Or(3, 4) == 7;
  }

  /** What a mapped page translates to. */
  function Mapped(paddr: nat, attrs: nat): Option<Translation> {
    Some(Translation(paddr, MIN_PAGE_SIZE, true, Writable(attrs)))
  }

  lemma MappedIsLeaf(paddr: nat, attrs: nat)
    requires IsFrame(paddr) && IsAttrs(attrs)
    ensures PteNew(paddr, LeafFlags(attrs)) == paddr + LeafFlags(attrs)
    ensures FromLeaf(paddr + LeafFlags(attrs)) == Mapped(paddr, attrs)
  {
    hide IsPresent, IsHuge, IsUser, IsWritable, PteAddr, PteNew, LeafFlags;
    LeafFlagsAre(attrs);
    PteFields(paddr, LeafFlags(attrs));
  }

  /** What `map` makes of a page: a user page, but in the kernel's slot one that user code has no access to. */
  function Entered(uaddr: nat, paddr: nat, attrs: nat): Option<Translation> {
    if Index(uaddr, 3) == KERNEL_SLOT then Some(Translation(paddr, MIN_PAGE_SIZE, false, false))
    else Mapped(paddr, attrs)
  }

  /** What `map` does to the translations of a space when its arguments pass the checks. */
  ghost predicate Maps(mem: Memory, mem': Memory, regions': seq<Bump>, root: nat, uaddr: nat, paddr: nat, attrs: nat,
                       r: Result<()>)
  {
    var t := Walk(mem, root, uaddr);
    && (r == Err(AlreadyExists) <==> t.Some? && t.value.size == MIN_PAGE_SIZE)
    && (r == Err(Unsupported) <==> t.Some? && t.value.size != MIN_PAGE_SIZE)
    && (r == Err(OutOfMemory) ==> NoRoom(regions', MIN_PAGE_SIZE))
    && (r.Ok? || r.error in {AlreadyExists, Unsupported, OutOfMemory})
    && (forall v: nat :: Walk(mem', root, v) ==
          if r.Ok? && PageOf(v) == PageOf(uaddr) then Entered(uaddr, paddr, attrs) else Walk(mem, root, v))
  }

  /** The same for an address outside the kernel's slot, of the addresses outside it. */
  ghost predicate MapsOutside(mem: Memory, mem': Memory, regions': seq<Bump>, root: nat, uaddr: nat, paddr: nat,
                              attrs: nat, r: Result<()>)
  {
    && (r == Err(AlreadyExists) <==> Walk(mem, root, uaddr).Some?)
    && (r.Err? && r != Err(AlreadyExists) ==> r == Err(OutOfMemory) && NoRoom(regions', MIN_PAGE_SIZE))
    && (forall v: nat :: Index(v, 3) != KERNEL_SLOT ==>
          Walk(mem', root, v) ==
          if r.Ok? && PageOf(v) == PageOf(uaddr) then Mapped(paddr, attrs) else Walk(mem, root, v))
  }

  /** The same for an address in the kernel's slot, of the addresses in it. */
  ghost predicate MapsInside(mem: Memory, mem': Memory, boot: nat, uaddr: nat, paddr: nat, r: Result<()>) {
    forall v: nat :: Index(v, 3) == KERNEL_SLOT ==>
      Guarded(Descend(mem', boot, v, 2)) ==
      if r.Ok? && PageOf(v) == PageOf(uaddr) then Some(Translation(paddr, MIN_PAGE_SIZE, false, false))
      else Guarded(Descend(mem, boot, v, 2))
  }

  lemma SameSlot(u: nat, v: nat)
    requires PageOf(u) == PageOf(v)
    ensures Index(u, 3) == Index(v, 3)
  {
    hide Index, PageOf;
    SamePage(u, v);
  }

  lemma OutsideIsAll(mem: Memory, mem': Memory, regions': seq<Bump>, root: nat, boot: nat, at: Places, at': Places,
                     kernel: Places, uaddr: nat, paddr: nat, attrs: nat, r: Result<()>)
    requires Tree(mem, root, boot, at) && Tree(mem', root, boot, at') && IsFrame(boot)
    requires KernelTree(mem, boot, kernel) && KernelSame(mem, mem', kernel) && Index(uaddr, 3) != KERNEL_SLOT
    requires MapsOutside(mem, mem', regions', root, uaddr, paddr, attrs, r)
    ensures Maps(mem, mem', regions', root, uaddr, paddr, attrs, r)
  {
    hide Tree, KernelSame, Index, PageOf, Descend, NoRoom, Mapped;
    AtTop(mem, root, boot, at);
    SmallPages(mem, root, boot, at, root, uaddr, 3);
    forall v: nat
      ensures Walk(mem', root, v) ==
              if r.Ok? && PageOf(v) == PageOf(uaddr) then Entered(uaddr, paddr, attrs) else Walk(mem, root, v)
    {
      if Index(v, 3) == KERNEL_SLOT {
        KernelWalk(mem, root, boot, at, v);
        KernelWalk(mem', root, boot, at', v);
        KernelSameDescend(mem, mem', boot, kernel, boot, v, 2);
        if PageOf(v) == PageOf(uaddr) { SameSlot(v, uaddr); }
      }
    }
  }

  lemma AtTop(mem: Memory, root: nat, boot: nat, at: Places)
    requires Tree(mem, root, boot, at)
    ensures root in at && at[root] == Pml4 && boot !in at
  {
    hide Occupied, EntryOk;
  }

  lemma InsideIsAll(mem: Memory, mem': Memory, regions': seq<Bump>, root: nat, boot: nat, at: Places, uaddr: nat,
                    paddr: nat, attrs: nat, r: Result<()>)
    requires Tree(mem, root, boot, at) && Tree(mem', root, boot, at) && IsFrame(boot)
    requires Index(uaddr, 3) == KERNEL_SLOT && SameWalks(mem, mem', root)
    requires MapsInside(mem, mem', boot, uaddr, paddr, r)
    requires var t := Descend(mem, boot, uaddr, 2);
      && (r == Err(AlreadyExists) <==> t.Some? && t.value.size == MIN_PAGE_SIZE)
      && (r == Err(Unsupported) <==> t.Some? && t.value.size != MIN_PAGE_SIZE)
      && (r == Err(OutOfMemory) ==> NoRoom(regions', MIN_PAGE_SIZE))
      && (r.Ok? || r.error in {AlreadyExists, Unsupported, OutOfMemory})
    ensures Maps(mem, mem', regions', root, uaddr, paddr, attrs, r)
  {
    hide Tree, Index, PageOf, Walk, Descend, NoRoom, Mapped;
    KernelWalk(mem, root, boot, at, uaddr);
    forall v: nat
      ensures Walk(mem', root, v) ==
              if r.Ok? && PageOf(v) == PageOf(uaddr) then Entered(uaddr, paddr, attrs) else Walk(mem, root, v)
    {
      if Index(v, 3) == KERNEL_SLOT {
        KernelWalk(mem, root, boot, at, v);
        KernelWalk(mem', root, boot, at, v);
      } else if PageOf(v) == PageOf(uaddr) {
        SameSlot(v, uaddr);
      }
    }
  }

  /** A huge page of the kernel is where a table for `v` would be. */
  predicate HugeInTheWay(mem: Memory, boot: nat, v: nat) {
    var e := Entry(mem, boot, Index(v, 2));
    && IsPresent(e)
    && (IsHuge(e)
        || (IsPresent(Entry(mem, PteAddr(e), Index(v, 1))) && IsHuge(Entry(mem, PteAddr(e), Index(v, 1)))))
  }

  lemma NoTable(mem: Memory, boot: nat, v: nat)
    ensures LacksTable(mem, boot, v) ==> Descend(mem, boot, v, 2) == None
    ensures HugeInTheWay(mem, boot, v) ==> !LacksTable(mem, boot, v)
    ensures HugeInTheWay(mem, boot, v) ==>
            Descend(mem, boot, v, 2).Some? && Descend(mem, boot, v, 2).value.size != MIN_PAGE_SIZE
  {
    hide Index, IsPresent, IsHuge, PteAddr, IsUser, IsWritable, Entry;
    var e := Entry(mem, boot, Index(v, 2));
    if IsPresent(e) && !IsHuge(e) {
      assert Descend(mem, boot, v, 2) == Under(e, Descend(mem, PteAddr(e), v, 1));
    }
  }

  function RootTable(boot: nat): seq<nat> {
    WithEntry(Zeros(), KERNEL_SLOT, boot + PTE_V)
  }

  class PageTable {
    const m: Machine
    const root: nat  // what `cr3` holds
    ghost var at: Places

    ghost predicate Valid()
      reads this, m, m.pages
    {
      && m.Valid()
      && Tree(m.tables, root, m.boot, at)
      && (forall f :: f in at ==> f in m.owner && m.owner[f] == this)
    }

    constructor At(m: Machine, root: nat)
      ensures this.m == m && this.root == root && at == map[root := Pml4]
    {
      this.m, this.root, at := m, root, map[root := Pml4];
    }

    lemma UserSlot(f: nat, i: nat)
      requires Valid() && f in at && IsUserSlot(at[f], i)
      ensures f in m.tables && |m.tables[f]| == ENTRIES && f != m.boot
      ensures var e := Entry(m.tables, f, i);
        if IsPresent(e) then !IsHuge(e) && PteAddr(e) in at && at[PteAddr(e)] == Child(at[f], i) else e == 0
      ensures SameWalks(m.tables, m.tables, root)
    {
      hide And, Or, IsPresent, IsHuge, IsUser, IsWritable, PteAddr, PteNew, Sound, NoRoom, Backed, OutsidePools, Tree;
      InMemory(m.tables, root, m.boot, at, f);
      SlotContents(m.tables, root, m.boot, at, f, i);
    }

    /** Whose a new table is: the kernel's below the kernel's tables, and otherwise this space's. */
    ghost function OwnerBelow(f: nat): object
      reads m
    {
      if f in m.kernel then m else this
    }

    /** The kernel's tables with a new one below `f`. */
    ghost function KernelBelow(f: nat, i: nat, n: nat): Places
      reads m
    {
      if f in m.kernel then m.kernel[n := Child(m.kernel[f], i)] else m.kernel
    }

    method EnsureNextTable(f: nat, i: nat) returns (r: Result<nat>)
      requires m.Valid() && f in m.tables && i < ENTRIES && (f in m.kernel ==> !m.kernel[f].Pt?)
      modifies m, m.pages
      ensures m.Valid() && m.data == old(m.data) && m.pages.pools == old(m.pages.pools)
      ensures var e := old(Entry(m.tables, f, i));
        if IsPresent(e) then r == (if IsHuge(e) then Err(Unsupported) else Ok(PteAddr(e)))
        else if old(NoRoom(m.pages.regions, MIN_PAGE_SIZE)) then r == Err(OutOfMemory)
        else r.Ok? && r.value !in old(m.owner) && IsFrame(r.value)
             && m.tables == Linked(old(m.tables), f, i, r.value)
             && m.owner == old(m.owner)[r.value := old(OwnerBelow(f))] && m.kernel == old(KernelBelow(f, i, r.value))
      ensures IsPresent(old(Entry(m.tables, f, i))) || r.Err? ==>
        m.Now() == old(m.Now()) && m.kernel == old(m.kernel) && m.pages.regions == old(m.pages.regions)
      ensures Extends(old(m.Now()), m.Now(), {old(m.owner)[f]})
    {
      hide And, Or, IsPresent, IsHuge, IsUser, IsWritable, PteAddr, PteNew, NoRoom, Machine.Valid;
      hide Linked, Filled, Zeros, Extends;
      m.Facts();
      ExtendsNothing(m.Now(), {m.owner[f]});
      var entry := m.tables[f][i];
      if !IsPresent(entry) {
        var paddr := m.AllocTable(OwnerBelow(f));
        if paddr.None? { return Err(OutOfMemory); }
        if f in m.kernel { m.Adopt(paddr.value, Child(m.kernel[f], i)); }
        LinkFlags();
        PteFields(paddr.value, LINK);
        m.SetEntry(f, i, PteNew(paddr.value, Or(Or(PTE_V, PTE_W), PTE_U)));
        FilledIsLinked(old(m.tables), f, i, paddr.value);
        LinkExtends(old(m.Now()), m.Now(), f, i, paddr.value, old(OwnerBelow(f)));
        r := Ok(paddr.value);
      } else if IsHuge(entry) {
        r := Err(Unsupported);
      } else {
        r := Ok(PteAddr(entry));
      }
    }

    /** The walk passes from `f` to `g`, the table in the next place on the address's path. */
    lemma OnPath(f: nat, g: nat, v: nat, level: nat)
      requires Valid() && 0 < level < 4 && Index(v, 3) != KERNEL_SLOT
      requires f in at && at[f] == NodeOf(v, level) && g in at && at[g] == NodeOf(v, level - 1)
      ensures Descend(m.tables, f, v, level) == Descend(m.tables, g, v, level - 1)
    {
      hide And, Index, Tree, Descend, Entry, Occupied, Machine.Valid;
      DescendStep(m.tables, root, m.boot, at, f, v, level);
      AtPlace(at, g);
      SlotFull(m.tables, root, m.boot, at, f, v, level);
      OnePlace(m.tables, root, m.boot, at, g, Entry(m.tables, f, Index(v, level)) - LINK);
    }

    /** A table on the address's path is reached by its walk. */
    lemma {:induction false} Reaches(f: nat, v: nat, level: nat)
      requires Valid() && level < 4 && Index(v, 3) != KERNEL_SLOT && f in at && at[f] == NodeOf(v, level)
      ensures Walk(m.tables, root, v) == Descend(m.tables, f, v, level)
      decreases 3 - level
    {
      hide And, Index, EntryOk, Descend, Entry, Machine.Valid;
      if level < 3 {
        assert Rooted(at, f);
        var p :| p in at && at[p] == Up(at[f]);
        Reaches(p, v, level + 1);
        OnPath(p, f, v, level + 1);
      }
    }

    lemma OnSlot(f: nat, v: nat, level: nat)
      requires Valid() && 0 < level < 4 && Index(v, 3) != KERNEL_SLOT && f in at && at[f] == NodeOf(v, level)
      ensures f in m.tables && Index(v, level) < ENTRIES && IsUserSlot(at[f], Index(v, level))
      ensures Child(at[f], Index(v, level)) == NodeOf(v, level - 1)
      ensures !IsPresent(Entry(m.tables, f, Index(v, level))) ==> Walk(m.tables, root, v) == None
    {
      hide And, Index, Tree, Entry, Occupied, Machine.Valid, IsPresent;
      IndexBound(v, level);
      DescendStep(m.tables, root, m.boot, at, f, v, level);
      UserSlot(f, Index(v, level));
      Reaches(f, v, level);
    }

    /** One level of the descent, for an address outside the kernel's slot. */
    method NextUserTable(f: nat, v: nat, level: nat) returns (r: Result<nat>)
      requires Valid() && 0 < level < 4 && Index(v, 3) != KERNEL_SLOT && f in at && at[f] == NodeOf(v, level)
      modifies this, m, m.pages
      ensures Valid() && m.data == old(m.data) && m.pages.pools == old(m.pages.pools) && m.kernel == old(m.kernel)
      ensures SameWalks(old(m.tables), m.tables, root) && Extends(old(m.Now()), m.Now(), {this})
      ensures r.Ok? ==> r.value in at && at[r.value] == NodeOf(v, level - 1)
      ensures r.Err? ==> r == Err(OutOfMemory) && NoRoom(m.pages.regions, MIN_PAGE_SIZE)
      ensures r.Err? ==> Walk(m.tables, root, v) == None
    {
      hide And, Index, Tree, Entry, Machine.Valid, IsPresent, Descend, NoRoom, Linked, NodeOf, Child, IsUserSlot;
      hide Extends, SameWalks;
      OnSlot(f, v, level);
      UserSlot(f, Index(v, level));
      m.Facts();
      ghost var absent := !IsPresent(Entry(m.tables, f, Index(v, level)));
      r := EnsureNextTable(f, Index(v, level));
      if absent && r.Ok? {
        LinkTree(old(m.tables), root, m.boot, at, f, Index(v, level), r.value);
        LinkWalks(old(m.tables), root, m.boot, at, f, Index(v, level), r.value);
        at := at[r.value := Child(at[f], Index(v, level))];
      }
    }

    lemma AtRoot()
      requires Valid()
      ensures root in at && at[root] == Pml4
    {
      hide Occupied, EntryOk;
    }

    /** The descent of `map` for an address outside the kernel's slot: to its last-level table. */
    method UserLeafTable(uaddr: nat) returns (r: Result<nat>)
      requires Valid() && Index(uaddr, 3) != KERNEL_SLOT
      modifies this, m, m.pages
      ensures Valid() && m.data == old(m.data) && m.pages.pools == old(m.pages.pools) && m.kernel == old(m.kernel)
      ensures SameWalks(old(m.tables), m.tables, root) && Extends(old(m.Now()), m.Now(), {this})
      ensures r.Ok? ==> r.value in at && at[r.value] == NodeOf(uaddr, 0)
      ensures r.Err? ==> r == Err(OutOfMemory) && NoRoom(m.pages.regions, MIN_PAGE_SIZE)
      ensures r.Err? ==> Walk(m.tables, root, uaddr) == None
    {
      hide And, Index, Machine.Valid, IsPresent, Descend, NoRoom, Tree, Extends;
      AtRoot();
      var pdpt := NextUserTable(root, uaddr, 3);
      if pdpt.Err? { return pdpt; }
      ghost var a := m.Now();
      var pdt := NextUserTable(pdpt.value, uaddr, 2);
      ExtendsTwice(old(m.Now()), a, m.Now(), {this});
      if pdt.Err? { return pdt; }
      ghost var b := m.Now();
      r := NextUserTable(pdt.value, uaddr, 1);
      ExtendsTwice(old(m.Now()), b, m.Now(), {this});
    }

    method MapUser(uaddr: nat, paddr: nat, attrs: nat) returns (r: Result<()>)
      requires Valid() && IsFrame(paddr) && IsAttrs(attrs) && Index(uaddr, 3) != KERNEL_SLOT
      modifies this, m, m.pages
      ensures Valid() && m.data == old(m.data) && m.pages.pools == old(m.pages.pools) && m.kernel == old(m.kernel)
      ensures MapsOutside(old(m.tables), m.tables, m.pages.regions, root, uaddr, paddr, attrs, r)
      ensures Extends(old(m.Now()), m.Now(), {this})
    {
      hide And, Index, Tree, Machine.Valid, IsPresent, Descend, NoRoom, Walk, PageOf, Mapped;
      hide LeafFlags, PteNew, PteAddr, Extends, Filled;
      var pt := UserLeafTable(uaddr);
      if pt.Err? { return Err(pt.error); }
      ghost var mem := m.tables;
      FillWalk(mem, root, m.boot, at, pt.value, 0, uaddr, uaddr);
      m.Facts();
      var entry := m.tables[pt.value][Index(uaddr, 0)];
      if IsPresent(entry) { return Err(AlreadyExists); }
      var e := PteNew(paddr, LeafFlags(attrs));
      FillTree(mem, root, m.boot, at, pt.value, Index(uaddr, 0), e);
      MappedIsLeaf(paddr, attrs);
      forall v | Index(v, 3) != KERNEL_SLOT
        ensures Walk(Filled(mem, pt.value, Index(uaddr, 0), e), root, v) ==
                if PageOf(v) == PageOf(uaddr) then Mapped(paddr, attrs) else Walk(mem, root, v)
      {
        FillWalk(mem, root, m.boot, at, pt.value, e, uaddr, v);
      }
      ghost var before := m.Now();
      m.SetEntry(pt.value, Index(uaddr, 0), e);
      FillExtends(before, m.Now(), pt.value, Index(uaddr, 0), e);
      ExtendsTwice(old(m.Now()), before, m.Now(), {this});
      r := Ok(());
    }

    /** A space is spared what happens to the tables of the kernel and of others. */
    twostate lemma Spared(new who: set<object>)
      requires old(Valid()) && m.Valid() && at == old(at) && this !in who
      requires Extends(old(m.Now()), m.Now(), who)
      ensures Valid() && SameWalks(old(m.tables), m.tables, root)
    {
      hide Machine.Valid, SameWalks, EntriesGrow;
      forall f | f in at ensures f in old(m.tables) && f in m.tables && m.tables[f] == old(m.tables)[f] {
        InMemory(old(m.tables), root, m.boot, at, f);
      }
      hide Tree;
      Elsewhere(old(m.tables), m.tables, root, m.boot, at);
    }

    lemma BootPlace(v: nat)
      requires Valid()
      ensures m.boot in m.kernel && (Index(v, 3) == KERNEL_SLOT ==> m.kernel[m.boot] == NodeOf(v, 2))
    {
      hide Machine.Valid, Index;
      m.Facts();
    }

    /** The kernel's slot leads to the boot table. */
    lemma BootSlot()
      requires Valid()
      ensures root in m.tables && root !in m.kernel && Entry(m.tables, root, KERNEL_SLOT) == m.boot + PTE_V
      ensures IsPresent(m.boot + PTE_V) && !IsHuge(m.boot + PTE_V) && PteAddr(m.boot + PTE_V) == m.boot
    {
      hide And, Or, IsPresent, IsHuge, IsUser, IsWritable, PteAddr, PteNew, Tree, Machine.Valid;
      m.Facts();
      KernelSlot(m.tables, root, m.boot, at);
      PteFields(m.boot, PTE_V);
    }

    /** One level of the descent below the boot table. */
    method NextKernelTable(f: nat, v: nat, level: nat) returns (r: Result<nat>)
      requires m.Valid() && 0 < level < 3 && f in m.kernel && m.kernel[f] == NodeOf(v, level)
      modifies m, m.pages
      ensures m.Valid() && m.data == old(m.data) && m.pages.pools == old(m.pages.pools)
      ensures Extends(old(m.Now()), m.Now(), {m}) && SlotSame(old(m.tables), m.tables, m.boot)
      ensures forall g :: g in old(m.kernel) ==> g in m.kernel && m.kernel[g] == old(m.kernel)[g]
      ensures forall g :: g in old(m.tables) && g != f ==> g in m.tables && m.tables[g] == old(m.tables)[g]
      ensures r.Ok? ==> r.value in m.kernel && m.kernel[r.value] == NodeOf(v, level - 1)
      ensures r.Ok? ==> Leads(Entry(m.tables, f, Index(v, level)), r.value)
      ensures var e := old(Entry(m.tables, f, Index(v, level)));
        var full := old(NoRoom(m.pages.regions, MIN_PAGE_SIZE));
        && (r == Err(Unsupported) <==> IsPresent(e) && IsHuge(e))
        && (r == Err(OutOfMemory) <==> !IsPresent(e) && full)
        && (r.Ok? || r == Err(Unsupported) || r == Err(OutOfMemory))
        && (r.Ok? && !IsPresent(e) ==> r.value in m.tables && m.tables[r.value] == Zeros())
        && (r.Err? || IsPresent(e) ==>
              m.Now() == old(m.Now()) && m.kernel == old(m.kernel) && m.pages.regions == old(m.pages.regions))
    {
      hide And, Index, IsPresent, IsHuge, PteAddr, NoRoom, Machine.Valid, Extends, Zeros, SlotSame, NodeOf, Linked;
      hide Entry, KernelTree, Child, Leads;
      m.Facts();
      IndexBound(v, level);
      NodeChild(v, level);
      var i := Index(v, level);
      ghost var e := Entry(m.tables, f, i);
      m.KernelEntry(f, i);
      EntryIs(m.tables, f, i);
      r := EnsureNextTable(f, i);
      m.Facts();
      if r.Ok? && !IsPresent(e) {
        LinkedBelow(old(m.tables), m.boot, old(m.kernel), f, i, r.value);
      } else {
        SlotSameNothing(m.tables, m.boot);
        if r.Ok? { LeadsOn(e); }
      }
    }

    /** The descent of `map` for an address in the kernel's slot: to its last-level table. */
    method KernelLeafTable(uaddr: nat) returns (r: Result<nat>, ghost pdt: nat)
      requires Valid() && Index(uaddr, 3) == KERNEL_SLOT
      modifies m, m.pages
      ensures m.Valid() && m.data == old(m.data) && m.pages.pools == old(m.pages.pools)
      ensures Extends(old(m.Now()), m.Now(), {m}) && SlotSame(old(m.tables), m.tables, m.boot)
      ensures r.Ok? ==> r.value in m.kernel && m.kernel[r.value] == NodeOf(uaddr, 0)
      ensures r.Ok? ==> pdt in m.kernel && m.kernel[pdt] == NodeOf(uaddr, 1)
      ensures r.Ok? ==> LeadTo(m.tables, m.boot, pdt, r.value, uaddr)
      ensures r.Ok? || r == Err(Unsupported) || (r == Err(OutOfMemory) && NoRoom(m.pages.regions, MIN_PAGE_SIZE))
      ensures r == Err(Unsupported) <==> HugeInTheWay(old(m.tables), m.boot, uaddr)
      ensures r == Err(OutOfMemory) ==> LacksTable(old(m.tables), m.boot, uaddr)
      ensures r.Ok? && LacksTable(old(m.tables), m.boot, uaddr) ==> !old(NoRoom(m.pages.regions, MIN_PAGE_SIZE))
      ensures !LacksTable(old(m.tables), m.boot, uaddr) || old(NoRoom(m.pages.regions, MIN_PAGE_SIZE)) ==>
              m.Now() == old(m.Now()) && m.kernel == old(m.kernel)
      ensures LacksTable(old(m.tables), m.boot, uaddr) && !old(NoRoom(m.pages.regions, MIN_PAGE_SIZE)) ==>
              Links(old(m.tables), m.tables, m.boot, uaddr)
      ensures m.BootTable() == old(m.BootTable()) <==>
              || IsPresent(old(Entry(m.tables, m.boot, Index(uaddr, 2))))
              || old(NoRoom(m.pages.regions, MIN_PAGE_SIZE))
    {
      hide And, Index, IsPresent, IsHuge, PteAddr, NoRoom, Tree, Machine.Valid, Extends, SlotSame, NodeOf, Zeros, Entry;
      m.Facts();
      BootSlot();
      BootPlace(uaddr);
      IndexBound(uaddr, 2);
      BitsAre(0);
      EntryIs(m.tables, root, KERNEL_SLOT);
      pdt := 0;
      var pdpt := EnsureNextTable(root, KERNEL_SLOT);
      ExtendsNothing(m.Now(), {m});
      ghost var e2 := Entry(m.tables, m.boot, Index(uaddr, 2));
      ghost var e1 := Entry(m.tables, PteAddr(e2), Index(uaddr, 1));
      r := NextKernelTable(pdpt.value, uaddr, 2);
      if r.Err? { return; }
      pdt := r.value;
      ghost var a := m.Now();
      m.Facts();
      ZeroEntry(m.tables, r.value, Index(uaddr, 1));
      r := NextKernelTable(r.value, uaddr, 1);
      ExtendsTwice(old(m.Now()), a, m.Now(), {m});
      SlotSameTwice(old(m.tables), a.tables, m.tables, m.boot);
      DifferentLevels(uaddr);
      SameTable(a.tables, m.tables, m.boot, Index(uaddr, 2));
      m.Facts();
      EntryIs(old(m.tables), m.boot, Index(uaddr, 2));
      EntryIs(m.tables, m.boot, Index(uaddr, 2));
    }

    method MapKernelSlot(uaddr: nat, paddr: nat, attrs: nat) returns (r: Result<()>)
      requires Valid() && IsFrame(paddr) && IsAttrs(attrs) && Index(uaddr, 3) == KERNEL_SLOT
      modifies m, m.pages
      ensures Valid() && m.data == old(m.data) && m.pages.pools == old(m.pages.pools)
      ensures Maps(old(m.tables), m.tables, m.pages.regions, root, uaddr, paddr, attrs, r)
      ensures Extends(old(m.Now()), m.Now(), {m})
      ensures r == Err(Unsupported) ==> m.Now() == old(m.Now())
      ensures KernelSame(old(m.tables), m.tables, old(m.kernel)) <==>
              || Walk(old(m.tables), root, uaddr).Some?
              || (LacksTable(old(m.tables), m.boot, uaddr) && old(NoRoom(m.pages.regions, MIN_PAGE_SIZE)))
      ensures m.BootTable() == old(m.BootTable()) <==>
              || IsPresent(old(Entry(m.tables, m.boot, Index(uaddr, 2))))
              || old(NoRoom(m.pages.regions, MIN_PAGE_SIZE))
    {
      hide And, Index, IsPresent, IsHuge, PteAddr, PteNew, NoRoom, LeafFlags, Tree, Machine.Valid, Extends, SameWalks;
      hide SlotSame, Walk, Descend, LeadTo, Links, LacksTable, HugeInTheWay, KernelSame, MapsInside, Maps, NodeOf;
      hide KernelTree, Entry, EntriesGrow;
      ghost var before, kernel := m.Now(), m.kernel;
      m.Facts();
      DifferentLevels(uaddr);
      BootPlace(uaddr);
      KernelSameNothing(m.tables, m.boot, kernel);
      KernelWalk(m.tables, root, m.boot, at, uaddr);
      NoTable(m.tables, m.boot, uaddr);
      var pt, pdt := KernelLeafTable(uaddr);
      ghost var reached := m.Now();
      m.Facts();
      SlotIsInside(before.tables, reached.tables, m.boot, uaddr, paddr);
      if LacksTable(before.tables, m.boot, uaddr) && !old(NoRoom(m.pages.regions, MIN_PAGE_SIZE)) {
        KernelTouched(before.tables, m.tables, m.boot, kernel, uaddr);
      }
      if pt.Err? {
        r := Err(pt.error);
      } else {
        IndexBound(uaddr, 0);
        EntryIs(m.tables, pt.value, Index(uaddr, 0));
        LeafBelow(m.tables, m.boot, pdt, pt.value, uaddr);
        var entry := m.tables[pt.value][Index(uaddr, 0)];
        if IsPresent(entry) {
          r := Err(AlreadyExists);
        } else {
          MappedIsLeaf(paddr, attrs);
          LeafFilled(reached.tables, m.boot, m.kernel, pdt, pt.value, uaddr, paddr, attrs);
          m.SetEntry(pt.value, Index(uaddr, 0), PteNew(paddr, LeafFlags(attrs)));
          FillExtends(reached, m.Now(), pt.value, Index(uaddr, 0), PteNew(paddr, LeafFlags(attrs)));
          ExtendsTwice(before, reached, m.Now(), {m});
          InsideAfter(before.tables, reached.tables, m.tables, m.boot, uaddr, paddr);
          ExtendsKeeps(reached, m.Now(), {m});
          m.Facts();
          EntryIs(m.tables, pt.value, Index(uaddr, 0));
          KernelWritten(before.tables, reached.tables, m.tables, m.boot, kernel, uaddr, pt.value);
          r := Ok(());
        }
      }
      Spared({m});
      InsideIsAll(before.tables, m.tables, m.pages.regions, root, m.boot, at, uaddr, paddr, attrs, r);
    }

    /**
     `map`: a page table refines a flat map of pages. The last two clauses are about the guard against the kernel's
     addresses, which lets some addresses through to the kernel's slot.
     */
    method Map(uaddr: nat, paddr: nat, len: nat, attrs: nat) returns (r: Result<()>)
      requires Valid() && paddr < PHYSICAL_END && IsAttrs(attrs)
      modifies this, m, m.pages
      ensures Valid() && m.data == old(m.data) && m.pages.pools == old(m.pages.pools)
      ensures Extends(old(m.Now()), m.Now(), {m, this})
      ensures r == Err(InvalidArg) <==> !Aligned(uaddr, paddr, len)
      ensures r == Err(NotAllowed) <==> Aligned(uaddr, paddr, len) && uaddr >= KERNEL_BASE
      ensures r == Err(Unsupported) ==> Index(uaddr, 3) == KERNEL_SLOT
      ensures r == Err(OutOfMemory) ==> NoRoom(m.pages.regions, MIN_PAGE_SIZE)
      ensures r.Ok? || r.error in {InvalidArg, NotAllowed, Unsupported, AlreadyExists, OutOfMemory}
      ensures r.Err? && r.error in {InvalidArg, NotAllowed, Unsupported} ==> m.Now() == old(m.Now())
      ensures Descends(uaddr, paddr, len) ==>
              Maps(old(m.tables), m.tables, m.pages.regions, root, uaddr, paddr, attrs, r)
      ensures KernelSame(old(m.tables), m.tables, old(m.kernel)) <==>
              || !Strays(old(m.tables), root, uaddr, paddr, len)
              || (LacksTable(old(m.tables), m.boot, uaddr) && old(NoRoom(m.pages.regions, MIN_PAGE_SIZE)))
      ensures m.BootTable() == old(m.BootTable()) <==>
              || !FillsBoot(uaddr, paddr, len, old(m.BootTable()))
              || old(NoRoom(m.pages.regions, MIN_PAGE_SIZE))
    {
      hide Index, Maps, Tree, NoRoom, Machine.Valid, IsAligned, Extends, IsPresent, KernelSame, Walk, LacksTable;
      PageIsPower();
      IsAlignedIsMultiple(uaddr, MIN_PAGE_SIZE);
      IsAlignedIsMultiple(paddr, MIN_PAGE_SIZE);
      IsAlignedIsMultiple(len, MIN_PAGE_SIZE);
      m.Facts();
      IndexBound(uaddr, 2);
      ExtendsNothing(m.Now(), {m, this});
      KernelSameNothing(m.tables, m.boot, m.kernel);
      if !IsAligned(uaddr, MIN_PAGE_SIZE) || !IsAligned(paddr, MIN_PAGE_SIZE) || !IsAligned(len, MIN_PAGE_SIZE) {
        return Err(InvalidArg);
      }
      if uaddr >= KERNEL_BASE { return Err(NotAllowed); }
      if Index(uaddr, 3) != KERNEL_SLOT {
        r := MapUser(uaddr, paddr, attrs);
        KernelSpared(old(m.Now()), m.Now(), m.kernel, m, {this});
        OutsideIsAll(old(m.tables), m.tables, m.pages.regions, root, m.boot, old(at), at, m.kernel, uaddr, paddr, attrs,
                     r);
        UserResults(old(m.tables), m.tables, m.pages.regions, root, uaddr, paddr, attrs, r);
        BootSpared(old(m.Now()), m.Now(), m.boot, {this});
        ExtendsWider(old(m.Now()), m.Now(), {this}, {m, this});
      } else {
        r := MapKernelSlot(uaddr, paddr, attrs);
        MapsResults(old(m.tables), m.tables, m.pages.regions, root, uaddr, paddr, attrs, r);
        ExtendsWider(old(m.Now()), m.Now(), {m}, {m, this});
      }
    }

    /** A top-level table with nothing in it but the kernel. */
    static method AllocRoot(m: Machine) returns (r: Option<nat>)
      requires m.Valid()
      modifies m, m.pages
      ensures m.Valid() && m.data == old(m.data) && m.kernel == old(m.kernel) && m.pages.pools == old(m.pages.pools)
      ensures r.None? <==> old(NoRoom(m.pages.regions, MIN_PAGE_SIZE))
      ensures r.None? ==> m.Now() == old(m.Now())
      ensures r.Some? ==> r.value !in old(m.owner) && r.value !in m.kernel && r.value != m.boot && IsFrame(r.value)
      ensures r.Some? ==> m.owner == old(m.owner)[r.value := m]
      ensures r.Some? ==> m.tables == old(m.tables)[r.value := RootTable(m.boot)]
    {
      hide And, Or, PteNew, PteAddr, NoRoom, Machine.Valid, IsPresent;
      m.Facts();
      DirectMapRoundTrip(m.boot);
      var pdpt := Vaddr2Paddr(Paddr2Vaddr(m.boot));
      r := m.AllocTable(m);
      if r.Some? {
        PteFields(pdpt, PTE_V);
        m.Facts();
        m.SetEntry(r.value, KERNEL_SLOT, PteNew(pdpt, PTE_V));
      }
    }

    /** `VmSpace::new`: nothing is mapped but the kernel. */
    static method New(m: Machine) returns (r: Result<PageTable>)
      requires m.Valid()
      modifies m, m.pages
      ensures m.Valid() && m.data == old(m.data) && m.pages.pools == old(m.pages.pools)
      ensures Extends(old(m.Now()), m.Now(), {})
      ensures r.Err? <==> old(NoRoom(m.pages.regions, MIN_PAGE_SIZE))
      ensures r.Err? ==> r == Err(OutOfMemory) && m.Now() == old(m.Now())
      ensures r.Ok? ==> fresh(r.value) && r.value.m == m && r.value.Valid()
      ensures r.Ok? ==> forall v :: Index(v, 3) != KERNEL_SLOT ==> Walk(m.tables, r.value.root, v) == None
    {
      hide NoRoom, Index, Walk, Machine.Valid, Extends, Tree, RootTable;
      m.Facts();
      ExtendsNothing(m.Now(), {});
      var pml4 := AllocRoot(m);
      if pml4.None? { return Err(OutOfMemory); }
      var s := new PageTable.At(m, pml4.value);
      m.Reown(pml4.value, s);
      EmptyTree(m.tables, pml4.value, m.boot);
      NewTableExtends(old(m.Now()), m.Now(), pml4.value);
      r := Ok(s);
    }
  }

  lemma NewTableExtends(a: Frames, b: Frames, n: nat)
    requires n !in a.owner && a.tables.Keys <= a.owner.Keys && n in b.tables && n in b.owner
    requires b == Frames(a.tables[n := b.tables[n]], a.data, a.owner[n := b.owner[n]])
    ensures Extends(a, b, {})
  {
    BitsAre(0);
    hide IsPresent;
  }

  lemma BootSpared(a: Frames, b: Frames, boot: nat, who: set<object>)
    requires Extends(a, b, who) && boot in a.tables && boot in a.owner && a.owner[boot] !in who
    ensures boot in b.tables && b.tables[boot] == a.tables[boot]
  {
    hide EntriesGrow;
  }

  lemma MapsResults(mem: Memory, mem': Memory, regions': seq<Bump>, root: nat, uaddr: nat, paddr: nat, attrs: nat,
                    r: Result<()>)
    requires Maps(mem, mem', regions', root, uaddr, paddr, attrs, r)
    ensures r.Ok? || r == Err(AlreadyExists) || r == Err(Unsupported) || r == Err(OutOfMemory)
    ensures r == Err(OutOfMemory) ==> NoRoom(regions', MIN_PAGE_SIZE)
    ensures r == Err(AlreadyExists) || r == Err(Unsupported) <==> Walk(mem, root, uaddr).Some?
  {
    hide Walk, Index, PageOf, NoRoom;
  }

  lemma UserResults(mem: Memory, mem': Memory, regions': seq<Bump>, root: nat, uaddr: nat, paddr: nat, attrs: nat,
                    r: Result<()>)
    requires MapsOutside(mem, mem', regions', root, uaddr, paddr, attrs, r)
    ensures r.Ok? || r == Err(AlreadyExists) || (r == Err(OutOfMemory) && NoRoom(regions', MIN_PAGE_SIZE))
  {
    hide Walk, Index, PageOf, NoRoom;
  }

  // -- below the boot table

  /** Every address in the kernel's slot translates as before. */
  ghost predicate SlotSame(mem: Memory, mem': Memory, boot: nat) {
    forall v: nat :: Index(v, 3) == KERNEL_SLOT ==> Descend(mem', boot, v, 2) == Descend(mem, boot, v, 2)
  }

  lemma SlotSameNothing(mem: Memory, boot: nat)
    ensures SlotSame(mem, mem, boot)
  {
  }

  lemma SlotSameTwice(mem0: Memory, mem1: Memory, mem2: Memory, boot: nat)
    requires SlotSame(mem0, mem1, boot) && SlotSame(mem1, mem2, boot)
    ensures SlotSame(mem0, mem2, boot)
  {
    hide Descend, Index;
  }

  lemma LeadsOn(e: nat)
    requires IsPresent(e) && !IsHuge(e)
    ensures Leads(e, PteAddr(e))
  {
  }

  /** A fresh table linked below a table of the kernel. */
  lemma LinkedBelow(mem: Memory, boot: nat, kernel: Places, f: nat, i: nat, n: nat)
    requires KernelTree(mem, boot, kernel) && f in kernel && !kernel[f].Pt? && f in mem && i < |mem[f]|
    requires !IsPresent(Entry(mem, f, i)) && n !in mem && IsFrame(n)
    ensures var mem' := Linked(mem, f, i, n);
      && SlotSame(mem, mem', boot) && Leads(Entry(mem', f, i), n) && n in mem' && mem'[n] == Zeros()
      && forall g :: g in mem && g != f ==> g in mem' && mem'[g] == mem[g]
  {
    hide IsPresent, IsHuge, PteAddr, Entry, Linked, KernelTree, SlotSame, Zeros;
    PteFields(n, LINK);
    LinkEntries(mem, f, i, n, f, i);
    LinkedSame(mem, f, i, n);
    LinkSlotSame(mem, boot, kernel, f, i, n);
  }

  lemma LinkSlotSame(mem: Memory, boot: nat, kernel: Places, f: nat, i: nat, n: nat)
    requires KernelTree(mem, boot, kernel) && f in kernel && !kernel[f].Pt? && f in mem && i < |mem[f]|
    requires !IsPresent(Entry(mem, f, i)) && n !in mem && IsFrame(n)
    ensures SlotSame(mem, Linked(mem, f, i, n), boot)
  {
    hide Descend, Index, IsPresent, Entry, Linked, KernelEntryOk;
    forall v: nat | Index(v, 3) == KERNEL_SLOT
      ensures Descend(Linked(mem, f, i, n), boot, v, 2) == Descend(mem, boot, v, 2)
    {
      KernelLinkDescend(mem, boot, kernel, f, i, n, boot, v, 2);
    }
  }

  lemma NodeChild(v: nat, level: nat)
    requires 0 < level < 4
    ensures !NodeOf(v, level).Pt? && Child(NodeOf(v, level), Index(v, level)) == NodeOf(v, level - 1)
  {
    hide Index;
  }

  lemma EntryIs(mem: Memory, f: nat, i: nat)
    requires f in mem && |mem[f]| == ENTRIES && i < ENTRIES
    ensures Entry(mem, f, i) == mem[f][i]
  {
  }

  lemma LinkedSame(mem: Memory, f: nat, i: nat, n: nat)
    requires f in mem && i < |mem[f]| && n !in mem
    ensures n in Linked(mem, f, i, n) && Linked(mem, f, i, n)[n] == Zeros()
    ensures forall g :: g in mem && g != f ==> g in Linked(mem, f, i, n) && Linked(mem, f, i, n)[g] == mem[g]
  {
  }

  lemma ZeroEntry(mem: Memory, f: nat, i: nat)
    ensures f in mem && mem[f] == Zeros() ==> Entry(mem, f, i) == 0
  {
  }

  lemma DifferentLevels(v: nat)
    ensures NodeOf(v, 2).Pdpt? && NodeOf(v, 1).Pdt? && NodeOf(v, 0).Pt?
  {
  }

  lemma SameTable(mem: Memory, mem': Memory, f: nat, i: nat)
    ensures f in mem && f in mem' && mem'[f] == mem[f] ==> Entry(mem', f, i) == Entry(mem, f, i)
  {
  }

  /** An entry for `v` that was missing is there. */
  predicate Links(mem: Memory, mem': Memory, boot: nat, v: nat) {
    var e := Entry(mem, boot, Index(v, 2));
    if !IsPresent(e) then IsPresent(Entry(mem', boot, Index(v, 2)))
    else IsPresent(Entry(mem', PteAddr(e), Index(v, 1)))
  }

  lemma SlotIsInside(mem: Memory, mem': Memory, boot: nat, uaddr: nat, paddr: nat)
    requires SlotSame(mem, mem', boot)
    ensures forall error :: MapsInside(mem, mem', boot, uaddr, paddr, Err(error))
    ensures Index(uaddr, 3) == KERNEL_SLOT ==> Descend(mem', boot, uaddr, 2) == Descend(mem, boot, uaddr, 2)
  {
    hide Descend, Index;
  }

  lemma InsideAfter(mem: Memory, mem1: Memory, mem2: Memory, boot: nat, uaddr: nat, paddr: nat)
    requires SlotSame(mem, mem1, boot) && MapsInside(mem1, mem2, boot, uaddr, paddr, Ok(()))
    ensures MapsInside(mem, mem2, boot, uaddr, paddr, Ok(()))
  {
    hide Descend, Index, PageOf, Guarded;
  }

  /** An entry of a table of the kernel was filled. */
  lemma EntryTouched(mem: Memory, mem': Memory, kernel: Places, f: nat, i: nat)
    requires f in kernel && !IsPresent(Entry(mem, f, i)) && IsPresent(Entry(mem', f, i))
    ensures !KernelSame(mem, mem', kernel)
  {
    hide IsPresent;
  }

  lemma KernelTouched(mem: Memory, mem': Memory, boot: nat, kernel: Places, v: nat)
    requires KernelTree(mem, boot, kernel) && LacksTable(mem, boot, v) && Links(mem, mem', boot, v)
    ensures !KernelSame(mem, mem', kernel)
  {
    hide IsPresent, IsHuge, PteAddr, Index, Entry, KernelSame;
    var e := Entry(mem, boot, Index(v, 2));
    if IsPresent(e) {
      assert KernelEntryOk(mem, kernel, boot, Index(v, 2));
      EntryTouched(mem, mem', kernel, PteAddr(e), Index(v, 1));
    } else {
      EntryTouched(mem, mem', kernel, boot, Index(v, 2));
    }
  }

  lemma LinksStay(mem: Memory, mem1: Memory, mem2: Memory, boot: nat, v: nat)
    requires Links(mem, mem1, boot, v) && EntriesGrow(mem1, mem2)
    ensures Links(mem, mem2, boot, v)
  {
    hide IsPresent, PteAddr, Index, Entry;
  }

  /** Once the leaf is filled, a table of the kernel has changed. */
  lemma KernelWritten(mem: Memory, mem1: Memory, mem2: Memory, boot: nat, kernel: Places, v: nat, pt: nat)
    requires KernelTree(mem, boot, kernel) && EntriesGrow(mem1, mem2)
    requires if LacksTable(mem, boot, v) then Links(mem, mem1, boot, v) else mem1 == mem && pt in kernel
    requires !IsPresent(Entry(mem1, pt, Index(v, 0))) && IsPresent(Entry(mem2, pt, Index(v, 0)))
    ensures !KernelSame(mem, mem2, kernel)
  {
    hide IsPresent, Entry, Index, LacksTable, Links, EntriesGrow, KernelSame, KernelTree;
    if LacksTable(mem, boot, v) {
      LinksStay(mem, mem1, mem2, boot, v);
      KernelTouched(mem, mem2, boot, kernel, v);
    } else {
      EntryTouched(mem, mem2, kernel, pt, Index(v, 0));
    }
  }

  /** A leaf entry below the boot table maps exactly its own page. */
  lemma LeafFilled(mem: Memory, boot: nat, kernel: Places, pdt: nat, pt: nat, uaddr: nat, paddr: nat, attrs: nat)
    requires KernelTree(mem, boot, kernel) && LeadTo(mem, boot, pdt, pt, uaddr) && Index(uaddr, 3) == KERNEL_SLOT
    requires pdt in kernel && kernel[pdt] == NodeOf(uaddr, 1) && pt in kernel && kernel[pt] == NodeOf(uaddr, 0)
    requires pt in mem && |mem[pt]| == ENTRIES && Index(uaddr, 0) < ENTRIES && IsFrame(paddr) && IsAttrs(attrs)
    ensures var e := PteNew(paddr, LeafFlags(attrs));
      MapsInside(mem, Filled(mem, pt, Index(uaddr, 0), e), boot, uaddr, paddr, Ok(())) && IsPresent(e)
  {
    hide Index, IsPresent, IsHuge, PteAddr, IsUser, IsWritable, PteNew, LeafFlags, Descend, PageOf, KernelEntryOk;
    var e, i := PteNew(paddr, LeafFlags(attrs)), Index(uaddr, 0);
    var mem' := Filled(mem, pt, i, e);
    MappedIsLeaf(paddr, attrs);
    DifferentLevels(uaddr);
    assert LeadTo(mem', boot, pdt, pt, uaddr);
    LeafBelow(mem', boot, pdt, pt, uaddr);
    forall v: nat | Index(v, 3) == KERNEL_SLOT
      ensures Guarded(Descend(mem', boot, v, 2)) ==
              if PageOf(v) == PageOf(uaddr) then Some(Translation(paddr, MIN_PAGE_SIZE, false, false))
              else Guarded(Descend(mem, boot, v, 2))
    {
      SamePage(v, uaddr);
      if PageOf(v) == PageOf(uaddr) {
        DescendByIndex(mem', boot, v, uaddr, 2);
      } else {
        KernelFillDescend(mem, boot, kernel, pt, i, e, boot, v, 2);
      }
    }
  }

  lemma KernelSameNothing(mem: Memory, boot: nat, kernel: Places)
    requires KernelTree(mem, boot, kernel)
    ensures KernelSame(mem, mem, kernel)
  {
  }

  lemma KernelSpared(a: Frames, b: Frames, kernel: Places, m: object, who: set<object>)
    requires Extends(a, b, who) && m !in who
    requires forall f :: f in kernel ==> f in a.tables && f in a.owner && a.owner[f] == m
    ensures KernelSame(a.tables, b.tables, kernel)
  {
    hide EntriesGrow;
  }

  lemma EmptyTree(mem: Memory, root: nat, boot: nat)
    requires root in mem && mem[root] == RootTable(boot) && IsFrame(root) && root != boot
    ensures Tree(mem, root, boot, map[root := Pml4])
    ensures forall v :: Index(v, 3) != KERNEL_SLOT ==> Walk(mem, root, v) == None
  {
    hide Index;
    var at: Places := map[root := Pml4];
    assert at[root] == Pml4;
    forall v | Index(v, 3) != KERNEL_SLOT ensures Walk(mem, root, v) == None {
      IndexBound(v, 3);
      DescendStep(mem, root, boot, at, root, v, 3);
    }
  }

  lemma StraysByPage(v: nat)
    ensures Index(v, 3) == KERNEL_SLOT && Index(v, 2) >= 4 <==>
            USER_END + 0x1_0000_0000 <= v % 0x1_0000_0000_0000 < USER_END + 0x80_0000_0000
  {
    hide Index;
    Digits(v);
    IndexBound(v, 0);
    IndexBound(v, 1);
    IndexBound(v, 2);
    IndexBound(v, 3);
    var p, q, r := PageOf(v), v / MIN_PAGE_SIZE / PAGES, v % MIN_PAGE_SIZE;
    assert v / MIN_PAGE_SIZE == PAGES * q + p;
    ModUnique(v, 0x1_0000_0000_0000, q, MIN_PAGE_SIZE * p + r);
  }

  /**
   Exactly the addresses that stray while the boot table is as boot left it. None is a user address.
   */
  lemma StraysExactly(mem: Memory, root: nat, boot: nat, at: Places, uaddr: nat, paddr: nat, len: nat)
    requires Tree(mem, root, boot, at) && IsFrame(boot) && boot in mem && mem[boot] == BootPdpt()
    ensures Strays(mem, root, uaddr, paddr, len) <==>
            Descends(uaddr, paddr, len)
            && USER_END + 0x1_0000_0000 <= uaddr % 0x1_0000_0000_0000 < USER_END + 0x80_0000_0000
    ensures Descends(USER_END + 0x1_0000_0000, 0, MIN_PAGE_SIZE)
            && Strays(mem, root, USER_END + 0x1_0000_0000, 0, MIN_PAGE_SIZE)
  {
    hide Index, Walk, Tree, BootPdpt;
    StraysByPage(uaddr);
    StraysByPage(USER_END + 0x1_0000_0000);
    BootWalk(mem, root, boot, at, uaddr);
    BootWalk(mem, root, boot, at, USER_END + 0x1_0000_0000);
  }

  /** The boot table as boot left it maps the slot's first 4 GiB, and nothing else. */
  lemma BootWalk(mem: Memory, root: nat, boot: nat, at: Places, v: nat)
    requires Tree(mem, root, boot, at) && IsFrame(boot) && boot in mem && mem[boot] == BootPdpt()
    ensures Index(v, 3) == KERNEL_SLOT ==> (Walk(mem, root, v).Some? <==> Index(v, 2) < 4)
  {
    hide Index, IsPresent, IsHuge, PteAddr, IsUser, IsWritable, BootPdpt, Tree, Walk;
    if Index(v, 3) == KERNEL_SLOT {
      KernelWalk(mem, root, boot, at, v);
      BitsAre(0);
      IndexBound(v, 2);
      BootEntry(Index(v, 2));
    }
  }

  /** Whatever has strayed before, no user address does. */
  lemma UserNeverStrays(mem: Memory, root: nat, uaddr: nat, paddr: nat, len: nat)
    ensures uaddr < USER_END ==> !Strays(mem, root, uaddr, paddr, len)
  {
    hide Walk, Index;
    UserPages(uaddr);
  }

  /** A page that strays leaves every other address that would stray one that does. */
  lemma StraysStill(mem: Memory, mem': Memory, regions': seq<Bump>, root: nat, uaddr: nat, paddr: nat, attrs: nat,
                    r: Result<()>, v: nat, len: nat)
    requires Maps(mem, mem', regions', root, uaddr, paddr, attrs, r) && Strays(mem, root, v, 0, len)
    requires PageOf(v) != PageOf(uaddr)
    ensures Strays(mem', root, v, 0, len)
  {
    hide Walk, Index, PageOf;
  }

  predicate Aligned(uaddr: nat, paddr: nat, len: nat) {
    uaddr % MIN_PAGE_SIZE == 0 && paddr % MIN_PAGE_SIZE == 0 && len % MIN_PAGE_SIZE == 0
  }

  /** The arguments get past the checks. */
  predicate Descends(uaddr: nat, paddr: nat, len: nat) {
    Aligned(uaddr, paddr, len) && uaddr < KERNEL_BASE
  }

  /**
   The address is below KERNEL_BASE, but its page-table index is the kernel's, and nothing is mapped there yet, so that
   `map` fills an entry of the kernel's tables.
   */
  predicate Strays(mem: Memory, root: nat, uaddr: nat, paddr: nat, len: nat) {
    Descends(uaddr, paddr, len) && Index(uaddr, 3) == KERNEL_SLOT && Walk(mem, root, uaddr) == None
  }

  /** Such an address whose entry in the boot table itself is empty. */
  predicate FillsBoot(uaddr: nat, paddr: nat, len: nat, boot: seq<nat>) {
    && Descends(uaddr, paddr, len) && Index(uaddr, 3) == KERNEL_SLOT
    && Index(uaddr, 2) < |boot| && !IsPresent(boot[Index(uaddr, 2)])
  }
}
