/** The shape of a space's tables, the processor's walk over them, and what the two writes of `map` do to both. */
module PageTree {
  import opened Prelude
  import opened Alignment
  import opened Paging

  const LINK: nat := 7  // PTE_V | PTE_W | PTE_U, the flags of every entry that leads to a user table

  /** An entry of a table; memory that holds no table reads as zero. */
  function Entry(mem: Memory, f: nat, i: nat): nat {
    if f in mem && i < |mem[f]| then mem[f][i] else 0
  }

  // -- the processor's walk

  /** Where an address leads: the page's frame and size, and whether every level grants user and write access. */
  datatype Translation = Translation(frame: nat, size: nat, user: bool, writable: bool)

  function Under(e: nat, t: Option<Translation>): Option<Translation> {
    match t
    case None => None
    case Some(t) => Some(t.(user := t.user && IsUser(e), writable := t.writable && IsWritable(e)))
  }

  function Descend(mem: Memory, f: nat, v: nat, level: nat): Option<Translation>
    requires level < 4
    decreases level
  {
    var e := Entry(mem, f, Index(v, level));
    if !IsPresent(e) then None
    else if level == 0 || (level < 3 && IsHuge(e)) then
      Some(Translation(PteAddr(e), Span(level), IsUser(e), IsWritable(e)))
    else Under(e, Descend(mem, PteAddr(e), v, level - 1))
  }

  function Walk(mem: Memory, root: nat, v: nat): Option<Translation> {
    Descend(mem, root, v, 3)
  }

  // -- the tree

  /** The place of a table: the indices that lead to it. */
  datatype Node = Pml4 | Pdpt(a: nat) | Pdt(a: nat, b: nat) | Pt(a: nat, b: nat, c: nat)

  function Child(n: Node, i: nat): Node {
    match n
    case Pml4 => Pdpt(i)
    case Pdpt(a) => Pdt(a, i)
    case Pdt(a, b) => Pt(a, b, i)
    case Pt(_, _, _) => n
  }

  function NodeOf(v: nat, level: nat): Node
    requires level < 4
  {
    if level == 3 then Pml4
    else if level == 2 then Pdpt(Index(v, 3))
    else if level == 1 then Pdt(Index(v, 3), Index(v, 2))
    else Pt(Index(v, 3), Index(v, 2), Index(v, 1))
  }

  type Places = map<nat, Node>  // the tables of a space, each with its place

  /** An entry that leads to a user table. */
  predicate IsUserSlot(n: Node, i: nat) {
    !n.Pt? && i < ENTRIES && !(n == Pml4 && i == KERNEL_SLOT)
  }

  predicate Occupied(at: Places, n: Node) {
    exists g :: g in at && at[g] == n
  }

  function Up(n: Node): Node {
    match n
    case Pml4 => Pml4
    case Pdpt(_) => Pml4
    case Pdt(a, _) => Pdpt(a)
    case Pt(a, b, _) => Pdt(a, b)
  }

  /** The entry is empty and its place unoccupied, or it leads to the table in that place. */
  predicate EntryOk(mem: Memory, at: Places, f: nat, i: nat)
    requires f in at
  {
    IsUserSlot(at[f], i) ==>
      var e := Entry(mem, f, i);
      if e == 0 then !Occupied(at, Child(at[f], i))
      else e >= LINK && e - LINK in at && at[e - LINK] == Child(at[f], i)
  }

  /** A table's parent is a table of the space. */
  predicate Rooted(at: Places, f: nat) {
    f in at ==> Occupied(at, Up(at[f]))
  }

  ghost predicate Tree(mem: Memory, root: nat, boot: nat, at: Places) {
    && root in at && at[root] == Pml4
    && (forall f :: f in at ==> f in mem && |mem[f]| == ENTRIES && IsFrame(f) && f != boot)
    && (forall f: nat :: Rooted(at, f))
    && (forall f, g :: f in at && g in at && at[f] == at[g] ==> f == g)
    && (forall f, i: nat :: f in at ==> EntryOk(mem, at, f, i))
    && Entry(mem, root, KERNEL_SLOT) == boot + PTE_V
  }

  /** What `ensure_next_table` sees in a user slot. */
  lemma SlotContents(mem: Memory, root: nat, boot: nat, at: Places, f: nat, i: nat)
    requires Tree(mem, root, boot, at) && f in at && IsUserSlot(at[f], i)
    ensures var e := Entry(mem, f, i);
      if e == 0 then !IsPresent(e)
      else IsPresent(e) && !IsHuge(e) && IsUser(e) && IsWritable(e) && e >= LINK && PteAddr(e) == e - LINK
           && PteAddr(e) in at && at[PteAddr(e)] == Child(at[f], i)
  {
    hide And, Or, IsPresent, IsHuge, IsUser, IsWritable, PteAddr, Occupied;
    assert EntryOk(mem, at, f, i);
    var e := Entry(mem, f, i);
    if e == 0 { BitsAre(0); } else { PteFields(e - LINK, LINK); }
  }

  lemma IndexBound(v: nat, level: nat)
    requires level < 4
    ensures Index(v, level) < ENTRIES
  {
    IndexIsMod(v, level);
  }

  /** One step of the walk from a table on the address's path. */
  lemma DescendStep(mem: Memory, root: nat, boot: nat, at: Places, f: nat, v: nat, level: nat)
    requires Tree(mem, root, boot, at) && level < 4 && f in at && at[f] == NodeOf(v, level)
    requires 0 < level && Index(v, 3) != KERNEL_SLOT
    ensures IsUserSlot(at[f], Index(v, level))
    ensures var e := Entry(mem, f, Index(v, level));
      if e == 0 then Descend(mem, f, v, level) == None
      else e >= LINK && e - LINK in at && at[e - LINK] == NodeOf(v, level - 1)
           && Descend(mem, f, v, level) == Descend(mem, e - LINK, v, level - 1)
  {
    hide And, Or, IsPresent, IsHuge, IsUser, IsWritable, PteAddr, Index, Tree;
    IndexBound(v, level);
    SlotContents(mem, root, boot, at, f, Index(v, level));
  }

  lemma InMemory(mem: Memory, root: nat, boot: nat, at: Places, f: nat)
    requires Tree(mem, root, boot, at) && f in at
    ensures f in mem && |mem[f]| == ENTRIES && IsFrame(f) && f != boot
  {
    hide Occupied, EntryOk;
  }

  lemma KernelSlot(mem: Memory, root: nat, boot: nat, at: Places)
    requires Tree(mem, root, boot, at)
    ensures root in at && root in mem && boot !in at && Entry(mem, root, KERNEL_SLOT) == boot + PTE_V
  {
    hide Occupied, EntryOk;
  }

  // -- linking a fresh table

  function Zeros(): seq<nat> {
    seq(ENTRIES, _ => 0)
  }

  function WithEntry(table: seq<nat>, i: nat, e: nat): seq<nat>
    requires i < |table|
  {
    table[i := e]
  }

  function Linked(mem: Memory, f: nat, i: nat, n: nat): Memory
    requires f in mem && i < |mem[f]|
  {
    mem[n := Zeros()][f := WithEntry(mem[f], i, n + LINK)]
  }

  lemma LinkEntries(mem: Memory, f: nat, i: nat, n: nat, g: nat, j: nat)
    requires f in mem && i < |mem[f]| && n !in mem
    ensures Entry(Linked(mem, f, i, n), g, j) == if g == f && j == i then n + LINK else Entry(mem, g, j)
  {
  }

  lemma LinkOccupied(at: Places, n: nat, place: Node, m: Node)
    requires n !in at
    ensures Occupied(at[n := place], m) <==> Occupied(at, m) || m == place
  {
    var at' := at[n := place];
    if Occupied(at, m) {
      var g :| g in at && at[g] == m;
      assert g in at' && at'[g] == m;
    }
    if m == place { assert at'[n] == m; }
  }

  lemma LinkEntryOk(mem: Memory, root: nat, boot: nat, at: Places, f: nat, i: nat, n: nat, g: nat, j: nat)
    requires Tree(mem, root, boot, at) && f in at && IsUserSlot(at[f], i) && Entry(mem, f, i) == 0
    requires n !in mem && IsFrame(n) && g in at[n := Child(at[f], i)]
    ensures EntryOk(Linked(mem, f, i, n), at[n := Child(at[f], i)], g, j)
  {
    hide Occupied;
    var place := Child(at[f], i);
    LinkEntries(mem, f, i, n, g, j);
    LinkOccupied(at, n, place, Child(if g == n then place else at[g], j));
    assert EntryOk(mem, at, f, i);
    if g == n {
      if Occupied(at, Child(place, j)) { NoGrandchild(mem, root, boot, at, place, j); }
    } else {
      assert EntryOk(mem, at, g, j);
    }
  }

  /** Nothing is placed below an unoccupied place. */
  lemma NoGrandchild(mem: Memory, root: nat, boot: nat, at: Places, place: Node, j: nat)
    requires Tree(mem, root, boot, at) && !place.Pt? && Occupied(at, Child(place, j))
    ensures Occupied(at, place)
  {
    var h :| h in at && at[h] == Child(place, j);
    assert Rooted(at, h);
  }

  lemma LinkTree(mem: Memory, root: nat, boot: nat, at: Places, f: nat, i: nat, n: nat)
    requires Tree(mem, root, boot, at) && f in at && IsUserSlot(at[f], i) && Entry(mem, f, i) == 0
    requires n !in mem && IsFrame(n) && n != boot
    ensures Tree(Linked(mem, f, i, n), root, boot, at[n := Child(at[f], i)])
  {
    hide Occupied, EntryOk;
    var mem', place := Linked(mem, f, i, n), Child(at[f], i);
    var at' := at[n := place];
    forall g, j: nat | g in at' ensures EntryOk(mem', at', g, j) {
      LinkEntryOk(mem, root, boot, at, f, i, n, g, j);
    }
    forall g: nat ensures Rooted(at', g) {
      if g in at' {
        LinkOccupied(at, n, place, Up(at'[g]));
        AtPlace(at, f);
        assert Rooted(at, g);
      }
    }
    assert !Occupied(at, place) by { EmptySlot(mem, root, boot, at, f, i); }
    forall g, h | g in at' && h in at' && at'[g] == at'[h] ensures g == h {
      if g in at { AtPlace(at, g); }
      if h in at { AtPlace(at, h); }
    }
    LinkEntries(mem, f, i, n, root, KERNEL_SLOT);
  }

  lemma AtPlace(at: Places, f: nat)
    requires f in at
    ensures Occupied(at, at[f])
  {
  }

  lemma EmptySlot(mem: Memory, root: nat, boot: nat, at: Places, f: nat, i: nat)
    requires Tree(mem, root, boot, at) && f in at && IsUserSlot(at[f], i) && Entry(mem, f, i) == 0
    ensures !Occupied(at, Child(at[f], i))
  {
    assert EntryOk(mem, at, f, i);
  }

  /** An empty table translates nothing, so linking one changes no translation. */
  lemma {:induction false} LinkDescend(mem: Memory, root: nat, boot: nat, at: Places, f: nat, i: nat, n: nat, g: nat,
                                       v: nat, level: nat)
    requires Tree(mem, root, boot, at) && f in at && IsUserSlot(at[f], i) && Entry(mem, f, i) == 0
    requires n !in mem && IsFrame(n) && n != boot
    requires level < 4 && g in at && at[g] == NodeOf(v, level) && Index(v, 3) != KERNEL_SLOT
    ensures Descend(Linked(mem, f, i, n), g, v, level) == Descend(mem, g, v, level)
    decreases level
  {
    hide And, Or, IsPresent, IsHuge, IsUser, IsWritable, PteAddr, Index, Tree, Entry, Linked;
    InMemory(mem, root, boot, at, f);
    InMemory(mem, root, boot, at, g);
    var mem', at' := Linked(mem, f, i, n), at[n := Child(at[f], i)];
    LinkEntries(mem, f, i, n, g, Index(v, level));
    if level > 0 {
      LinkTree(mem, root, boot, at, f, i, n);
      DescendStep(mem, root, boot, at, g, v, level);
      DescendStep(mem', root, boot, at', g, v, level);
      var e := Entry(mem, g, Index(v, level));
      if e != 0 {
        LinkDescend(mem, root, boot, at, f, i, n, e - LINK, v, level - 1);
      } else if g == f && Index(v, level) == i {
        FreshDescend(mem, f, i, n, v, level - 1);
      }
    }
  }

  lemma FreshDescend(mem: Memory, f: nat, i: nat, n: nat, v: nat, level: nat)
    requires f in mem && i < |mem[f]| && n !in mem && level < 4
    ensures Descend(Linked(mem, f, i, n), n, v, level) == None
  {
    LinkEntries(mem, f, i, n, n, Index(v, level));
    BitsAre(0);
  }

  // -- filling a leaf

  function Filled(mem: Memory, f: nat, i: nat, e: nat): Memory
    requires f in mem && i < |mem[f]|
  {
    mem[f := WithEntry(mem[f], i, e)]
  }

  lemma FilledIsLinked(mem: Memory, f: nat, i: nat, n: nat)
    requires f in mem && i < |mem[f]| && n !in mem
    ensures Filled(mem[n := Zeros()], f, i, n + LINK) == Linked(mem, f, i, n)
    ensures forall g :: g in mem && g != f ==> g in Linked(mem, f, i, n) && Linked(mem, f, i, n)[g] == mem[g]
  {
  }

  lemma FillTree(mem: Memory, root: nat, boot: nat, at: Places, f: nat, i: nat, e: nat)
    requires Tree(mem, root, boot, at) && f in at && at[f].Pt? && i < ENTRIES
    ensures Tree(Filled(mem, f, i, e), root, boot, at)
  {
    hide Occupied;
    var mem' := Filled(mem, f, i, e);
    forall g, j: nat | g in at ensures EntryOk(mem', at, g, j) {
      assert EntryOk(mem, at, g, j);
    }
  }

  function FromLeaf(e: nat): Option<Translation> {
    if IsPresent(e) then Some(Translation(PteAddr(e), Span(0), IsUser(e), IsWritable(e))) else None
  }

  lemma {:induction false} AboveOccupied(mem: Memory, root: nat, boot: nat, at: Places, v: nat, level: nat)
    requires Tree(mem, root, boot, at) && level < 4 && Occupied(at, NodeOf(v, 0))
    ensures Occupied(at, NodeOf(v, level))
  {
    hide Index, EntryOk;
    if level > 0 {
      AboveOccupied(mem, root, boot, at, v, level - 1);
      var h :| h in at && at[h] == NodeOf(v, level - 1);
      assert Rooted(at, h);
    }
  }

  /** If the address has a last-level table, the walk gets there and reads the address's entry. */
  lemma {:induction false} LeafReached(mem: Memory, root: nat, boot: nat, at: Places, f: nat, g: nat, v: nat,
                                       level: nat)
    requires Tree(mem, root, boot, at) && f in at && at[f] == NodeOf(v, 0)
    requires level < 4 && g in at && at[g] == NodeOf(v, level) && Index(v, 3) != KERNEL_SLOT
    ensures Descend(mem, g, v, level) == FromLeaf(Entry(mem, f, Index(v, 0)))
    decreases level
  {
    hide And, Or, IsPresent, IsHuge, IsUser, IsWritable, PteAddr, Index, Tree, Entry, Occupied;
    if level == 0 {
      OnePlace(mem, root, boot, at, f, g);
    } else {
      DescendStep(mem, root, boot, at, g, v, level);
      AtPlace(at, f);
      AboveOccupied(mem, root, boot, at, v, level - 1);
      SlotFull(mem, root, boot, at, g, v, level);
      LeafReached(mem, root, boot, at, f, Entry(mem, g, Index(v, level)) - LINK, v, level - 1);
    }
  }

  lemma OnePlace(mem: Memory, root: nat, boot: nat, at: Places, f: nat, g: nat)
    requires Tree(mem, root, boot, at) && f in at && g in at && at[f] == at[g]
    ensures f == g
  {
  }

  lemma SlotFull(mem: Memory, root: nat, boot: nat, at: Places, g: nat, v: nat, level: nat)
    requires Tree(mem, root, boot, at) && 0 < level < 4 && g in at && at[g] == NodeOf(v, level)
    requires IsUserSlot(at[g], Index(v, level)) && Occupied(at, NodeOf(v, level - 1))
    ensures Entry(mem, g, Index(v, level)) != 0
  {
    hide Occupied, Index;
    assert EntryOk(mem, at, g, Index(v, level));
  }

  /** Filling a leaf changes no translation but that of its own page. */
  lemma {:induction false} FillDescend(mem: Memory, root: nat, boot: nat, at: Places, f: nat, i: nat, e: nat, g: nat,
                                       v: nat, level: nat)
    requires Tree(mem, root, boot, at) && f in at && at[f].Pt? && i < ENTRIES
    requires level < 4 && g in at && at[g] == NodeOf(v, level) && Index(v, 3) != KERNEL_SLOT
    requires !(at[f] == NodeOf(v, 0) && Index(v, 0) == i)
    ensures Descend(Filled(mem, f, i, e), g, v, level) == Descend(mem, g, v, level)
    decreases level
  {
    hide And, Or, IsPresent, IsHuge, IsUser, IsWritable, PteAddr, Index, Tree, Entry, Occupied, Filled;
    FillEntries(mem, root, boot, at, f, i, e, g, Index(v, level));
    if level > 0 {
      FillTree(mem, root, boot, at, f, i, e);
      DescendStep(mem, root, boot, at, g, v, level);
      DescendStep(Filled(mem, f, i, e), root, boot, at, g, v, level);
      var e' := Entry(mem, g, Index(v, level));
      if e' != 0 { FillDescend(mem, root, boot, at, f, i, e, e' - LINK, v, level - 1); }
    }
  }

  lemma FillEntries(mem: Memory, root: nat, boot: nat, at: Places, f: nat, i: nat, e: nat, g: nat, j: nat)
    requires Tree(mem, root, boot, at) && f in at && i < ENTRIES
    ensures f in mem && i < |mem[f]|
    ensures Entry(Filled(mem, f, i, e), g, j) == if g == f && j == i then e else Entry(mem, g, j)
  {
    hide Occupied, EntryOk;
  }

  // -- all translations at once

  /** Every address outside the kernel's slot translates as before. */
  ghost predicate SameWalks(mem: Memory, mem': Memory, root: nat) {
    forall v :: Index(v, 3) != KERNEL_SLOT ==> Walk(mem', root, v) == Walk(mem, root, v)
  }

  lemma LinkWalks(mem: Memory, root: nat, boot: nat, at: Places, f: nat, i: nat, n: nat)
    requires Tree(mem, root, boot, at) && f in at && IsUserSlot(at[f], i) && Entry(mem, f, i) == 0
    requires n !in mem && IsFrame(n) && n != boot
    ensures f in mem && i < |mem[f]| && SameWalks(mem, Linked(mem, f, i, n), root)
  {
    hide Index, Occupied, EntryOk, Descend;
    forall v | Index(v, 3) != KERNEL_SLOT ensures Walk(Linked(mem, f, i, n), root, v) == Walk(mem, root, v) {
      LinkDescend(mem, root, boot, at, f, i, n, root, v, 3);
    }
  }

  /** After a leaf is filled, its page translates by it, and every other page as before. */
  lemma FillWalk(mem: Memory, root: nat, boot: nat, at: Places, f: nat, e: nat, u: nat, v: nat)
    requires Tree(mem, root, boot, at) && f in at && at[f] == NodeOf(u, 0)
    requires Index(u, 3) != KERNEL_SLOT && Index(v, 3) != KERNEL_SLOT
    ensures Index(u, 0) < ENTRIES && f in mem && |mem[f]| == ENTRIES
    ensures Walk(mem, root, u) == FromLeaf(Entry(mem, f, Index(u, 0)))
    ensures Walk(Filled(mem, f, Index(u, 0), e), root, v) ==
            if PageOf(v) == PageOf(u) then FromLeaf(e) else Walk(mem, root, v)
  {
    hide Index, Occupied, EntryOk, Descend, PageOf, FromLeaf, Entry, Filled;
    IndexBound(u, 0);
    InMemory(mem, root, boot, at, f);
    SamePage(u, v);
    LeafReached(mem, root, boot, at, f, root, u, 3);
    if PageOf(v) == PageOf(u) {
      FillTree(mem, root, boot, at, f, Index(u, 0), e);
      LeafReached(Filled(mem, f, Index(u, 0), e), root, boot, at, f, root, v, 3);
      FillEntries(mem, root, boot, at, f, Index(u, 0), e, f, Index(v, 0));
    } else {
      FillDescend(mem, root, boot, at, f, Index(u, 0), e, root, v, 3);
    }
  }

  /** A space whose tables are as they were is a tree still, and translates as before. */
  lemma Elsewhere(mem: Memory, mem': Memory, root: nat, boot: nat, at: Places)
    requires Tree(mem, root, boot, at)
    requires forall f :: f in at ==> f in mem' && mem'[f] == mem[f]
    ensures Tree(mem', root, boot, at) && SameWalks(mem, mem', root)
  {
    hide Occupied, Descend, Index;
    forall f, i: nat | f in at ensures EntryOk(mem', at, f, i) {
      assert EntryOk(mem, at, f, i);
    }
    forall v | Index(v, 3) != KERNEL_SLOT ensures Walk(mem', root, v) == Walk(mem, root, v) {
      ElsewhereDescend(mem, mem', root, boot, at, root, v, 3);
    }
  }

  lemma {:induction false} ElsewhereDescend(mem: Memory, mem': Memory, root: nat, boot: nat, at: Places, g: nat,
                                            v: nat, level: nat)
    requires Tree(mem, root, boot, at) && Tree(mem', root, boot, at)
    requires forall f :: f in at ==> f in mem' && f in mem && mem'[f] == mem[f]
    requires level < 4 && g in at && at[g] == NodeOf(v, level) && Index(v, 3) != KERNEL_SLOT
    ensures Descend(mem', g, v, level) == Descend(mem, g, v, level)
    decreases level
  {
    hide And, Or, IsPresent, IsHuge, IsUser, IsWritable, PteAddr, Index, Tree, Occupied;
    if level > 0 {
      DescendStep(mem, root, boot, at, g, v, level);
      DescendStep(mem', root, boot, at, g, v, level);
      var e := Entry(mem, g, Index(v, level));
      if e != 0 { ElsewhereDescend(mem, mem', root, boot, at, e - LINK, v, level - 1); }
    }
  }

  // -- entries only ever get filled

  /** Entries that are present stay as they are. */
  ghost predicate EntriesGrow(mem: Memory, mem': Memory) {
    forall f, i: nat :: IsPresent(Entry(mem, f, i)) ==> Entry(mem', f, i) == Entry(mem, f, i)
  }

  lemma FillGrows(mem: Memory, f: nat, i: nat, e: nat)
    requires f in mem && i < |mem[f]| && !IsPresent(mem[f][i])
    ensures EntriesGrow(mem, Filled(mem, f, i, e))
  {
    hide IsPresent;
  }

  lemma FreshGrows(mem: Memory, n: nat)
    requires n !in mem
    ensures EntriesGrow(mem, mem[n := Zeros()])
  {
    BitsAre(0);
    hide IsPresent;
  }

  lemma GrowsTwice(mem0: Memory, mem1: Memory, mem2: Memory)
    requires EntriesGrow(mem0, mem1) && EntriesGrow(mem1, mem2)
    ensures EntriesGrow(mem0, mem2)
  {
    hide IsPresent, Entry;
  }

  /** Then whatever translates, in any space, goes on doing so. */
  lemma {:induction false} TranslationStays(mem: Memory, mem': Memory, f: nat, v: nat, level: nat)
    requires EntriesGrow(mem, mem') && level < 4 && Descend(mem, f, v, level).Some?
    ensures Descend(mem', f, v, level) == Descend(mem, f, v, level)
    decreases level
  {
    hide Index, IsPresent, IsHuge, PteAddr, IsUser, IsWritable, Entry;
    var e := Entry(mem, f, Index(v, level));
    assert IsPresent(e) && Entry(mem', f, Index(v, level)) == e;
    if level > 0 && !(level < 3 && IsHuge(e)) { TranslationStays(mem, mem', PteAddr(e), v, level - 1); }
  }

  // -- the kernel's tables, which all spaces share

  /** A present entry of a table of the kernel leads to the table in the next place, or is a page. */
  predicate KernelEntryOk(mem: Memory, kernel: Places, f: nat, i: nat) {
    f in kernel && !kernel[f].Pt? ==>
      var e := Entry(mem, f, i);
      IsPresent(e) && !IsHuge(e) ==> PteAddr(e) in kernel && kernel[PteAddr(e)] == Child(kernel[f], i)
  }

  /** From the boot table, entries lead to tables of the kernel only. */
  ghost predicate KernelTree(mem: Memory, boot: nat, kernel: Places) {
    && boot in kernel && kernel[boot] == Pdpt(KERNEL_SLOT) && kernel.Keys <= mem.Keys
    && forall f, i: nat :: KernelEntryOk(mem, kernel, f, i)
  }

  /** The tables of the kernel are as they were. */
  ghost predicate KernelSame(mem: Memory, mem': Memory, kernel: Places) {
    forall f :: f in kernel ==> f in mem && f in mem' && mem'[f] == mem[f]
  }

  lemma KernelElsewhere(mem: Memory, mem': Memory, boot: nat, kernel: Places)
    requires KernelTree(mem, boot, kernel) && KernelSame(mem, mem', kernel)
    ensures KernelTree(mem', boot, kernel)
  {
    hide IsPresent, IsHuge, PteAddr;
    forall f, i: nat ensures KernelEntryOk(mem', kernel, f, i) {
      assert KernelEntryOk(mem, kernel, f, i);
    }
  }

  /** An empty table joins them. */
  lemma KernelJoined(mem: Memory, boot: nat, kernel: Places, n: nat, place: Node)
    requires KernelTree(mem, boot, kernel) && n in mem && n !in kernel && mem[n] == Zeros()
    ensures KernelTree(mem, boot, kernel[n := place])
  {
    BitsAre(0);
    hide IsPresent, IsHuge, PteAddr, Child;
    var kernel' := kernel[n := place];
    forall f, i: nat ensures KernelEntryOk(mem, kernel', f, i) {
      assert KernelEntryOk(mem, kernel, f, i);
    }
  }

  /** An entry that leads one level down, or one of a last table, keeps them. */
  lemma KernelFilled(mem: Memory, boot: nat, kernel: Places, f: nat, i: nat, e: nat)
    requires KernelTree(mem, boot, kernel) && f in kernel && i < |mem[f]|
    requires !kernel[f].Pt? ==> PteAddr(e) in kernel && kernel[PteAddr(e)] == Child(kernel[f], i)
    ensures KernelTree(Filled(mem, f, i, e), boot, kernel)
  {
    hide IsPresent, IsHuge, PteAddr, Child;
    var mem' := Filled(mem, f, i, e);
    forall g, j: nat ensures KernelEntryOk(mem', kernel, g, j) {
      assert KernelEntryOk(mem, kernel, g, j);
    }
  }

  /** One step of the walk from a table of the kernel on the address's path. */
  lemma KernelStep(mem: Memory, boot: nat, kernel: Places, f: nat, v: nat, level: nat)
    requires KernelTree(mem, boot, kernel) && 0 < level < 3 && f in kernel && kernel[f] == NodeOf(v, level)
    ensures var e := Entry(mem, f, Index(v, level));
      IsPresent(e) && !IsHuge(e) ==> PteAddr(e) in kernel && kernel[PteAddr(e)] == NodeOf(v, level - 1)
  {
    hide IsPresent, IsHuge, PteAddr, Index, Entry;
    assert KernelEntryOk(mem, kernel, f, Index(v, level));
  }

  lemma {:induction false} KernelSameDescend(mem: Memory, mem': Memory, boot: nat, kernel: Places, g: nat, v: nat,
                                             level: nat)
    requires KernelTree(mem, boot, kernel) && KernelSame(mem, mem', kernel)
    requires level < 3 && g in kernel && kernel[g] == NodeOf(v, level)
    ensures Descend(mem', g, v, level) == Descend(mem, g, v, level)
    decreases level
  {
    hide IsPresent, IsHuge, PteAddr, IsUser, IsWritable, Index, KernelTree;
    if level > 0 {
      KernelStep(mem, boot, kernel, g, v, level);
      var e := Entry(mem, g, Index(v, level));
      if IsPresent(e) && !IsHuge(e) { KernelSameDescend(mem, mem', boot, kernel, PteAddr(e), v, level - 1); }
    }
  }

  /** Linking an empty table below a table of the kernel changes no translation. */
  lemma {:induction false} KernelLinkDescend(mem: Memory, boot: nat, kernel: Places, f: nat, i: nat, n: nat, g: nat,
                                             v: nat, level: nat)
    requires KernelTree(mem, boot, kernel) && f in kernel && !kernel[f].Pt? && f in mem && i < |mem[f]|
    requires !IsPresent(Entry(mem, f, i)) && n !in mem && IsFrame(n)
    requires level < 3 && g in kernel && kernel[g] == NodeOf(v, level)
    ensures Descend(Linked(mem, f, i, n), g, v, level) == Descend(mem, g, v, level)
    decreases level
  {
    hide IsPresent, IsHuge, PteAddr, IsUser, IsWritable, Index, KernelTree, Entry, Linked;
    LinkEntries(mem, f, i, n, g, Index(v, level));
    if level > 0 {
      KernelStep(mem, boot, kernel, g, v, level);
      var e := Entry(mem, g, Index(v, level));
      if IsPresent(e) && !IsHuge(e) {
        KernelLinkDescend(mem, boot, kernel, f, i, n, PteAddr(e), v, level - 1);
      } else if g == f && Index(v, level) == i {
        PteFields(n, LINK);
        FreshDescend(mem, f, i, n, v, level - 1);
      }
    }
  }

  /** Filling an entry of a last table changes no translation but that of its own page. */
  lemma {:induction false} KernelFillDescend(mem: Memory, boot: nat, kernel: Places, f: nat, i: nat, e: nat, g: nat,
                                             v: nat, level: nat)
    requires KernelTree(mem, boot, kernel) && f in kernel && kernel[f].Pt? && f in mem && i < |mem[f]|
    requires level < 3 && g in kernel && kernel[g] == NodeOf(v, level)
    requires !(kernel[f] == NodeOf(v, 0) && Index(v, 0) == i)
    ensures Descend(Filled(mem, f, i, e), g, v, level) == Descend(mem, g, v, level)
    decreases level
  {
    hide IsPresent, IsHuge, PteAddr, IsUser, IsWritable, Index, KernelTree;
    if level > 0 {
      KernelStep(mem, boot, kernel, g, v, level);
      var e' := Entry(mem, g, Index(v, level));
      if IsPresent(e') && !IsHuge(e') {
        KernelFillDescend(mem, boot, kernel, f, i, e, PteAddr(e'), v, level - 1);
      }
    }
  }

  predicate Leads(e: nat, f: nat) {
    IsPresent(e) && !IsHuge(e) && PteAddr(e) == f
  }

  /** The entries for `v` in the boot table and the directory below it lead to `pt`. */
  predicate LeadTo(mem: Memory, boot: nat, pdt: nat, pt: nat, v: nat) {
    Leads(Entry(mem, boot, Index(v, 2)), pdt) && Leads(Entry(mem, pdt, Index(v, 1)), pt)
  }

  /** What the walk finds below the boot table once the entries lead to `pt`. */
  lemma LeafBelow(mem: Memory, boot: nat, pdt: nat, pt: nat, v: nat)
    requires LeadTo(mem, boot, pdt, pt, v)
    ensures var t, e := Descend(mem, boot, v, 2), Entry(mem, pt, Index(v, 0));
      if IsPresent(e) then t.Some? && t.value.frame == PteAddr(e) && t.value.size == Span(0) else t == None
  {
    hide IsPresent, IsHuge, PteAddr, IsUser, IsWritable, Index, Entry;
    assert Descend(mem, pdt, v, 1) == Under(Entry(mem, pdt, Index(v, 1)), Descend(mem, pt, v, 0));
  }

  /** The boot table or the directory below it lacks the table for `v`. */
  predicate LacksTable(mem: Memory, boot: nat, v: nat) {
    var e := Entry(mem, boot, Index(v, 2));
    !IsPresent(e) || (!IsHuge(e) && !IsPresent(Entry(mem, PteAddr(e), Index(v, 1))))
  }

  /** The kernel's slot is the boot table without user or write access. */
  function Guarded(t: Option<Translation>): Option<Translation> {
    match t
    case None => None
    case Some(t) => Some(t.(user := false, writable := false))
  }

  lemma KernelWalk(mem: Memory, root: nat, boot: nat, at: Places, v: nat)
    requires Tree(mem, root, boot, at) && IsFrame(boot) && Index(v, 3) == KERNEL_SLOT
    ensures Walk(mem, root, v) == Guarded(Descend(mem, boot, v, 2))
  {
    hide Index, Tree, IsPresent, IsHuge, PteAddr, IsUser, IsWritable, Entry;
    KernelSlot(mem, root, boot, at);
    PteFields(boot, PTE_V);
    assert Walk(mem, root, v) == Under(boot + PTE_V, Descend(mem, boot, v, 2));
  }

  /** All spaces translate the kernel's slot alike. */
  lemma KernelIsShared(mem: Memory, root: nat, at: Places, root': nat, at': Places, boot: nat, v: nat)
    requires Tree(mem, root, boot, at) && Tree(mem, root', boot, at') && IsFrame(boot) && Index(v, 3) == KERNEL_SLOT
    ensures Walk(mem, root, v) == Walk(mem, root', v)
  {
    hide Tree, Walk, Index;
    KernelWalk(mem, root, boot, at, v);
    KernelWalk(mem, root', boot, at', v);
  }

  /** Outside the kernel's slot there are only small pages. */
  lemma {:induction false} SmallPages(mem: Memory, root: nat, boot: nat, at: Places, g: nat, v: nat, level: nat)
    requires Tree(mem, root, boot, at)
    requires level < 4 && g in at && at[g] == NodeOf(v, level) && Index(v, 3) != KERNEL_SLOT
    ensures Descend(mem, g, v, level).Some? ==> Descend(mem, g, v, level).value.size == Span(0)
    decreases level
  {
    hide IsPresent, IsHuge, PteAddr, IsUser, IsWritable, Index, Tree, Entry;
    if level > 0 {
      DescendStep(mem, root, boot, at, g, v, level);
      var e := Entry(mem, g, Index(v, level));
      if e != 0 { SmallPages(mem, root, boot, at, e - LINK, v, level - 1); }
    }
  }

  // -- which addresses share a page

  const PAGES: nat := 0x10_0000_0000  // 2^36: the processor translates bits 12 to 47 of an address

  function PageOf(v: nat): nat {
    v / MIN_PAGE_SIZE % PAGES
  }

  /** The four indices are the digits of the page number. */
  lemma Digits(v: nat)
    ensures PageOf(v) == Index(v, 0) + 512 * Index(v, 1) + 0x4_0000 * Index(v, 2) + 0x800_0000 * Index(v, 3)
  {
    hide And;
    IndexIsMod(v, 0);
    IndexIsMod(v, 1);
    IndexIsMod(v, 2);
    IndexIsMod(v, 3);
    DivDiv(v, 4096, 512);
    DivDiv(v, 4096, 0x4_0000);
    DivDiv(v, 4096, 0x800_0000);
    FourDigits(v / 4096);
  }

  lemma FourDigits(n: nat)
    ensures n % PAGES ==
            n % 512 + 512 * (n / 512 % 512) + 0x4_0000 * (n / 0x4_0000 % 512) + 0x800_0000 * (n / 0x800_0000 % 512)
  {
    DivDiv(n, 512, 512);
    DivDiv(n, 0x4_0000, 512);
    DivDiv(n, 0x800_0000, 512);
  }

  /** Two addresses have the same leaf entry exactly when they are on the same page. */
  lemma SamePage(v: nat, w: nat)
    ensures NodeOf(v, 0) == NodeOf(w, 0) && Index(v, 0) == Index(w, 0) <==> PageOf(v) == PageOf(w)
  {
    hide Index, PageOf;
    Digits(v);
    Digits(w);
    IndexBound(v, 0);
    IndexBound(v, 1);
    IndexBound(v, 2);
    IndexBound(v, 3);
    IndexBound(w, 0);
    IndexBound(w, 1);
    IndexBound(w, 2);
    IndexBound(w, 3);
    DigitsUnique(Index(v, 0), Index(v, 1), Index(v, 2), Index(v, 3),
                 Index(w, 0), Index(w, 1), Index(w, 2), Index(w, 3));
  }

  lemma DigitUnique(a: nat, x: nat, b: nat, y: nat)
    requires a < 512 && b < 512
    ensures a + 512 * x == b + 512 * y <==> a == b && x == y
  {
  }

  lemma DigitsUnique(a0: nat, a1: nat, a2: nat, a3: nat, b0: nat, b1: nat, b2: nat, b3: nat)
    requires a0 < 512 && a1 < 512 && a2 < 512 && a3 < 512 && b0 < 512 && b1 < 512 && b2 < 512 && b3 < 512
    ensures a0 + 512 * a1 + 0x4_0000 * a2 + 0x800_0000 * a3 == b0 + 512 * b1 + 0x4_0000 * b2 + 0x800_0000 * b3 <==>
            a0 == b0 && a1 == b1 && a2 == b2 && a3 == b3
  {
    DigitUnique(a0, a1 + 512 * (a2 + 512 * a3), b0, b1 + 512 * (b2 + 512 * b3));
    DigitUnique(a1, a2 + 512 * a3, b1, b2 + 512 * b3);
    DigitUnique(a2, a3, b2, b3);
  }

  lemma UserPages(v: nat)
    ensures v < USER_END ==> Index(v, 3) != KERNEL_SLOT && PageOf(v) == v / MIN_PAGE_SIZE
  {
    hide And;
    IndexIsMod(v, 3);
  }

  /** Addresses on the same page translate alike. */
  lemma WalkByPage(mem: Memory, root: nat, v: nat, w: nat)
    requires PageOf(v) == PageOf(w)
    ensures Walk(mem, root, v) == Walk(mem, root, w)
  {
    hide Index, Descend, PageOf;
    SamePage(v, w);
    DescendByIndex(mem, root, v, w, 3);
  }

  lemma {:induction false} DescendByIndex(mem: Memory, f: nat, v: nat, w: nat, level: nat)
    requires level < 4 && NodeOf(v, 0) == NodeOf(w, 0) && Index(v, 0) == Index(w, 0)
    ensures Descend(mem, f, v, level) == Descend(mem, f, w, level)
    decreases level
  {
    hide Index, IsPresent, IsHuge, PteAddr, IsUser, IsWritable, Entry;
    if level > 0 { DescendByIndex(mem, PteAddr(Entry(mem, f, Index(v, level))), v, w, level - 1); }
  }
}
