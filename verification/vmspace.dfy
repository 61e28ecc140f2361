/** `VmSpace`: a sorted list of mappings that agrees with the page tables, and reads that follow it. */
module VmSpaces {
  import opened Prelude
  import opened Alignment
  import opened Paging
  import opened PageAllocation
  import opened PageTree
  import opened Machinery
  import opened PageTables
  import opened VmAreas

  datatype Mapping = Mapping(start: nat, end: nat, area: VmArea, attrs: nat)

  predicate OverlapsWith(mapping: Mapping, start: nat, end: nat) {
    start < mapping.end && mapping.start < end
  }

  predicate AnyOverlaps(mappings: seq<Mapping>, start: nat, end: nat) {
    exists i :: 0 <= i < |mappings| && OverlapsWith(mappings[i], start, end)
  }

  /** A mapping is non-empty and page-aligned. */
  predicate WellPlaced(n: Mapping) {
    n.start < n.end < WORDS && n.start % MIN_PAGE_SIZE == 0 && n.end % MIN_PAGE_SIZE == 0
  }

  /** Proper mappings in ascending order, without overlap. */
  predicate Sorted(mappings: seq<Mapping>) {
    && (forall i :: 0 <= i < |mappings| ==> WellPlaced(mappings[i]))
    && (forall i, j :: 0 <= i < j < |mappings| ==> mappings[i].end <= mappings[j].start)
  }

  /** `partition_point(|mapping| mapping.start < s)`. */
  function PartitionPoint(mappings: seq<Mapping>, s: nat): (k: nat)
    ensures k <= |mappings|
    ensures forall i :: 0 <= i < k ==> mappings[i].start < s
    ensures k < |mappings| ==> mappings[k].start >= s
  {
    if mappings == [] || mappings[0].start >= s then 0 else 1 + PartitionPoint(mappings[1..], s)
  }

  function Inserted(mappings: seq<Mapping>, n: Mapping): seq<Mapping> {
    var k := PartitionPoint(mappings, n.start);
    mappings[..k] + [n] + mappings[k..]
  }

  lemma InsertKeepsSorted(mappings: seq<Mapping>, n: Mapping)
    requires Sorted(mappings) && WellPlaced(n)
    requires forall i :: 0 <= i < |mappings| ==> !OverlapsWith(mappings[i], n.start, n.end)
    ensures Sorted(Inserted(mappings, n))
  {
    hide PartitionPoint;
    var k, t := PartitionPoint(mappings, n.start), Inserted(mappings, n);
    forall i | 0 <= i < |mappings|
      ensures if i < k then mappings[i].end <= n.start else n.end <= mappings[i].start
    {
      ApartFrom(mappings, n, k, i);
    }
    forall i | 0 <= i < |t| ensures WellPlaced(t[i]) {
      assert t[i] == if i < k then mappings[i] else if i == k then n else mappings[i - 1];
    }
    forall i, j | 0 <= i < j < |t| ensures t[i].end <= t[j].start {
      assert t[i] == if i < k then mappings[i] else if i == k then n else mappings[i - 1];
      assert t[j] == if j < k then mappings[j] else if j == k then n else mappings[j - 1];
    }
  }

  /** The mappings before the place of insertion end before the new one; those after start after it. */
  lemma ApartFrom(mappings: seq<Mapping>, n: Mapping, k: nat, i: nat)
    requires Sorted(mappings) && n.start < n.end && i < |mappings| && k == PartitionPoint(mappings, n.start)
    requires !OverlapsWith(mappings[i], n.start, n.end)
    ensures if i < k then mappings[i].end <= n.start else n.end <= mappings[i].start
  {
    hide PartitionPoint;
    assert WellPlaced(mappings[i]);
    if k <= i { assert WellPlaced(mappings[k]); }
  }

  // -- pages of a mapping

  /** The pages from `uaddr` on translate to the frames of the area. */
  ghost predicate Laid(mem: Memory, root: nat, uaddr: nat, pages: Pages, attrs: nat, n: nat)
    requires n <= |pages|
  {
    forall p: nat :: p < n ==> LaidPage(mem, root, uaddr, pages, attrs, p)
  }

  predicate LaidPage(mem: Memory, root: nat, uaddr: nat, pages: Pages, attrs: nat, p: nat)
    requires p < |pages|
  {
    var u := uaddr + MIN_PAGE_SIZE * p;
    pages[p].Some? && Walk(mem, root, u) == Entered(u, pages[p].value, attrs)
  }

  /** `n` pages from `uaddr` on were unmapped; every other address translates as before. */
  ghost predicate LaidOnly(mem: Memory, mem': Memory, root: nat, uaddr: nat, n: nat) {
    && (forall p: nat :: p < n ==> WasFree(mem, root, uaddr, p))
    && (forall v: nat :: Walk(mem', root, v) != Walk(mem, root, v) ==> OnPages(v, uaddr, n))
  }

  predicate WasFree(mem: Memory, root: nat, uaddr: nat, p: nat) {
    Walk(mem, root, uaddr + MIN_PAGE_SIZE * p) == None
  }

  /** Address `v` is on one of `n` pages from `uaddr` on. */
  predicate OnPages(v: nat, uaddr: nat, n: nat) {
    exists p: nat :: p < n && SharesPage(v, uaddr, p)
  }

  predicate SharesPage(v: nat, uaddr: nat, p: nat) {
    PageOf(v) == PageOf(uaddr + MIN_PAGE_SIZE * p)
  }

  /** Translations stay. */
  lemma WalkStays(mem: Memory, mem': Memory, root: nat, v: nat)
    requires EntriesGrow(mem, mem')
    ensures Walk(mem, root, v).Some? ==> Walk(mem', root, v) == Walk(mem, root, v)
  {
    hide Descend, EntriesGrow;
    if Walk(mem, root, v).Some? { TranslationStays(mem, mem', root, v, 3); }
  }

  lemma LaidStays(mem: Memory, mem': Memory, root: nat, uaddr: nat, pages: Pages, pages': Pages, attrs: nat, n: nat)
    requires n <= |pages| == |pages'| && Laid(mem, root, uaddr, pages, attrs, n) && EntriesGrow(mem, mem')
    requires forall p :: 0 <= p < n && pages[p].Some? ==> pages'[p] == pages[p]
    ensures Laid(mem', root, uaddr, pages', attrs, n)
  {
    hide Walk, EntriesGrow, Index;
    forall p: nat | p < n ensures LaidPage(mem', root, uaddr, pages', attrs, p) {
      assert LaidPage(mem, root, uaddr, pages, attrs, p);
      WalkStays(mem, mem', root, uaddr + MIN_PAGE_SIZE * p);
    }
  }

  /** A laid page is small. */
  lemma LaidIsSmall(mem: Memory, root: nat, uaddr: nat, pages: Pages, attrs: nat, n: nat, v: nat)
    requires n <= |pages| && Laid(mem, root, uaddr, pages, attrs, n) && OnPages(v, uaddr, n)
    ensures Walk(mem, root, v).Some? && Walk(mem, root, v).value.size == MIN_PAGE_SIZE
  {
    hide Walk, PageOf, Index;
    var p: nat :| p < n && SharesPage(v, uaddr, p);
    assert LaidPage(mem, root, uaddr, pages, attrs, p);
    WalkByPage(mem, root, v, uaddr + MIN_PAGE_SIZE * p);
  }

  /** One more page. */
  lemma LayPage(mem0: Memory, mem: Memory, mem': Memory, regions': seq<Bump>, root: nat, uaddr: nat, pages: Pages,
                attrs: nat, n: nat, r: Result<()>)
    requires n < |pages| && pages[n].Some? && EntriesGrow(mem0, mem) && EntriesGrow(mem, mem')
    requires Laid(mem, root, uaddr, pages, attrs, n) && LaidOnly(mem0, mem, root, uaddr, n)
    requires Maps(mem, mem', regions', root, uaddr + MIN_PAGE_SIZE * n, pages[n].value, attrs, r)
    ensures var n' := if r.Ok? then n + 1 else n;
      Laid(mem', root, uaddr, pages, attrs, n') && LaidOnly(mem0, mem', root, uaddr, n')
  {
    hide Index, Walk, PageOf, NoRoom, EntriesGrow, Entered;
    var u := uaddr + MIN_PAGE_SIZE * n;
    LaidStays(mem, mem', root, uaddr, pages, pages, attrs, n);
    WalkStays(mem0, mem, root, u);
    forall v: nat | Walk(mem', root, v) != Walk(mem0, root, v)
      ensures OnPages(v, uaddr, if r.Ok? then n + 1 else n)
    {
      if Walk(mem', root, v) != Walk(mem, root, v) {
        assert SharesPage(v, uaddr, n);
      } else {
        var p: nat :| p < n && SharesPage(v, uaddr, p);
      }
    }
  }

  /** Why laying pages stopped at `u`, the page after `n` others. */
  ghost predicate StopsAt(mem0: Memory, regions': seq<Bump>, root: nat, uaddr: nat, n: nat, error: ErrorCode) {
    var u := uaddr + MIN_PAGE_SIZE * n;
    match error
    case AlreadyExists => Walk(mem0, root, u).Some? || OnPages(u, uaddr, n)
    case OutOfMemory => NoRoom(regions', MIN_PAGE_SIZE)
    case NotAllowed => u >= KERNEL_BASE
    case Unsupported => Walk(mem0, root, u).Some? && Walk(mem0, root, u).value.size != MIN_PAGE_SIZE
    case _ => false
  }

  lemma StopErrors(mem0: Memory, regions': seq<Bump>, root: nat, uaddr: nat, n: nat, error: ErrorCode)
    requires StopsAt(mem0, regions', root, uaddr, n, error)
    ensures error == AlreadyExists || error == OutOfMemory || error == NotAllowed || error == Unsupported
  {
  }

  lemma StopsWithoutRoom(mem0: Memory, regions': seq<Bump>, root: nat, uaddr: nat, n: nat)
    requires NoRoom(regions', MIN_PAGE_SIZE)
    ensures StopsAt(mem0, regions', root, uaddr, n, OutOfMemory)
  {
  }

  /** One more page, or why not. */
  lemma PageTried(start: Frames, before: Frames, after: Frames, who: set<object>, regions': seq<Bump>, root: nat,
                  uaddr: nat, pages: Pages, attrs: nat, n: nat, r: Result<()>)
    requires n < |pages| && pages[n].Some? && Extends(start, before, who) && Extends(before, after, who)
    requires Laid(before.tables, root, uaddr, pages, attrs, n)
    requires LaidOnly(start.tables, before.tables, root, uaddr, n)
    requires var u := uaddr + MIN_PAGE_SIZE * n;
      if u < KERNEL_BASE then Maps(before.tables, after.tables, regions', root, u, pages[n].value, attrs, r)
      else r == Err(NotAllowed) && after == before
    ensures var n' := if r.Ok? then n + 1 else n;
      && Laid(after.tables, root, uaddr, pages, attrs, n') && LaidOnly(start.tables, after.tables, root, uaddr, n')
      && (r.Err? ==> StopsAt(start.tables, regions', root, uaddr, n, r.error))
  {
    hide Index, Walk, PageOf, NoRoom, EntriesGrow, Laid, LaidPage, WasFree, SharesPage, OnPages, Entered;
    var u := uaddr + MIN_PAGE_SIZE * n;
    if u < KERNEL_BASE {
      LayPage(start.tables, before.tables, after.tables, regions', root, uaddr, pages, attrs, n, r);
      if OnPages(u, uaddr, n) { LaidIsSmall(before.tables, root, uaddr, pages, attrs, n, u); }
    }
  }

  /** In user space nothing but a page mapped before, or a lack of memory, stops it. */
  lemma StopsInUserSpace(mem0: Memory, data: Data, regions': seq<Bump>, root: nat, uaddr: nat, n: nat,
                         error: ErrorCode)
    requires StopsAt(mem0, regions', root, uaddr, n, error) && uaddr + MIN_PAGE_SIZE * n < USER_END
    requires Grounded(mem0, data, root)
    ensures error == AlreadyExists || error == OutOfMemory
    ensures error == AlreadyExists ==> Walk(mem0, root, uaddr + MIN_PAGE_SIZE * n).Some?
  {
    hide Index, Walk, PageOf, NoRoom;
    UserPages(uaddr + MIN_PAGE_SIZE * n);
    var u := uaddr + MIN_PAGE_SIZE * n;
    forall p: nat | p < n ensures !SharesPage(u, uaddr, p) {
      OtherUserPage(uaddr, n, p);
    }
  }

  lemma OtherUserPage(uaddr: nat, n: nat, p: nat)
    requires p < n && uaddr + MIN_PAGE_SIZE * n < USER_END
    ensures !SharesPage(uaddr + MIN_PAGE_SIZE * n, uaddr, p)
  {
    hide PageOf, Index;
    UserPages(uaddr + MIN_PAGE_SIZE * n);
    UserPages(uaddr + MIN_PAGE_SIZE * p);
    assert (uaddr + MIN_PAGE_SIZE * n) / MIN_PAGE_SIZE == uaddr / MIN_PAGE_SIZE + n;
    assert (uaddr + MIN_PAGE_SIZE * p) / MIN_PAGE_SIZE == uaddr / MIN_PAGE_SIZE + p;
  }

  /** An area is as it was when its page list is and its frames are. */
  twostate lemma AreaKept(a: VmArea)
    requires old(a.Valid()) && a.m.Valid() && a.pages == old(a.pages)
    requires Kept(old(a.m.owner), a.m.owner) && Grows(old(a.m.data), a.m.data)
    ensures a.Valid() && a.Contents() == old(a.Contents())
  {
    hide Machine.Valid, Flat;
    AreasApart(old(a.m.data), old(a.m.owner), a.m.data, a.m.owner, a.pages, a.m, a);
  }

  // -- what user code sees

  predicate Canonical(v: nat) {
    v < USER_END || KERNEL_BASE <= v < WORDS
  }

  /** The byte that a user-mode load of `v` gives, if it does not fault. */
  function Load(mem: Memory, data: Data, root: nat, v: nat): Option<Byte> {
    match Walk(mem, root, v)
    case None => None
    case Some(t) =>
      if Canonical(v) && t.user && t.size == MIN_PAGE_SIZE && t.frame in data && |data[t.frame]| == MIN_PAGE_SIZE
      then Some(data[t.frame][v % MIN_PAGE_SIZE]) else None
  }

  /** Every address of a laid page translates to its frame. */
  lemma WalkLaid(mem: Memory, root: nat, start: nat, pages: Pages, attrs: nat, v: nat)
    requires Laid(mem, root, start, pages, attrs, |pages|)
    requires start % MIN_PAGE_SIZE == 0 && start <= v < start + MIN_PAGE_SIZE * |pages| && v < USER_END
    ensures var p, r := (v - start) / MIN_PAGE_SIZE, (v - start) % MIN_PAGE_SIZE;
      && p < |pages| && pages[p].Some? && v % MIN_PAGE_SIZE == r
      && Walk(mem, root, v) == Mapped(pages[p].value, attrs)
  {
    hide Walk, PageOf, Index;
    var p, r := (v - start) / MIN_PAGE_SIZE, (v - start) % MIN_PAGE_SIZE;
    var w, q := start + MIN_PAGE_SIZE * p, start / MIN_PAGE_SIZE;
    assert LaidPage(mem, root, start, pages, attrs, p);
    assert start == MIN_PAGE_SIZE * q;
    ModUnique(v, MIN_PAGE_SIZE, q + p, r);
    ModUnique(w, MIN_PAGE_SIZE, q + p, 0);
    UserPages(v);
    UserPages(w);
    WalkByPage(mem, root, v, w);
  }

  /** Loads from laid pages give the bytes of the area. */
  lemma LoadsLaid(mem: Memory, data: Data, root: nat, start: nat, pages: Pages, attrs: nat, v: nat)
    requires Filed(data, pages) && Laid(mem, root, start, pages, attrs, |pages|)
    requires start % MIN_PAGE_SIZE == 0 && start <= v < start + MIN_PAGE_SIZE * |pages| && v < USER_END
    ensures Load(mem, data, root, v) == Some(Flat(data, pages)[v - start])
  {
    hide Walk, Laid;
    WalkLaid(mem, root, start, pages, attrs, v);
  }

  /** User code has access to `v`, and can write there exactly if `writable`. */
  predicate Grants(mem: Memory, root: nat, v: nat, writable: bool) {
    var t := Walk(mem, root, v);
    t.Some? && t.value.user && (t.value.writable <==> writable)
  }

  /** The same of every address of a range that is in user space. */
  ghost predicate AllGranted(mem: Memory, root: nat, start: nat, end: nat, writable: bool) {
    forall v: nat :: start <= v < end && v < USER_END ==> Grants(mem, root, v, writable)
  }

  lemma GrantsStay(mem: Memory, mem': Memory, root: nat, start: nat, end: nat, writable: bool)
    requires AllGranted(mem, root, start, end, writable) && EntriesGrow(mem, mem')
    ensures AllGranted(mem', root, start, end, writable)
  {
    hide Walk, EntriesGrow;
    forall v: nat | start <= v < end && v < USER_END ensures Grants(mem', root, v, writable) {
      assert Grants(mem, root, v, writable);
      WalkStays(mem, mem', root, v);
    }
  }

  /** User code can load nothing through the kernel's slot, whatever is mapped there. */
  lemma KernelSlotFaults(mem: Memory, data: Data, root: nat, boot: nat, at: Places, v: nat)
    requires Tree(mem, root, boot, at) && IsFrame(boot) && Index(v, 3) == KERNEL_SLOT
    ensures Load(mem, data, root, v) == None
  {
    hide Index, Tree, IsPresent, IsHuge, PteAddr, IsUser, IsWritable, Entry;
    KernelSlot(mem, root, boot, at);
    PteFields(boot, PTE_V);
  }

  /** Whatever user code could load, it still can. */
  ghost predicate LoadsKept(mem: Memory, data: Data, mem': Memory, data': Data, root: nat) {
    forall v: nat :: Load(mem, data, root, v).Some? ==> Load(mem', data', root, v) == Load(mem, data, root, v)
  }

  /** Every load gives what it gave, or faults as it did. */
  ghost predicate SameLoads(mem: Memory, data: Data, mem': Memory, data': Data, root: nat) {
    forall v: nat :: Load(mem', data', root, v) == Load(mem, data, root, v)
  }

  lemma ExtendingKeepsLoads(a: Frames, b: Frames, who: set<object>, root: nat)
    requires Extends(a, b, who)
    ensures LoadsKept(a.tables, a.data, b.tables, b.data, root)
  {
    hide Walk, EntriesGrow;
    forall v: nat | Load(a.tables, a.data, root, v).Some?
      ensures Load(b.tables, b.data, root, v) == Load(a.tables, a.data, root, v)
    {
      WalkStays(a.tables, b.tables, root, v);
    }
  }

  /** Whatever is mapped outside the kernel's slot is a page of user data. */
  ghost predicate Grounded(mem: Memory, data: Data, root: nat) {
    forall v: nat :: Index(v, 3) != KERNEL_SLOT && Walk(mem, root, v).Some? ==>
                       IsUserPage(Walk(mem, root, v).value, data)
  }

  predicate IsUserPage(t: Translation, data: Data) {
    t.user && t.size == MIN_PAGE_SIZE && t.frame in data
  }

  lemma LayingIsGrounded(mem: Memory, data: Data, mem': Memory, data': Data, root: nat, uaddr: nat, pages: Pages,
                         attrs: nat, n: nat)
    requires Grounded(mem, data, root) && Grows(data, data') && n <= |pages| && Filed(data', pages)
    requires Laid(mem', root, uaddr, pages, attrs, n) && LaidOnly(mem, mem', root, uaddr, n)
    ensures Grounded(mem', data', root)
  {
    hide Index, Walk, PageOf;
    forall v: nat | Index(v, 3) != KERNEL_SLOT && Walk(mem', root, v).Some?
      ensures IsUserPage(Walk(mem', root, v).value, data')
    {
      if Walk(mem', root, v) != Walk(mem, root, v) {
        var p: nat :| p < n && SharesPage(v, uaddr, p);
        assert LaidPage(mem', root, uaddr, pages, attrs, p);
        SameSlot(v, uaddr + MIN_PAGE_SIZE * p);
        WalkByPage(mem', root, v, uaddr + MIN_PAGE_SIZE * p);
      }
    }
  }

  // -- exactly the pages that are mapped

  function PageCount(n: Mapping): nat {
    if n.start <= n.end then (n.end - n.start) / MIN_PAGE_SIZE else 0
  }

  /** Address `v` shares its page, as the processor counts pages, with one of a mapping. */
  predicate Shares(mappings: seq<Mapping>, v: nat) {
    exists i :: 0 <= i < |mappings| && OnPages(v, mappings[i].start, PageCount(mappings[i]))
  }

  /** Outside the kernel's slot, the pages of the mappings are mapped, and those in `left`, and no others. */
  ghost predicate Exact(mem: Memory, root: nat, mappings: seq<Mapping>, left: set<nat>) {
    forall v: nat :: Index(v, 3) != KERNEL_SLOT ==>
      (Walk(mem, root, v).Some? <==> Shares(mappings, v) || PageOf(v) in left)
  }

  /** The same with `n` pages from `uaddr` on besides. */
  ghost predicate ExactWith(mem: Memory, root: nat, mappings: seq<Mapping>, left: set<nat>, uaddr: nat, n: nat) {
    forall v: nat :: Index(v, 3) != KERNEL_SLOT ==>
      (Walk(mem, root, v).Some? <==> Shares(mappings, v) || PageOf(v) in left || OnPages(v, uaddr, n))
  }

  lemma LayingIsExact(mem: Memory, mem': Memory, root: nat, mappings: seq<Mapping>, left: set<nat>, uaddr: nat,
                      pages: Pages, attrs: nat, n: nat)
    requires Exact(mem, root, mappings, left) && EntriesGrow(mem, mem') && n <= |pages|
    requires Laid(mem', root, uaddr, pages, attrs, n) && LaidOnly(mem, mem', root, uaddr, n)
    ensures ExactWith(mem', root, mappings, left, uaddr, n)
  {
    hide Index, Walk, PageOf, Shares, OnPages, EntriesGrow, LaidPage;
    forall v: nat | Index(v, 3) != KERNEL_SLOT
      ensures Walk(mem', root, v).Some? <==> Shares(mappings, v) || PageOf(v) in left || OnPages(v, uaddr, n)
    {
      WalkStays(mem, mem', root, v);
      if OnPages(v, uaddr, n) { LaidIsSmall(mem', root, uaddr, pages, attrs, n, v); }
    }
  }

  function PagesFrom(uaddr: nat, n: nat): set<nat> {
    set p: nat | p < n :: PageOf(uaddr + MIN_PAGE_SIZE * p)
  }

  lemma OnPagesFrom(v: nat, uaddr: nat, n: nat)
    ensures PageOf(v) in PagesFrom(uaddr, n) <==> OnPages(v, uaddr, n)
  {
    hide PageOf;
    if OnPages(v, uaddr, n) {
      var p: nat :| p < n && SharesPage(v, uaddr, p);
      assert PageOf(uaddr + MIN_PAGE_SIZE * p) in PagesFrom(uaddr, n);
    }
    if PageOf(v) in PagesFrom(uaddr, n) {
      var p: nat :| p < n && PageOf(v) == PageOf(uaddr + MIN_PAGE_SIZE * p);
      assert SharesPage(v, uaddr, p);
    }
  }

  lemma ExactLeft(mem: Memory, root: nat, mappings: seq<Mapping>, left: set<nat>, uaddr: nat, n: nat)
    requires ExactWith(mem, root, mappings, left, uaddr, n)
    ensures Exact(mem, root, mappings, left + PagesFrom(uaddr, n))
  {
    hide Index, Walk, PageOf, Shares, OnPages, PagesFrom;
    forall v: nat | Index(v, 3) != KERNEL_SLOT
      ensures Walk(mem, root, v).Some? <==> Shares(mappings, v) || PageOf(v) in left + PagesFrom(uaddr, n)
    {
      OnPagesFrom(v, uaddr, n);
    }
  }

  lemma ExactInserted(mem: Memory, root: nat, mappings: seq<Mapping>, left: set<nat>, n: Mapping)
    requires ExactWith(mem, root, mappings, left, n.start, PageCount(n))
    ensures Exact(mem, root, Inserted(mappings, n), left)
  {
    hide Index, Walk, PageOf, Shares, OnPages, Inserted;
    forall v: nat | Index(v, 3) != KERNEL_SLOT
      ensures Walk(mem, root, v).Some? <==> Shares(Inserted(mappings, n), v) || PageOf(v) in left
    {
      SharesInserted(mappings, n, v);
    }
  }

  lemma SharesInserted(mappings: seq<Mapping>, n: Mapping, v: nat)
    ensures Shares(Inserted(mappings, n), v) <==> Shares(mappings, v) || OnPages(v, n.start, PageCount(n))
  {
    hide OnPages, PageCount, PartitionPoint;
    var k, t := PartitionPoint(mappings, n.start), Inserted(mappings, n);
    assert t[k] == n;
    forall i | 0 <= i < |mappings| ensures mappings[i] == t[if i < k then i else i + 1] {
    }
    forall i | 0 <= i < |t| ensures t[i] == if i < k then mappings[i] else if i == k then n else mappings[i - 1] {
    }
  }

  lemma SparedExact(mem: Memory, mem': Memory, root: nat, mappings: seq<Mapping>, left: set<nat>)
    requires Exact(mem, root, mappings, left) && SameWalks(mem, mem', root)
    ensures Exact(mem', root, mappings, left)
  {
    hide Walk, Index, PageOf, Shares;
  }

  lemma NoPages(uaddr: nat)
    ensures PagesFrom(uaddr, 0) == {}
  {
  }

  /** An address that a mapping covers shares its page; below 2^48 only such addresses do. */
  lemma CoveredShares(mappings: seq<Mapping>, v: nat)
    requires Sorted(mappings) && v < USER_END
    ensures Covered(mappings, v) ==> Shares(mappings, v)
    ensures Shares(mappings, v) && (forall i :: 0 <= i < |mappings| ==> mappings[i].end <= SPAN) ==>
            Covered(mappings, v)
  {
    hide OnPages, PageCount;
    forall i | 0 <= i < |mappings|
      ensures mappings[i].start <= v < mappings[i].end ==> OnPages(v, mappings[i].start, PageCount(mappings[i]))
      ensures OnPages(v, mappings[i].start, PageCount(mappings[i])) && mappings[i].end <= SPAN ==>
              mappings[i].start <= v < mappings[i].end
    {
      assert WellPlaced(mappings[i]);
      CoveredIsOn(mappings[i], v);
    }
  }

  const SPAN: nat := 0x1_0000_0000_0000  // 2^48: addresses this far apart share a page

  lemma CoveredIsOn(n: Mapping, v: nat)
    requires WellPlaced(n) && v < USER_END
    ensures n.start <= v < n.end ==> OnPages(v, n.start, PageCount(n))
    ensures OnPages(v, n.start, PageCount(n)) && n.end <= SPAN ==> n.start <= v < n.end
  {
    hide PageOf;
    var q, c := n.start / MIN_PAGE_SIZE, PageCount(n);
    assert n.start == MIN_PAGE_SIZE * q && n.end == MIN_PAGE_SIZE * (q + c);
    LowPage(v);
    if n.start <= v < n.end {
      var p: nat := v / MIN_PAGE_SIZE - q;
      LowPage(MIN_PAGE_SIZE * (q + p));
      assert SharesPage(v, n.start, p);
    }
    if OnPages(v, n.start, c) && n.end <= SPAN {
      var p: nat :| p < c && SharesPage(v, n.start, p);
      LowPage(MIN_PAGE_SIZE * (q + p));
    }
  }

  lemma LowPage(v: nat)
    ensures v < SPAN ==> PageOf(v) == v / MIN_PAGE_SIZE
  {
  }

  /** A mapping from 2^48 on makes loads at address 0 succeed, although no mapping covers it. */
  lemma HighMappingShares(n: Mapping)
    requires n.start == SPAN && n.end == SPAN + MIN_PAGE_SIZE
    ensures Shares([n], 0) && !Covered([n], 0)
  {
    assert SharesPage(0, n.start, 0);
    assert OnPages(0, [n][0].start, PageCount([n][0]));
  }

  lemma SparedLoads(a: Frames, b: Frames, root: nat, boot: nat, at: Places)
    requires Tree(a.tables, root, boot, at) && Tree(b.tables, root, boot, at) && IsFrame(boot)
    requires Grounded(a.tables, a.data, root) && SameWalks(a.tables, b.tables, root) && Grows(a.data, b.data)
    ensures SameLoads(a.tables, a.data, b.tables, b.data, root) && Grounded(b.tables, b.data, root)
  {
    hide Tree, Walk, Index;
    forall v: nat ensures Load(b.tables, b.data, root, v) == Load(a.tables, a.data, root, v) {
      if Index(v, 3) == KERNEL_SLOT {
        KernelSlotFaults(a.tables, a.data, root, boot, at, v);
        KernelSlotFaults(b.tables, b.data, root, boot, at, v);
      }
    }
  }

  predicate Covered(mappings: seq<Mapping>, v: nat) {
    exists i :: 0 <= i < |mappings| && mappings[i].start <= v < mappings[i].end
  }

  predicate AllCovered(mappings: seq<Mapping>, lo: nat, hi: nat) {
    forall v :: lo <= v < hi ==> Covered(mappings, v)
  }

  /** A mapping starts after `v`. */
  predicate More(mappings: seq<Mapping>, v: nat) {
    exists i :: 0 <= i < |mappings| && v < mappings[i].start
  }

  lemma CoveredBy(mappings: seq<Mapping>, i: nat, uaddr: nat, at: nat, n: nat)
    requires i < |mappings| && mappings[i].start <= uaddr + at && uaddr + at + n <= mappings[i].end
    requires AllCovered(mappings, uaddr, uaddr + at)
    ensures AllCovered(mappings, uaddr, uaddr + at + n)
  {
  }

  lemma NoneCovered(mappings: seq<Mapping>, v: nat)
    ensures AllCovered(mappings, v, v)
  {
  }

  lemma Neighbours(mappings: seq<Mapping>, i: nat)
    requires Sorted(mappings) && 0 < i < |mappings|
    ensures mappings[i - 1].end <= mappings[i].start
  {
  }

  /** Between two neighbours of the list nothing is covered. */
  lemma Gap(mappings: seq<Mapping>, i: nat, v: nat)
    requires Sorted(mappings) && i <= |mappings|
    requires i > 0 ==> mappings[i - 1].end <= v
    requires i < |mappings| ==> v < mappings[i].start
    ensures !Covered(mappings, v) && (More(mappings, v) <==> i < |mappings|)
  {
    forall j | 0 <= j < |mappings| ensures !(mappings[j].start <= v < mappings[j].end)
      && (j < i ==> mappings[j].start <= v) {
      assert WellPlaced(mappings[j]);
      if i > 0 { assert WellPlaced(mappings[i - 1]); }
      if i < |mappings| { assert WellPlaced(mappings[i]); }
    }
  }

  class VmSpace {
    const arch: PageTable
    var mappings: seq<Mapping>
    ghost var left: set<nat>  // pages that calls of `map` entered before they failed

    ghost predicate Backs(n: Mapping)
      reads n.area, n.area.m, n.area.m.pages, arch, arch.m
    {
      && n.area.m == arch.m && n.area.Valid()
      && n.area.len == n.end - n.start && IsAttrs(n.attrs) && None !in n.area.pages
      && Laid(arch.m.tables, arch.root, n.start, n.area.pages, n.attrs, |n.area.pages|)
    }

    ghost function Areas(): set<object>
      reads this
    {
      set i | 0 <= i < |mappings| :: mappings[i].area
    }

    ghost predicate Valid()
      reads this, arch, arch.m, arch.m.pages, Areas(), set i | 0 <= i < |mappings| :: mappings[i].area.m,
            set i | 0 <= i < |mappings| :: mappings[i].area.m.pages
    {
      && arch.Valid()
      && Grounded(arch.m.tables, arch.m.data, arch.root)
      && Exact(arch.m.tables, arch.root, mappings, left)
      && Sorted(mappings)
      && (forall i :: 0 <= i < |mappings| ==> Backs(mappings[i]))
    }

    constructor Over(arch: PageTable)
      requires arch.Valid() && Grounded(arch.m.tables, arch.m.data, arch.root)
      requires Exact(arch.m.tables, arch.root, [], {})
      ensures Valid() && this.arch == arch && mappings == [] && left == {}
    {
      this.arch, mappings, left := arch, [], {};
    }

    static method New(m: Machine) returns (r: Result<VmSpace>)
      requires m.Valid()
      modifies m, m.pages
      ensures m.Valid() && m.data == old(m.data) && m.pages.pools == old(m.pages.pools)
      ensures Extends(old(m.Now()), m.Now(), {})
      ensures r.Err? <==> old(NoRoom(m.pages.regions, MIN_PAGE_SIZE))
      ensures r.Err? ==> r == Err(OutOfMemory)
      ensures r.Ok? ==> fresh(r.value) && fresh(r.value.arch) && r.value.Valid() && r.value.arch.m == m
      ensures r.Ok? ==> r.value.mappings == [] && r.value.left == {}
      ensures r.Ok? ==> forall v: nat :: Load(m.tables, m.data, r.value.arch.root, v) == None
    {
      hide Walk, Tree, Machine.Valid, NoRoom, Index, Extends;
      var arch := PageTable.New(m);
      if arch.Err? { return Err(arch.error); }
      m.Facts();
      var s := new VmSpace.Over(arch.value);
      forall v: nat ensures Load(m.tables, m.data, s.arch.root, v) == None {
        if Index(v, 3) == KERNEL_SLOT {
          KernelSlotFaults(m.tables, m.data, s.arch.root, m.boot, s.arch.at, v);
        }
      }
      r := Ok(s);
    }

    /**
     `map`; `room` says whether the kernel heap can hold one more mapping. `laid` pages were entered in the page
     tables; there is no roll-back, so after an error they stay there although no mapping records them.
     */
    method Map(area: VmArea, uaddr: nat, attrs: nat, room: bool) returns (r: Result<()>, ghost laid: nat)
      requires Valid() && area.Valid() && area.m == arch.m && IsAttrs(attrs)
      modifies this, arch, arch.m, arch.m.pages, area
      ensures Valid() && area.Valid() && area.Contents() == old(area.Contents()) && area.OnlyFillsPages()
      ensures arch.m.pages.pools == old(arch.m.pages.pools)
      ensures Extends(old(arch.m.Now()), arch.m.Now(), {arch.m, arch})
      ensures r == Err(InvalidArg) <==> uaddr % MIN_PAGE_SIZE != 0
      ensures r == Err(OutOfBounds) <==> uaddr % MIN_PAGE_SIZE == 0 && uaddr + area.len >= WORDS
      ensures laid <= |area.pages| && (r.Ok? <==> laid == |area.pages|)
      ensures Laid(arch.m.tables, arch.root, uaddr, area.pages, attrs, laid)
      ensures LaidOnly(old(arch.m.tables), arch.m.tables, arch.root, uaddr, laid)
      ensures uaddr % MIN_PAGE_SIZE == 0 && uaddr + area.len < WORDS ==>
        if AnyOverlaps(old(mappings), uaddr, uaddr + area.len) then r == Err(AlreadyExists) && laid == 0
        else if !room then r == Err(OutOfMemory) && laid == 0
        else r.Err? ==> StopsAt(old(arch.m.tables), arch.m.pages.regions, arch.root, uaddr, laid, r.error)
      ensures uaddr + area.len <= USER_END ==>
        r.Ok? || r == Err(InvalidArg) || r == Err(AlreadyExists) || r == Err(OutOfMemory)
      ensures uaddr + area.len <= USER_END && r == Err(AlreadyExists) ==>
        || AnyOverlaps(old(mappings), uaddr, uaddr + area.len)
        || Walk(old(arch.m.tables), arch.root, uaddr + MIN_PAGE_SIZE * laid).Some?
      ensures mappings == if r.Ok? then Inserted(old(mappings), Mapping(uaddr, uaddr + area.len, area, attrs))
                          else old(mappings)
      ensures left == if r.Ok? then old(left) else old(left) + PagesFrom(uaddr, laid)
    {
      hide Walk, Machine.Valid, NoRoom, Laid, LaidOnly, PartitionPoint, Inserted, VmArea.Valid, VmSpace.Valid;
      hide Extends, StopsAt, PagesFrom;
      laid := 0;
      NoPages(uaddr);
      AreaSize(area);
      LaidNothing(arch.m.tables, arch.root, uaddr, area.pages, attrs);
      ExtendsNothing(arch.m.Now(), {arch.m, arch});
      if uaddr % MIN_PAGE_SIZE != 0 { return Err(InvalidArg), 0; }
      if uaddr + area.len >= WORDS { return Err(OutOfBounds), 0; }
      var end := uaddr + area.len;
      if AnyOverlaps(mappings, uaddr, end) {
        return Err(AlreadyExists), 0;
      }
      if !room { return Err(OutOfMemory), 0; }
      r, laid := MapRange(area, uaddr, attrs);
    }

    /** The loop, and the insertion if it comes to its end. */
    method MapRange(area: VmArea, uaddr: nat, attrs: nat) returns (r: Result<()>, ghost laid: nat)
      requires Valid() && area.Valid() && area.m == arch.m && IsAttrs(attrs)
      requires uaddr % MIN_PAGE_SIZE == 0 && uaddr + area.len < WORDS
      requires !AnyOverlaps(mappings, uaddr, uaddr + area.len)
      modifies this, arch, arch.m, arch.m.pages, area
      ensures Valid() && area.Valid() && area.Contents() == old(area.Contents()) && area.OnlyFillsPages()
      ensures arch.m.pages.pools == old(arch.m.pages.pools)
      ensures Extends(old(arch.m.Now()), arch.m.Now(), {arch.m, arch})
      ensures laid <= |area.pages| && (r.Ok? <==> laid == |area.pages|)
      ensures Laid(arch.m.tables, arch.root, uaddr, area.pages, attrs, laid)
      ensures LaidOnly(old(arch.m.tables), arch.m.tables, arch.root, uaddr, laid)
      ensures r.Err? ==> StopsAt(old(arch.m.tables), arch.m.pages.regions, arch.root, uaddr, laid, r.error)
      ensures r.Err? ==> r.error in {AlreadyExists, OutOfMemory, NotAllowed, Unsupported}
      ensures uaddr + area.len <= USER_END && r.Err? ==> r == Err(AlreadyExists) || r == Err(OutOfMemory)
      ensures uaddr + area.len <= USER_END && r == Err(AlreadyExists) ==>
        Walk(old(arch.m.tables), arch.root, uaddr + MIN_PAGE_SIZE * laid).Some?
      ensures mappings == if r.Ok? then Inserted(old(mappings), Mapping(uaddr, uaddr + area.len, area, attrs))
                          else old(mappings)
      ensures left == if r.Ok? then old(left) else old(left) + PagesFrom(uaddr, laid)
    {
      hide Walk, Tree, Machine.Valid, NoRoom, Filed, Flat, Laid, LaidOnly, PartitionPoint, Inserted, Sorted, PagesFrom;
      hide WellPlaced, VmArea.Valid, PageTable.Valid, VmSpace.Backs, Extends, StopsAt, Grounded, Exact, ExactWith;
      AreaSize(area);
      r, laid := MapPages(area, uaddr, attrs);
      AllBacked(area, uaddr, attrs, laid);
      if r.Err? {
        ExactLeft(arch.m.tables, arch.root, mappings, left, uaddr, laid);
        left := left + PagesFrom(uaddr, laid);
        StopErrors(old(arch.m.tables), arch.m.pages.regions, arch.root, uaddr, laid, r.error);
        if uaddr + area.len <= USER_END {
          StopsInUserSpace(old(arch.m.tables), old(arch.m.data), arch.m.pages.regions, arch.root, uaddr, laid, r.error);
        }
      } else {
        Insert(Mapping(uaddr, uaddr + area.len, area, attrs));
      }
    }

    /** A range whose pages were all entered becomes a mapping. */
    method Insert(n: Mapping)
      requires arch.Valid() && Grounded(arch.m.tables, arch.m.data, arch.root)
      requires Sorted(mappings) && forall i :: 0 <= i < |mappings| ==> Backs(mappings[i])
      requires n.area.m == arch.m && n.area.Valid() && n.area.len == n.end - n.start && IsAttrs(n.attrs)
      requires n.start % MIN_PAGE_SIZE == 0 && n.end < WORDS && !AnyOverlaps(mappings, n.start, n.end)
      requires Laid(arch.m.tables, arch.root, n.start, n.area.pages, n.attrs, |n.area.pages|)
      requires ExactWith(arch.m.tables, arch.root, mappings, left, n.start, |n.area.pages|)
      modifies this`mappings
      ensures Valid() && mappings == Inserted(old(mappings), n)
    {
      hide Walk, Tree, Machine.Valid, Filed, Flat, Laid, PartitionPoint, Inserted, Sorted, WellPlaced, VmArea.Valid;
      hide PageTable.Valid, Grounded, Exact, ExactWith, VmSpace.Backs;
      AreaSize(n.area);
      NewBacks(n);
      InsertKeepsSorted(mappings, n);
      InsertedElements(mappings, n);
      ExactInserted(arch.m.tables, arch.root, mappings, left, n);
      mappings := Inserted(mappings, n);
    }

    /** All mappings stay backed while pages are laid, and the pages laid are the only new ones. */
    twostate lemma AllBacked(area: VmArea, new uaddr: nat, new attrs: nat, new laid: nat)
      requires old(Valid()) && mappings == old(mappings) && left == old(left)
      requires arch.Valid() && area.Valid() && area.m == arch.m
      requires area.OnlyFillsPages() && laid <= |area.pages|
      requires Extends(old(arch.m.Now()), arch.m.Now(), {arch.m, arch})
      requires Laid(arch.m.tables, arch.root, uaddr, area.pages, attrs, laid)
      requires LaidOnly(old(arch.m.tables), arch.m.tables, arch.root, uaddr, laid)
      requires forall i :: 0 <= i < |mappings| ==> mappings[i].area.PagesStay()
      ensures Sorted(mappings) && Grounded(arch.m.tables, arch.m.data, arch.root)
      ensures forall i :: 0 <= i < |mappings| ==> Backs(mappings[i])
      ensures ExactWith(arch.m.tables, arch.root, mappings, left, uaddr, laid)
    {
      hide Walk, Tree, Machine.Valid, NoRoom, Flat, Laid, LaidOnly, Filed, Grounded, EntriesGrow, Exact, ExactWith;
      hide PageTable.Valid;
      LayingIsExact(old(arch.m.tables), arch.m.tables, arch.root, mappings, left, uaddr, area.pages, attrs, laid);
      LayingIsGrounded(old(arch.m.tables), old(arch.m.data), arch.m.tables, arch.m.data, arch.root, uaddr,
                       area.pages, attrs, laid);
      hide VmArea.Valid;
      forall i | 0 <= i < |mappings| ensures Backs(mappings[i]) {
        ghost var n := mappings[i];
        assert old(Backs(n));
        BacksKept(n);
      }
    }

    twostate lemma BacksKept(n: Mapping)
      requires old(Backs(n)) && arch.m.Valid() && n.area.PagesStay()
      requires Kept(old(arch.m.owner), arch.m.owner) && Grows(old(arch.m.data), arch.m.data)
      requires EntriesGrow(old(arch.m.tables), arch.m.tables)
      ensures Backs(n) && n.area.Contents() == old(n.area.Contents())
    {
      hide Walk, Tree, Machine.Valid, Filed, Flat, Laid, EntriesGrow;
      assert n.area.pages == old(n.area.pages);  // a mapped area has all its pages
      AreaKept(n.area);
      LaidStays(old(arch.m.tables), arch.m.tables, arch.root, n.start, n.area.pages, n.area.pages, n.attrs,
                |n.area.pages|);
    }

    /** The list of mappings is as it was, and so are pages that their areas had. */
    twostate predicate Stays()
      reads this, arch, Areas()
    {
      && mappings == old(mappings) && left == old(left) && arch.at == old(arch.at)
      && forall i :: 0 <= i < |mappings| ==> mappings[i].area.PagesStay()
    }

    /** The mapped areas have the bytes that they had. */
    twostate predicate AreasKeep()
      reads this, Areas(), set i | 0 <= i < |mappings| :: mappings[i].area.m,
            set i | 0 <= i < |mappings| :: mappings[i].area.m.pages
    {
      mappings == old(mappings) && forall i :: 0 <= i < |mappings| ==> mappings[i].area.Keeps()
    }

    /**
     A space is isolated: while the tables of others and of the kernel change, and frames are taken, it stays valid
     and every load that its user code makes gives what it gave, or faults as it did.
     */
    twostate lemma Bystander(new who: set<object>)
      requires old(Valid()) && arch.m.Valid() && arch !in who && Stays()
      requires Extends(old(arch.m.Now()), arch.m.Now(), who)
      ensures Valid() && SameLoads(old(arch.m.tables), old(arch.m.data), arch.m.tables, arch.m.data, arch.root)
      ensures AreasKeep()
    {
      hide Walk, Tree, Machine.Valid, Filed, Flat, Laid, Sorted, EntriesGrow, SameLoads, Grounded, SameWalks, Exact;
      arch.m.Facts();
      arch.Spared(who);
      SparedLoads(old(arch.m.Now()), arch.m.Now(), arch.root, arch.m.boot, arch.at);
      SparedExact(old(arch.m.tables), arch.m.tables, arch.root, mappings, left);
      hide PageTable.Valid, VmArea.Valid, Extends;
      forall i | 0 <= i < |mappings|
        ensures Backs(mappings[i]) && mappings[i].area.Keeps()
      {
        assert old(Backs(mappings[i])) && mappings[i].area.PagesStay();
        BacksKept(mappings[i]);
      }
    }

    lemma NewBacks(n: Mapping)
      requires n.area.m == arch.m && n.area.Valid() && n.area.len == n.end - n.start && IsAttrs(n.attrs)
      requires Laid(arch.m.tables, arch.root, n.start, n.area.pages, n.attrs, |n.area.pages|)
      requires n.start % MIN_PAGE_SIZE == 0 && n.end < WORDS
      ensures Backs(n) && WellPlaced(n)
    {
      hide Walk, Tree, Machine.Valid, Filed, Flat, Index;
      forall p: nat | p < |n.area.pages| ensures n.area.pages[p].Some? {
        assert LaidPage(arch.m.tables, arch.root, n.start, n.area.pages, n.attrs, p);
      }
    }

    /** User code can load exactly from the pages of the mappings and the pages left behind. */
    lemma LoadsExactly(v: nat)
      requires Valid()
      ensures Load(arch.m.tables, arch.m.data, arch.root, v).Some? <==>
              Canonical(v) && Index(v, 3) != KERNEL_SLOT && (Shares(mappings, v) || PageOf(v) in left)
    {
      hide Walk, Tree, Index, Shares, PageOf, Sorted, VmSpace.Backs, Machine.Valid;
      arch.m.Facts();
      if Index(v, 3) == KERNEL_SLOT {
        KernelSlotFaults(arch.m.tables, arch.m.data, arch.root, arch.m.boot, arch.at, v);
      }
    }

    /** Where user code can load and where a mapping says so are the same, below 2^47. */
    ghost predicate Agrees()
      reads this, arch, arch.m
    {
      forall v: nat :: v < USER_END ==>
        (Load(arch.m.tables, arch.m.data, arch.root, v).Some? <==> Covered(mappings, v))
    }

    /** The list agrees with the hardware exactly if it covers the pages left behind and those that it shares. */
    lemma AgreesExactly()
      requires Valid()
      ensures Agrees() <==>
              forall v: nat :: v < USER_END && (Shares(mappings, v) || PageOf(v) in left) ==> Covered(mappings, v)
      ensures left == {} && (forall i :: 0 <= i < |mappings| ==> mappings[i].end <= SPAN) ==> Agrees()
    {
      hide VmSpace.Valid, Load, Shares, PageOf, Covered, Index;
      forall v: nat | v < USER_END
        ensures Load(arch.m.tables, arch.m.data, arch.root, v).Some? <==> Shares(mappings, v) || PageOf(v) in left
        ensures Covered(mappings, v) ==> Shares(mappings, v)
        ensures Shares(mappings, v) && (forall i :: 0 <= i < |mappings| ==> mappings[i].end <= SPAN) ==>
                Covered(mappings, v)
      {
        LoadsExactly(v);
        UserPages(v);
        SpaceSorted();
        CoveredShares(mappings, v);
      }
    }

    /**
     Writing to an area changes what user code loads exactly at the pages that map the area, where it loads the
     area's new bytes.
     */
    twostate lemma AfterWrite(area: VmArea)
      requires old(Valid()) && area.m == arch.m && old(area.Valid()) && area.Valid() && area.OnlyWrites()
      requires Stays()
      ensures Valid()
      ensures Shown(arch.m.tables, old(arch.m.data), arch.m.data, arch.root, area.pages, area.Contents())
    {
      hide Walk, Tree, Machine.Valid, Filed, Flat, Laid, Sorted, Grounded, Exact, OnlyIn, Shown;
      ArchStays();
      AreaFiled(area);
      WritesShow(arch.m.tables, old(arch.m.data), arch.m.data, arch.root, arch.m.boot, arch.at, area.pages);
      hide PageTable.Valid;
      forall i | 0 <= i < |mappings| ensures Backs(mappings[i]) {
        assert old(Backs(mappings[i])) && mappings[i].area.PagesStay();
        assert mappings[i].area.pages == old(mappings[i].area.pages);
        if mappings[i].area != area { mappings[i].area.Unwritten(area); }
      }
    }

    twostate lemma ArchStays()
      requires old(arch.Valid()) && arch.m.Valid() && arch.at == old(arch.at)
      requires arch.m.tables == old(arch.m.tables) && Kept(old(arch.m.owner), arch.m.owner)
      ensures arch.Valid() && Tree(arch.m.tables, arch.root, arch.m.boot, arch.at) && IsFrame(arch.m.boot)
      ensures forall f :: f in old(arch.m.data) ==> |old(arch.m.data)[f]| == MIN_PAGE_SIZE
      ensures forall f :: f in arch.m.data ==> |arch.m.data[f]| == MIN_PAGE_SIZE
    {
      hide Tree, KernelTree, Sound, Backed, OutsidePools;
    }

    /** The mappings have byte `b` at `v`. */
    ghost predicate HasByte(v: nat, b: Byte)
      reads this, arch, arch.m, Areas()
    {
      exists i :: 0 <= i < |mappings| && ByteIn(mappings[i], arch.m.data, mappings[i].area.pages, v, b)
    }

    /** User code loads what the mappings have. */
    lemma LoadsByte(v: nat, b: Byte)
      requires Valid() && HasByte(v, b) && v < USER_END
      ensures Load(arch.m.tables, arch.m.data, arch.root, v) == Some(b)
    {
      hide Walk, Tree, Machine.Valid, Filed, Flat, Laid, Sorted, Load, PageTable.Valid, VmSpace.Valid, VmArea.Valid;
      var i :| 0 <= i < |mappings| && ByteIn(mappings[i], arch.m.data, mappings[i].area.pages, v, b);
      MappingAt(i);
      LoadsMapping(mappings[i], v);
    }

    /** Bytes `lo` to `hi` of the buffer are those that the mappings have from `uaddr + lo` on. */
    ghost predicate Copied(uaddr: nat, buf: array<Byte>, lo: nat, hi: nat)
      requires hi <= buf.Length
      reads this, arch, arch.m, Areas(), buf
    {
      forall j :: lo <= j < hi ==> HasByte(uaddr + j, buf[j])
    }

    /** Reading from a mapped area changes nothing but the buffer: the area has all its pages. */
    method ReadArea(i: nat, offset: nat, buf: array<Byte>, at: nat, n: nat)
      requires Valid() && i < |mappings| && at + n <= buf.Length
      requires mappings[i].start + offset + n <= mappings[i].end
      modifies buf, arch.m, arch.m.pages, mappings[i].area
      ensures Valid() && arch.m.tables == old(arch.m.tables) && arch.m.data == old(arch.m.data)
      ensures mappings[i].area.pages == old(mappings[i].area.pages)
      ensures mappings[i].area.Valid() && mappings[i].area.len == mappings[i].end - mappings[i].start
      ensures buf[..] == Splice(old(buf[..]), at, mappings[i].area.Contents()[offset..offset + n])
    {
      hide Walk, Tree, Machine.Valid, NoRoom, Filed, Flat, Laid, Sorted, PageTable.Valid, VmSpace.Valid;
      hide VmArea.Valid, Splice, VmSpace.Backs, SameLoads, Extends;
      var mapping := mappings[i];
      MappingAt(i);
      AreaSize(mapping.area);
      var r, done := mapping.area.Read(offset, buf, at, at + n);
      AreaSize(mapping.area);
      ExtendsNothing(arch.m.Now(), {});
      Bystander({});
    }

    /** One turn of the loop in `read_bytes`: from the mapping in place `i`. */
    method ReadMapping(i: nat, uaddr: nat, buf: array<Byte>, at: nat) returns (n: nat)
      requires Valid() && i < |mappings| && at < buf.Length
      requires mappings[i].start <= uaddr + at < mappings[i].end && Copied(uaddr, buf, 0, at)
      modifies buf, arch.m, arch.m.pages, mappings[i].area
      ensures Valid() && arch.m.tables == old(arch.m.tables) && arch.m.data == old(arch.m.data)
      ensures n == Min(buf.Length - at, mappings[i].end - uaddr - at)
      ensures buf[at + n..] == old(buf[at + n..]) && Copied(uaddr, buf, 0, at + n)
    {
      hide Machine.Valid, Flat, PageTable.Valid, VmSpace.Valid, VmArea.Valid, Splice, VmSpace.Copied;
      var mapping := mappings[i];
      n := Min(buf.Length - at, mapping.end - uaddr - at);
      var offset := uaddr + at - mapping.start;
      ReadArea(i, offset, buf, at, n);
      AreaSize(mapping.area);
      SpliceParts(old(buf[..]), at, mapping.area.Contents()[offset..offset + n]);
      assert buf[..at] == buf[..][..at] && buf[at + n..] == buf[..][at + n..];
      assert buf[at..at + n] == buf[..][at..at + n];
      CopiedFrom(i, uaddr, buf, at, n);
      CopiedMore(uaddr, buf, at, n);
    }

    lemma CopiedFrom(i: nat, uaddr: nat, buf: array<Byte>, at: nat, n: nat)
      requires Valid() && i < |mappings| && at + n <= buf.Length && mappings[i].area.Valid()
      requires mappings[i].start <= uaddr + at && uaddr + at + n <= mappings[i].end
      requires mappings[i].area.len == mappings[i].end - mappings[i].start
      requires var offset := uaddr + at - mappings[i].start;
        buf[at..at + n] == mappings[i].area.Contents()[offset..offset + n]
      ensures Copied(uaddr, buf, at, at + n)
    {
      hide Machine.Valid, Filed, Flat, PageTable.Valid, VmSpace.Valid, VmSpace.HasByte;
      forall j | at <= j < at + n ensures HasByte(uaddr + j, buf[j]) {
        assert buf[j] == buf[at..at + n][j - at];
        MappingHas(i, uaddr + j);
      }
    }

    lemma CopiedNone(uaddr: nat, buf: array<Byte>)
      ensures Copied(uaddr, buf, 0, 0)
    {
    }

    lemma MappingHas(i: nat, v: nat)
      requires Valid() && i < |mappings| && mappings[i].start <= v < mappings[i].end && mappings[i].area.Valid()
      ensures v - mappings[i].start < |mappings[i].area.Contents()|
      ensures HasByte(v, mappings[i].area.Contents()[v - mappings[i].start])
    {
      hide Walk, Tree, Machine.Valid, Filed, Flat, Laid, Sorted, PageTable.Valid, VmSpace.Valid;
      MappingAt(i);
      assert ByteIn(mappings[i], arch.m.data, mappings[i].area.pages, v,
                    mappings[i].area.Contents()[v - mappings[i].start]);
    }

    /** What was copied before the last turn is there still. */
    twostate lemma CopiedMore(new uaddr: nat, buf: array<Byte>, new at: nat, new n: nat)
      requires at + n <= buf.Length && buf[..at] == old(buf[..at]) && old(Copied(uaddr, buf, 0, at))
      requires Copied(uaddr, buf, at, at + n) && mappings == old(mappings) && arch.m.data == old(arch.m.data)
      requires forall i :: 0 <= i < |mappings| ==> mappings[i].area.pages == old(mappings[i].area.pages)
      ensures Copied(uaddr, buf, 0, at + n)
    {
      hide ByteIn;
      forall j | 0 <= j < at ensures HasByte(uaddr + j, buf[j]) {
        assert buf[j] == buf[..at][j] == old(buf[..at])[j];
        assert old(HasByte(uaddr + j, buf[j]));
        var i :| 0 <= i < |mappings|
                 && old(ByteIn(mappings[i], arch.m.data, mappings[i].area.pages, uaddr + j, buf[j]));
        assert ByteIn(mappings[i], arch.m.data, mappings[i].area.pages, uaddr + j, buf[j]);
      }
    }

    lemma MachineOk()
      requires Valid()
      ensures arch.Valid() && arch.m.Valid() && arch.m.data.Keys <= arch.m.owner.Keys
    {
      hide Walk, Tree, Filed, Flat, Laid, VmArea.Valid, VmSpace.Backs, Backed, Sound, KernelTree;
    }

    lemma SpaceSorted()
      requires Valid()
      ensures Sorted(mappings)
    {
      hide Walk, Tree, Machine.Valid, Filed, Flat, Laid, PageTable.Valid, VmArea.Valid, VmSpace.Backs;
    }

    lemma MappingAt(i: nat)
      requires Valid() && i < |mappings|
      ensures Backs(mappings[i]) && WellPlaced(mappings[i]) && Sorted(mappings)
      ensures mappings[i].area.Valid() && mappings[i].area.len == mappings[i].end - mappings[i].start
      ensures None !in mappings[i].area.pages && mappings[i].area.m == arch.m
    {
      hide Walk, Tree, Machine.Valid, Filed, Flat, Laid, PageTable.Valid, VmArea.Valid;
    }

    lemma LoadsMapping(n: Mapping, v: nat)
      requires Backs(n) && WellPlaced(n) && n.start <= v < n.end && v < USER_END
      ensures v - n.start < |n.area.Contents()|
      ensures Load(arch.m.tables, arch.m.data, arch.root, v) == Some(n.area.Contents()[v - n.start])
    {
      hide Walk, Tree, Machine.Valid, Filed, Laid, Load, Flat;
      LoadsLaid(arch.m.tables, arch.m.data, arch.root, n.start, n.area.pages, n.attrs, v);
    }

    /** User code has access to a mapping, and write access exactly if the mapping grants it. */
    lemma GrantsMapping(n: Mapping)
      requires Backs(n) && WellPlaced(n)
      ensures AllGranted(arch.m.tables, arch.root, n.start, n.end, Writable(n.attrs))
    {
      hide Walk, Tree, Machine.Valid, Filed, Laid, Load, Flat;
      AreaSize(n.area);
      forall v: nat | n.start <= v < n.end && v < USER_END
        ensures Grants(arch.m.tables, arch.root, v, Writable(n.attrs))
      {
        WalkLaid(arch.m.tables, arch.root, n.start, n.area.pages, n.attrs, v);
      }
    }

    /** In a space without remains of failed calls, a page below 2^47 is mapped only if a mapping covers it. */
    lemma MappedIsCovered(u: nat)
      requires Valid() && left == {} && u < USER_END && forall i :: 0 <= i < |mappings| ==> mappings[i].end <= SPAN
      requires Walk(arch.m.tables, arch.root, u).Some?
      ensures Covered(mappings, u)
    {
      hide Walk, Tree, Machine.Valid, PageTable.Valid, VmSpace.Backs, Grounded, Shares, Covered, Index, PageOf;
      UserPages(u);
      CoveredShares(mappings, u);
    }

    /**
     `read_bytes`. The first `k` bytes of the buffer are those of the mapped areas, which are what user code would
     load, and `k` is as far as mappings cover the range without a gap. Stopping short is an error if nothing was
     covered or a mapping follows.
     */
    method ReadBytes(uaddr: nat, buf: array<Byte>) returns (r: Result<()>, ghost k: nat)
      requires Valid()
      modifies buf, arch.m, arch.m.pages, Areas()
      ensures Valid() && arch.m.tables == old(arch.m.tables) && arch.m.data == old(arch.m.data)
      ensures k <= buf.Length && Copied(uaddr, buf, 0, k) && buf[k..] == old(buf[k..])
      ensures forall j :: 0 <= j < k && uaddr + j < USER_END ==>
                Load(arch.m.tables, arch.m.data, arch.root, uaddr + j) == Some(buf[j])
      ensures buf.Length == 0 ==> r.Ok?
      ensures buf.Length > 0 && uaddr + buf.Length >= WORDS ==> r == Err(OutOfBounds) && k == 0
      ensures buf.Length > 0 && uaddr + buf.Length < WORDS ==>
        && AllCovered(mappings, uaddr, uaddr + k)
        && (k < buf.Length ==> !Covered(mappings, uaddr + k))
        && r == if k == buf.Length || (k > 0 && !More(mappings, uaddr + k)) then Ok(()) else Err(OutOfBounds)
    {
      hide VmSpace.Valid, Load, VmSpace.HasByte;
      r, k := ReadCovered(uaddr, buf);
      forall j | 0 <= j < k && uaddr + j < USER_END
        ensures Load(arch.m.tables, arch.m.data, arch.root, uaddr + j) == Some(buf[j])
      {
        LoadsByte(uaddr + j, buf[j]);
      }
    }

    method ReadCovered(uaddr: nat, buf: array<Byte>) returns (r: Result<()>, ghost k: nat)
      requires Valid()
      modifies buf, arch.m, arch.m.pages, Areas()
      ensures Valid() && arch.m.tables == old(arch.m.tables) && arch.m.data == old(arch.m.data)
      ensures k <= buf.Length && Copied(uaddr, buf, 0, k) && buf[k..] == old(buf[k..])
      ensures buf.Length == 0 ==> r.Ok?
      ensures buf.Length > 0 && uaddr + buf.Length >= WORDS ==> r == Err(OutOfBounds) && k == 0
      ensures buf.Length > 0 && uaddr + buf.Length < WORDS ==>
        && AllCovered(mappings, uaddr, uaddr + k)
        && (k < buf.Length ==> !Covered(mappings, uaddr + k))
        && r == if k == buf.Length || (k > 0 && !More(mappings, uaddr + k)) then Ok(()) else Err(OutOfBounds)
    {
      hide VmSpace.Valid, Sorted, Covered, More, PartitionPoint, VmSpace.Backs, AllCovered, VmArea.Valid;
      hide VmSpace.Copied;
      k := 0;
      CopiedNone(uaddr, buf);
      NoneCovered(mappings, uaddr);
      if buf.Length == 0 { return Ok(()), 0; }
      if uaddr + buf.Length >= WORDS { return Err(OutOfBounds), 0; }
      var index := PartitionPoint(mappings, uaddr + 1);
      SpaceSorted();
      if index == 0 {
        Gap(mappings, 0, uaddr);
        return Err(OutOfBounds), 0;
      }
      var i, at := index - 1, 0;
      while at < buf.Length && i < |mappings|
        invariant i <= |mappings| && at <= buf.Length && k == at
        invariant Valid() && arch.m.tables == old(arch.m.tables) && arch.m.data == old(arch.m.data)
        invariant at == 0 ==> i == index - 1
        invariant 0 < at < buf.Length ==> i > 0 && mappings[i - 1].end == uaddr + at
        invariant Copied(uaddr, buf, 0, at) && buf[at..] == old(buf[at..])
        invariant AllCovered(mappings, uaddr, uaddr + at)
      {
        var mapping := mappings[i];
        MappingAt(i);
        if i > 0 { Neighbours(mappings, i); }
        if !(mapping.start <= uaddr + at < mapping.end) {
          Gap(mappings, if at == 0 then i + 1 else i, uaddr + at);
          return Err(OutOfBounds), at;
        }
        var n := ReadMapping(i, uaddr, buf, at);
        CoveredBy(mappings, i, uaddr, at, n);
        i, at, k := i + 1, at + n, at + n;
      }
      if at < buf.Length { Gap(mappings, i, uaddr + at); }
      r := Ok(());
    }

    /** The loop of `map`: fill each page of the area and enter it in the page tables. */
    method MapPages(area: VmArea, uaddr: nat, attrs: nat) returns (r: Result<()>, ghost laid: nat)
      requires arch.Valid() && area.Valid() && area.m == arch.m && IsAttrs(attrs)
      requires uaddr % MIN_PAGE_SIZE == 0 && uaddr + area.len < WORDS
      modifies arch, arch.m, arch.m.pages, area
      ensures arch.Valid() && area.Valid() && area.Contents() == old(area.Contents()) && area.OnlyFillsPages()
      ensures arch.m.pages.pools == old(arch.m.pages.pools)
      ensures Extends(old(arch.m.Now()), arch.m.Now(), {arch.m, arch})
      ensures laid <= |area.pages| && (r.Ok? <==> laid == |area.pages|)
      ensures Laid(arch.m.tables, arch.root, uaddr, area.pages, attrs, laid)
      ensures LaidOnly(old(arch.m.tables), arch.m.tables, arch.root, uaddr, laid)
      ensures r.Err? ==> StopsAt(old(arch.m.tables), arch.m.pages.regions, arch.root, uaddr, laid, r.error)
    {
      hide Index, Walk, PageOf, Tree, Machine.Valid, NoRoom, Filed, Flat, Laid, LaidOnly, Maps, Extends, StopsAt;
      hide PageTable.Valid;
      laid := 0;
      LaidNothing(arch.m.tables, arch.root, uaddr, area.pages, attrs);
      ExtendsNothing(arch.m.Now(), {arch.m, arch});
      for index := 0 to |area.pages|
        invariant arch.Valid() && area.Valid() && area.Contents() == old(area.Contents()) && area.OnlyFillsPages()
        invariant arch.m.pages.pools == old(arch.m.pages.pools)
        invariant Extends(old(arch.m.Now()), arch.m.Now(), {arch.m, arch})
        invariant laid == index && Laid(arch.m.tables, arch.root, uaddr, area.pages, attrs, laid)
        invariant LaidOnly(old(arch.m.tables), arch.m.tables, arch.root, uaddr, laid)
      {
        ghost var before := arch.m.Now();
        var page := MapPage(area, uaddr, index, attrs, old(arch.m.Now()));
        ExtendsTwice(old(arch.m.Now()), before, arch.m.Now(), {arch.m, arch});
        if page.Err? { return page, laid; }
        laid := laid + 1;
      }
      r := Ok(());
    }

    method MapPage(area: VmArea, uaddr: nat, index: nat, attrs: nat, ghost start: Frames) returns (r: Result<()>)
      requires arch.Valid() && area.Valid() && area.m == arch.m && IsAttrs(attrs)
      requires uaddr % MIN_PAGE_SIZE == 0 && uaddr + area.len < WORDS && index < |area.pages|
      requires Laid(arch.m.tables, arch.root, uaddr, area.pages, attrs, index)
      requires LaidOnly(start.tables, arch.m.tables, arch.root, uaddr, index)
      requires Extends(start, arch.m.Now(), {arch.m, arch})
      modifies arch, arch.m, arch.m.pages, area
      ensures arch.Valid() && area.Valid() && area.Contents() == old(area.Contents()) && area.OnlyFillsPages()
      ensures arch.m.pages.pools == old(arch.m.pages.pools)
      ensures Extends(old(arch.m.Now()), arch.m.Now(), {arch.m, arch})
      ensures Laid(arch.m.tables, arch.root, uaddr, area.pages, attrs, if r.Ok? then index + 1 else index)
      ensures LaidOnly(start.tables, arch.m.tables, arch.root, uaddr, if r.Ok? then index + 1 else index)
      ensures r.Err? ==> StopsAt(start.tables, arch.m.pages.regions, arch.root, uaddr, index, r.error)
    {
      hide Index, Walk, PageOf, Tree, Machine.Valid, NoRoom, Filed, Flat, LaidOnly, LaidPage, Laid, Maps, Extends;
      hide OnPages, EntriesGrow, StopsAt, SameWalks;
      var paddr := area.EnsurePage(index);
      ghost var filled := arch.m.Now();
      label filling:
      TakingExtends(old(arch.m.Now()), filled, {arch.m, arch});
      ExtendsTwice(start, old(arch.m.Now()), filled, {arch.m, arch});
      ExtendsKeeps(old(arch.m.Now()), filled, {arch.m, arch});
      LaidStays(old(arch.m.tables), filled.tables, arch.root, uaddr, old(area.pages), area.pages, attrs, index);
      if paddr.Err? {
        StopsWithoutRoom(start.tables, arch.m.pages.regions, arch.root, uaddr, index);
        return Err(paddr.error);
      }
      FrameOfPage(area, index);
      r := arch.Map(uaddr + MIN_PAGE_SIZE * index, paddr.value, MIN_PAGE_SIZE, attrs);
      ExtendsKeeps(filled, arch.m.Now(), {arch.m, arch});
      AreaKept@filling(area);
      ExtendsTwice(old(arch.m.Now()), filled, arch.m.Now(), {arch.m, arch});
      PageTried(start, filled, arch.m.Now(), {arch.m, arch}, arch.m.pages.regions, arch.root, uaddr, area.pages, attrs,
                index, r);
    }
  }

  /** Loads changed exactly where one of the pages is mapped, to the bytes of the area that has them. */
  ghost predicate Shown(mem: Memory, data: Data, data': Data, root: nat, pages: Pages, contents: seq<Byte>) {
    forall v: nat :: ShownAt(mem, data, data', root, pages, contents, v)
  }

  predicate ShownAt(mem: Memory, data: Data, data': Data, root: nat, pages: Pages, contents: seq<Byte>, v: nat) {
    var was, now, t := Load(mem, data, root, v), Load(mem, data', root, v), Walk(mem, root, v);
    && (was.Some? <==> now.Some?)
    && (now.Some? && Some(t.value.frame) !in pages ==> now == was)
    && (forall p :: 0 <= p < |pages| && now.Some? && pages[p] == Some(t.value.frame) ==>
          && MIN_PAGE_SIZE * p + v % MIN_PAGE_SIZE < |contents|
          && now.value == contents[MIN_PAGE_SIZE * p + v % MIN_PAGE_SIZE])
  }

  lemma WritesShow(mem: Memory, data: Data, data': Data, root: nat, boot: nat, at: Places, pages: Pages)
    requires Tree(mem, root, boot, at) && IsFrame(boot) && Grounded(mem, data, root)
    requires OnlyIn(data, data', pages) && Filed(data', pages) && data.Keys <= data'.Keys
    requires forall f :: f in data ==> |data[f]| == MIN_PAGE_SIZE
    requires forall f :: f in data' ==> |data'[f]| == MIN_PAGE_SIZE
    ensures Shown(mem, data, data', root, pages, Flat(data', pages)) && Grounded(mem, data', root)
  {
    hide Walk, Tree, Index, Flat, ShownAt, Filed;
    forall v: nat ensures ShownAt(mem, data, data', root, pages, Flat(data', pages), v) {
      if Index(v, 3) == KERNEL_SLOT {
        KernelSlotFaults(mem, data, root, boot, at, v);
        KernelSlotFaults(mem, data', root, boot, at, v);
      }
      WriteShows(mem, data, data', root, pages, v);
    }
  }

  lemma WriteShows(mem: Memory, data: Data, data': Data, root: nat, pages: Pages, v: nat)
    requires OnlyIn(data, data', pages) && Filed(data', pages)
    requires Load(mem, data, root, v).Some? <==> Load(mem, data', root, v).Some?
    ensures ShownAt(mem, data, data', root, pages, Flat(data', pages), v)
  {
    hide Walk;
    forall p | 0 <= p < |pages|
      ensures MIN_PAGE_SIZE * p + v % MIN_PAGE_SIZE < |Flat(data', pages)|
      ensures pages[p].Some? ==>
              Flat(data', pages)[MIN_PAGE_SIZE * p + v % MIN_PAGE_SIZE] == data'[pages[p].value][v % MIN_PAGE_SIZE]
    {
      MulOrder(MIN_PAGE_SIZE, p, |pages|);
      ModUnique(MIN_PAGE_SIZE * p + v % MIN_PAGE_SIZE, MIN_PAGE_SIZE, p, v % MIN_PAGE_SIZE);
    }
  }

  lemma AreaFiled(area: VmArea)
    requires area.Valid()
    ensures Filed(area.m.data, area.pages) && area.Contents() == Flat(area.m.data, area.pages) && area.m.Valid()
  {
  }

  /** Byte `b` is at `v` in the mapping, whose area has these pages. */
  predicate ByteIn(n: Mapping, data: Data, pages: Pages, v: nat, b: Byte) {
    n.start <= v < n.end && Filed(data, pages) && v - n.start < MIN_PAGE_SIZE * |pages|
    && Flat(data, pages)[v - n.start] == b
  }

  lemma SpliceParts(s: seq<Byte>, at: nat, b: seq<Byte>)
    requires at + |b| <= |s|
    ensures var t := Splice(s, at, b);
      t[..at] == s[..at] && t[at..at + |b|] == b && t[at + |b|..] == s[at + |b|..]
  {
  }

  lemma AreaSize(area: VmArea)
    requires area.Valid()
    ensures 0 < area.len == MIN_PAGE_SIZE * |area.pages| && area.m.Valid()
  {
  }

  lemma InsertedAt(mappings: seq<Mapping>, n: Mapping)
    ensures PartitionPoint(mappings, n.start) < |Inserted(mappings, n)|
    ensures Inserted(mappings, n)[PartitionPoint(mappings, n.start)] == n
  {
    hide PartitionPoint;
  }

  lemma InsertedElements(mappings: seq<Mapping>, n: Mapping)
    ensures forall i :: 0 <= i < |Inserted(mappings, n)| ==>
            Inserted(mappings, n)[i] == n || Inserted(mappings, n)[i] in mappings
  {
    hide PartitionPoint;
  }

  lemma FrameOfPage(area: VmArea, p: nat)
    requires area.Valid() && p < |area.pages| && area.pages[p].Some?
    ensures IsFrame(area.pages[p].value)
  {
    hide Backed, Sound, KernelTree;
  }

  lemma LaidNothing(mem: Memory, root: nat, uaddr: nat, pages: Pages, attrs: nat)
    ensures Laid(mem, root, uaddr, pages, attrs, 0) && LaidOnly(mem, mem, root, uaddr, 0)
  {
  }
}
