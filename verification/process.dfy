/** `Process::create` (`servers/lx/src/process.rs`): the image of an executable in a fresh address space. */
module Processes {
  import opened Prelude
  import opened Alignment
  import opened Paging
  import opened PageAllocation
  import opened PageTree
  import opened Machinery
  import opened PageTables
  import opened VmAreas
  import opened VmSpaces
  import opened InitialStack
  import opened StackBuilder

  const PT_LOAD: nat := 1
  const PF_X: nat := 1
  const PF_W: nat := 2
  const READ: nat := 1
  const WRITE: nat := 2
  const EXEC: nat := 4

  datatype Phdr = Phdr(typ: nat, flags: nat, offset: nat, vaddr: nat, filesz: nat, memsz: nat)

  /** An executable, its headers parsed. */
  datatype Elf = Elf(entry: nat, phoff: nat, phentsize: nat, phnum: nat, phdrs: seq<Phdr>)

  datatype Creation = Created(space: VmSpace, pc: nat, sp: nat) | Refused(error: ErrorCode) | Panicked

  // -- segments

  function Base(p: Phdr): nat {
    p.vaddr - p.vaddr % MIN_PAGE_SIZE
  }

  /** The length rounded up to whole pages, in words: the sums wrap around, so that near the top it is zero. */
  function Length(p: Phdr): nat {
    var n := (p.vaddr % MIN_PAGE_SIZE + p.memsz) % WORDS;
    if n <= WORDS - MIN_PAGE_SIZE then (n + 4095) / 4096 * 4096 else 0
  }

  function End(p: Phdr): nat {
    Base(p) + Length(p)
  }

  function Attrs(p: Phdr): nat {
    var w := if And(p.flags, PF_W) != 0 then Or(READ, WRITE) else READ;
    if And(p.flags, PF_X) != 0 then Or(w, EXEC) else w
  }

  /** The fields are 64-bit words. */
  predicate IsPhdr(p: Phdr) {
    p.vaddr < WORDS && p.memsz < WORDS && p.offset < WORDS && p.filesz < WORDS
  }

  predicate IsElf(elf: Elf) {
    && elf.entry < WORDS && elf.phoff < WORDS && elf.phentsize < WORDS && elf.phnum < WORDS
    && forall i :: 0 <= i < |elf.phdrs| ==> IsPhdr(elf.phdrs[i])
  }

  /** The sum that gives the segment's length overflows a word. */
  predicate Overflows(p: Phdr) {
    p.vaddr % MIN_PAGE_SIZE + p.memsz >= WORDS
  }

  /** A sum on the way to the rounded length overflows: the length itself, or that which `align_up` forms. */
  predicate RoundingOverflows(p: Phdr) {
    p.vaddr % MIN_PAGE_SIZE + p.memsz + MIN_PAGE_SIZE >= WORDS
  }

  /** The file has no more bytes than the segment, and the length does not overflow. */
  predicate IsProper(p: Phdr) {
    p.filesz <= p.memsz && !Overflows(p)
  }

  predicate InFile(file: Bytes, p: Phdr) {
    p.offset + p.filesz <= |file|
  }

  /** The byte that the executable format puts at address `v` of a segment. */
  function SegmentByte(file: Bytes, p: Phdr, v: nat): Byte
    requires InFile(file, p) && p.vaddr <= v
  {
    if v - p.vaddr < p.filesz then file[p.offset + (v - p.vaddr)] else 0
  }

  /** User memory holds the segment, as far as it is in user space: the bytes of the file, then zeros. */
  ghost predicate SegmentAt(mem: Memory, data: Data, root: nat, file: Bytes, p: Phdr)
    requires InFile(file, p)
  {
    forall v: nat :: p.vaddr <= v < p.vaddr + p.memsz && v < USER_END ==>
                       Load(mem, data, root, v) == Some(SegmentByte(file, p, v))
  }

  /** User memory holds the segment's part of the file, as far as it is in user space. */
  ghost predicate FileAt(mem: Memory, data: Data, root: nat, file: Bytes, p: Phdr)
    requires InFile(file, p)
  {
    forall v: nat :: p.vaddr <= v < p.vaddr + p.filesz && v < USER_END ==>
                       Load(mem, data, root, v) == Some(file[p.offset + (v - p.vaddr)])
  }

  /**
   A segment of the file in user memory. All of its pages can be written exactly if its flags say so, and if its file
   size is at most its memory size, which does not overflow, the rest of it is zeros.
   */
  ghost predicate SegmentIn(mem: Memory, data: Data, root: nat, file: Bytes, p: Phdr) {
    && InFile(file, p) && End(p) < WORDS && p.vaddr + p.filesz <= End(p)
    && FileAt(mem, data, root, file, p)
    && AllGranted(mem, root, Base(p), End(p), p.flags / 2 % 2 == 1)
    && (!Overflows(p) ==> p.vaddr + p.memsz <= End(p))
    && (IsProper(p) ==> SegmentAt(mem, data, root, file, p))
  }

  lemma SegmentKept(a: Frames, b: Frames, who: set<object>, root: nat, file: Bytes, p: Phdr)
    requires SegmentIn(a.tables, a.data, root, file, p) && Extends(a, b, who)
    ensures SegmentIn(b.tables, b.data, root, file, p)
  {
    hide Load, Grants, AllGranted, EntriesGrow;
    ExtendingKeepsLoads(a, b, who, root);
    GrantsStay(a.tables, b.tables, root, Base(p), End(p), p.flags / 2 % 2 == 1);
  }

  lemma SegmentBounds(p: Phdr)
    ensures Base(p) % MIN_PAGE_SIZE == 0 && Length(p) % MIN_PAGE_SIZE == 0 && Length(p) < WORDS
    ensures Base(p) + p.vaddr % MIN_PAGE_SIZE == p.vaddr
    ensures !Overflows(p) && Length(p) > 0 ==> p.vaddr + p.memsz <= End(p)
    ensures !RoundingOverflows(p) && p.memsz > 0 ==> Length(p) > 0
  {
  }

  /** The rights of a mapping are those that the flags of the segment ask for. */
  predicate Allows(attrs: nat, flags: nat) {
    && IsAttrs(attrs) && attrs % 2 == 1
    && (attrs / 2 % 2 == 1 <==> flags / 2 % 2 == 1)
    && (attrs / 4 % 2 == 1 <==> flags % 2 == 1)
  }

  lemma AttrsAre(p: Phdr)
    ensures Allows(Attrs(p), p.flags)
  {
    hide And;
    FlagBits(p.flags);
    assert Or(1, 2) == 3;
    assert Or(1, 4) == 5;
    assert Or(3, 4) == 7;
  }

  lemma FlagBits(flags: nat)
    ensures And(flags, PF_X) != 0 <==> flags % 2 == 1
    ensures And(flags, PF_W) != 0 <==> flags / 2 % 2 == 1
  {
    hide And;
    BitIs(flags, 0);
    BitIs(flags, 1);
    assert Pow2(0) == 1 && Pow2(1) == 2;
  }

  /** `p_vaddr` rounded down and the length rounded up, as the masks compute them. */
  lemma SegmentMasks(p: Phdr)
    requires IsPhdr(p)
    ensures AlignDown(p.vaddr, MIN_PAGE_SIZE) == Base(p)
    ensures AlignUp((p.vaddr % MIN_PAGE_SIZE + p.memsz) % WORDS, MIN_PAGE_SIZE) == Length(p)
  {
    hide And, AlignUp, AlignDown;
    PageIsPower();
    var n := (p.vaddr % MIN_PAGE_SIZE + p.memsz) % WORDS;
    AlignDownIsFloor(p.vaddr, MIN_PAGE_SIZE);
    AlignUpIsCeiling(n, MIN_PAGE_SIZE);
    if n <= WORDS - MIN_PAGE_SIZE { AlignUpIsDiv(n, MIN_PAGE_SIZE); }
  }

  /** An area of zeros with the file's part written into it is the segment. */
  lemma AreaIsSegment(file: Bytes, p: Phdr, contents: Bytes, v: nat)
    requires InFile(file, p) && p.vaddr <= v && p.vaddr % MIN_PAGE_SIZE + p.filesz <= Length(p) && v < End(p)
    requires contents == Splice(seq(Length(p), _ => 0), p.vaddr % MIN_PAGE_SIZE, file[p.offset..p.offset + p.filesz])
    ensures v - Base(p) < |contents| && contents[v - Base(p)] == SegmentByte(file, p, v)
  {
    SegmentBounds(p);
  }

  /** User memory from `base` on holds the bytes, as far as they are in user space. */
  ghost predicate Holds(mem: Memory, data: Data, root: nat, base: nat, bytes: Bytes) {
    forall v: nat :: base <= v < base + |bytes| && v < USER_END ==>
                       Load(mem, data, root, v) == Some(bytes[v - base])
  }

  // -- the mappings of a space, and why there cannot be one more

  /** The mapping is that of a segment. */
  predicate IsSegment(n: Mapping, p: Phdr) {
    p.typ == PT_LOAD && n.start == Base(p) && n.end == End(p) && Allows(n.attrs, p.flags)
  }

  predicate OfSome(n: Mapping, phdrs: seq<Phdr>) {
    exists i :: 0 <= i < |phdrs| && IsSegment(n, phdrs[i])
  }

  predicate HasOne(mappings: seq<Mapping>, p: Phdr) {
    exists k :: 0 <= k < |mappings| && IsSegment(mappings[k], p)
  }

  /** The mappings are those of the segments. */
  ghost predicate Records(mappings: seq<Mapping>, phdrs: seq<Phdr>) {
    && (forall k :: 0 <= k < |mappings| ==> OfSome(mappings[k], phdrs))
    && (forall i :: 0 <= i < |phdrs| && phdrs[i].typ == PT_LOAD ==> HasOne(mappings, phdrs[i]))
  }

  function Without(mappings: seq<Mapping>, k: nat): seq<Mapping>
    requires k < |mappings|
  {
    mappings[..k] + mappings[k + 1..]
  }

  /** There is one more mapping, that of a segment. */
  predicate Adds(before: seq<Mapping>, after: seq<Mapping>, p: Phdr) {
    exists k :: 0 <= k < |after| && IsSegment(after[k], p) && before == Without(after, k)
  }

  /** There is one more mapping: the stack, which can be written. */
  predicate AddsStack(before: seq<Mapping>, after: seq<Mapping>) {
    exists k :: 0 <= k < |after| && IsStackArea(after[k]) && before == Without(after, k)
  }

  predicate IsStackArea(n: Mapping) {
    n.start == STACK_BASE && n.end == STACK_BASE + STACK_SIZE && n.attrs % 2 == 1 && Writable(n.attrs)
  }

  lemma InsertedWithout(mappings: seq<Mapping>, n: Mapping)
    ensures var k := PartitionPoint(mappings, n.start);
      k < |Inserted(mappings, n)| && Inserted(mappings, n)[k] == n && Without(Inserted(mappings, n), k) == mappings
  {
    hide PartitionPoint;
  }

  lemma RecordsMore(before: seq<Mapping>, after: seq<Mapping>, phdrs: seq<Phdr>, i: nat)
    requires i < |phdrs| && Records(before, phdrs[..i]) && Adds(before, after, phdrs[i])
    ensures Records(after, phdrs[..i + 1])
  {
    hide IsSegment;
    var at :| 0 <= at < |after| && IsSegment(after[at], phdrs[i]) && before == Without(after, at);
    var some := phdrs[..i + 1];
    forall k | 0 <= k < |after| ensures OfSome(after[k], some) {
      if k == at {
        assert some[i] == phdrs[i];
      } else {
        assert after[k] == before[if k < at then k else k - 1];
        assert OfSome(after[k], phdrs[..i]);
        var j :| 0 <= j < i && IsSegment(after[k], phdrs[..i][j]);
        assert some[j] == phdrs[..i][j];
      }
    }
    forall j | 0 <= j < |some| && some[j].typ == PT_LOAD ensures HasOne(after, some[j]) {
      if j < i {
        assert some[j] == phdrs[..i][j];
        var k :| 0 <= k < |before| && IsSegment(before[k], some[j]);
        assert after[if k < at then k else k + 1] == before[k];
      }
    }
  }

  lemma RecordsSame(mappings: seq<Mapping>, phdrs: seq<Phdr>, i: nat)
    requires i < |phdrs| && Records(mappings, phdrs[..i]) && phdrs[i].typ != PT_LOAD
    ensures Records(mappings, phdrs[..i + 1])
  {
    hide IsSegment;
    var some := phdrs[..i + 1];
    forall k | 0 <= k < |mappings| ensures OfSome(mappings[k], some) {
      assert OfSome(mappings[k], phdrs[..i]);
      var j :| 0 <= j < i && IsSegment(mappings[k], phdrs[..i][j]);
      assert some[j] == phdrs[..i][j];
    }
    forall j | 0 <= j < |some| && some[j].typ == PT_LOAD ensures HasOne(mappings, some[j]) {
      assert some[j] == phdrs[..i][j];
    }
  }

  predicate Overlap(p: Phdr, q: Phdr) {
    Base(p) < End(q) && Base(q) < End(p)
  }

  predicate OnStack(p: Phdr) {
    Base(p) < STACK_BASE + STACK_SIZE && STACK_BASE < End(p)
  }

  /** One of the segments reaches past the addresses that user code can use. */
  predicate SomeHigh(phdrs: seq<Phdr>) {
    exists i :: 0 <= i < |phdrs| && phdrs[i].typ == PT_LOAD && End(phdrs[i]) > USER_END
  }

  predicate OverlapsEarlier(phdrs: seq<Phdr>, i: nat)
    requires i < |phdrs|
  {
    exists j :: 0 <= j < i && phdrs[j].typ == PT_LOAD && Overlap(phdrs[j], phdrs[i])
  }

  /** The kernel's heap cannot hold what it is asked to, or there are no pages left. */
  ghost predicate Lacks(heap: bool, regions: seq<Bump>) {
    !heap || NoRoom(regions, MIN_PAGE_SIZE)
  }

  /** No pages are left over from failed calls, and no mapping reaches where it would share its pages with another. */
  ghost predicate Clean(mappings: seq<Mapping>, left: set<nat>) {
    left == {} && forall k :: 0 <= k < |mappings| ==> mappings[k].end <= SPAN
  }

  /** Why `vmspace_map` refuses, if not for lack of memory. */
  ghost predicate MapRefuses(mappings: seq<Mapping>, left: set<nat>, base: nat, end: nat, error: ErrorCode) {
    || (error == InvalidArg && base % MIN_PAGE_SIZE != 0)
    || (error == OutOfBounds && end >= WORDS)
    || (error == AlreadyExists && (AnyOverlaps(mappings, base, end) || end > USER_END || !Clean(mappings, left)))
    || ((error == NotAllowed || error == Unsupported) && end > USER_END)
  }

  /** Why a segment is refused, if not for lack of memory. */
  ghost predicate Refuses(mappings: seq<Mapping>, left: set<nat>, p: Phdr, error: ErrorCode) {
    || (error == InvalidArg && Length(p) == 0)
    || (error == OutOfBounds && p.vaddr + p.filesz > End(p))
    || MapRefuses(mappings, left, Base(p), End(p), error)
  }

  /** The same in terms of the segments alone: it is empty, too large, too high, or overlaps another. */
  predicate Hindered(phdrs: seq<Phdr>, i: nat, error: ErrorCode)
    requires i < |phdrs|
  {
    var p := phdrs[i];
    || (error == InvalidArg && Length(p) == 0)
    || (error == OutOfBounds && (p.vaddr + p.filesz > End(p) || End(p) >= WORDS))
    || (error == AlreadyExists && (OverlapsEarlier(phdrs, i) || SomeHigh(phdrs)))
    || ((error == NotAllowed || error == Unsupported) && End(p) > USER_END)
  }

  /** Why an executable is refused, if not for lack of memory: for one of its segments. */
  predicate Unfit(phdrs: seq<Phdr>, error: ErrorCode) {
    exists i :: 0 <= i < |phdrs| && phdrs[i].typ == PT_LOAD && Hindered(phdrs, i, error)
  }

  predicate StackUnfit(phdrs: seq<Phdr>, error: ErrorCode) {
    error == AlreadyExists &&
    (SomeHigh(phdrs) || exists i :: 0 <= i < |phdrs| && phdrs[i].typ == PT_LOAD && OnStack(phdrs[i]))
  }

  lemma NotClean(mappings: seq<Mapping>, left: set<nat>, phdrs: seq<Phdr>)
    requires Records(mappings, phdrs) && left == {} && !Clean(mappings, left)
    ensures SomeHigh(phdrs)
  {
    hide Allows;
    var k :| 0 <= k < |mappings| && mappings[k].end > SPAN;
    assert OfSome(mappings[k], phdrs);
  }

  lemma HighAmongMore(phdrs: seq<Phdr>, i: nat)
    requires i <= |phdrs| && SomeHigh(phdrs[..i])
    ensures SomeHigh(phdrs)
  {
    var j :| 0 <= j < i && phdrs[..i][j].typ == PT_LOAD && End(phdrs[..i][j]) > USER_END;
    assert phdrs[j] == phdrs[..i][j];
  }

  lemma WhyOverlaps(mappings: seq<Mapping>, phdrs: seq<Phdr>, i: nat)
    requires i < |phdrs| && Records(mappings, phdrs[..i])
    requires AnyOverlaps(mappings, Base(phdrs[i]), End(phdrs[i]))
    ensures OverlapsEarlier(phdrs, i)
  {
    hide Allows, Base, End, HasOne;
    var k :| 0 <= k < |mappings| && OverlapsWith(mappings[k], Base(phdrs[i]), End(phdrs[i]));
    assert OfSome(mappings[k], phdrs[..i]);
    var j :| 0 <= j < i && IsSegment(mappings[k], phdrs[..i][j]);
    assert phdrs[j] == phdrs[..i][j] && Overlap(phdrs[j], phdrs[i]);
  }

  lemma WhyRefused(mappings: seq<Mapping>, left: set<nat>, phdrs: seq<Phdr>, i: nat, error: ErrorCode)
    requires i < |phdrs| && phdrs[i].typ == PT_LOAD && Records(mappings, phdrs[..i]) && left == {}
    requires Refuses(mappings, left, phdrs[i], error)
    ensures Unfit(phdrs, error)
  {
    hide Base, Length, End, Clean, Records, OverlapsEarlier, AnyOverlaps;
    SegmentBounds(phdrs[i]);
    if AnyOverlaps(mappings, Base(phdrs[i]), End(phdrs[i])) { WhyOverlaps(mappings, phdrs, i); }
    if !Clean(mappings, left) {
      NotClean(mappings, left, phdrs[..i]);
      HighAmongMore(phdrs, i);
    }
    assert End(phdrs[i]) > USER_END ==> SomeHigh(phdrs);
    assert Hindered(phdrs, i, error);
  }

  lemma WhyStackRefused(mappings: seq<Mapping>, left: set<nat>, phdrs: seq<Phdr>, error: ErrorCode)
    requires Records(mappings, phdrs) && left == {}
    requires MapRefuses(mappings, left, STACK_BASE, STACK_BASE + STACK_SIZE, error)
    ensures StackUnfit(phdrs, error)
  {
    hide Allows, Base, Length, End, Clean;
    if !Clean(mappings, left) {
      NotClean(mappings, left, phdrs);
    } else {
      var k :| 0 <= k < |mappings| && OverlapsWith(mappings[k], STACK_BASE, STACK_BASE + STACK_SIZE);
      assert OfSome(mappings[k], phdrs);
      var i :| 0 <= i < |phdrs| && IsSegment(mappings[k], phdrs[i]);
      assert OnStack(phdrs[i]);
    }
  }

  datatype Step = Loaded | Stopped(error: ErrorCode) | Crashed

  /** A fresh area of zeros, which owns no frame yet. */
  method FreshArea(space: VmSpace, len: nat, heap: bool) returns (r: Result<VmArea>)
    requires space.Valid() && len < WORDS
    ensures space.Valid() && space.arch.m.Valid() && space.arch.m.data.Keys <= space.arch.m.owner.Keys
    ensures r.Ok? ==> fresh(r.value) && r.value.Valid() && r.value.m == space.arch.m && r.value.len == len > 0
    ensures r.Ok? ==> r.value.Contents() == seq(len, _ => 0)
    ensures r.Ok? ==> forall f :: f in space.arch.m.owner ==> space.arch.m.owner[f] != r.value
    ensures r.Err? ==>
      || (r == Err(InvalidArg) && (len == 0 || len % MIN_PAGE_SIZE != 0))
      || (r == Err(OutOfMemory) && !heap)
  {
    hide Machine.Valid, PageTable.Valid, VmSpace.Valid, Extends, SameLoads;
    space.MachineOk();
    ExtendsNothing(space.arch.m.Now(), {});
    var room: bool := *;
    r := VmArea.NewAnonymous(space.arch.m, len, heap || room);
    space.Bystander({});
  }

  /**
   A fresh area of zeros with `n` bytes of the file written at `offset`. The slice of the file is taken unchecked,
   so it crashes the caller if the file is too short.
   */
  method FillArea(space: VmSpace, len: nat, offset: nat, file: Bytes, at: nat, n: nat, heap: bool)
    returns (r: Step, area: VmArea?)
    requires space.Valid() && len < WORDS
    modifies space.arch.m, space.arch.m.pages
    ensures space.Valid() && Extends(old(space.arch.m.Now()), space.arch.m.Now(), {})
    ensures r.Loaded? ==> at + n <= |file| && offset + n <= len && len > 0
    ensures r.Crashed? ==> at + n > |file|
    ensures r.Stopped? ==>
      || (r.error == InvalidArg && (len == 0 || len % MIN_PAGE_SIZE != 0))
      || (r.error == OutOfBounds && offset + n > len)
      || (r.error == OutOfMemory && Lacks(heap, space.arch.m.pages.regions))
    ensures r.Loaded? ==> area != null && fresh(area) && area.Valid() && area.m == space.arch.m && area.len == len
    ensures r.Loaded? ==> area.Contents() == Splice(seq(len, _ => 0), offset, file[at..at + n])
  {
    hide Machine.Valid, Splice, PageTable.Valid, Undisturbed, VmSpace.Valid, Extends, SameLoads, Kept, Grows, NoRoom;
    ghost var m, before := space.arch.m, space.arch.m.owner;
    ExtendsNothing(m.Now(), {});
    var created := FreshArea(space, len, heap);
    if created.Err? { return Stopped(created.error), null; }
    area := created.value;
    if at + n > |file| { return Crashed, null; }
    var bytes := file[at..at + n];
    var written, done := area.Write(offset, bytes);
    NobodyDisturbed(old(m.data), before, m.data, m.owner, area);
    TakingExtends(old(m.Now()), m.Now(), {});
    AreaSize(area);
    space.Bystander({});
    if written.Err? { return Stopped(written.error), null; }
    assert bytes[..done] == bytes;
    r := Loaded;
  }

  lemma NobodyDisturbed(data: Data, owner: map<nat, object>, data': Data, owner': map<nat, object>, who: object)
    requires Undisturbed(data, owner, data', owner', who) && data.Keys <= owner.Keys
    requires forall f :: f in owner ==> owner[f] != who
    ensures Grows(data, data') && Kept(owner, owner')
  {
  }

  /** `vmspace_map`: afterwards user memory holds the area's bytes, and can be written there if `attrs` says so. */
  method MapArea(space: VmSpace, area: VmArea, base: nat, attrs: nat, heap: bool) returns (r: Result<()>)
    requires space.Valid() && area.Valid() && area.m == space.arch.m && IsAttrs(attrs)
    modifies space, space.arch, space.arch.m, space.arch.m.pages, area
    ensures space.Valid() && Extends(old(space.arch.m.Now()), space.arch.m.Now(), {space.arch.m, space.arch})
    ensures r.Ok? ==> base + area.len < WORDS
    ensures r.Ok? ==>
      Holds(space.arch.m.tables, space.arch.m.data, space.arch.root, base, old(area.Contents()))
    ensures r.Ok? ==> AllGranted(space.arch.m.tables, space.arch.root, base, base + area.len, Writable(attrs))
    ensures r.Ok? ==> space.left == old(space.left)
    ensures r.Ok? ==> space.mappings == Inserted(old(space.mappings), Mapping(base, base + area.len, area, attrs))
    ensures r.Err? ==>
      || MapRefuses(old(space.mappings), old(space.left), base, base + area.len, r.error)
      || (r == Err(OutOfMemory) && Lacks(heap, space.arch.m.pages.regions))
  {
    hide Machine.Valid, PageTable.Valid, VmSpace.Valid, LaidOnly, Laid, Load, Inserted, PartitionPoint, VmArea.Valid;
    hide Extends, Walk, AnyOverlaps, NoRoom, AllGranted, Clean, Covered;
    ghost var m, tables, clean := space.arch.m, space.arch.m.tables, Clean(space.mappings, space.left);
    AreaLength(area);
    OnlyCovered(space);
    var room: bool := *;
    ghost var laid;
    r, laid := space.Map(area, base, attrs, heap || room);
    if r.Err? {
      if clean && laid < |area.pages| {
        OverlapsThere(old(space.mappings), base, base + area.len, base + MIN_PAGE_SIZE * laid);
      }
      return;
    }
    ghost var n := Mapping(base, base + area.len, area, attrs);
    ghost var k := PartitionPoint(old(space.mappings), base);
    InsertedAt(old(space.mappings), n);
    space.MappingAt(k);
    space.GrantsMapping(n);
    forall v: nat | base <= v < base + area.len && v < USER_END
      ensures Load(m.tables, m.data, space.arch.root, v) == Some(area.Contents()[v - base])
    {
      space.LoadsMapping(n, v);
    }
  }

  /** In a clean space, only what a mapping covers is mapped. */
  lemma OnlyCovered(space: VmSpace)
    requires space.Valid()
    ensures Clean(space.mappings, space.left) ==>
      forall u: nat :: u < USER_END && Walk(space.arch.m.tables, space.arch.root, u).Some? ==>
        Covered(space.mappings, u)
  {
    hide VmSpace.Valid, Walk, Covered;
    if Clean(space.mappings, space.left) {
      forall u: nat | u < USER_END && Walk(space.arch.m.tables, space.arch.root, u).Some?
        ensures Covered(space.mappings, u)
      {
        space.MappedIsCovered(u);
      }
    }
  }

  lemma OverlapsThere(mappings: seq<Mapping>, start: nat, end: nat, u: nat)
    requires start <= u < end
    ensures Covered(mappings, u) ==> AnyOverlaps(mappings, start, end)
  {
    if Covered(mappings, u) {
      var i :| 0 <= i < |mappings| && mappings[i].start <= u < mappings[i].end;
      assert OverlapsWith(mappings[i], start, end);
    }
  }

  /**
   The body of the loop over the program headers, for one of type PT_LOAD. Sums that overflow crash the caller if
   overflow is `checked`, as in a debug build; otherwise they wrap around.
   */
  method LoadSegment(space: VmSpace, file: Bytes, p: Phdr, checked: bool, heap: bool) returns (r: Step)
    requires space.Valid() && IsPhdr(p) && p.typ == PT_LOAD
    modifies space, space.arch, space.arch.m, space.arch.m.pages
    ensures space.Valid() && Extends(old(space.arch.m.Now()), space.arch.m.Now(), {space.arch.m, space.arch})
    ensures r.Loaded? ==> SegmentIn(space.arch.m.tables, space.arch.m.data, space.arch.root, file, p)
    ensures r.Loaded? ==> Adds(old(space.mappings), space.mappings, p) && space.left == old(space.left)
    ensures r.Loaded? && checked ==> !RoundingOverflows(p)
    ensures r.Crashed? ==> !InFile(file, p) || (checked && RoundingOverflows(p))
    ensures checked && RoundingOverflows(p) ==> r.Crashed?
    ensures r.Stopped? ==>
      || Refuses(old(space.mappings), old(space.left), p, r.error)
      || (r.error == OutOfMemory && Lacks(heap, space.arch.m.pages.regions))
  {
    hide Machine.Valid, PageTable.Valid, VmSpace.Valid, Load, Splice, AlignDown, AlignUp, VmArea.Valid, Holds, Extends;
    hide Length, Attrs, AllGranted, SegmentIn, MapRefuses, Inserted, PartitionPoint, NoRoom, Adds;
    ghost var m, who: set<object> := space.arch.m, {space.arch.m, space.arch};
    SegmentMasks(p);
    SegmentBounds(p);
    AttrsAre(p);
    var base := AlignDown(p.vaddr, MIN_PAGE_SIZE);
    var offset := p.vaddr - base;
    if checked && (offset + p.memsz >= WORDS || CheckedAlignUp(offset + p.memsz, MIN_PAGE_SIZE).None?) {
      ExtendsNothing(m.Now(), who);
      return Crashed;
    }
    var len := AlignUp((offset + p.memsz) % WORDS, MIN_PAGE_SIZE);
    var area: VmArea?;
    r, area := FillArea(space, len, offset, file, p.offset, p.filesz, heap);
    ghost var filled := m.Now();
    ExtendsWider(old(m.Now()), filled, {}, who);
    if !r.Loaded? { return; }
    ghost var contents := area.Contents();
    var mapped := MapArea(space, area, base, Attrs(p), heap);
    ExtendsTwice(old(m.Now()), filled, m.Now(), who);
    if mapped.Err? { return Stopped(mapped.error); }
    HeldSegment(m.tables, m.data, space.arch.root, file, p, contents);
    AddsInserted(old(space.mappings), Mapping(base, base + len, area, Attrs(p)), p);
  }

  lemma AddsInserted(mappings: seq<Mapping>, n: Mapping, p: Phdr)
    requires IsSegment(n, p)
    ensures Adds(mappings, Inserted(mappings, n), p)
  {
    hide PartitionPoint, IsSegment, Inserted, Without;
    InsertedWithout(mappings, n);
  }

  lemma HeldSegment(mem: Memory, data: Data, root: nat, file: Bytes, p: Phdr, contents: Bytes)
    requires InFile(file, p) && p.vaddr % MIN_PAGE_SIZE + p.filesz <= Length(p) && 0 < Length(p) && End(p) < WORDS
    requires contents == Splice(seq(Length(p), _ => 0), p.vaddr % MIN_PAGE_SIZE, file[p.offset..p.offset + p.filesz])
    requires Holds(mem, data, root, Base(p), contents)
    requires AllGranted(mem, root, Base(p), End(p), p.flags / 2 % 2 == 1)
    ensures SegmentIn(mem, data, root, file, p)
  {
    hide Load, Splice, Length, AllGranted, SegmentByte;
    SegmentBounds(p);
    forall v: nat | p.vaddr <= v < End(p) && v < USER_END
      ensures Load(mem, data, root, v) == Some(SegmentByte(file, p, v))
    {
      AreaIsSegment(file, p, contents, v);
    }
    forall v: nat | p.vaddr <= v < p.vaddr + p.filesz
      ensures SegmentByte(file, p, v) == file[p.offset + (v - p.vaddr)]
    {
      FilePart(file, p, v);
    }
  }

  lemma FilePart(file: Bytes, p: Phdr, v: nat)
    requires InFile(file, p) && p.vaddr <= v < p.vaddr + p.filesz
    ensures SegmentByte(file, p, v) == file[p.offset + (v - p.vaddr)]
  {
  }

  // -- the program header table

  predicate HoldsTable(p: Phdr, phoff: nat) {
    p.typ == PT_LOAD && p.offset <= phoff < p.offset + p.filesz < WORDS
  }

  function UaddrIn(p: Phdr, phoff: nat): nat
    requires p.offset <= phoff
  {
    (p.vaddr + (phoff - p.offset)) % WORDS
  }

  /** A sum formed in search of the table overflows. */
  predicate TableOverflows(p: Phdr, phoff: nat) {
    p.offset + p.filesz >= WORDS || (HoldsTable(p, phoff) && p.vaddr + (phoff - p.offset) >= WORDS)
  }

  /** Where the program header table lies in user memory: in the first segment that contains it. */
  function PhdrUaddr(phdrs: seq<Phdr>, phoff: nat): Option<nat> {
    if phdrs == [] then None
    else
      var n := |phdrs| - 1;
      var before := PhdrUaddr(phdrs[..n], phoff);
      if before.None? && HoldsTable(phdrs[n], phoff) then Some(UaddrIn(phdrs[n], phoff)) else before
  }

  /** From `u` on, user memory holds the file from the table to the end of segment `p`, as far as in user space. */
  ghost predicate TableAt(mem: Memory, data: Data, root: nat, file: Bytes, p: Phdr, phoff: nat, u: nat)
    requires InFile(file, p)
  {
    forall w: nat :: u <= w < u + (p.offset + p.filesz - phoff) && w < USER_END ==>
                       Load(mem, data, root, w) == Some(file[phoff + (w - u)])
  }

  /**
   What the address in AT_PHDR tells the process: from there on it can load its program headers, as they are in the
   first segment that holds them; or no segment holds them, and the address is zero.
   */
  ghost predicate TableTold(mem: Memory, data: Data, root: nat, file: Bytes, phdrs: seq<Phdr>, phoff: nat, u: nat) {
    || (u == 0 && forall i :: 0 <= i < |phdrs| ==> !HoldsTable(phdrs[i], phoff))
    || exists i :: 0 <= i < |phdrs| && FirstHolds(phdrs, i, phoff) && InFile(file, phdrs[i])
                   && TableAt(mem, data, root, file, phdrs[i], phoff, u)
  }

  predicate FirstHolds(phdrs: seq<Phdr>, i: nat, phoff: nat)
    requires i < |phdrs|
  {
    HoldsTable(phdrs[i], phoff) && forall j :: 0 <= j < i ==> !HoldsTable(phdrs[j], phoff)
  }

  lemma {:induction false} FirstHolder(phdrs: seq<Phdr>, phoff: nat)
    ensures match PhdrUaddr(phdrs, phoff)
      case None => forall i :: 0 <= i < |phdrs| ==> !HoldsTable(phdrs[i], phoff)
      case Some(u) => exists i :: 0 <= i < |phdrs| && FirstHolds(phdrs, i, phoff) && u == UaddrIn(phdrs[i], phoff)
  {
    hide UaddrIn;
    if phdrs != [] {
      var n := |phdrs| - 1;
      var init := phdrs[..n];
      FirstHolder(init, phoff);
      if PhdrUaddr(init, phoff).Some? {
        var i :| 0 <= i < n && FirstHolds(init, i, phoff) && PhdrUaddr(init, phoff).value == UaddrIn(init[i], phoff);
        assert init[i] == phdrs[i] && FirstHolds(phdrs, i, phoff);
      } else if HoldsTable(phdrs[n], phoff) {
        assert FirstHolds(phdrs, n, phoff);
      }
    }
  }

  lemma TableLoads(mem: Memory, data: Data, root: nat, file: Bytes, phdrs: seq<Phdr>, phoff: nat)
    requires AllSegmentsIn(mem, data, root, file, phdrs)
    ensures TableTold(mem, data, root, file, phdrs, phoff, PhdrUaddr(phdrs, phoff).UnwrapOr(0))
  {
    hide Load, AllGranted, PhdrUaddr, Length;
    FirstHolder(phdrs, phoff);
    if PhdrUaddr(phdrs, phoff).Some? {
      var u := PhdrUaddr(phdrs, phoff).value;
      var i :| 0 <= i < |phdrs| && FirstHolds(phdrs, i, phoff) && u == UaddrIn(phdrs[i], phoff);
      var p := phdrs[i];
      assert SegmentIn(mem, data, root, file, p) && u == p.vaddr + (phoff - p.offset);
      assert TableAt(mem, data, root, file, p, phoff, u);
    }
  }

  /** Every loadable segment is in user memory, all at once. */
  ghost predicate AllSegmentsIn(mem: Memory, data: Data, root: nat, file: Bytes, phdrs: seq<Phdr>) {
    forall i :: 0 <= i < |phdrs| && phdrs[i].typ == PT_LOAD ==> SegmentIn(mem, data, root, file, phdrs[i])
  }

  lemma AllSegmentsKept(a: Frames, b: Frames, who: set<object>, root: nat, file: Bytes, phdrs: seq<Phdr>)
    requires AllSegmentsIn(a.tables, a.data, root, file, phdrs) && Extends(a, b, who)
    ensures AllSegmentsIn(b.tables, b.data, root, file, phdrs)
  {
    hide Extends, SegmentIn;
    forall i | 0 <= i < |phdrs| && phdrs[i].typ == PT_LOAD ensures SegmentIn(b.tables, b.data, root, file, phdrs[i]) {
      SegmentKept(a, b, who, root, file, phdrs[i]);
    }
  }

  /** A segment that crashes the caller: one that is not in the file, or whose sums overflow if that is checked. */
  predicate Crashes(file: Bytes, p: Phdr, phoff: nat, checked: bool) {
    p.typ == PT_LOAD && (!InFile(file, p) || (checked && (RoundingOverflows(p) || TableOverflows(p, phoff))))
  }

  predicate SomeCrashes(file: Bytes, elf: Elf, checked: bool) {
    exists i :: 0 <= i < |elf.phdrs| && Crashes(file, elf.phdrs[i], elf.phoff, checked)
  }

  predicate NoneOverflows(phdrs: seq<Phdr>) {
    forall i :: 0 <= i < |phdrs| && phdrs[i].typ == PT_LOAD ==> !RoundingOverflows(phdrs[i])
  }

  /** If no segment before held the table, does this one? */
  function NoteTable(u: Option<nat>, p: Phdr, phoff: nat, checked: bool): (r: Option<Option<nat>>)
    requires IsPhdr(p) && p.typ == PT_LOAD
    ensures r.None? ==> checked && TableOverflows(p, phoff)
    ensures r.Some? ==> r.value == if u.None? && HoldsTable(p, phoff) then Some(UaddrIn(p, phoff)) else u
  {
    if u.Some? || phoff < p.offset then Some(u)
    else if checked && TableOverflows(p, phoff) then None
    else if phoff < (p.offset + p.filesz) % WORDS then Some(Some((p.vaddr + (phoff - p.offset)) % WORDS))
    else Some(u)
  }

  /** The loop over the program headers. */
  method LoadSegments(space: VmSpace, file: Bytes, elf: Elf, checked: bool, heap: bool)
    returns (r: Step, phdrUaddr: Option<nat>)
    requires space.Valid() && space.mappings == [] && space.left == {} && IsElf(elf)
    modifies space, space.arch, space.arch.m, space.arch.m.pages
    ensures space.Valid() && Extends(old(space.arch.m.Now()), space.arch.m.Now(), {space.arch.m, space.arch})
    ensures r.Loaded? ==> phdrUaddr == PhdrUaddr(elf.phdrs, elf.phoff)
    ensures r.Loaded? ==>
      AllSegmentsIn(space.arch.m.tables, space.arch.m.data, space.arch.root, file, elf.phdrs)
    ensures r.Loaded? ==> Records(space.mappings, elf.phdrs) && space.left == {}
    ensures r.Crashed? ==> SomeCrashes(file, elf, checked)
    ensures r.Stopped? ==>
      Unfit(elf.phdrs, r.error) || (r.error == OutOfMemory && Lacks(heap, space.arch.m.pages.regions))
    ensures r.Loaded? && checked ==> NoneOverflows(elf.phdrs)
  {
    hide Machine.Valid, PageTable.Valid, VmSpace.Valid, Load, SegmentIn, Extends, NoteTable, Records, Adds, Refuses;
    hide Unfit, NoRoom;
    phdrUaddr := None;
    ghost var m, root, who: set<object> := space.arch.m, space.arch.root, {space.arch.m, space.arch};
    ExtendsNothing(m.Now(), who);
    RecordsNothing(elf.phdrs[..0]);
    for i := 0 to |elf.phdrs|
      invariant space.Valid() && phdrUaddr == PhdrUaddr(elf.phdrs[..i], elf.phoff)
      invariant Extends(old(m.Now()), m.Now(), who) && (checked ==> NoneOverflows(elf.phdrs[..i]))
      invariant AllSegmentsIn(m.tables, m.data, root, file, elf.phdrs[..i])
      invariant Records(space.mappings, elf.phdrs[..i]) && space.left == {}
    {
      var phdr := elf.phdrs[i];
      assert elf.phdrs[..i + 1][..i] == elf.phdrs[..i];
      if phdr.typ != PT_LOAD {
        RecordsSame(space.mappings, elf.phdrs, i);
        continue;
      }
      var noted := NoteTable(phdrUaddr, phdr, elf.phoff, checked);
      if noted.None? { return Crashed, None; }
      phdrUaddr := noted.value;
      ghost var before, mappings := m.Now(), space.mappings;
      r := LoadSegment(space, file, phdr, checked, heap);
      ExtendsTwice(old(m.Now()), before, m.Now(), who);
      if r.Stopped? {
        if Refuses(mappings, {}, phdr, r.error) { WhyRefused(mappings, {}, elf.phdrs, i, r.error); }
        return;
      }
      if r.Crashed? { return; }
      AllSegmentsKept(before, m.Now(), who, root, file, elf.phdrs[..i]);
      RecordsMore(mappings, space.mappings, elf.phdrs, i);
    }
    assert elf.phdrs[..|elf.phdrs|] == elf.phdrs;
    r := Loaded;
  }

  lemma RecordsNothing(phdrs: seq<Phdr>)
    requires phdrs == []
    ensures Records([], phdrs)
  {
  }

  // -- the whole image

  const HELLO: Bytes := [104, 101, 108, 108, 111, 0]

  function FourFours(): Bytes {
    seq(16, _ => 52)
  }

  /** What the process is told at its start: the name "hello", no environment, sixteen fours, and its own headers. */
  predicate Tells(a: Args, elf: Elf, phdr: nat) {
    && a.argv == [[104, 101, 108, 108, 111, 0]] && a.env == []
    && a.random == [52, 52, 52, 52, 52, 52, 52, 52, 52, 52, 52, 52, 52, 52, 52, 52]
    && a.phdr == phdr && a.phent == elf.phentsize && a.phnum == elf.phnum && a.entry == elf.entry
  }

  lemma {:induction false} TableUaddrIsWord(phdrs: seq<Phdr>, phoff: nat)
    ensures PhdrUaddr(phdrs, phoff).UnwrapOr(0) < WORDS
  {
    if phdrs != [] { TableUaddrIsWord(phdrs[..|phdrs| - 1], phoff); }
  }

  lemma ArgsFit(a: Args, elf: Elf)
    requires Tells(a, elf, PhdrUaddr(elf.phdrs, elf.phoff).UnwrapOr(0))
    ensures IsElf(elf) ==> IsSane(a)
    ensures Unpadded(a) == 182 && Fits(a)
    ensures AllTerminated(a.argv) && AllTerminated(a.env)
  {
    assert Concat([HELLO]) == Concat([]) + HELLO;
    TableUaddrIsWord(elf.phdrs, elf.phoff);
  }

  lemma HoldsPart(mem: Memory, data: Data, root: nat, base: nat, s: Bytes, at: nat, b: Bytes)
    requires at + |b| <= |s| && Holds(mem, data, root, base, Splice(s, at, b))
    ensures Holds(mem, data, root, base + at, b)
  {
    hide Load;
    var t := Splice(s, at, b);
    forall v: nat | base + at <= v < base + at + |b| && v < USER_END
      ensures Load(mem, data, root, v) == Some(b[v - (base + at)])
    {
      assert t[v - base] == b[v - base - at];
    }
  }

  function ZeroStack(): (b: Bytes)
    ensures |b| == STACK_SIZE
  {
    seq(STACK_SIZE, _ => 0)
  }

  /** The bytes are at the end of the stack, from `sp` on, after zeros. */
  ghost predicate EndsWith(contents: Bytes, sp: nat, img: Bytes) {
    && STACK_BASE <= sp && sp - STACK_BASE + |img| == STACK_SIZE
    && contents == Splice(ZeroStack(), sp - STACK_BASE, img)
  }

  /** The image that reads as promised is at the end of the stack. */
  ghost predicate IsStack(contents: Bytes, sp: nat, a: Args) {
    Fits(a) && Reads(Image(a), sp, a) && EndsWith(contents, sp, Image(a))
  }

  /** The stack: allocated and built. It fails by crashing the caller when building it fails. */
  method FillStack(space: VmSpace, elf: Elf, phdrUaddr: Option<nat>, heap: bool)
    returns (r: Step, stack: VmArea?, sp: nat, ghost a: Args)
    requires space.Valid() && phdrUaddr == PhdrUaddr(elf.phdrs, elf.phoff) && IsElf(elf)
    modifies space.arch.m, space.arch.m.pages
    ensures space.Valid() && Extends(old(space.arch.m.Now()), space.arch.m.Now(), {})
    ensures r.Loaded? ==> stack != null && fresh(stack) && stack.Valid() && stack.m == space.arch.m
    ensures r.Loaded? ==> stack.len == STACK_SIZE && IsStack(stack.Contents(), sp, a)
    ensures Tells(a, elf, phdrUaddr.UnwrapOr(0))
    ensures r.Crashed? ==> NoRoom(space.arch.m.pages.regions, MIN_PAGE_SIZE)
    ensures r.Stopped? ==> r.error == OutOfMemory && !heap
  {
    hide Machine.Valid, PageTable.Valid, VmSpace.Valid, Splice, VmArea.Valid, Image, Reads, Undisturbed;
    hide Unpadded, NoRoom, Kept, Grows, Extends, SameLoads;
    var args := Args([HELLO], [], FourFours(), phdrUaddr.UnwrapOr(0), elf.phentsize, elf.phnum, elf.entry);
    a := args;
    ArgsFit(a, elf);
    ghost var m, before := space.arch.m, space.arch.m.owner;
    ExtendsNothing(m.Now(), {});
    stack, sp := null, 0;
    var created := FreshArea(space, STACK_SIZE, heap);
    if created.Err? {
      r := Stopped(created.error);
      return;
    }
    stack := created.value;
    var built := BuildInitialStack(stack, args);
    NobodyDisturbed(old(m.data), before, m.data, m.owner, stack);
    AreaSize(stack);
    TakingExtends(old(m.Now()), m.Now(), {});
    space.Bystander({});
    if built.Failed? {
      r := Crashed;
      return;
    }
    sp := built.value;
    r := Loaded;
  }

  /** The process finds the image of `a` at `sp`, on a stack that it can write. */
  ghost predicate StackIn(mem: Memory, data: Data, root: nat, sp: nat, a: Args) {
    && Fits(a) && Reads(Image(a), sp, a)
    && STACK_BASE <= sp && sp + |Image(a)| == STACK_BASE + STACK_SIZE <= USER_END
    && Holds(mem, data, root, STACK_BASE, Splice(ZeroStack(), sp - STACK_BASE, Image(a)))
    && Holds(mem, data, root, sp, Image(a))
    && AllGranted(mem, root, STACK_BASE, STACK_BASE + STACK_SIZE, true)
  }

  /** The stack, in user memory. */
  method SetUpStack(space: VmSpace, elf: Elf, phdrUaddr: Option<nat>, heap: bool)
    returns (r: Step, sp: nat, ghost a: Args)
    requires space.Valid() && phdrUaddr == PhdrUaddr(elf.phdrs, elf.phoff) && IsElf(elf)
    modifies space, space.arch, space.arch.m, space.arch.m.pages
    ensures space.Valid() && Extends(old(space.arch.m.Now()), space.arch.m.Now(), {space.arch.m, space.arch})
    ensures Tells(a, elf, phdrUaddr.UnwrapOr(0))
    ensures r.Loaded? ==> StackIn(space.arch.m.tables, space.arch.m.data, space.arch.root, sp, a)
    ensures r.Loaded? ==> AddsStack(old(space.mappings), space.mappings) && space.left == old(space.left)
    ensures r.Crashed? ==> NoRoom(space.arch.m.pages.regions, MIN_PAGE_SIZE)
    ensures r.Stopped? ==>
      || MapRefuses(old(space.mappings), old(space.left), STACK_BASE, STACK_BASE + STACK_SIZE, r.error)
      || (r.error == OutOfMemory && Lacks(heap, space.arch.m.pages.regions))
  {
    hide Machine.Valid, PageTable.Valid, VmSpace.Valid, Load, Splice, VmArea.Valid, Holds, Image, Reads, NoRoom;
    hide Extends, Fits, Tells, AllGranted, Inserted, MapRefuses, PartitionPoint, AddsStack;
    ghost var m, root, who: set<object> := space.arch.m, space.arch.root, {space.arch.m, space.arch};
    var stack: VmArea?;
    r, stack, sp, a := FillStack(space, elf, phdrUaddr, heap);
    ghost var filled := m.Now();
    ExtendsWider(old(m.Now()), filled, {}, who);
    if !r.Loaded? { return; }
    ReadAndWrite();
    var mapped := MapArea(space, stack, STACK_BASE, Or(READ, WRITE), heap);
    ExtendsTwice(old(m.Now()), filled, m.Now(), who);
    if mapped.Err? {
      r := Stopped(mapped.error);
      return;
    }
    HoldsPart(m.tables, m.data, root, STACK_BASE, ZeroStack(), sp - STACK_BASE, Image(a));
    AddsStackInserted(old(space.mappings), Mapping(STACK_BASE, STACK_BASE + STACK_SIZE, stack, Or(READ, WRITE)));
  }

  lemma ReadAndWrite()
    ensures Or(READ, WRITE) == 3
  {
    assert Or(1, 2) == 3;
  }

  lemma AddsStackInserted(mappings: seq<Mapping>, n: Mapping)
    requires IsStackArea(n)
    ensures AddsStack(mappings, Inserted(mappings, n))
  {
    hide PartitionPoint, IsStackArea, Inserted, Without;
    InsertedWithout(mappings, n);
  }

  /** The mappings of a process: its segments and its stack. */
  ghost predicate IsImage(mappings: seq<Mapping>, phdrs: seq<Phdr>) {
    exists k :: 0 <= k < |mappings| && IsStackArea(mappings[k]) && Records(Without(mappings, k), phdrs)
  }

  /** Address `v` is on a page of a segment, or on the stack. */
  predicate InImage(phdrs: seq<Phdr>, v: nat) {
    || STACK_BASE <= v < STACK_BASE + STACK_SIZE
    || exists i :: 0 <= i < |phdrs| && phdrs[i].typ == PT_LOAD && Base(phdrs[i]) <= v < End(phdrs[i])
  }

  /** What a process starts with: all of its segments, its stack, and nothing else that it could load. */
  ghost predicate Starts(mem: Memory, data: Data, root: nat, file: Bytes, elf: Elf, sp: nat, a: Args) {
    && AllSegmentsIn(mem, data, root, file, elf.phdrs)
    && StackIn(mem, data, root, sp, a)
    && Tells(a, elf, a.phdr) && TableTold(mem, data, root, file, elf.phdrs, elf.phoff, a.phdr)
    && (!SomeHigh(elf.phdrs) ==>
          forall v: nat :: v < USER_END ==> (Load(mem, data, root, v).Some? <==> InImage(elf.phdrs, v)))
  }

  /** A mapping of the image is a segment's, or the stack. */
  lemma OfImage(mappings: seq<Mapping>, at: nat, k: nat, phdrs: seq<Phdr>)
    requires at < |mappings| && k < |mappings| && IsStackArea(mappings[at]) && Records(Without(mappings, at), phdrs)
    ensures k != at ==> OfSome(mappings[k], phdrs)
  {
    hide OfSome, HasOne;
    if k != at { assert mappings[k] == Without(mappings, at)[if k < at then k else k - 1]; }
  }

  lemma CoveredIsInImage(mappings: seq<Mapping>, phdrs: seq<Phdr>, v: nat)
    requires IsImage(mappings, phdrs)
    ensures Covered(mappings, v) ==> InImage(phdrs, v)
  {
    hide Base, End, Allows, Records, Without;
    var at :| 0 <= at < |mappings| && IsStackArea(mappings[at]) && Records(Without(mappings, at), phdrs);
    if Covered(mappings, v) {
      var k :| 0 <= k < |mappings| && mappings[k].start <= v < mappings[k].end;
      OfImage(mappings, at, k, phdrs);
    }
  }

  lemma InImageIsCovered(mappings: seq<Mapping>, phdrs: seq<Phdr>, v: nat)
    requires IsImage(mappings, phdrs)
    ensures InImage(phdrs, v) ==> Covered(mappings, v)
  {
    hide Base, End, Allows, OfSome;
    var at :| 0 <= at < |mappings| && IsStackArea(mappings[at]) && Records(Without(mappings, at), phdrs);
    var rest := Without(mappings, at);
    if i :| 0 <= i < |phdrs| && phdrs[i].typ == PT_LOAD && Base(phdrs[i]) <= v < End(phdrs[i]) {
      assert HasOne(rest, phdrs[i]);
      var k :| 0 <= k < |rest| && IsSegment(rest[k], phdrs[i]);
      assert mappings[if k < at then k else k + 1] == rest[k];
    }
  }

  lemma LowImage(mappings: seq<Mapping>, phdrs: seq<Phdr>)
    requires IsImage(mappings, phdrs) && !SomeHigh(phdrs)
    ensures forall k :: 0 <= k < |mappings| ==> mappings[k].end <= SPAN
  {
    hide Base, End, Allows, Records, Without;
    var at :| 0 <= at < |mappings| && IsStackArea(mappings[at]) && Records(Without(mappings, at), phdrs);
    forall k | 0 <= k < |mappings| ensures mappings[k].end <= SPAN {
      OfImage(mappings, at, k, phdrs);
    }
  }

  /** User code can load from the pages of the image, and from no others. */
  lemma NothingElseLoads(space: VmSpace, phdrs: seq<Phdr>)
    requires space.Valid() && space.left == {} && IsImage(space.mappings, phdrs) && !SomeHigh(phdrs)
    ensures forall v: nat :: v < USER_END ==>
      (Load(space.arch.m.tables, space.arch.m.data, space.arch.root, v).Some? <==> InImage(phdrs, v))
  {
    hide VmSpace.Valid, Load, Covered, InImage, IsImage, SomeHigh;
    LowImage(space.mappings, phdrs);
    space.AgreesExactly();
    forall v: nat | v < USER_END ensures Covered(space.mappings, v) <==> InImage(phdrs, v) {
      CoveredIsInImage(space.mappings, phdrs, v);
      InImageIsCovered(space.mappings, phdrs, v);
    }
  }

  /** Why an executable is refused. */
  ghost predicate Refusal(phdrs: seq<Phdr>, error: ErrorCode, lack: bool) {
    Unfit(phdrs, error) || StackUnfit(phdrs, error) || (error == OutOfMemory && lack)
  }

  /** The image in a fresh space. Besides the space's own tables and the kernel's, it disturbs nothing. */
  method BuildImage(m: Machine, file: Bytes, elf: Elf, checked: bool, heap: bool)
    returns (r: Creation, ghost a: Args, ghost who: set<object>)
    requires m.Valid() && IsElf(elf)
    modifies m, m.pages
    ensures m.Valid() && Extends(old(m.Now()), m.Now(), who) && fresh(who - {m})
    ensures r.Created? ==> fresh(r.space) && r.space.Valid() && r.space.arch.m == m && r.pc == elf.entry
    ensures r.Created? ==> IsImage(r.space.mappings, elf.phdrs) && r.space.left == {}
    ensures r.Created? ==> Starts(m.tables, m.data, r.space.arch.root, file, elf, r.sp, a)
    ensures r.Created? && checked ==> NoneOverflows(elf.phdrs)
    ensures r.Panicked? ==> NoRoom(m.pages.regions, MIN_PAGE_SIZE) || SomeCrashes(file, elf, checked)
    ensures r.Refused? ==>
      Refusal(elf.phdrs, r.error, Lacks(heap, m.pages.regions) || old(NoRoom(m.pages.regions, MIN_PAGE_SIZE)))
  {
    hide Machine.Valid, PageTable.Valid, VmSpace.Valid, Load, StackIn, AllSegmentsIn, Tells, NoRoom, Extends, Records;
    hide TableTold, IsImage, InImage, SomeHigh, SomeCrashes, Unfit, StackUnfit, MapRefuses, AddsStack, NoneOverflows;
    who, a := {}, Args([], [], [], 0, 0, 0, 0);
    var created := VmSpace.New(m);
    if created.Err? {
      r := Refused(created.error);
      return;
    }
    var space := created.value;
    ghost var start := m.Now();
    who := {m, space.arch};
    ExtendsWider(old(m.Now()), start, {}, who);
    var step, phdrUaddr := LoadSegments(space, file, elf, checked, heap);
    ghost var loaded, mappings := m.Now(), space.mappings;
    ExtendsTwice(old(m.Now()), start, loaded, who);
    space.MachineOk();
    if !step.Loaded? {
      r := if step.Crashed? then Panicked else Refused(step.error);
      return;
    }
    var sp;
    step, sp, a := SetUpStack(space, elf, phdrUaddr, heap);
    ExtendsTwice(old(m.Now()), loaded, m.Now(), who);
    space.MachineOk();
    if step.Crashed? {
      r := Panicked;
      return;
    }
    if step.Stopped? {
      if MapRefuses(mappings, {}, STACK_BASE, STACK_BASE + STACK_SIZE, step.error) {
        WhyStackRefused(mappings, {}, elf.phdrs, step.error);
      }
      r := Refused(step.error);
      return;
    }
    AllSegmentsKept(loaded, m.Now(), who, space.arch.root, file, elf.phdrs);
    TableLoads(m.tables, m.data, space.arch.root, file, elf.phdrs, elf.phoff);
    TellsItself(a, elf, phdrUaddr.UnwrapOr(0));
    ImageOf(mappings, space.mappings, elf.phdrs);
    if !SomeHigh(elf.phdrs) { NothingElseLoads(space, elf.phdrs); }
    r := Created(space, elf.entry, sp);
  }

  lemma TellsItself(a: Args, elf: Elf, phdr: nat)
    requires Tells(a, elf, phdr)
    ensures a.phdr == phdr
  {
  }

  lemma ImageOf(before: seq<Mapping>, after: seq<Mapping>, phdrs: seq<Phdr>)
    requires Records(before, phdrs) && AddsStack(before, after)
    ensures IsImage(after, phdrs)
  {
    hide Records, IsStackArea;
  }

  /** An executable that can be loaded: in the file, within bounds, on pages of its own, and away from the stack. */
  predicate IsLoadable(file: Bytes, elf: Elf) {
    && (forall i :: 0 <= i < |elf.phdrs| && elf.phdrs[i].typ == PT_LOAD ==> SegmentFits(file, elf.phdrs[i], elf.phoff))
    && (forall i, j :: 0 <= i < j < |elf.phdrs| && elf.phdrs[i].typ == PT_LOAD && elf.phdrs[j].typ == PT_LOAD ==>
                         !Overlap(elf.phdrs[i], elf.phdrs[j]))
  }

  predicate SegmentFits(file: Bytes, p: Phdr, phoff: nat) {
    && InFile(file, p) && 0 < p.memsz && p.filesz <= p.memsz
    && !RoundingOverflows(p) && !TableOverflows(p, phoff) && End(p) <= USER_END && !OnStack(p)
  }

  /** Such an executable is refused only for lack of memory, and never crashes the caller. */
  lemma LoadableIsFit(file: Bytes, elf: Elf, checked: bool, error: ErrorCode)
    requires IsLoadable(file, elf)
    ensures !SomeHigh(elf.phdrs) && !Unfit(elf.phdrs, error) && !StackUnfit(elf.phdrs, error)
    ensures !SomeCrashes(file, elf, checked)
  {
    hide Length;
    forall i | 0 <= i < |elf.phdrs| && elf.phdrs[i].typ == PT_LOAD
      ensures SegmentFits(file, elf.phdrs[i], elf.phoff) && Length(elf.phdrs[i]) > 0
      ensures elf.phdrs[i].vaddr + elf.phdrs[i].filesz <= End(elf.phdrs[i])
    {
      SegmentBounds(elf.phdrs[i]);
    }
  }

  /**
   `Process::create`. If it succeeds, user memory holds every loadable segment, with the rights that it asks for, and
   the initial stack, and the process starts at the entry point with `sp` at the image; `a` is what that tells it. An
   executable that can be loaded is, unless memory runs out. Whether or not it succeeds, every other space stays valid,
   and every load in it gives what it gave. `heap` says that the kernel's heap can hold all that it is asked to.
   */
  method Create(m: Machine, file: Bytes, elf: Elf, checked: bool, heap: bool, ghost others: set<VmSpace>)
    returns (r: Creation, ghost a: Args)
    requires m.Valid() && IsElf(elf)
    requires forall s :: s in others ==> s.Valid() && s.arch.m == m
    modifies m, m.pages
    ensures forall s :: s in others ==>
              s.Valid() && SameLoads(old(m.tables), old(m.data), m.tables, m.data, s.arch.root)
    ensures r.Created? ==> fresh(r.space) && r.space.Valid() && r.space.arch.m == m && r.pc == elf.entry
    ensures r.Created? ==> IsImage(r.space.mappings, elf.phdrs) && r.space.left == {}
    ensures r.Created? ==> Starts(m.tables, m.data, r.space.arch.root, file, elf, r.sp, a)
    ensures r.Created? && checked ==> NoneOverflows(elf.phdrs)
    ensures r.Panicked? ==> NoRoom(m.pages.regions, MIN_PAGE_SIZE) || SomeCrashes(file, elf, checked)
    ensures r.Refused? ==>
      Refusal(elf.phdrs, r.error, Lacks(heap, m.pages.regions) || old(NoRoom(m.pages.regions, MIN_PAGE_SIZE)))
    ensures IsLoadable(file, elf) ==>
      r.Created? || Lacks(heap, m.pages.regions) || old(NoRoom(m.pages.regions, MIN_PAGE_SIZE))
  {
    hide Machine.Valid, PageTable.Valid, VmSpace.Valid, Starts, NoRoom, Extends, SameLoads, IsImage, NoneOverflows;
    hide Unfit, StackUnfit, SomeCrashes, IsLoadable, SomeHigh;
    ghost var who;
    r, a, who := BuildImage(m, file, elf, checked, heap);
    forall s | s in others
      ensures s.Valid() && SameLoads(old(m.tables), old(m.data), m.tables, m.data, s.arch.root)
    {
      s.Bystander(who);
    }
    if IsLoadable(file, elf) && !r.Created? {
      LoadableIsFit(file, elf, checked, if r.Refused? then r.error else OutOfMemory);
    }
  }
}
