/** The physical page allocator: which RAM it owns after boot, and what it ever hands out. */
module PageAllocation {
  import opened Prelude
  import opened Alignment

  const DIRECT_MAP_END := 4 * 1024 * 1024 * 1024
  const MAX_REGIONS := 8
  const MAX_MODULES := 8

  /** A half-open range of addresses. */
  datatype Range = Range(start: nat, end: nat)

  datatype FreeRam = FreeRam(addr: nat, size: nat)

  predicate In(x: int, r: Range) {
    r.start <= x < r.end
  }

  predicate InAny(x: int, rs: seq<Range>) {
    exists i :: 0 <= i < |rs| && In(x, rs[i])
  }

  predicate Proper(rs: seq<Range>) {
    forall i :: 0 <= i < |rs| ==> rs[i].start <= rs[i].end
  }

  predicate SortedByStart(rs: seq<Range>) {
    forall i, j :: 0 <= i < j < |rs| ==> rs[i].start <= rs[j].start
  }

  /** In ascending order, not empty, and without a common address. */
  predicate Ascending(rs: seq<Range>) {
    && (forall i :: 0 <= i < |rs| ==> rs[i].start < rs[i].end)
    && (forall i, j :: 0 <= i < j < |rs| ==> rs[i].end <= rs[j].start)
  }

  function Min(a: nat, b: nat): nat { if a < b then a else b }

  /** `out` are the parts of RAM from `addr` up to `end` that the direct map reaches and nothing has reserved. */
  ghost predicate AreUnused(out: seq<Range>, addr: nat, end: nat, reserved: seq<Range>) {
    && Ascending(out)
    && forall x: int :: InAny(x, out) <==> addr <= x < Min(end, DIRECT_MAP_END) && !InAny(x, reserved)
  }

  // -- bubble_sort

  function Exchange(s: seq<Range>, j: nat): seq<Range>
    requires j + 1 < |s|
  {
    s[j := s[j + 1]][j + 1 := s[j]]
  }

  /** The inner loop, from position `j` up to `n`. */
  function Pass(s: seq<Range>, j: nat, n: nat): seq<Range>
    requires n <= |s|
    decreases n - j
  {
    if j + 1 >= n then s
    else Pass(if s[j].start > s[j + 1].start then Exchange(s, j) else s, j + 1, n)
  }

  lemma ExchangeKeeps(s: seq<Range>, j: nat)
    requires j + 1 < |s|
    ensures multiset(Exchange(s, j)) == multiset(s)
  {
    assert s == s[..j] + [s[j], s[j + 1]] + s[j + 2..];
    assert Exchange(s, j) == s[..j] + [s[j + 1], s[j]] + s[j + 2..];
  }

  /** A pass permutes, and leaves the rest alone. */
  lemma {:induction false} PassKeeps(s: seq<Range>, j: nat, n: nat)
    requires n <= |s|
    ensures |Pass(s, j, n)| == |s| && multiset(Pass(s, j, n)) == multiset(s)
    ensures Pass(s, j, n)[n..] == s[n..]
    decreases n - j
  {
    if j + 1 < n {
      if s[j].start > s[j + 1].start {
        ExchangeKeeps(s, j);
        PassKeeps(Exchange(s, j), j + 1, n);
      } else {
        PassKeeps(s, j + 1, n);
      }
    }
  }

  lemma {:induction false} PassBound(s: seq<Range>, j: nat, n: nat, v: nat)
    requires n <= |s| && forall k :: 0 <= k < n ==> s[k].start <= v
    ensures |Pass(s, j, n)| == |s| && forall k :: 0 <= k < n ==> Pass(s, j, n)[k].start <= v
    decreases n - j
  {
    if j + 1 < n {
      PassBound(if s[j].start > s[j + 1].start then Exchange(s, j) else s, j + 1, n, v);
    }
  }

  /** A pass moves a largest element to the end. */
  lemma {:induction false} PassBubbles(s: seq<Range>, j: nat, n: nat)
    requires j < n <= |s| && forall k :: 0 <= k < j ==> s[k].start <= s[j].start
    ensures |Pass(s, j, n)| == |s| && forall k :: 0 <= k < n ==> Pass(s, j, n)[k].start <= Pass(s, j, n)[n - 1].start
    decreases n - j
  {
    if j + 1 < n {
      PassBubbles(if s[j].start > s[j + 1].start then Exchange(s, j) else s, j + 1, n);
    }
  }

  /** Everything from position `n` on is in order, and not below anything before it. */
  predicate Settled(s: seq<Range>, n: nat) {
    forall k, m :: 0 <= k < m < |s| && n <= m ==> s[k].start <= s[m].start
  }

  lemma PassSettles(s: seq<Range>, n: nat)
    requires 0 < n <= |s| && Settled(s, n)
    ensures |Pass(s, 0, n)| == |s| && Settled(Pass(s, 0, n), n - 1)
  {
    PassKeeps(s, 0, n);
    PassBubbles(s, 0, n);
    var r := Pass(s, 0, n);
    forall k, m | 0 <= k < m < |r| && n - 1 <= m ensures r[k].start <= r[m].start {
      if n <= m {
        assert r[n..][m - n] == s[n..][m - n];
        if n <= k {
          assert r[n..][k - n] == s[n..][k - n];
        } else {
          PassBound(s, 0, n, s[m].start);
        }
      }
    }
  }

  /** `bubble_sort` in place, by start address. */
  method BubbleSort(a: array<Range>)
    modifies a
    ensures SortedByStart(a[..])
    ensures multiset(a[..]) == multiset(old(a[..]))
  {
    var len := a.Length;
    for i := 0 to len
      invariant Settled(a[..], len - i)
      invariant multiset(a[..]) == multiset(old(a[..]))
    {
      ghost var before := a[..];
      for j := 0 to len - i - 1
        invariant Pass(a[..], j, len - i) == Pass(before, 0, len - i)
      {
        ghost var s := a[..];
        if a[j].start > a[j + 1].start {
          a[j], a[j + 1] := a[j + 1], a[j];
          assert a[..] == Exchange(s, j);
        }
      }
      PassKeeps(before, 0, len - i);
      PassSettles(before, len - i);
    }
  }

  // -- visit_unused_regions

  lemma InAnyAppend(x: int, rs: seq<Range>, r: Range)
    ensures InAny(x, rs + [r]) <==> InAny(x, rs) || In(x, r)
  {
    if InAny(x, rs) {
      var i :| 0 <= i < |rs| && In(x, rs[i]);
      assert (rs + [r])[i] == rs[i];
    }
    if In(x, r) { assert (rs + [r])[|rs|] == r; }
  }

  /** Nothing reserved from position `i` on begins before `end`. */
  lemma NoneLater(x: int, rs: seq<Range>, i: nat, end: nat)
    requires i <= |rs| && forall k :: i <= k < |rs| ==> end <= rs[k].start
    requires x < end
    ensures InAny(x, rs) <==> InAny(x, rs[..i])
  {
    if InAny(x, rs) {
      var k :| 0 <= k < |rs| && In(x, rs[k]);
      assert rs[..i][k] == rs[k];
    }
  }

  /**
   The loop's state after the ranges in `done`: all that is unused below the cursor has been reported, and the
   addresses from `from` up to the cursor are reserved.
   */
  ghost predicate Progress(out: seq<Range>, addr: nat, cursor: nat, end: nat, done: seq<Range>, from: nat) {
    && addr <= cursor
    && Ascending(out)
    && (forall k :: 0 <= k < |out| ==> out[k].end <= cursor && out[k].end <= end)
    && (forall x: int :: InAny(x, out) <==> addr <= x < cursor && x < end && !InAny(x, done))
    && (forall x: int :: cursor <= x ==> !InAny(x, done))
    && (forall x: int :: addr <= x < cursor && from <= x ==> InAny(x, done))
  }

  lemma Skip(out: seq<Range>, addr: nat, cursor: nat, end: nat, done: seq<Range>, from: nat, r: Range,
             done': seq<Range>)
    requires Progress(out, addr, cursor, end, done, from) && done' == done + [r]
    requires r.end <= cursor && (addr < cursor ==> from <= r.start)
    ensures Progress(out, addr, cursor, end, done', from)
  {
    hide InAny;
    forall x: int ensures InAny(x, done') <==> InAny(x, done) || In(x, r) {
      InAnyAppend(x, done, r);
    }
  }

  lemma Jump(out: seq<Range>, addr: nat, cursor: nat, end: nat, done: seq<Range>, from: nat, r: Range,
             done': seq<Range>, out': seq<Range>)
    requires Progress(out, addr, cursor, end, done, from) && done' == done + [r]
    requires cursor < r.end && r.start <= r.end && r.start <= end && cursor < end && (addr < cursor ==> from <= r.start)
    requires out' == if cursor < r.start then out + [Range(cursor, r.start)] else out
    ensures Progress(out', addr, r.end, end, done', r.start)
  {
    hide InAny;
    forall x: int ensures InAny(x, done') <==> InAny(x, done) || In(x, r) {
      InAnyAppend(x, done, r);
    }
    forall x: int ensures InAny(x, out') <==> InAny(x, out) || cursor <= x < r.start {
      InAnyAppend(x, out, Range(cursor, r.start));
    }
  }

  lemma Finish(out: seq<Range>, addr: nat, cursor: nat, end: nat, reserved: seq<Range>, i: nat, from: nat,
               out': seq<Range>)
    requires i <= |reserved| && Progress(out, addr, cursor, end, reserved[..i], from)
    requires cursor < end ==> forall k :: i <= k < |reserved| ==> end <= reserved[k].start
    requires addr < cursor ==> forall k :: i <= k < |reserved| ==> from <= reserved[k].start
    requires out' == if cursor < end then out + [Range(cursor, end)] else out
    requires end <= DIRECT_MAP_END
    ensures AreUnused(out', addr, end, reserved)
  {
    forall x: int ensures InAny(x, out') <==> InAny(x, out) || cursor <= x < end {
      InAnyAppend(x, out, Range(cursor, end));
    }
    forall x: int | addr <= x < end ensures InAny(x, reserved) <==> InAny(x, reserved[..i]) {
      if InAny(x, reserved[..i]) {
        var k :| 0 <= k < i && In(x, reserved[..i][k]);
        assert In(x, reserved[k]);
      }
      if cursor < end {
        NoneLater(x, reserved, i, end);
      } else if InAny(x, reserved) {
        var k :| 0 <= k < |reserved| && In(x, reserved[k]);
        if k < i { assert reserved[..i][k] == reserved[k]; }
      }
    }
  }

  lemma NothingDone(addr: nat, end: nat)
    ensures Progress([], addr, addr, end, [], addr)
  {
  }

  lemma ReservedInOrder(reserved: seq<Range>)
    requires SortedByStart(reserved) && Proper(reserved)
    ensures forall i, k :: 0 <= i <= k < |reserved| ==> reserved[i].start <= reserved[k].start
    ensures forall i :: 0 <= i < |reserved| ==> reserved[i].start <= reserved[i].end
  {
  }

  /** The calls that `visit_unused_regions` makes to its callback, in order. */
  method VisitUnusedRegions(addr: nat, end: nat, reserved: seq<Range>) returns (out: seq<Range>)
    requires SortedByStart(reserved) && Proper(reserved)
    ensures AreUnused(out, addr, end, reserved)
  {
    hide Progress, SortedByStart, Proper;
    ReservedInOrder(reserved);
    var end' := Min(end, DIRECT_MAP_END);
    var cursor: nat := addr;
    out := [];
    NothingDone(addr, end');
    assert reserved[..0] == [];
    ghost var from: nat := addr;
    var i := 0;
    while i < |reserved|
      invariant 0 <= i <= |reserved|
      invariant Progress(out, addr, cursor, end', reserved[..i], from)
      invariant addr < cursor ==> forall k :: i <= k < |reserved| ==> from <= reserved[k].start
    {
      if cursor >= end' {
        Finish(out, addr, cursor, end', reserved, i, from, out);
        return;
      }
      assert reserved[..i + 1] == reserved[..i] + [reserved[i]];
      if reserved[i].end <= cursor {
        Skip(out, addr, cursor, end', reserved[..i], from, reserved[i], reserved[..i + 1]);
      } else if reserved[i].start >= end' {
        break;
      } else {
        ghost var before := out;
        if cursor < reserved[i].start {
          out := out + [Range(cursor, reserved[i].start)];
        }
        Jump(before, addr, cursor, end', reserved[..i], from, reserved[i], reserved[..i + 1], out);
        cursor := reserved[i].end;
        from := reserved[i].start;
      }
      i := i + 1;
    }
    ghost var before := out;
    if cursor < end' {
      out := out + [Range(cursor, end')];
    }
    Finish(before, addr, cursor, end', reserved, i, from, out);
  }

  // -- the bump allocators

  /** A `BumpAllocator`: free from `start` up to `next`. */
  datatype Bump = Bump(start: nat, next: nat)

  /** `BumpAllocator::alloc`: the highest address at which the block fits, which is also the new `next`. */
  function Carve(b: Bump, size: nat, align: nat): (r: Option<nat>)
    requires IsPowerOfTwo(align) && b.next < WORDS
    ensures r.Some? ==> b.start <= r.value && r.value + size <= b.next && r.value % align == 0
    ensures r.Some? ==> forall a: nat :: a % align == 0 && a + size <= b.next ==> a <= r.value
    ensures r.None? ==> forall a: nat :: b.start <= a && a + size <= b.next ==> a % align != 0
  {
    PowerBounds(align);
    if b.next < size then None
    else
      AlignDownIsFloor(b.next - size, align);
      var addr := AlignDown(b.next - size, align);
      if addr < b.start then None else Some(addr)
  }

  lemma PageIsPower()
    ensures IsPowerOfTwo(MIN_PAGE_SIZE)
  {
    Pow2Values();
  }

  predicate Usable(regions: seq<Bump>) {
    forall i :: 0 <= i < |regions| ==> regions[i].next < WORDS
  }

  /** The first region, from position `i` on, that can serve a request. */
  function FirstFit(regions: seq<Bump>, len: nat, i: nat): (k: nat)
    requires Usable(regions) && IsPowerOfTwo(MIN_PAGE_SIZE) && i <= |regions|
    ensures i <= k <= |regions|
    ensures k < |regions| ==> Carve(regions[k], len, MIN_PAGE_SIZE).Some?
    ensures forall j :: i <= j < k ==> Carve(regions[j], len, MIN_PAGE_SIZE).None?
    decreases |regions| - i
  {
    if i == |regions| || Carve(regions[i], len, MIN_PAGE_SIZE).Some? then i else FirstFit(regions, len, i + 1)
  }

  /** A block handed out, and the pool it was carved from. */
  datatype Block = Block(addr: nat, len: nat, pool: nat)

  predicate Apart(a: Range, b: Range) {
    a.end <= b.start || b.end <= a.start
  }

  predicate AllApart(rs: seq<Range>) {
    forall i, j :: 0 <= i < j < |rs| ==> Apart(rs[i], rs[j])
  }

  /** What the allocator knows of its pools and of every block it ever handed out. */
  predicate Sound(pools: seq<Range>, regions: seq<Bump>, blocks: seq<Block>) {
    && |pools| == |regions| <= MAX_REGIONS
    && AllApart(pools)
    && (forall i :: 0 <= i < |pools| ==>
                      pools[i].start == regions[i].start <= regions[i].next <= pools[i].end <= DIRECT_MAP_END)
    && (forall k :: 0 <= k < |blocks| ==> Placed(pools, regions, blocks[k]))
    && (forall k, m :: 0 <= k < m < |blocks| && blocks[k].pool == blocks[m].pool ==>
                         blocks[m].addr + blocks[m].len <= blocks[k].addr)
  }

  predicate Placed(pools: seq<Range>, regions: seq<Bump>, b: Block)
    requires |pools| == |regions|
  {
    && b.len > 0 && b.addr % MIN_PAGE_SIZE == 0
    && b.pool < |pools|
    && regions[b.pool].next <= b.addr && b.addr + b.len <= pools[b.pool].end
  }

  /** All blocks ever handed out are apart from each other. */
  lemma BlocksApart(pools: seq<Range>, regions: seq<Bump>, blocks: seq<Block>, k: nat, m: nat)
    requires Sound(pools, regions, blocks) && k < m < |blocks|
    ensures Apart(Range(blocks[k].addr, blocks[k].addr + blocks[k].len),
                  Range(blocks[m].addr, blocks[m].addr + blocks[m].len))
  {
    assert Placed(pools, regions, blocks[k]) && Placed(pools, regions, blocks[m]);
    if blocks[k].pool < blocks[m].pool {
      assert Apart(pools[blocks[k].pool], pools[blocks[m].pool]);
    } else if blocks[m].pool < blocks[k].pool {
      assert Apart(pools[blocks[m].pool], pools[blocks[k].pool]);
    }
  }

  /** Carving one more block from region `i` keeps everything apart. */
  lemma CarveSound(pools: seq<Range>, regions: seq<Bump>, blocks: seq<Block>, i: nat, len: nat, addr: nat)
    requires Sound(pools, regions, blocks) && i < |regions| && len > 0
    requires regions[i].start <= addr && addr + len <= regions[i].next && addr % MIN_PAGE_SIZE == 0
    ensures Sound(pools, regions[i := Bump(regions[i].start, addr)], blocks + [Block(addr, len, i)])
  {
    var regions', blocks' := regions[i := Bump(regions[i].start, addr)], blocks + [Block(addr, len, i)];
    forall k | 0 <= k < |blocks'| ensures Placed(pools, regions', blocks'[k]) {
      if k < |blocks| { assert Placed(pools, regions, blocks[k]); }
    }
    forall k, m | 0 <= k < m < |blocks'| && blocks'[k].pool == blocks'[m].pool
      ensures blocks'[m].addr + blocks'[m].len <= blocks'[k].addr
    {
      assert Placed(pools, regions, blocks[k]);
    }
  }

  // -- whole runs

  /** No region has an aligned stretch of `len` bytes left. */
  ghost predicate NoRoom(regions: seq<Bump>, len: nat) {
    && IsPowerOfTwo(MIN_PAGE_SIZE)
    && forall i :: 0 <= i < |regions| ==>
                     regions[i].next < WORDS && Carve(regions[i], len, MIN_PAGE_SIZE).None?
  }

  /** The allocator: its regions, and a record of every block it ever handed out. */
  datatype State = State(regions: seq<Bump>, blocks: seq<Block>)

  /** `PageAllocator::alloc`: the state after a request of `len` bytes, and the address it is served with. */
  function Serve(s: State, len: nat): (State, Option<nat>)
    requires Usable(s.regions) && IsPowerOfTwo(MIN_PAGE_SIZE)
  {
    var i := FirstFit(s.regions, len, 0);
    if i == |s.regions| then (s, None)
    else
      var addr := Carve(s.regions[i], len, MIN_PAGE_SIZE).value;
      (State(s.regions[i := Bump(s.regions[i].start, addr)], s.blocks + [Block(addr, len, i)]), Some(addr))
  }

  lemma ServeSound(pools: seq<Range>, s: State, len: nat)
    requires Sound(pools, s.regions, s.blocks) && len > 0 && IsPowerOfTwo(MIN_PAGE_SIZE)
    ensures Usable(s.regions) && Sound(pools, Serve(s, len).0.regions, Serve(s, len).0.blocks)
  {
    var i := FirstFit(s.regions, len, 0);
    if i < |s.regions| {
      CarveSound(pools, s.regions, s.blocks, i, len, Carve(s.regions[i], len, MIN_PAGE_SIZE).value);
    }
  }

  /** `states` is a run in which request `lens[k]` leads from `states[k]` to `states[k + 1]`. */
  ghost predicate IsRun(states: seq<State>, lens: seq<nat>) {
    && |states| == |lens| + 1 && IsPowerOfTwo(MIN_PAGE_SIZE)
    && forall k :: 0 <= k < |lens| ==>
                     lens[k] > 0 && Usable(states[k].regions) && states[k + 1] == Serve(states[k], lens[k]).0
  }

  lemma {:induction false} RunSound(pools: seq<Range>, states: seq<State>, lens: seq<nat>, k: nat)
    requires IsRun(states, lens) && Sound(pools, states[0].regions, states[0].blocks) && k < |states|
    ensures Sound(pools, states[k].regions, states[k].blocks)
  {
    if k > 0 {
      RunSound(pools, states, lens, k - 1);
      ServeSound(pools, states[k - 1], lens[k - 1]);
    }
  }

  // -- nothing is lost: how many pages a region can still serve

  /** How many whole pages at page boundaries a region has left. */
  function PagesLeft(b: Bump): nat {
    var low, high := (b.start + MIN_PAGE_SIZE - 1) / MIN_PAGE_SIZE, b.next / MIN_PAGE_SIZE;
    if low <= high then high - low else 0
  }

  /** A region serves a request of whole pages exactly if it has as many left, and has as many fewer afterwards. */
  lemma CarvePages(b: Bump, len: nat)
    requires IsPowerOfTwo(MIN_PAGE_SIZE) && b.next < WORDS && len > 0 && len % MIN_PAGE_SIZE == 0
    ensures var r := Carve(b, len, MIN_PAGE_SIZE);
      && (r.Some? <==> len / MIN_PAGE_SIZE <= PagesLeft(b))
      && (r.Some? ==> PagesLeft(Bump(b.start, r.value)) == PagesLeft(b) - len / MIN_PAGE_SIZE)
      && (r.Some? && b.next % MIN_PAGE_SIZE == 0 ==> r.value == b.next - len)
  {
    hide Carve, IsPowerOfTwo;
    var r, q, n := Carve(b, len, MIN_PAGE_SIZE), b.next / MIN_PAGE_SIZE, len / MIN_PAGE_SIZE;
    assert len == MIN_PAGE_SIZE * n && MIN_PAGE_SIZE * q <= b.next < MIN_PAGE_SIZE * q + MIN_PAGE_SIZE;
    if n <= q {
      var top: nat := MIN_PAGE_SIZE * (q - n);
      assert top % MIN_PAGE_SIZE == 0 && top + len <= b.next;
    }
    if r.Some? { assert r.value == MIN_PAGE_SIZE * (r.value / MIN_PAGE_SIZE) && r.value / MIN_PAGE_SIZE == q - n; }
  }

  function TotalPages(regions: seq<Bump>): nat {
    if regions == [] then 0 else TotalPages(regions[..|regions| - 1]) + PagesLeft(regions[|regions| - 1])
  }

  function TotalLen(blocks: seq<Block>): nat {
    if blocks == [] then 0 else TotalLen(blocks[..|blocks| - 1]) + blocks[|blocks| - 1].len
  }

  lemma {:induction false} TotalUpdate(regions: seq<Bump>, i: nat, b: Bump)
    requires i < |regions|
    ensures TotalPages(regions[i := b]) + PagesLeft(regions[i]) == TotalPages(regions) + PagesLeft(b)
  {
    hide PagesLeft;
    var last := |regions| - 1;
    if i == last {
      assert regions[i := b][..last] == regions[..last];
    } else {
      assert regions[i := b][..last] == regions[..last][i := b];
      TotalUpdate(regions[..last], i, b);
    }
  }

  lemma {:induction false} TotalAtLeast(regions: seq<Bump>, i: nat)
    requires i < |regions|
    ensures PagesLeft(regions[i]) <= TotalPages(regions)
  {
    hide PagesLeft;
    if i < |regions| - 1 { TotalAtLeast(regions[..|regions| - 1], i); }
  }

  lemma {:induction false} SomePagesLeft(regions: seq<Bump>) returns (i: nat)
    requires TotalPages(regions) > 0
    ensures i < |regions| && PagesLeft(regions[i]) > 0
  {
    hide PagesLeft;
    i := |regions| - 1;
    if PagesLeft(regions[i]) == 0 { i := SomePagesLeft(regions[..i]); }
  }

  /** A request of whole pages takes exactly those pages, and one page is served as long as there is one. */
  lemma ServePages(s: State, len: nat)
    requires Usable(s.regions) && IsPowerOfTwo(MIN_PAGE_SIZE) && len > 0 && len % MIN_PAGE_SIZE == 0
    ensures var (s', r) := Serve(s, len);
      && MIN_PAGE_SIZE * TotalPages(s'.regions) + TotalLen(s'.blocks) ==
         MIN_PAGE_SIZE * TotalPages(s.regions) + TotalLen(s.blocks)
      && TotalPages(s'.regions) == TotalPages(s.regions) - (if r.Some? then len / MIN_PAGE_SIZE else 0)
      && |s'.blocks| == |s.blocks| + (if r.Some? then 1 else 0)
      && (len == MIN_PAGE_SIZE ==> (r.Some? <==> TotalPages(s.regions) > 0))
  {
    hide Carve, PagesLeft;
    var i, s' := FirstFit(s.regions, len, 0), Serve(s, len).0;
    if i < |s.regions| {
      CarvePages(s.regions[i], len);
      TotalUpdate(s.regions, i, s'.regions[i]);
      TotalAtLeast(s.regions, i);
      assert s'.blocks[..|s.blocks|] == s.blocks;
    } else if TotalPages(s.regions) > 0 && len == MIN_PAGE_SIZE {
      var j := SomePagesLeft(s.regions);
      CarvePages(s.regions[j], len);
    }
  }

  /** Over any run of requests of whole pages, what was handed out and what is left make up what there was. */
  lemma {:induction false} PagesAreConserved(states: seq<State>, lens: seq<nat>)
    requires IsRun(states, lens) && forall k :: 0 <= k < |lens| ==> lens[k] % MIN_PAGE_SIZE == 0
    ensures var first, last := states[0], states[|lens|];
      MIN_PAGE_SIZE * TotalPages(last.regions) + TotalLen(last.blocks) ==
      MIN_PAGE_SIZE * TotalPages(first.regions) + TotalLen(first.blocks)
  {
    hide Serve, TotalPages, TotalLen;
    var n := |lens|;
    if n > 0 {
      PagesAreConserved(states[..n], lens[..n - 1]);
      ServePages(states[n - 1], lens[n - 1]);
    }
  }

  /** Requests of one page are served until every page there was has been handed out. */
  lemma {:induction false} EveryPageServes(states: seq<State>, lens: seq<nat>)
    requires IsRun(states, lens) && forall k :: 0 <= k < |lens| ==> lens[k] == MIN_PAGE_SIZE
    ensures var first, last := states[0], states[|lens|];
      && |last.blocks| == |first.blocks| + Min(|lens|, TotalPages(first.regions))
      && TotalPages(last.regions) == TotalPages(first.regions) - Min(|lens|, TotalPages(first.regions))
  {
    hide Serve, TotalPages, TotalLen;
    var n := |lens|;
    if n > 0 {
      EveryPageServes(states[..n], lens[..n - 1]);
      ServePages(states[n - 1], lens[n - 1]);
    }
  }

  function Extent(b: Block): Range {
    Range(b.addr, b.addr + b.len)
  }

  /** A block is page-aligned, not empty, inside its pool and below the end of the direct map. */
  predicate InPlace(pools: seq<Range>, b: Block) {
    && b.addr % MIN_PAGE_SIZE == 0 && b.len > 0 && b.addr + b.len <= DIRECT_MAP_END
    && b.pool < |pools| && pools[b.pool].start <= b.addr && b.addr + b.len <= pools[b.pool].end
  }

  /** Over any run, every block ever handed out is in place, and shares no byte with any other. */
  lemma RunsAreSafe(pools: seq<Range>, states: seq<State>, lens: seq<nat>)
    requires IsRun(states, lens) && Sound(pools, states[0].regions, states[0].blocks)
    ensures var blocks := states[|lens|].blocks;
      && (forall k :: 0 <= k < |blocks| ==> InPlace(pools, blocks[k]))
      && (forall k, m :: 0 <= k < m < |blocks| ==> Apart(Extent(blocks[k]), Extent(blocks[m])))
  {
    var last := states[|lens|];
    RunSound(pools, states, lens, |lens|);
    forall k | 0 <= k < |last.blocks| ensures InPlace(pools, last.blocks[k]) {
      assert Placed(pools, last.regions, last.blocks[k]);
    }
    forall k, m | 0 <= k < m < |last.blocks| ensures Apart(Extent(last.blocks[k]), Extent(last.blocks[m])) {
      BlocksApart(pools, last.regions, last.blocks, k, m);
    }
  }

  // -- what the allocator owns after boot

  function RamRange(ram: FreeRam): Range {
    Range(ram.addr, ram.addr + ram.size)
  }

  predicate RamsApart(rams: seq<FreeRam>) {
    forall k, m :: 0 <= k < m < |rams| ==> Apart(RamRange(rams[k]), RamRange(rams[m]))
  }

  /** RAM whose end does not overflow a word is used. */
  predicate InRam(x: int, rams: seq<FreeRam>) {
    exists k :: 0 <= k < |rams| && In(x, RamRange(rams[k])) && rams[k].addr + rams[k].size < WORDS
  }

  /** `x` is RAM that the direct map reaches and nothing has reserved. */
  predicate IsFree(x: int, reserved: seq<Range>, rams: seq<FreeRam>) {
    InRam(x, rams) && x < DIRECT_MAP_END && !InAny(x, reserved)
  }

  lemma UnusedBounds(out: seq<Range>, addr: nat, end: nat, reserved: seq<Range>, j: nat)
    requires AreUnused(out, addr, end, reserved) && j < |out|
    ensures addr <= out[j].start && out[j].end <= Min(end, DIRECT_MAP_END)
  {
    assert In(out[j].start, out[j]) && In(out[j].end - 1, out[j]);
    assert InAny(out[j].start, out) && InAny(out[j].end - 1, out);
  }

  lemma InRamAppend(x: int, rams: seq<FreeRam>, i: nat)
    requires i < |rams|
    ensures InRam(x, rams[..i + 1]) <==>
            InRam(x, rams[..i]) || (In(x, RamRange(rams[i])) && rams[i].addr + rams[i].size < WORDS)
  {
    if InRam(x, rams[..i]) {
      var k :| 0 <= k < i && In(x, RamRange(rams[..i][k])) && rams[..i][k].addr + rams[..i][k].size < WORDS;
      assert rams[..i + 1][k] == rams[..i][k];
    }
    if In(x, RamRange(rams[i])) { assert rams[..i + 1][i] == rams[i]; }
    if InRam(x, rams[..i + 1]) {
      var k :| 0 <= k < i + 1 && In(x, RamRange(rams[..i + 1][k]))
        && rams[..i + 1][k].addr + rams[..i + 1][k].size < WORDS;
      if k < i { assert rams[..i][k] == rams[..i + 1][k]; }
    }
  }

  lemma InAnyConcat(x: int, a: seq<Range>, b: seq<Range>)
    ensures InAny(x, a + b) <==> InAny(x, a) || InAny(x, b)
  {
    if InAny(x, a) {
      var i :| 0 <= i < |a| && In(x, a[i]);
      assert (a + b)[i] == a[i];
    }
    if InAny(x, b) {
      var i :| 0 <= i < |b| && In(x, b[i]);
      assert (a + b)[|a| + i] == b[i];
    }
  }

  lemma InAnyPermuted(x: int, a: seq<Range>, b: seq<Range>)
    requires multiset(a) == multiset(b)
    ensures InAny(x, a) ==> InAny(x, b)
  {
    if InAny(x, a) {
      var i :| 0 <= i < |a| && In(x, a[i]);
      assert a[i] in multiset(b);
      var j :| 0 <= j < |b| && b[j] == a[i];
    }
  }

  /** Ranges found in the first `i` parts of RAM: together they are what is free there. */
  ghost predicate Collected(found: seq<Range>, reserved: seq<Range>, rams: seq<FreeRam>, i: nat)
    requires i <= |rams|
  {
    && (forall p :: 0 <= p < |found| ==> found[p].start < found[p].end <= DIRECT_MAP_END)
    && (forall p :: 0 <= p < |found| ==> Housed(found[p], rams, i))
    && (forall x: int :: InAny(x, found) <==> IsFree(x, reserved, rams[..i]))
  }

  predicate Housed(pool: Range, rams: seq<FreeRam>, i: nat)
    requires i <= |rams|
  {
    exists k :: 0 <= k < i && rams[k].addr <= pool.start && pool.end <= rams[k].addr + rams[k].size
  }

  /** A ninth region is dropped. */
  function Capped(rs: seq<Range>): seq<Range> {
    if |rs| <= MAX_REGIONS then rs else rs[..MAX_REGIONS]
  }

  lemma CappedTwice(a: seq<Range>, b: seq<Range>)
    ensures Capped(Capped(a) + b) == Capped(a + b)
  {
    if |a| > MAX_REGIONS {
      assert (a[..MAX_REGIONS] + b)[..MAX_REGIONS] == a[..MAX_REGIONS] == (a + b)[..MAX_REGIONS];
    }
  }

  lemma CappedNone(a: seq<Range>, b: seq<Range>)
    requires |a| <= MAX_REGIONS
    ensures Capped(a + b[..0]) == a
  {
    assert a + b[..0] == a;
  }

  /** One more range becomes a region if there are not enough yet; it is apart from those that there are. */
  lemma CappedNext(a: seq<Range>, b: seq<Range>, j: nat)
    requires j < |b| && AllApart(a + b)
    ensures var before, after := Capped(a + b[..j]), Capped(a + b[..j + 1]);
      && after == (if |before| < MAX_REGIONS then before + [b[j]] else before)
      && forall p :: 0 <= p < |before| ==> Apart(before[p], b[j])
  {
    hide Apart;
    var all := a + b;
    assert a + b[..j] == all[..|a| + j] && a + b[..j + 1] == all[..|a| + j + 1] && b[j] == all[|a| + j];
  }

  lemma CappedApart(found: seq<Range>, out: seq<Range>)
    requires AllApart(found + out)
    ensures AllApart(Capped(found) + out)
  {
    var all, some := found + out, Capped(found) + out;
    var gone := |found| - |Capped(found)|;
    forall p, q | 0 <= p < q < |some| ensures Apart(some[p], some[q]) {
      assert some[p] == all[if p < |Capped(found)| then p else p + gone];
      assert some[q] == all[if q < |Capped(found)| then q else q + gone];
    }
  }

  /** Regions that were kept hold all that was found exactly if none was dropped. */
  lemma CappedKeeps(found: seq<Range>)
    requires AllApart(found) && forall p :: 0 <= p < |found| ==> found[p].start < found[p].end
    ensures forall x: int :: InAny(x, Capped(found)) ==> InAny(x, found)
    ensures |found| <= MAX_REGIONS <==> forall x: int :: InAny(x, found) ==> InAny(x, Capped(found))
  {
    forall x: int | InAny(x, Capped(found)) ensures InAny(x, found) {
      var i :| 0 <= i < |Capped(found)| && In(x, Capped(found)[i]);
      assert found[i] == Capped(found)[i];
    }
    if |found| > MAX_REGIONS {
      var lost := found[MAX_REGIONS].start;
      assert In(lost, found[MAX_REGIONS]);
      forall i | 0 <= i < MAX_REGIONS ensures !In(lost, Capped(found)[i]) {
        assert Apart(found[i], found[MAX_REGIONS]);
      }
      assert InAny(lost, found) && !InAny(lost, Capped(found));
    }
  }

  /** Ranges found in the next part of RAM are apart from the pools, and from each other. */
  lemma FoundApart(found: seq<Range>, reserved: seq<Range>, rams: seq<FreeRam>, i: nat, out: seq<Range>)
    requires i < |rams| && Collected(found, reserved, rams, i) && RamsApart(rams) && AllApart(found)
    requires AreUnused(out, rams[i].addr, rams[i].addr + rams[i].size, reserved)
    ensures AllApart(found + out)
  {
    var all := found + out;
    forall p, q | 0 <= p < q < |all| ensures Apart(all[p], all[q]) {
      if q >= |found| > p {
        assert Housed(found[p], rams, i);
        var k :| 0 <= k < i && rams[k].addr <= found[p].start && found[p].end <= rams[k].addr + rams[k].size;
        assert Apart(RamRange(rams[k]), RamRange(rams[i]));
        UnusedBounds(out, rams[i].addr, rams[i].addr + rams[i].size, reserved, q - |found|);
      }
    }
  }

  lemma CollectFound(found: seq<Range>, reserved: seq<Range>, rams: seq<FreeRam>, i: nat, out: seq<Range>)
    requires i < |rams| && Collected(found, reserved, rams, i) && rams[i].addr + rams[i].size < WORDS
    requires AreUnused(out, rams[i].addr, rams[i].addr + rams[i].size, reserved)
    ensures Collected(found + out, reserved, rams, i + 1)
  {
    hide InAny, InRam;
    var all, ram, after := found + out, rams[i], rams[..i + 1];
    forall p | 0 <= p < |all| ensures all[p].start < all[p].end <= DIRECT_MAP_END && Housed(all[p], rams, i + 1) {
      if p < |found| {
        assert all[p] == found[p] && Housed(found[p], rams, i);
      } else {
        assert all[p] == out[p - |found|];
        UnusedBounds(out, ram.addr, ram.addr + ram.size, reserved, p - |found|);
        assert 0 <= i < i + 1;
      }
    }
    forall x: int ensures InAny(x, all) <==> IsFree(x, reserved, after) {
      InRamAppend(x, rams, i);
      InAnyConcat(x, found, out);
    }
  }

  lemma CollectNone(found: seq<Range>, reserved: seq<Range>, rams: seq<FreeRam>, i: nat)
    requires i < |rams| && Collected(found, reserved, rams, i) && rams[i].addr + rams[i].size >= WORDS
    ensures Collected(found, reserved, rams, i + 1)
  {
    hide InAny, InRam;
    var before, after := rams[..i], rams[..i + 1];
    forall p | 0 <= p < |found| ensures Housed(found[p], rams, i + 1) {
      assert Housed(found[p], rams, i);
    }
    forall x: int ensures InRam(x, after) <==> InRam(x, before) {
      InRamAppend(x, rams, i);
    }
  }

  /** From boot on: whatever is requested, every byte of every block is RAM that nothing has reserved. */
  lemma RunsUseFreeRam(pools: seq<Range>, states: seq<State>, lens: seq<nat>, reserved: seq<Range>, rams: seq<FreeRam>)
    requires IsRun(states, lens) && Sound(pools, states[0].regions, states[0].blocks)
    requires forall x: int :: InAny(x, pools) ==> IsFree(x, reserved, rams)
    ensures forall b, x: int :: b in states[|lens|].blocks && In(x, Extent(b)) ==> IsFree(x, reserved, rams)
  {
    RunsAreSafe(pools, states, lens);
    var blocks := states[|lens|].blocks;
    forall b, x: int | b in blocks && In(x, Extent(b)) ensures IsFree(x, reserved, rams) {
      assert InPlace(pools, b) && In(x, pools[b.pool]);
    }
  }

  // -- the allocator as the kernel runs it

  /** Regions from which nothing has been taken. */
  function Untouched(pools: seq<Range>): (regions: seq<Bump>)
    ensures |regions| == |pools|
  {
    seq(|pools|, i requires 0 <= i < |pools| => Bump(pools[i].start, pools[i].end))
  }

  lemma UntouchedAppend(a: seq<Range>, b: seq<Range>)
    requires a <= b
    ensures Untouched(b) == Untouched(a) + Untouched(b[|a|..])
  {
  }

  class PageAllocator {
    var regions: seq<Bump>
    ghost var pools: seq<Range>   // what each region started as
    ghost var blocks: seq<Block>  // every block handed out

    ghost predicate Valid()
      reads this
    {
      Sound(pools, regions, blocks)
    }

    constructor ()
      ensures Valid() && regions == [] && pools == [] && blocks == []
    {
      regions, pools, blocks := [], [], [];
    }

    /** `add_region`; a ninth region is dropped. */
    method AddRegion(start: nat, end: nat)
      requires Valid() && start <= end <= DIRECT_MAP_END
      requires forall i :: 0 <= i < |pools| ==> Apart(pools[i], Range(start, end))
      modifies this
      ensures Valid() && blocks == old(blocks)
      ensures pools == if |old(pools)| < MAX_REGIONS then old(pools) + [Range(start, end)] else old(pools)
      ensures regions == old(regions) + Untouched(pools[|old(pools)|..])
    {
      if |regions| < MAX_REGIONS {
        regions := regions + [Bump(start, end)];
        pools := pools + [Range(start, end)];
        assert forall k :: 0 <= k < |blocks| ==> Placed(old(pools), old(regions), blocks[k]);
      }
    }

    /** `alloc`: the first region that fits serves the request. */
    method Alloc(len: nat) returns (r: Option<nat>)
      requires Valid() && len > 0 && len % MIN_PAGE_SIZE == 0
      modifies this
      ensures Valid() && pools == old(pools)
      ensures IsPowerOfTwo(MIN_PAGE_SIZE) && old(Usable(regions))
      ensures (State(regions, blocks), r) == Serve(old(State(regions, blocks)), len)
      ensures r.None? <==> old(NoRoom(regions, len))
      ensures r.Some? ==> blocks == old(blocks) + [Block(r.value, len, blocks[|old(blocks)|].pool)]
    {
      PageIsPower();
      ghost var before := State(regions, blocks);
      ServeSound(pools, before, len);
      for i := 0 to |regions|
        invariant regions == old(regions) && blocks == old(blocks) && pools == old(pools)
        invariant FirstFit(regions, len, i) == FirstFit(regions, len, 0)
      {
        var addr := Carve(regions[i], len, MIN_PAGE_SIZE);
        if addr.Some? {
          regions := regions[i := Bump(regions[i].start, addr.value)];
          blocks := blocks + [Block(addr.value, len, i)];
          return addr;
        }
      }
      r := None;
    }

    method AddAll(out: seq<Range>)
      requires Valid() && AllApart(pools + out) && regions == Untouched(pools)
      requires forall j :: 0 <= j < |out| ==> out[j].start <= out[j].end <= DIRECT_MAP_END
      modifies this
      ensures Valid() && blocks == old(blocks) && pools == Capped(old(pools) + out) && regions == Untouched(pools)
    {
      assert |pools| <= MAX_REGIONS;
      hide Sound, Untouched, AllApart, Apart, Capped;
      CappedNone(pools, out);
      for j := 0 to |out|
        invariant Valid() && blocks == old(blocks)
        invariant pools == Capped(old(pools) + out[..j]) && regions == Untouched(pools)
      {
        CappedNext(old(pools), out, j);
        ghost var before := pools;
        AddRegion(out[j].start, out[j].end);
        UntouchedAppend(before, pools);
      }
      assert out[..|out|] == out;
    }

    /** The ranges found in one part of RAM become regions. */
    method AddFound(reserved: seq<Range>, rams: seq<FreeRam>, i: nat, ghost found: seq<Range>)
      returns (ghost out: seq<Range>)
      requires Valid() && i < |rams| && Collected(found, reserved, rams, i) && AllApart(found) && pools == Capped(found)
      requires SortedByStart(reserved) && Proper(reserved) && RamsApart(rams) && rams[i].addr + rams[i].size < WORDS
      requires regions == Untouched(pools)
      modifies this
      ensures Valid() && blocks == old(blocks) && pools == Capped(found + out) && regions == Untouched(pools)
      ensures Collected(found + out, reserved, rams, i + 1) && AllApart(found + out)
    {
      hide Collected, Sound;
      var ranges := VisitUnusedRegions(rams[i].addr, rams[i].addr + rams[i].size, reserved);
      out := ranges;
      FoundApart(found, reserved, rams, i, out);
      CollectFound(found, reserved, rams, i, out);
      forall j | 0 <= j < |out| ensures out[j].start <= out[j].end <= DIRECT_MAP_END {
        UnusedBounds(out, rams[i].addr, rams[i].addr + rams[i].size, reserved, j);
      }
      CappedApart(found, out);
      CappedTwice(found, out);
      AddAll(ranges);
    }

    /**
     `memory::init`. The ranges that it finds are apart from each other, and together are exactly the free RAM. The
     first eight of them become regions, so all free RAM is in a region exactly if no more than eight were found.
     */
    method Init(kernel: Range, modules: seq<Range>, rams: seq<FreeRam>) returns (ghost found: seq<Range>)
      requires Valid() && pools == [] && blocks == []
      requires |modules| <= MAX_MODULES && Proper([kernel] + modules) && RamsApart(rams)
      modifies this
      ensures Valid() && blocks == [] && pools == Capped(found) && AllApart(found) && regions == Untouched(pools)
      ensures forall x: int :: InAny(x, found) <==> IsFree(x, [kernel] + modules, rams)
      ensures forall x: int :: InAny(x, pools) ==> IsFree(x, [kernel] + modules, rams)
      ensures |found| <= MAX_REGIONS <==>
              forall x: int :: IsFree(x, [kernel] + modules, rams) ==> InAny(x, pools)
    {
      assert regions == [];
      hide Sound, InRam;
      var collected := [kernel] + modules;
      var a := new Range[|collected|](i requires 0 <= i < |collected| => collected[i]);
      assert a[..] == collected;
      BubbleSort(a);
      var reserved := a[..];
      forall i | 0 <= i < |reserved| ensures reserved[i].start <= reserved[i].end {
        assert reserved[i] in multiset(collected);
      }
      found := [];
      NothingFound(reserved, rams);
      for i := 0 to |rams|
        invariant Valid() && blocks == [] && Collected(found, reserved, rams, i)
        invariant AllApart(found) && pools == Capped(found) && regions == Untouched(pools)
      {
        if rams[i].addr + rams[i].size < WORDS {
          ghost var out := AddFound(reserved, rams, i, found);
          found := found + out;
        } else {
          CollectNone(found, reserved, rams, i);
        }
      }
      assert rams[..|rams|] == rams;
      CappedKeeps(found);
      forall x: int ensures InAny(x, reserved) <==> InAny(x, collected) {
        InAnyPermuted(x, reserved, collected);
        InAnyPermuted(x, collected, reserved);
      }
    }
  }

  lemma NothingFound(reserved: seq<Range>, rams: seq<FreeRam>)
    ensures Collected([], reserved, rams, 0)
  {
  }
}
