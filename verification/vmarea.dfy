/** `VmArea`: pages filled on demand, proved to be a zero-initialised flat array of bytes. */
module VmAreas {
  import opened Prelude
  import opened Alignment
  import opened Paging
  import opened PageAllocation
  import opened Machinery

  type Pages = seq<Option<nat>>
  type Data = map<nat, seq<Byte>>

  // -- the flat array that pages stand for

  /** Filled pages are distinct frames. */
  predicate Filed(data: Data, pages: Pages) {
    && (forall p :: 0 <= p < |pages| && pages[p].Some? ==>
          pages[p].value in data && |data[pages[p].value]| == MIN_PAGE_SIZE)
    && (forall p, q :: 0 <= p < q < |pages| && pages[p].Some? && pages[q].Some? ==> pages[p].value != pages[q].value)
  }

  /** A byte of the array; a page not filled yet is zero. */
  function ByteAt(data: Data, pages: Pages, i: nat): Byte
    requires Filed(data, pages) && i < MIN_PAGE_SIZE * |pages|
  {
    var page := pages[i / MIN_PAGE_SIZE];
    if page.None? then 0 else data[page.value][i % MIN_PAGE_SIZE]
  }

  function Flat(data: Data, pages: Pages): (s: seq<Byte>)
    requires Filed(data, pages)
    ensures |s| == MIN_PAGE_SIZE * |pages|
  {
    seq(MIN_PAGE_SIZE * |pages|, i requires 0 <= i < MIN_PAGE_SIZE * |pages| => ByteAt(data, pages, i))
  }

  function Splice(s: seq<Byte>, at: nat, b: seq<Byte>): (t: seq<Byte>)
    requires at + |b| <= |s|
    ensures |t| == |s|
  {
    s[..at] + b + s[at + |b|..]
  }

  /** Filling a page with zeros changes no byte. */
  lemma FillKeepsFlat(data: Data, pages: Pages, p: nat, n: nat, data': Data, pages': Pages)
    requires Filed(data, pages) && p < |pages| && pages[p].None? && n !in data
    requires data' == data[n := ZeroPage()] && pages' == pages[p := Some(n)]
    ensures Filed(data', pages') && Flat(data', pages') == Flat(data, pages)
  {
    forall i: nat | i < MIN_PAGE_SIZE * |pages| ensures ByteAt(data', pages', i) == ByteAt(data, pages, i) {
    }
  }

  /** Writing into one page changes the array in one place. */
  lemma PokeFlat(data: Data, pages: Pages, p: nat, off: nat, b: seq<Byte>, data': Data)
    requires Filed(data, pages) && p < |pages| && pages[p].Some? && off + |b| <= MIN_PAGE_SIZE
    requires data' == data[pages[p].value := Splice(data[pages[p].value], off, b)]
    ensures Filed(data', pages)
    ensures MIN_PAGE_SIZE * p + off + |b| <= |Flat(data, pages)|
    ensures Flat(data', pages) == Splice(Flat(data, pages), MIN_PAGE_SIZE * p + off, b)
  {
    var f, at := pages[p].value, MIN_PAGE_SIZE * p + off;
    var s, t := Flat(data, pages), Flat(data', pages);
    assert MIN_PAGE_SIZE * p + MIN_PAGE_SIZE <= MIN_PAGE_SIZE * |pages|;
    forall i: nat | i < |s| ensures t[i] == Splice(s, at, b)[i] {
      PokeByte(data, pages, p, off, b, data', i);
    }
  }

  lemma PokeByte(data: Data, pages: Pages, p: nat, off: nat, b: seq<Byte>, data': Data, i: nat)
    requires Filed(data, pages) && p < |pages| && pages[p].Some? && off + |b| <= MIN_PAGE_SIZE
    requires data' == data[pages[p].value := Splice(data[pages[p].value], off, b)]
    requires i < MIN_PAGE_SIZE * |pages| && Filed(data', pages)
    ensures ByteAt(data', pages, i) ==
            if MIN_PAGE_SIZE * p + off <= i < MIN_PAGE_SIZE * p + off + |b| then b[i - MIN_PAGE_SIZE * p - off]
            else ByteAt(data, pages, i)
  {
    var q, r := i / MIN_PAGE_SIZE, i % MIN_PAGE_SIZE;
    assert i == MIN_PAGE_SIZE * q + r;
    if q < p { assert MIN_PAGE_SIZE * q + MIN_PAGE_SIZE <= MIN_PAGE_SIZE * p; }
    if p < q { assert MIN_PAGE_SIZE * p + MIN_PAGE_SIZE <= MIN_PAGE_SIZE * q; }
  }

  /** A stretch of one page is a stretch of the array. */
  lemma PeekFlat(data: Data, pages: Pages, p: nat, off: nat, n: nat)
    requires Filed(data, pages) && p < |pages| && pages[p].Some? && off + n <= MIN_PAGE_SIZE
    ensures MIN_PAGE_SIZE * p + off + n <= |Flat(data, pages)|
    ensures data[pages[p].value][off..off + n] ==
            Flat(data, pages)[MIN_PAGE_SIZE * p + off..MIN_PAGE_SIZE * p + off + n]
  {
    assert MIN_PAGE_SIZE * p + MIN_PAGE_SIZE <= MIN_PAGE_SIZE * |pages|;
    var s := data[pages[p].value][off..off + n];
    var t := Flat(data, pages)[MIN_PAGE_SIZE * p + off..MIN_PAGE_SIZE * p + off + n];
    forall j | 0 <= j < n ensures s[j] == t[j] {
      ModUnique(MIN_PAGE_SIZE * p + off + j, MIN_PAGE_SIZE, p, off + j);
    }
  }

  lemma SpliceTwice(s: seq<Byte>, at: nat, a: seq<Byte>, b: seq<Byte>)
    requires at + |a| + |b| <= |s|
    ensures Splice(Splice(s, at, a), at + |a|, b) == Splice(s, at, a + b)
  {
  }

  /** Data changed in these pages only. */
  ghost predicate OnlyIn(data: Data, data': Data, pages: Pages) {
    forall f :: f in data && Some(f) !in pages ==> f in data' && data'[f] == data[f]
  }

  lemma OnlyInTwice(data0: Data, data1: Data, data2: Data, pages1: Pages, pages2: Pages)
    requires OnlyIn(data0, data1, pages1) && OnlyIn(data1, data2, pages2) && |pages1| == |pages2|
    requires forall p :: 0 <= p < |pages1| && pages1[p].Some? ==> pages2[p] == pages1[p]
    ensures OnlyIn(data0, data2, pages2)
  {
    forall f | Some(f) !in pages2 ensures Some(f) !in pages1 {
    }
  }

  lemma GrowthIsOnlyIn(data: Data, data': Data, pages: Pages)
    requires Grows(data, data')
    ensures OnlyIn(data, data', pages)
  {
  }

  /** Areas never interfere: what one does to its pages changes no byte of another. */
  lemma AreasApart(data: Data, owner: map<nat, object>, data': Data, owner': map<nat, object>, pages: Pages,
                   who: object, other: object)
    requires Filed(data, pages) && who != other && Undisturbed(data, owner, data', owner', who)
    requires forall p :: 0 <= p < |pages| && pages[p].Some? ==>
             pages[p].value in owner && owner[pages[p].value] == other
    ensures Filed(data', pages) && Flat(data', pages) == Flat(data, pages)
    ensures forall p :: 0 <= p < |pages| && pages[p].Some? ==>
            pages[p].value in owner' && owner'[pages[p].value] == other
  {
    forall i: nat | i < MIN_PAGE_SIZE * |pages| ensures ByteAt(data', pages, i) == ByteAt(data, pages, i) {
    }
  }

  class VmArea {
    const m: Machine
    const len: nat
    var pages: Pages

    ghost predicate Valid()
      reads this, m, m.pages
    {
      && m.Valid()
      && 0 < len == MIN_PAGE_SIZE * |pages| && len < WORDS
      && Filed(m.data, pages)
      && (forall p :: 0 <= p < |pages| && pages[p].Some? ==>
            pages[p].value in m.owner && m.owner[pages[p].value] == this)
    }

    ghost function Contents(): seq<Byte>
      requires Valid()
      reads this, m, m.pages
    {
      Flat(m.data, pages)
    }

    constructor Empty(m: Machine, n: nat)
      requires m.Valid() && n > 0 && MIN_PAGE_SIZE * n < WORDS
      ensures Valid() && this.m == m && len == MIN_PAGE_SIZE * n && pages == seq(n, _ => None)
    {
      this.m, len, pages := m, MIN_PAGE_SIZE * n, seq(n, _ => None);
    }

    /** `new_anonymous`; `room` says whether the kernel heap can hold the page list. */
    static method NewAnonymous(m: Machine, len: nat, room: bool) returns (r: Result<VmArea>)
      requires m.Valid() && len < WORDS
      ensures r == Err(InvalidArg) <==> len == 0 || len % MIN_PAGE_SIZE != 0
      ensures r == Err(OutOfMemory) <==> len > 0 && len % MIN_PAGE_SIZE == 0 && !room
      ensures r.Ok? || r == Err(InvalidArg) || r == Err(OutOfMemory)
      ensures r.Ok? ==> fresh(r.value) && r.value.Valid() && r.value.m == m && r.value.len == len
      ensures r.Ok? ==> r.value.Contents() == seq(len, _ => 0)
    {
      if len == 0 || len % MIN_PAGE_SIZE != 0 { return Err(InvalidArg); }
      if !room { return Err(OutOfMemory); }
      var area := new VmArea.Empty(m, len / MIN_PAGE_SIZE);
      r := Ok(area);
    }

    /** A page that is filled stays the frame that it is. */
    twostate predicate PagesStay()
      reads this
    {
      |pages| == |old(pages)| && forall p :: 0 <= p < |pages| && old(pages)[p].Some? ==> pages[p] == old(pages)[p]
    }

    /** The area is as it was: its bytes are. */
    twostate predicate Keeps()
      reads this, m, m.pages
    {
      old(Valid()) && Valid() && Contents() == old(Contents())
    }

    /** What filling pages leaves alone. */
    twostate predicate OnlyFills()
      reads this, m
    {
      OnlyFillsPages() && m.tables == old(m.tables)
    }

    twostate predicate OnlyFillsPages()
      reads this, m
    {
      && PagesStay()
      && Kept(old(m.owner), m.owner)
      && Grows(old(m.data), m.data)
    }

    method GetOrFill(index: nat) returns (r: Result<nat>)
      requires Valid() && index < |pages|
      modifies this, m, m.pages
      ensures Valid() && Contents() == old(Contents()) && OnlyFills() && m.pages.pools == old(m.pages.pools)
      ensures r.Ok? ==> pages[index] == Some(r.value)
      ensures r.Err? ==> r == Err(OutOfMemory) && old(pages)[index].None? && NoRoom(m.pages.regions, MIN_PAGE_SIZE)
      ensures old(pages)[index].Some? ==> pages == old(pages) && m.data == old(m.data) && m.owner == old(m.owner)
    {
      hide Flat, Machine.Valid, NoRoom;
      m.Facts();
      if pages[index].None? {
        var paddr := m.AllocData(this);
        if paddr.None? { return Err(OutOfMemory); }
        FillKeepsFlat(old(m.data), pages, index, paddr.value, m.data, pages[index := Some(paddr.value)]);
        pages := pages[index := Some(paddr.value)];
      }
      r := Ok(pages[index].value);
    }

    method EnsurePage(index: nat) returns (r: Result<nat>)
      requires Valid()
      modifies this, m, m.pages
      ensures Valid() && Contents() == old(Contents()) && OnlyFills() && m.pages.pools == old(m.pages.pools)
      ensures r == Err(OutOfBounds) <==> index >= |pages|
      ensures r.Ok? ==> index < |pages| && pages[index] == Some(r.value)
      ensures r.Err? && r != Err(OutOfBounds) ==> r == Err(OutOfMemory) && NoRoom(m.pages.regions, MIN_PAGE_SIZE)
    {
      if index >= |pages| { return Err(OutOfBounds); }
      r := GetOrFill(index);
    }

    /** The part of a write that lands in one page. */
    method WritePage(f: nat, p: nat, off: nat, b: seq<Byte>)
      requires Valid() && p < |pages| && pages[p] == Some(f) && off + |b| <= MIN_PAGE_SIZE
      modifies m`data
      ensures Valid() && MIN_PAGE_SIZE * p + off + |b| <= len
      ensures Contents() == Splice(old(Contents()), MIN_PAGE_SIZE * p + off, b)
      ensures Undisturbed(old(m.data), m.owner, m.data, m.owner, this) && OnlyIn(old(m.data), m.data, pages)
    {
      hide Flat, Machine.Valid;
      var page := Splice(m.data[f], off, b);
      PokeFlat(m.data, pages, p, off, b, m.data[f := page]);
      m.SetData(f, page);
    }

    /** What writing to this area leaves alone. */
    twostate predicate OnlyWrites()
      reads this, m
    {
      && PagesStay()
      && m.tables == old(m.tables)
      && Undisturbed(old(m.data), old(m.owner), m.data, m.owner, this)
      && OnlyIn(old(m.data), m.data, pages)
    }

    /** Writing to another area leaves this one alone. */
    twostate lemma Unwritten(area: VmArea)
      requires area != this && area.m == m && old(Valid()) && m.Valid() && pages == old(pages) && area.OnlyWrites()
      ensures Valid() && Contents() == old(Contents())
    {
      hide Machine.Valid, Flat, OnlyIn;
      AreasApart(old(m.data), old(m.owner), m.data, m.owner, pages, area, this);
    }

    /** One turn of the loop in `write`: as much of the data as the page at `offset` takes. */
    method WriteSome(offset: nat, bytes: seq<Byte>) returns (r: Result<nat>)
      requires Valid() && offset + |bytes| <= len && |bytes| > 0
      modifies this, m, m.pages
      ensures Valid() && OnlyWrites() && m.pages.pools == old(m.pages.pools)
      ensures r.Ok? ==> 0 < r.value <= |bytes| && Contents() == Splice(old(Contents()), offset, bytes[..r.value])
      ensures r.Err? ==>
              Contents() == old(Contents()) && r == Err(OutOfMemory) && NoRoom(m.pages.regions, MIN_PAGE_SIZE)
    {
      hide Flat, Machine.Valid, NoRoom, Filed, Splice, OnlyIn;
      var index, off := offset / MIN_PAGE_SIZE, offset % MIN_PAGE_SIZE;
      var copyLen := Min(|bytes|, MIN_PAGE_SIZE - off);
      r := GetOrFill(index);
      ghost var filled := m.data;
      GrowthIsOnlyIn(old(m.data), filled, pages);
      if r.Ok? {
        WritePage(r.value, index, off, bytes[..copyLen]);
        OnlyInTwice(old(m.data), filled, m.data, pages, pages);
        r := Ok(copyLen);
      }
    }

    /** `write`. `done` is how much of the data was written: all of it, or what came before memory ran out. */
    method Write(offset: nat, bytes: seq<Byte>) returns (r: Result<()>, ghost done: nat)
      requires Valid()
      modifies this, m, m.pages
      ensures Valid() && OnlyWrites() && m.pages.pools == old(m.pages.pools)
      ensures r == Err(OutOfBounds) <==> offset + |bytes| > len
      ensures r == Err(OutOfBounds) ==>
              done == 0 && pages == old(pages) && m.data == old(m.data) && m.owner == old(m.owner)
      ensures r != Err(OutOfBounds) ==> done <= |bytes| && Contents() == Splice(old(Contents()), offset, bytes[..done])
      ensures r.Ok? <==> done == |bytes| && r != Err(OutOfBounds)
      ensures r.Err? && r != Err(OutOfBounds) ==> r == Err(OutOfMemory) && NoRoom(m.pages.regions, MIN_PAGE_SIZE)
    {
      hide Flat, Machine.Valid, NoRoom, Filed, Splice, OnlyIn;
      done := 0;
      GrowthIsOnlyIn(m.data, m.data, pages);
      if offset + |bytes| > len { return Err(OutOfBounds), 0; }
      var offset', data := offset, bytes;
      SpliceNothing(Contents(), offset, bytes[..0]);
      while |data| > 0
        invariant Valid() && OnlyWrites() && m.pages.pools == old(m.pages.pools)
        invariant done <= |bytes| && data == bytes[done..] && offset' == offset + done
        invariant Contents() == Splice(old(Contents()), offset, bytes[..done])
        decreases |data|
      {
        ghost var before, pages' := m.data, pages;
        var copied := WriteSome(offset', data);
        OnlyInTwice(old(m.data), before, m.data, pages', pages);
        if copied.Err? { return Err(copied.error), done; }
        SpliceTwice(old(Contents()), offset, bytes[..done], data[..copied.value]);
        assert bytes[..done] + data[..copied.value] == bytes[..done + copied.value];
        data, offset', done := data[copied.value..], offset' + copied.value, done + copied.value;
      }
      assert bytes[..done] == bytes;
      r := Ok(());
    }

    /** One turn of the loop in `read`. */
    method ReadSome(offset: nat, buf: array<Byte>, at: nat, hi: nat) returns (r: Result<nat>)
      requires Valid() && at < hi <= buf.Length && offset + (hi - at) <= len
      modifies this, m, m.pages, buf
      ensures Valid() && Contents() == old(Contents()) && OnlyFills() && m.pages.pools == old(m.pages.pools)
      ensures r.Ok? ==> 0 < r.value <= hi - at
      ensures r.Ok? ==> buf[..] == Splice(old(buf[..]), at, Contents()[offset..offset + r.value])
      ensures r.Err? ==> buf[..] == old(buf[..])
      ensures None !in old(pages) ==> pages == old(pages) && m.data == old(m.data) && m.owner == old(m.owner)
      ensures r.Err? ==> r == Err(OutOfMemory) && NoRoom(m.pages.regions, MIN_PAGE_SIZE) && None in old(pages)
    {
      hide Flat, Machine.Valid, NoRoom, Splice, Grows, Kept;
      var index, off := offset / MIN_PAGE_SIZE, offset % MIN_PAGE_SIZE;
      r := GetOrFill(index);
      if r.Ok? {
        var copyLen := Min(hi - at, MIN_PAGE_SIZE - off);
        PeekFlat(m.data, pages, index, off, copyLen);
        CopyInto(buf, at, m.data[r.value][off..off + copyLen]);
        r := Ok(copyLen);
      }
    }

    /** `read` into `buf[lo..hi]`; `done` is how much was read. */
    method Read(offset: nat, buf: array<Byte>, lo: nat, hi: nat) returns (r: Result<()>, ghost done: nat)
      requires Valid() && lo <= hi <= buf.Length
      modifies this, m, m.pages, buf
      ensures Valid() && Contents() == old(Contents()) && OnlyFills() && m.pages.pools == old(m.pages.pools)
      ensures r == Err(OutOfBounds) <==> offset + (hi - lo) > len
      ensures r == Err(OutOfBounds) ==>
              done == 0 && pages == old(pages) && m.data == old(m.data) && m.owner == old(m.owner)
      ensures done <= hi - lo && (r.Ok? <==> done == hi - lo && r != Err(OutOfBounds))
      ensures r != Err(OutOfBounds) ==> buf[..] == Splice(old(buf[..]), lo, Contents()[offset..offset + done])
      ensures r == Err(OutOfBounds) ==> buf[..] == old(buf[..])
      ensures r.Err? && r != Err(OutOfBounds) ==> r == Err(OutOfMemory) && NoRoom(m.pages.regions, MIN_PAGE_SIZE)
      ensures None !in old(pages) ==>
              (r.Ok? || r == Err(OutOfBounds)) && pages == old(pages) && m.data == old(m.data)
                && m.owner == old(m.owner)
    {
      hide Flat, Machine.Valid, NoRoom, Filed, Splice;
      done := 0;
      if offset + (hi - lo) > len { return Err(OutOfBounds), 0; }
      var offset', at := offset, lo;
      ghost var bytes := Contents()[offset..offset + (hi - lo)];
      SpliceNothing(buf[..], lo, Contents()[offset..offset]);
      while at < hi
        invariant Valid() && Contents() == old(Contents()) && OnlyFills() && m.pages.pools == old(m.pages.pools)
        invariant at <= hi && done == at - lo && offset' == offset + done
        invariant buf[..] == Splice(old(buf[..]), lo, Contents()[offset..offset + done])
        invariant None !in old(pages) ==> pages == old(pages) && m.data == old(m.data) && m.owner == old(m.owner)
      {
        var copied := ReadSome(offset', buf, at, hi);
        if copied.Err? { return Err(copied.error), done; }
        ghost var a, b := Contents()[offset..offset + done], Contents()[offset'..offset' + copied.value];
        SpliceTwice(old(buf[..]), lo, a, b);
        assert a + b == Contents()[offset..offset + done + copied.value];
        at, offset', done := at + copied.value, offset' + copied.value, done + copied.value;
      }
      r := Ok(());
    }
  }

  method CopyInto(buf: array<Byte>, at: nat, src: seq<Byte>)
    requires at + |src| <= buf.Length
    modifies buf
    ensures buf[..] == Splice(old(buf[..]), at, src)
  {
    forall j | 0 <= j < |src| { buf[at + j] := src[j]; }
  }

  lemma SpliceNothing(s: seq<Byte>, at: nat, b: seq<Byte>)
    requires at <= |s| && b == []
    ensures Splice(s, at, b) == s
  {
  }
}
