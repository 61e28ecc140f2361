/** The initial file system (`initfs.rs`): a reader of cpio archives in the new ASCII format of cpio(5). */
module InitFs {
  import opened Prelude
  import opened Alignment

  type Bytes = seq<Byte>

  const HEADER_SIZE: nat := 110
  const FILESIZE: nat := 54  // where the two fields that the reader uses lie in the header
  const NAMESIZE: nat := 94
  const MAGIC: Bytes := [48, 55, 48, 55, 48, 49]  // "070701"
  const TRAILER: Bytes := [84, 82, 65, 73, 76, 69, 82, 33, 33, 33]  // "TRAILER!!!"

  // -- hexadecimal numbers

  function Digit(b: Byte): Option<nat> {
    if 48 <= b <= 57 then Some(b - 48)
    else if 97 <= b <= 102 then Some(b - 97 + 10)
    else if 65 <= b <= 70 then Some(b - 65 + 10)
    else None
  }

  /** The number that a string of digits stands for. */
  function HexValue(s: Bytes): Option<nat> {
    if s == [] then Some(0)
    else
      var high, low := HexValue(s[..|s| - 1]), Digit(s[|s| - 1]);
      if high.None? || low.None? then None else Some(high.value * 16 + low.value)
  }

  method ParseHex(s: Bytes) returns (r: Option<nat>)
    ensures r == HexValue(s)
  {
    var value := 0;
    for i := 0 to |s|
      invariant HexValue(s[..i]) == Some(value)
    {
      assert s[..i + 1][..i] == s[..i];
      var digit := Digit(s[i]);
      if digit.None? {
        NoValue(s, i + 1);
        return None;
      }
      value := value * 16 + digit.value;
    }
    assert s[..|s|] == s;
    r := Some(value);
  }

  /** A string with a prefix that is no number is none. */
  lemma {:induction false} NoValue(s: Bytes, i: nat)
    requires i <= |s| && HexValue(s[..i]).None?
    ensures HexValue(s).None?
    decreases |s| - i
  {
    if i == |s| {
      assert s[..i] == s;
    } else {
      assert s[..i + 1][..i] == s[..i];
      NoValue(s, i + 1);
    }
  }

  /** The digit that stands for `d`; above nine it is a letter, of either case. */
  function DigitOf(d: nat, upper: bool): Byte
    requires d < 16
  {
    if d < 10 then 48 + d else if upper then 55 + d else 87 + d
  }

  /** A number in as many digits as `upper` has places, each letter in the case that `upper` asks for. */
  function ToHex(v: nat, upper: seq<bool>): (s: Bytes)
    ensures |s| == |upper|
  {
    if upper == [] then []
    else ToHex(v / 16, upper[..|upper| - 1]) + [DigitOf(v % 16, upper[|upper| - 1])]
  }

  lemma NoDigits()
    ensures Pow2(4 * 0) == 1
  {
  }

  lemma MoreDigits(n: nat)
    requires n > 0
    ensures Pow2(4 * n) == 16 * Pow2(4 * (n - 1))
  {
    Pow2Add(4, 4 * (n - 1));
    assert Pow2(4) == 16;
  }

  /** A printed number reads back, whatever the cases of its letters. */
  lemma {:induction false} HexRoundTrip(v: nat, upper: seq<bool>)
    requires v < Pow2(4 * |upper|)
    ensures HexValue(ToHex(v, upper)) == Some(v)
  {
    hide Pow2;
    var n := |upper|;
    NoDigits();
    if n > 0 {
      MoreDigits(n);
      HexRoundTrip(v / 16, upper[..n - 1]);
      assert ToHex(v, upper)[..n - 1] == ToHex(v / 16, upper[..n - 1]);
    }
  }

  function Cases(s: Bytes): (r: seq<bool>)
    ensures |r| == |s|
  {
    seq(|s|, i requires 0 <= i < |s| => 65 <= s[i] <= 70)
  }

  /** Nothing but a printed number is read as one. */
  lemma {:induction false} HexIsPrinted(s: Bytes)
    requires HexValue(s).Some?
    ensures s == ToHex(HexValue(s).value, Cases(s)) && HexValue(s).value < Pow2(4 * |s|)
  {
    hide Pow2, Digit, DigitOf, Cases, HexValue, ToHex;
    var n := |s|;
    if n == 0 {
      NoDigits();
      ToHexStep(HexValue(s).value, Cases(s));
      HexStep(s);
    } else {
      MoreDigits(n);
      HexStep(s);
      var last := s[n - 1];
      var high, low := HexValue(s[..n - 1]).value, Digit(last).value;
      DigitIsPrinted(last);
      DivSixteen(high, low);
      HexIsPrinted(s[..n - 1]);
      CasesPrefix(s);
      ToHexStep(HexValue(s).value, Cases(s));
      assert s == s[..n - 1] + [last];
    }
  }

  lemma HexStep(s: Bytes)
    ensures if s == [] then HexValue(s) == Some(0)
      else
        var high, low := HexValue(s[..|s| - 1]), Digit(s[|s| - 1]);
        HexValue(s) == if high.None? || low.None? then None else Some(high.value * 16 + low.value)
  {
    hide Digit;
  }

  lemma ToHexStep(v: nat, upper: seq<bool>)
    ensures var n := |upper|;
      ToHex(v, upper) == if n == 0 then [] else ToHex(v / 16, upper[..n - 1]) + [DigitOf(v % 16, upper[n - 1])]
  {
    hide DigitOf;
  }

  lemma DivSixteen(high: nat, low: nat)
    requires low < 16
    ensures (high * 16 + low) / 16 == high && (high * 16 + low) % 16 == low
  {
  }

  lemma CasesPrefix(s: Bytes)
    requires s != []
    ensures Cases(s)[..|s| - 1] == Cases(s[..|s| - 1]) && (Cases(s)[|s| - 1] <==> 65 <= s[|s| - 1] <= 70)
  {
  }

  lemma DigitIsPrinted(b: Byte)
    requires Digit(b).Some?
    ensures Digit(b).value < 16 && DigitOf(Digit(b).value, 65 <= b <= 70) == b
  {
  }

  // -- one item of the archive

  datatype Item = Item(name: Bytes, data: Bytes, next: nat)

  /** `get`: a slice, if the file has it. */
  function Get(file: Bytes, at: nat, n: nat): Option<Bytes> {
    if at + n <= |file| then Some(file[at..at + n]) else None
  }

  function Round4(x: nat): nat {
    (x + 3) / 4 * 4
  }

  function Trim(name: Bytes): Bytes {
    if |name| > 0 && name[|name| - 1] == 0 then name[..|name| - 1] else name
  }

  function Field(file: Bytes, at: nat): Option<nat> {
    var s := Get(file, at, 8);
    if s.None? then None else HexValue(s.value)
  }

  /** The item whose header is at `at`. */
  function Parse(file: Bytes, at: nat): (r: Option<Item>)
    ensures r.Some? ==> at + HEADER_SIZE <= r.value.next && at + HEADER_SIZE <= |file| && r.value.next <= |file| + 3
  {
    var namesize, filesize := Field(file, at + NAMESIZE), Field(file, at + FILESIZE);
    if Get(file, at, 6) != Some(MAGIC) || namesize.None? || filesize.None? then None
    else
      var name := Get(file, at + HEADER_SIZE, namesize.value);
      if name.None? || Trim(name.value) == TRAILER then None
      else
        var dataAt := Round4(at + HEADER_SIZE + namesize.value);
        var data := Get(file, dataAt, filesize.value);
        if data.None? then None else Some(Item(Trim(name.value), data.value, Round4(dataAt + filesize.value)))
  }

  class InitFsLoader {
    const file: Bytes
    var offset: nat

    constructor (file: Bytes)
      ensures this.file == file && offset == 0
    {
      this.file, offset := file, 0;
    }

    /** `next`. An item moves the offset on; the end leaves it, so the end is the end forever. */
    method Next() returns (r: Option<(Bytes, Bytes)>)
      requires offset <= |file| + 3 && |file| < WORDS / 2
      modifies this
      ensures match Parse(file, old(offset))
        case None => r == None && offset == old(offset)
        case Some(i) => r == Some((i.name, i.data)) && offset == i.next
      ensures offset <= |file| + 3
    {
      hide HexValue;
      var magic := Get(file, offset, 6);
      if magic != Some(MAGIC) { return None; }
      var namesizeBytes := Get(file, offset + NAMESIZE, 8);
      if namesizeBytes.None? { return None; }
      var namesize := ParseHex(namesizeBytes.value);
      if namesize.None? { return None; }
      var filesizeBytes := Get(file, offset + FILESIZE, 8);
      if filesizeBytes.None? { return None; }
      var filesize := ParseHex(filesizeBytes.value);
      if filesize.None? { return None; }
      var name := Get(file, offset + HEADER_SIZE, namesize.value);
      if name.None? { return None; }
      var trimmed := Trim(name.value);
      if trimmed == TRAILER { return None; }
      Rounds4(offset + HEADER_SIZE + namesize.value);
      var dataOffset := AlignUp(offset + HEADER_SIZE + namesize.value, 4);
      var data := Get(file, dataOffset, filesize.value);
      if data.None? { return None; }
      Rounds4(dataOffset + filesize.value);
      offset := AlignUp(dataOffset + filesize.value, 4);
      r := Some((trimmed, data.value));
    }
  }

  lemma Rounds4(x: nat)
    requires x < WORDS - 4
    ensures AlignUp(x, 4) == Round4(x)
  {
    assert Pow2(2) == 4;
    AlignUpIsDiv(x, 4);
  }

  // -- archives

  /**
   A file to be archived, and the freedom there is in archiving it: the cases in which its two sizes are printed, the
   NUL after its name, the fields that the reader ignores and the padding.
   */
  datatype Entry = Entry(
    name: Bytes, data: Bytes,
    sizeCase: seq<bool>, nameCase: seq<bool>, nul: bool,
    before: Bytes, between: Bytes, checksum: Bytes, namePad: Bytes, dataPad: Bytes)

  function NameSize(e: Entry): nat {
    |e.name| + if e.nul then 1 else 0
  }

  predicate Encodable(e: Entry) {
    && |e.before| == 48 && |e.between| == 32 && |e.checksum| == 8 && |e.sizeCase| == |e.nameCase| == 8
    && NameSize(e) < 0x1_0000_0000 && |e.data| < 0x1_0000_0000
    && (e.nul || e.name == [] || e.name[|e.name| - 1] != 0)
    && HEADER_SIZE + NameSize(e) + |e.namePad| == Round4(HEADER_SIZE + NameSize(e))
    && |e.data| + |e.dataPad| == Round4(|e.data|)
  }

  function Padding(n: nat): Bytes {
    seq(Round4(n) - n, _ => 0)
  }

  function HeaderOf(e: Entry): Bytes {
    MAGIC + e.before + ToHex(|e.data|, e.sizeCase) + e.between + ToHex(NameSize(e), e.nameCase) + e.checksum
  }

  function Named(e: Entry): Bytes {
    if e.nul then e.name + [0] else e.name
  }

  function NameOf(e: Entry): Bytes {
    Named(e) + e.namePad
  }

  function DataOf(e: Entry): Bytes {
    e.data + e.dataPad
  }

  function Encode(e: Entry): Bytes {
    HeaderOf(e) + NameOf(e) + DataOf(e)
  }

  function Digits(n: nat): Bytes {
    seq(n, _ => 48)
  }

  function Lower(n: nat): seq<bool> {
    seq(n, _ => false)
  }

  function Last(): Entry {
    Entry(TRAILER, [], Lower(8), Lower(8), true, Digits(48), Digits(32), Digits(8), Padding(HEADER_SIZE + 11), [])
  }

  predicate AllEncodable(es: seq<Entry>) {
    forall i :: 0 <= i < |es| ==> Encodable(es[i]) && es[i].name != TRAILER
  }

  function Packed(es: seq<Entry>): Bytes {
    if es == [] then [] else Encode(es[0]) + Packed(es[1..])
  }

  function Archive(es: seq<Entry>): Bytes {
    Packed(es) + Encode(Last())
  }

  lemma HeaderLength(e: Entry)
    requires Encodable(e)
    ensures |HeaderOf(e)| == HEADER_SIZE
  {
    hide ToHex;
  }

  lemma RoundUp(n: nat)
    ensures n <= Round4(n) && Round4(n) % 4 == 0
  {
  }

  lemma EncodeSize(e: Entry)
    requires Encodable(e)
    ensures |HeaderOf(e)| == HEADER_SIZE
    ensures |HeaderOf(e) + NameOf(e)| == Round4(HEADER_SIZE + NameSize(e))
    ensures |Encode(e)| == Round4(HEADER_SIZE + NameSize(e)) + Round4(|e.data|) && |Encode(e)| % 4 == 0
  {
    hide HeaderOf, Round4;
    HeaderLength(e);
    RoundUp(HEADER_SIZE + NameSize(e));
    RoundUp(|e.data|);
  }

  lemma HeaderFields(e: Entry)
    requires Encodable(e)
    ensures |HeaderOf(e)| == HEADER_SIZE && HeaderOf(e)[..6] == MAGIC
    ensures HexValue(HeaderOf(e)[FILESIZE..FILESIZE + 8]) == Some(|e.data|)
    ensures HexValue(HeaderOf(e)[NAMESIZE..NAMESIZE + 8]) == Some(NameSize(e))
  {
    hide ToHex, HexValue, Round4;
    Pow2Is32();
    HexRoundTrip(|e.data|, e.sizeCase);
    HexRoundTrip(NameSize(e), e.nameCase);
    assert HeaderOf(e)[FILESIZE..FILESIZE + 8] == ToHex(|e.data|, e.sizeCase);
    assert HeaderOf(e)[NAMESIZE..NAMESIZE + 8] == ToHex(NameSize(e), e.nameCase);
  }

  lemma Pow2Is32()
    ensures Pow2(4 * 8) == 0x1_0000_0000
  {
    assert Pow2(8) == 0x100;
    PowerSums();
  }

  lemma PowerSums()
    ensures Pow2(32) == Pow2(8) * Pow2(8) * (Pow2(8) * Pow2(8))
  {
    hide Pow2;
    Pow2Add(8, 8);
    Pow2Add(16, 16);
  }

  /** A slice of one part of `a + b + c`. */
  lemma GetMiddle(a: Bytes, b: Bytes, c: Bytes, x: nat, n: nat)
    requires x + n <= |b|
    ensures Get(a + b + c, |a| + x, n) == Some(b[x..x + n])
  {
    assert (a + b + c)[|a| + x..|a| + x + n] == b[x..x + n];
  }

  lemma RoundFrom(x: nat, n: nat)
    requires x % 4 == 0
    ensures Round4(x + n) == x + Round4(n) && Round4(n) % 4 == 0
  {
  }

  lemma NameReads(pre: Bytes, e: Entry, rest: Bytes)
    requires Encodable(e)
    ensures Get(pre + Encode(e) + rest, |pre| + HEADER_SIZE, NameSize(e)) == Some(Named(e))
  {
    hide HeaderOf, DataOf;
    EncodeSize(e);
    GetMiddle(pre, Encode(e), rest, HEADER_SIZE, NameSize(e));
    assert Encode(e)[HEADER_SIZE..HEADER_SIZE + NameSize(e)] == Named(e);
  }

  lemma DataReads(pre: Bytes, e: Entry, rest: Bytes)
    requires Encodable(e)
    ensures Get(pre + Encode(e) + rest, |pre| + Round4(HEADER_SIZE + NameSize(e)), |e.data|) == Some(e.data)
  {
    hide HeaderOf, NameOf;
    EncodeSize(e);
    var at := Round4(HEADER_SIZE + NameSize(e));
    GetMiddle(pre, Encode(e), rest, at, |e.data|);
    assert Encode(e)[at..at + |e.data|] == e.data;
  }

  lemma HeaderReads(pre: Bytes, e: Entry, rest: Bytes)
    requires Encodable(e)
    ensures var file := pre + Encode(e) + rest;
      && Get(file, |pre|, 6) == Some(MAGIC)
      && Field(file, |pre| + NAMESIZE) == Some(NameSize(e))
      && Field(file, |pre| + FILESIZE) == Some(|e.data|)
  {
    hide HeaderOf, NameOf, DataOf, HexValue;
    EncodeSize(e);
    HeaderFields(e);
    var h := HeaderOf(e);
    assert Encode(e)[..HEADER_SIZE] == h;
    GetMiddle(pre, Encode(e), rest, 0, 6);
    GetMiddle(pre, Encode(e), rest, NAMESIZE, 8);
    GetMiddle(pre, Encode(e), rest, FILESIZE, 8);
    assert Encode(e)[0..6] == h[..6];
    assert Encode(e)[NAMESIZE..NAMESIZE + 8] == h[NAMESIZE..NAMESIZE + 8];
    assert Encode(e)[FILESIZE..FILESIZE + 8] == h[FILESIZE..FILESIZE + 8];
  }

  /** An encoded file, anywhere in an archive at a multiple of four, reads back. */
  lemma EntryReads(pre: Bytes, e: Entry, rest: Bytes)
    requires Encodable(e) && |pre| % 4 == 0
    ensures Parse(pre + Encode(e) + rest, |pre|) ==
            if e.name == TRAILER then None else Some(Item(e.name, e.data, |pre| + |Encode(e)|))
  {
    hide Encode, Field, Get, Round4, Trim, Parse, HeaderOf, NameOf;
    var file, dataAt := pre + Encode(e) + rest, |pre| + Round4(HEADER_SIZE + NameSize(e));
    HeaderReads(pre, e, rest);
    NameReads(pre, e, rest);
    DataReads(pre, e, rest);
    EntryEnds(|pre|, e);
    TrimNul(e);
    ParseIs(file, |pre|, NameSize(e), Named(e), dataAt, e.data);
  }

  lemma EntryEnds(at: nat, e: Entry)
    requires Encodable(e) && at % 4 == 0
    ensures Round4(at + HEADER_SIZE + NameSize(e)) == at + Round4(HEADER_SIZE + NameSize(e))
    ensures Round4(at + Round4(HEADER_SIZE + NameSize(e)) + |e.data|) == at + |Encode(e)|
  {
    hide Encode, Round4;
    EncodeSize(e);
    RoundFrom(at, HEADER_SIZE + NameSize(e));
    RoundFrom(at + Round4(HEADER_SIZE + NameSize(e)), |e.data|);
  }

  lemma ParseIs(file: Bytes, at: nat, namesize: nat, name: Bytes, dataAt: nat, data: Bytes)
    requires Get(file, at, 6) == Some(MAGIC)
    requires Field(file, at + NAMESIZE) == Some(namesize) && Field(file, at + FILESIZE) == Some(|data|)
    requires Get(file, at + HEADER_SIZE, namesize) == Some(name)
    requires dataAt == Round4(at + HEADER_SIZE + namesize) && Get(file, dataAt, |data|) == Some(data)
    ensures Parse(file, at) ==
            if Trim(name) == TRAILER then None else Some(Item(Trim(name), data, Round4(dataAt + |data|)))
  {
    hide Field, Get, Round4, Trim;
  }

  lemma TrimNul(e: Entry)
    requires Encodable(e)
    ensures Trim(Named(e)) == e.name
  {
  }

  /** What iterating from `at` on yields. */
  function Items(file: Bytes, at: nat): seq<(Bytes, Bytes)>
    requires at <= |file| + 3
    decreases |file| + 3 - at
  {
    match Parse(file, at)
    case None => []
    case Some(i) => [(i.name, i.data)] + Items(file, i.next)
  }

  function Files(es: seq<Entry>): seq<(Bytes, Bytes)> {
    if es == [] then [] else [(es[0].name, es[0].data)] + Files(es[1..])
  }

  lemma FilesStep(es: seq<Entry>)
    requires es != []
    ensures Files(es) == [(es[0].name, es[0].data)] + Files(es[1..])
  {
  }

  lemma ItemsStep(file: Bytes, at: nat)
    requires at <= |file| + 3
    ensures match Parse(file, at)
      case None => Items(file, at) == []
      case Some(i) => Items(file, at) == [(i.name, i.data)] + Items(file, i.next)
  {
  }

  lemma FirstItem(file: Bytes, pre: Bytes, e: Entry, rest: Bytes)
    requires file == pre + Encode(e) + rest && |pre| % 4 == 0 && Encodable(e)
    ensures (|pre| + |Encode(e)|) % 4 == 0
    ensures Items(file, |pre|) ==
            if e.name == TRAILER then [] else [(e.name, e.data)] + Items(file, |pre| + |Encode(e)|)
  {
    hide Encode, Parse, Items, Encodable, Round4;
    ItemsStep(file, |pre|);
    EntryReads(pre, e, rest);
    EncodeSize(e);
  }

  lemma {:induction false} ArchiveReads(file: Bytes, pre: Bytes, es: seq<Entry>)
    requires file == pre + Packed(es) + Encode(Last()) && |pre| % 4 == 0
    requires AllEncodable(es)
    ensures Items(file, |pre|) == Files(es)
    decreases |es|
  {
    hide Encode, Items, Files, Encodable;
    if es == [] {
      LastEncodable();
      assert file == pre + Encode(Last()) + [];
      FirstItem(file, pre, Last(), []);
    } else {
      FilesStep(es);
      var rest := Packed(es[1..]) + Encode(Last());
      assert file == pre + Encode(es[0]) + rest;
      FirstItem(file, pre, es[0], rest);
      assert file == pre + Encode(es[0]) + Packed(es[1..]) + Encode(Last());
      ArchiveReads(file, pre + Encode(es[0]), es[1..]);
    }
  }

  lemma LastEncodable()
    ensures Encodable(Last()) && Files([]) == []
  {
  }

  /** Iterating over an archive yields exactly the files that were put in. */
  lemma RoundTrip(es: seq<Entry>)
    requires AllEncodable(es)
    ensures Items(Archive(es), 0) == Files(es)
  {
    hide Items, Files, Encodable, Packed, Encode;
    assert Archive(es) == [] + Packed(es) + Encode(Last());
    ArchiveReads(Archive(es), [], es);
  }

  // -- nothing but entries is read

  /** The bytes of the file from `a` to `b`; past its end there are zeros. */
  function Bytes0(file: Bytes, a: nat, b: nat): (r: Bytes)
    requires a <= b
    ensures |r| == b - a
  {
    seq(b - a, i requires 0 <= i < b - a => if a + i < |file| then file[a + i] else 0)
  }

  /** The entry that the item at `at` was read from. */
  function EntryAt(file: Bytes, at: nat): Entry
    requires at % 4 == 0 && Parse(file, at).Some?
  {
    var n, m := Field(file, at + NAMESIZE).value, Field(file, at + FILESIZE).value;
    var i, nameAt := Parse(file, at).value, at + HEADER_SIZE;
    var dataAt := Round4(nameAt + n);
    Entry(
      i.name, i.data, Cases(Bytes0(file, at + FILESIZE, at + FILESIZE + 8)),
      Cases(Bytes0(file, at + NAMESIZE, at + NAMESIZE + 8)), |i.name| < n,
      Bytes0(file, at + 6, at + FILESIZE), Bytes0(file, at + FILESIZE + 8, at + NAMESIZE),
      Bytes0(file, at + NAMESIZE + 8, nameAt), Bytes0(file, nameAt + n, dataAt), Bytes0(file, dataAt + m, i.next))
  }

  lemma GetIs(file: Bytes, a: nat, n: nat)
    requires Get(file, a, n).Some?
    ensures Get(file, a, n).value == Bytes0(file, a, a + n) && a + n <= |file|
  {
  }

  /** A field that reads as a number is that number printed. */
  lemma FieldIs(file: Bytes, a: nat)
    requires Field(file, a).Some?
    ensures var s, v := Bytes0(file, a, a + 8), Field(file, a).value; s == ToHex(v, Cases(s)) && v < 0x1_0000_0000
  {
    hide HexValue, ToHex, Cases, Bytes0;
    GetIs(file, a, 8);
    HexIsPrinted(Bytes0(file, a, a + 8));
    Pow2Is32();
  }

  lemma TrimIs(name: Bytes)
    ensures var t := Trim(name);
      && name == (if |t| < |name| then t + [0] else t)
      && (|t| == |name| ==> t == [] || t[|t| - 1] != 0)
  {
  }

  lemma Split(file: Bytes, a: nat, b: nat, c: nat)
    requires a <= b <= c
    ensures Bytes0(file, a, c) == Bytes0(file, a, b) + Bytes0(file, b, c)
  {
  }

  /** What `Parse` went by when it read an item. */
  lemma ParseSaw(file: Bytes, at: nat)
    requires Parse(file, at).Some? && at % 4 == 0
    ensures Field(file, at + NAMESIZE).Some? && Field(file, at + FILESIZE).Some?
    ensures var n, m, i := Field(file, at + NAMESIZE).value, Field(file, at + FILESIZE).value, Parse(file, at).value;
      var nameAt, dataAt := at + HEADER_SIZE, at + Round4(HEADER_SIZE + n);
      && Bytes0(file, at, at + 6) == MAGIC
      && nameAt + n <= dataAt == Round4(nameAt + n) && dataAt + m <= |file|
      && Trim(Bytes0(file, nameAt, nameAt + n)) == i.name != TRAILER
      && Bytes0(file, dataAt, dataAt + m) == i.data && |i.data| == m
      && i.next == dataAt + Round4(m) && i.next % 4 == 0
  {
    hide Field, Get, Bytes0, Trim, Round4;
    var n, m := Field(file, at + NAMESIZE).value, Field(file, at + FILESIZE).value;
    RoundFrom(at, HEADER_SIZE + n);
    RoundUp(HEADER_SIZE + n);
    GetIs(file, at, 6);
    GetIs(file, at + HEADER_SIZE, n);
    var dataAt := at + Round4(HEADER_SIZE + n);
    GetIs(file, dataAt, m);
    RoundFrom(dataAt, m);
  }

  /** An item that is read was packed there: the bytes it was read from are those of an entry with its contents. */
  lemma ItemIsEntry(file: Bytes, at: nat)
    requires Parse(file, at).Some? && at % 4 == 0
    ensures var i, e := Parse(file, at).value, EntryAt(file, at);
      && Encodable(e) && e.name == i.name != TRAILER && e.data == i.data
      && i.next == at + |Encode(e)| && Encode(e) == Bytes0(file, at, i.next)
  {
    hide Field, Get, Bytes0, Trim, Round4, Parse, ToHex, Cases;
    ParseSaw(file, at);
    FieldIs(file, at + NAMESIZE);
    FieldIs(file, at + FILESIZE);
    var n, m, i := Field(file, at + NAMESIZE).value, Field(file, at + FILESIZE).value, Parse(file, at).value;
    var nameAt, dataAt, e := at + HEADER_SIZE, at + Round4(HEADER_SIZE + n), EntryAt(file, at);
    TrimIs(Bytes0(file, nameAt, nameAt + n));
    RoundUp(m);
    EntryFits(e, n, m);
    EncodeSize(e);
    HeaderIs(file, at, e);
    PartsAre(file, at, e, n, m);
  }

  lemma EntryFits(e: Entry, n: nat, m: nat)
    requires |e.before| == 48 && |e.between| == 32 && |e.checksum| == 8 && |e.sizeCase| == |e.nameCase| == 8
    requires n < 0x1_0000_0000 && m < 0x1_0000_0000 && |e.data| == m && NameSize(e) == n
    requires e.nul || e.name == [] || e.name[|e.name| - 1] != 0
    requires HEADER_SIZE + n + |e.namePad| == Round4(HEADER_SIZE + n) && m + |e.dataPad| == Round4(m)
    ensures Encodable(e)
  {
    hide Round4;
  }

  lemma PartsAre(file: Bytes, at: nat, e: Entry, n: nat, m: nat)
    requires HeaderOf(e) == Bytes0(file, at, at + HEADER_SIZE)
    requires |Named(e)| == n && |e.data| == m
    requires Named(e) == Bytes0(file, at + HEADER_SIZE, at + HEADER_SIZE + n)
    requires var dataAt := at + HEADER_SIZE + n + |e.namePad|;
      && e.namePad == Bytes0(file, at + HEADER_SIZE + n, dataAt)
      && e.data == Bytes0(file, dataAt, dataAt + m)
      && e.dataPad == Bytes0(file, dataAt + m, dataAt + m + |e.dataPad|)
    ensures Encode(e) == Bytes0(file, at, at + |Encode(e)|)
  {
    hide HeaderOf, Named, Bytes0;
    var nameAt := at + HEADER_SIZE;
    var dataAt := nameAt + n + |e.namePad|;
    var end := dataAt + m + |e.dataPad|;
    Split(file, nameAt, nameAt + n, dataAt);
    Split(file, dataAt, dataAt + m, end);
    Split(file, at, nameAt, dataAt);
    Split(file, at, dataAt, end);
  }

  lemma HeaderIs(file: Bytes, at: nat, e: Entry)
    requires Bytes0(file, at, at + 6) == MAGIC
    requires e.before == Bytes0(file, at + 6, at + FILESIZE)
    requires ToHex(|e.data|, e.sizeCase) == Bytes0(file, at + FILESIZE, at + FILESIZE + 8)
    requires e.between == Bytes0(file, at + FILESIZE + 8, at + NAMESIZE)
    requires ToHex(NameSize(e), e.nameCase) == Bytes0(file, at + NAMESIZE, at + NAMESIZE + 8)
    requires e.checksum == Bytes0(file, at + NAMESIZE + 8, at + HEADER_SIZE)
    ensures HeaderOf(e) == Bytes0(file, at, at + HEADER_SIZE)
  {
    hide Bytes0, ToHex;
    Split(file, at, at + 6, at + FILESIZE);
    Split(file, at, at + FILESIZE, at + FILESIZE + 8);
    Split(file, at, at + FILESIZE + 8, at + NAMESIZE);
    Split(file, at, at + NAMESIZE, at + NAMESIZE + 8);
    Split(file, at, at + NAMESIZE + 8, at + HEADER_SIZE);
  }

  /** The entries from `at` on. */
  function Entries(file: Bytes, at: nat): seq<Entry>
    requires at % 4 == 0 && at <= |file| + 3
    decreases |file| + 3 - at
  {
    if Parse(file, at).None? then []
    else
      ParseSaw(file, at);
      [EntryAt(file, at)] + Entries(file, Parse(file, at).value.next)
  }

  /**
   Iterating over any bytes yields exactly the files packed at their front, up to the first thing that is no entry;
   only the padding of the last may be missing.
   */
  lemma {:induction false} ItemsArePacked(file: Bytes, at: nat)
    requires at % 4 == 0 && at <= |file| + 3
    ensures var es := Entries(file, at); var end := at + |Packed(es)|;
      && AllEncodable(es) && Items(file, at) == Files(es)
      && end <= |file| + 3 && Packed(es) == Bytes0(file, at, end) && Parse(file, end).None?
    decreases |file| + 3 - at
  {
    hide Parse, Encode, Encodable, EntryAt, Bytes0;
    if Parse(file, at).Some? {
      ParseSaw(file, at);
      ItemIsEntry(file, at);
      var next, e, es := Parse(file, at).value.next, EntryAt(file, at), Entries(file, at);
      ItemsArePacked(file, next);
      assert es[1..] == Entries(file, next);
      Split(file, at, next, at + |Packed(es)|);
    }
  }

  /** Iterating with the loader's `next` until it says None: on any bytes it ends, and yields `Items`. */
  method ReadAll(file: Bytes) returns (files: seq<(Bytes, Bytes)>)
    requires |file| < WORDS / 2
    ensures files == Items(file, 0)
  {
    hide Parse, Items;
    files := [];
    var loader := new InitFsLoader(file);
    while true
      invariant loader.file == file && loader.offset <= |file| + 3
      invariant files + Items(file, loader.offset) == Items(file, 0)
      decreases |file| + 3 - loader.offset
    {
      ItemsStep(file, loader.offset);
      var item := loader.Next();
      if item.None? { break; }
      files := files + [item.value];
    }
  }
}
