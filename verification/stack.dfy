/**
 The initial stack of a Linux process (`servers/lx/src/elf.rs`), as section 3.4.1 of the System V AMD64 ABI lays it
 out: what a process that starts at `sp` reads there.
 */
module InitialStack {
  import opened Prelude
  import opened Alignment
  import opened Paging
  import opened PageAllocation
  import opened Machinery
  import opened VmAreas

  const STACK_BASE: nat := 0x7000_0000_0000
  const STACK_SIZE: nat := 65536
  const WORD: nat := 8
  const AUXV_COUNT: nat := 8

  const AT_NULL: nat := 0
  const AT_PHDR: nat := 3
  const AT_PHENT: nat := 4
  const AT_PHNUM: nat := 5
  const AT_PAGESZ: nat := 6
  const AT_ENTRY: nat := 9
  const AT_RANDOM: nat := 25
  const AT_EXECFN: nat := 31

  type Bytes = seq<Byte>

  datatype StackError = StackTooSmall | UnalignedWrite | NotNulTerminated | VmAreaWrite(code: ErrorCode)

  datatype Outcome<+T> = Done(value: T) | Failed(error: StackError)

  // -- words in memory

  /** The `n` low bytes of a word, the lowest first. */
  function ToBytes(w: nat, n: nat): (b: Bytes)
    ensures |b| == n
  {
    if n == 0 then [] else [w % 256] + ToBytes(w / 256, n - 1)
  }

  function FromBytes(b: Bytes): nat {
    if b == [] then 0 else b[0] + 256 * FromBytes(b[1..])
  }

  lemma {:induction false} BytesRoundTrip(w: nat, n: nat)
    requires w < Pow2(8 * n)
    ensures FromBytes(ToBytes(w, n)) == w
  {
    if n > 0 {
      assert Pow2(8 * n) == 256 * Pow2(8 * (n - 1)) by {
        Pow2Add(8, 8 * (n - 1));
        assert Pow2(8) == 256;
      }
      BytesRoundTrip(w / 256, n - 1);
      assert ToBytes(w, n)[1..] == ToBytes(w / 256, n - 1);
    }
  }

  lemma WordRoundTrip(w: nat)
    requires w < WORDS
    ensures FromBytes(ToBytes(w, WORD)) == w
  {
    Pow2Values();
    BytesRoundTrip(w, WORD);
  }

  function Words(ws: seq<nat>): (b: Bytes)
    ensures |b| == WORD * |ws|
  {
    if ws == [] then [] else Words(ws[..|ws| - 1]) + ToBytes(ws[|ws| - 1], WORD)
  }

  function WordAt(b: Bytes, at: nat): nat
    requires at + WORD <= |b|
  {
    FromBytes(b[at..at + WORD])
  }

  lemma PrefixSlice(a: Bytes, b: Bytes, i: nat, j: nat)
    requires i <= j <= |a|
    ensures (a + b)[i..j] == a[i..j]
  {
  }

  lemma SuffixSlice(a: Bytes, b: Bytes)
    ensures (a + b)[|a|..|a| + |b|] == b
  {
  }

  lemma WordsSplit(ws: seq<nat>)
    requires ws != []
    ensures Words(ws) == Words(ws[..|ws| - 1]) + ToBytes(ws[|ws| - 1], WORD)
  {
  }

  lemma {:induction false} WordsAt(ws: seq<nat>, i: nat)
    requires i < |ws|
    ensures Words(ws)[WORD * i..WORD * i + WORD] == ToBytes(ws[i], WORD)
  {
    hide Words, ToBytes;
    var n := |ws| - 1;
    WordsSplit(ws);
    if i < n {
      WordsAt(ws[..n], i);
      PrefixSlice(Words(ws[..n]), ToBytes(ws[n], WORD), WORD * i, WORD * i + WORD);
    } else {
      SuffixSlice(Words(ws[..n]), ToBytes(ws[n], WORD));
    }
  }

  /** A word among words, with anything after them. */
  lemma ReadWord(ws: seq<nat>, rest: Bytes, i: nat)
    requires i < |ws| && ws[i] < WORDS
    ensures WordAt(Words(ws) + rest, WORD * i) == ws[i]
  {
    hide Words, ToBytes, FromBytes;
    WordsAt(ws, i);
    PrefixSlice(Words(ws), rest, WORD * i, WORD * i + WORD);
    WordRoundTrip(ws[i]);
  }

  // -- strings in memory

  function Concat(ss: seq<Bytes>): Bytes {
    if ss == [] then [] else Concat(ss[..|ss| - 1]) + ss[|ss| - 1]
  }

  /** Where each string starts when they are laid end to end from `base` on. */
  function Starts(ss: seq<Bytes>, base: nat): (ps: seq<nat>)
    ensures |ps| == |ss|
  {
    if ss == [] then [] else Starts(ss[..|ss| - 1], base) + [base + |Concat(ss[..|ss| - 1])|]
  }

  lemma {:induction false} StartsAt(ss: seq<Bytes>, base: nat, i: nat)
    requires i < |ss|
    ensures Starts(ss, base)[i] == base + |Concat(ss[..i])|
  {
    var n := |ss| - 1;
    if i < n {
      StartsAt(ss[..n], base, i);
      assert ss[..n][..i] == ss[..i];
    }
  }

  lemma ConcatSplits(ss: seq<Bytes>)
    requires ss != []
    ensures Concat(ss) == Concat(ss[..|ss| - 1]) + ss[|ss| - 1]
  {
  }

  lemma {:induction false} ConcatAt(ss: seq<Bytes>, i: nat)
    requires i < |ss|
    ensures |Concat(ss[..i])| + |ss[i]| <= |Concat(ss)|
    ensures Concat(ss)[|Concat(ss[..i])|..|Concat(ss[..i])| + |ss[i]|] == ss[i]
  {
    hide Concat;
    var n := |ss| - 1;
    ConcatSplits(ss);
    if i < n {
      ConcatAt(ss[..n], i);
      assert ss[..n][..i] == ss[..i];
      var at := |Concat(ss[..i])|;
      PrefixSlice(Concat(ss[..n]), ss[n], at, at + |ss[i]|);
    } else {
      SuffixSlice(Concat(ss[..n]), ss[n]);
    }
  }

  // -- the image, and what is read from it

  /** Everything the process is told. */
  datatype Args = Args(argv: seq<Bytes>, env: seq<Bytes>, random: Bytes, phdr: nat, phent: nat, phnum: nat, entry: nat)

  function HeadWords(a: Args): nat {
    3 + |a.argv| + |a.env| + 2 * AUXV_COUNT
  }

  function Unpadded(a: Args): nat {
    WORD * HeadWords(a) + |Concat(a.argv)| + |Concat(a.env)| + |a.random|
  }

  function Total(a: Args): nat {
    (Unpadded(a) + 15) / 16 * 16
  }

  function Sp(a: Args): int {
    STACK_BASE + STACK_SIZE - Total(a)
  }

  function ArgvBase(a: Args): int { Sp(a) + WORD * HeadWords(a) }
  function EnvBase(a: Args): int { ArgvBase(a) + |Concat(a.argv)| }
  function RandomBase(a: Args): int { EnvBase(a) + |Concat(a.env)| }

  predicate Fits(a: Args) {
    Total(a) <= STACK_SIZE
  }

  function Auxv(a: Args): seq<nat>
    requires Fits(a)
  {
    [AT_RANDOM, RandomBase(a), AT_EXECFN, ArgvBase(a), AT_PHDR, a.phdr, AT_PHENT, a.phent, AT_PHNUM, a.phnum,
     AT_PAGESZ, MIN_PAGE_SIZE, AT_ENTRY, a.entry, AT_NULL, 0]
  }

  function Head(a: Args): seq<nat>
    requires Fits(a)
  {
    [|a.argv|] + Starts(a.argv, ArgvBase(a)) + [0] + Starts(a.env, EnvBase(a)) + [0] + Auxv(a)
  }

  function Image(a: Args): Bytes
    requires Fits(a)
  {
    Words(Head(a)) + Concat(a.argv) + Concat(a.env) + a.random + seq(Total(a) - Unpadded(a), _ => 0)
  }

  /** The word at `at` points to `s`, in memory that holds `img` from `sp` on. */
  predicate PointsTo(img: Bytes, sp: nat, at: nat, s: Bytes)
    requires at + WORD <= |img|
  {
    var p := WordAt(img, at);
    sp <= p && p - sp + |s| <= |img| && img[p - sp..p - sp + |s|] == s
  }

  /** What the ABI promises a process that finds `img` at `sp`. */
  ghost predicate Reads(img: Bytes, sp: nat, a: Args) {
    var n, m := |a.argv|, |a.env|;
    var env := WORD * (n + 2);
    var aux := WORD * (n + m + 3);
    && sp % 16 == 0
    && |img| >= aux + WORD * 16
    && WordAt(img, 0) == n
    && (forall i :: 0 <= i < n ==> PointsTo(img, sp, WORD * (i + 1), a.argv[i]))
    && WordAt(img, WORD * (n + 1)) == 0
    && (forall i :: 0 <= i < m ==> PointsTo(img, sp, env + WORD * i, a.env[i]))
    && WordAt(img, env + WORD * m) == 0
    && WordAt(img, aux) == AT_RANDOM && PointsTo(img, sp, aux + 8, a.random)
    && WordAt(img, aux + 16) == AT_EXECFN && (n > 0 ==> PointsTo(img, sp, aux + 24, a.argv[0]))
    && WordAt(img, aux + 32) == AT_PHDR && WordAt(img, aux + 40) == a.phdr
    && WordAt(img, aux + 48) == AT_PHENT && WordAt(img, aux + 56) == a.phent
    && WordAt(img, aux + 64) == AT_PHNUM && WordAt(img, aux + 72) == a.phnum
    && WordAt(img, aux + 80) == AT_PAGESZ && WordAt(img, aux + 88) == MIN_PAGE_SIZE
    && WordAt(img, aux + 96) == AT_ENTRY && WordAt(img, aux + 104) == a.entry
    && WordAt(img, aux + 112) == AT_NULL && WordAt(img, aux + 120) == 0
  }

  /** The values that come from the executable are words. */
  predicate IsSane(a: Args) {
    a.phdr < WORDS && a.phent < WORDS && a.phnum < WORDS && a.entry < WORDS
  }

  // -- the image reads as promised

  lemma ImageSize(a: Args)
    requires Fits(a)
    ensures |Head(a)| == HeadWords(a) && |Image(a)| == Total(a) && Unpadded(a) <= Total(a) < Unpadded(a) + 16
    ensures Sp(a) % 16 == 0 && STACK_BASE <= Sp(a)
  {
  }

  lemma HeadAt(a: Args)
    requires Fits(a)
    ensures var n, m, h := |a.argv|, |a.env|, Head(a);
      && |h| == HeadWords(a) && h[0] == n && h[n + 1] == 0 && h[n + m + 2] == 0
      && (forall i :: 0 <= i < n ==> h[i + 1] == Starts(a.argv, ArgvBase(a))[i])
      && (forall i :: 0 <= i < m ==> h[n + 2 + i] == Starts(a.env, EnvBase(a))[i])
      && (forall i :: 0 <= i < 16 ==> h[n + m + 3 + i] == Auxv(a)[i])
  {
    hide Starts, Auxv;
    assert |Auxv(a)| == 16 by { AuxvSize(a); }
  }

  lemma AuxvSize(a: Args)
    requires Fits(a)
    ensures |Auxv(a)| == 16
  {
  }

  lemma ReadHead(a: Args, i: nat)
    requires Fits(a) && i < HeadWords(a) && |Head(a)| == HeadWords(a) && Head(a)[i] < WORDS
    ensures WORD * i + WORD <= |Image(a)| && WordAt(Image(a), WORD * i) == Head(a)[i]
  {
    hide Words, Head, WordAt;
    ImageSize(a);
    var rest := Concat(a.argv) + Concat(a.env) + a.random + seq(Total(a) - Unpadded(a), _ => 0);
    assert Image(a) == Words(Head(a)) + rest;
    ReadWord(Head(a), rest, i);
  }

  lemma SliceOfMiddle(a: Bytes, b: Bytes, c: Bytes, x: nat, k: nat)
    requires x + k <= |b|
    ensures (a + b + c)[|a| + x..|a| + x + k] == b[x..x + k]
  {
  }

  lemma ArgvPoints(a: Args, i: nat)
    requires Fits(a) && i < |a.argv|
    ensures WORD * (i + 2) <= |Image(a)| && Sp(a) >= 0 && PointsTo(Image(a), Sp(a), WORD * (i + 1), a.argv[i])
  {
    hide Words, Head, WordAt, Starts, Concat, Auxv;
    ImageSize(a);
    HeadAt(a);
    StartsAt(a.argv, ArgvBase(a), i);
    ConcatAt(a.argv, i);
    ReadHead(a, i + 1);
    var head, tail := Words(Head(a)), Concat(a.env) + a.random + seq(Total(a) - Unpadded(a), _ => 0);
    assert Image(a) == head + Concat(a.argv) + tail;
    SliceOfMiddle(head, Concat(a.argv), tail, |Concat(a.argv[..i])|, |a.argv[i]|);
  }

  lemma EnvPoints(a: Args, i: nat)
    requires Fits(a) && i < |a.env|
    ensures WORD * (|a.argv| + 3 + i) <= |Image(a)| && Sp(a) >= 0
    ensures PointsTo(Image(a), Sp(a), WORD * (|a.argv| + 2 + i), a.env[i])
  {
    hide Words, Head, WordAt, Starts, Concat, Auxv;
    ImageSize(a);
    HeadAt(a);
    StartsAt(a.env, EnvBase(a), i);
    ConcatAt(a.env, i);
    ReadHead(a, |a.argv| + 2 + i);
    var head, tail := Words(Head(a)) + Concat(a.argv), a.random + seq(Total(a) - Unpadded(a), _ => 0);
    assert Image(a) == head + Concat(a.env) + tail;
    SliceOfMiddle(head, Concat(a.env), tail, |Concat(a.env[..i])|, |a.env[i]|);
  }

  /** Entry `i` of the auxiliary vector, as a flat list of words. */
  lemma AuxvReads(a: Args, i: nat)
    requires Fits(a) && IsSane(a) && i < 16
    ensures |Auxv(a)| == 16 && WORD * (|a.argv| + |a.env| + 3 + i) + WORD <= |Image(a)|
    ensures WordAt(Image(a), WORD * (|a.argv| + |a.env| + 3 + i)) == Auxv(a)[i]
  {
    hide Words, Head, WordAt, Starts, Concat, Image;
    ImageSize(a);
    HeadAt(a);
    AuxvBound(a, i);
    ReadHead(a, |a.argv| + |a.env| + 3 + i);
  }

  lemma AuxvBound(a: Args, i: nat)
    requires Fits(a) && IsSane(a) && i < 16
    ensures |Auxv(a)| == 16 && Auxv(a)[i] < WORDS
  {
    ImageSize(a);
    assert 0 <= ArgvBase(a) <= RandomBase(a) < WORDS;
    if i % 2 == 1 {
      AuxvValue(RandomBase(a), ArgvBase(a), a, i);
    } else {
      AuxvTag(a, i);
    }
  }

  lemma AuxvTag(a: Args, i: nat)
    requires Fits(a) && i < 16 && i % 2 == 0
    ensures |Auxv(a)| == 16 && Auxv(a)[i] < 32
  {
    hide Fits, ArgvBase, RandomBase;
  }

  lemma AuxvValue(random: nat, argv: nat, a: Args, i: nat)
    requires Fits(a) && IsSane(a) && random == RandomBase(a) < WORDS && argv == ArgvBase(a) < WORDS
    requires i < 16 && i % 2 == 1
    ensures |Auxv(a)| == 16 && Auxv(a)[i] < WORDS
  {
    hide Fits, ArgvBase, RandomBase;
  }

  lemma RandomPoints(a: Args)
    requires Fits(a) && IsSane(a)
    ensures WORD * (|a.argv| + |a.env| + 4) + WORD <= |Image(a)| && Sp(a) >= 0
    ensures PointsTo(Image(a), Sp(a), WORD * (|a.argv| + |a.env| + 4), a.random)
  {
    hide Words, Head, WordAt, Starts, Concat;
    ImageSize(a);
    AuxvReads(a, 1);
    var head, tail := Words(Head(a)) + Concat(a.argv) + Concat(a.env), seq(Total(a) - Unpadded(a), _ => 0);
    assert Image(a) == head + a.random + tail;
    SliceOfMiddle(head, a.random, tail, 0, |a.random|);
    assert a.random[0..|a.random|] == a.random;
  }

  lemma ExecfnPoints(a: Args)
    requires Fits(a) && IsSane(a) && |a.argv| > 0
    ensures WORD * (|a.argv| + |a.env| + 6) + WORD <= |Image(a)| && Sp(a) >= 0
    ensures PointsTo(Image(a), Sp(a), WORD * (|a.argv| + |a.env| + 6), a.argv[0])
  {
    hide Words, Head, WordAt, Concat, Image;
    ImageSize(a);
    AuxvReads(a, 3);
    ArgvPoints(a, 0);
    HeadAt(a);
    StartsAt(a.argv, ArgvBase(a), 0);
    assert a.argv[..0] == [];
    EmptyConcat();
    ReadHead(a, 1);
  }

  lemma EmptyConcat()
    ensures Concat([]) == []
  {
  }

  /** For all arguments and environments that fit, the image reads as the ABI promises. */
  lemma ImageReads(a: Args)
    requires Fits(a) && IsSane(a)
    ensures Sp(a) >= 0 && Reads(Image(a), Sp(a), a)
  {
    hide Words, Head, WordAt, Concat, Image, Starts, PointsTo;
    ImageSize(a);
    HeadAt(a);
    var n, m := |a.argv|, |a.env|;
    ReadHead(a, 0);
    ReadHead(a, n + 1);
    ReadHead(a, n + m + 2);
    forall i | 0 <= i < n ensures PointsTo(Image(a), Sp(a), WORD * (i + 1), a.argv[i]) { ArgvPoints(a, i); }
    forall i | 0 <= i < m ensures PointsTo(Image(a), Sp(a), WORD * (n + 2) + WORD * i, a.env[i]) { EnvPoints(a, i); }
    AuxvEntries(a);
    RandomPoints(a);
    if n > 0 { ExecfnPoints(a); }
  }

  /** The entries that do not point into the image. */
  lemma AuxvEntries(a: Args)
    requires Fits(a) && IsSane(a)
    ensures var img, aux := Image(a), WORD * (|a.argv| + |a.env| + 3);
      && |img| >= aux + 128
      && WordAt(img, aux) == AT_RANDOM && WordAt(img, aux + 16) == AT_EXECFN
      && WordAt(img, aux + 32) == AT_PHDR && WordAt(img, aux + 40) == a.phdr
      && WordAt(img, aux + 48) == AT_PHENT && WordAt(img, aux + 56) == a.phent
      && WordAt(img, aux + 64) == AT_PHNUM && WordAt(img, aux + 72) == a.phnum
      && WordAt(img, aux + 80) == AT_PAGESZ && WordAt(img, aux + 88) == MIN_PAGE_SIZE
      && WordAt(img, aux + 96) == AT_ENTRY && WordAt(img, aux + 104) == a.entry
      && WordAt(img, aux + 112) == AT_NULL && WordAt(img, aux + 120) == 0
  {
    hide Words, Head, WordAt, Concat, Image, Starts;
    AuxvReads(a, 0);
    AuxvReads(a, 2);
    AuxvReads(a, 4);
    AuxvReads(a, 5);
    AuxvReads(a, 6);
    AuxvReads(a, 7);
    AuxvReads(a, 8);
    AuxvReads(a, 9);
    AuxvReads(a, 10);
    AuxvReads(a, 11);
    AuxvReads(a, 12);
    AuxvReads(a, 13);
    AuxvReads(a, 14);
    AuxvReads(a, 15);
  }
}
