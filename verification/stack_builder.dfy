/** `StackWriter`, `estimate_stack_size` and `build_initial_stack`: two passes over the same strings. */
module StackBuilder {
  import opened Prelude
  import opened Alignment
  import opened Paging
  import opened PageAllocation
  import opened Machinery
  import opened VmAreas
  import opened InitialStack

  class StackWriter {
    var buf: Bytes
    var remaining: nat
    ghost const max: nat

    ghost predicate Valid()
      reads this
    {
      |buf| + remaining == max < WORDS - 16
    }

    constructor (max: nat)
      requires max < WORDS - 16
      ensures Valid() && this.max == max && buf == []
    {
      buf, remaining, this.max := [], max, max;
    }

    method WriteBytes(bytes: Bytes) returns (r: Outcome<()>)
      requires Valid()
      modifies this
      ensures Valid() && r == if |old(buf)| + |bytes| <= max then Done(()) else Failed(StackTooSmall)
      ensures buf == if r.Done? then old(buf) + bytes else old(buf)
    {
      if remaining < |bytes| { return Failed(StackTooSmall); }
      buf, remaining := buf + bytes, remaining - |bytes|;
      r := Done(());
    }

    method WriteUsize(value: nat) returns (r: Outcome<()>)
      requires Valid()
      modifies this
      ensures Valid()
      ensures r == if |old(buf)| % WORD != 0 then Failed(UnalignedWrite)
                   else if |old(buf)| + WORD <= max then Done(()) else Failed(StackTooSmall)
      ensures buf == if r.Done? then old(buf) + ToBytes(value, WORD) else old(buf)
    {
      assert Pow2(3) == WORD;
      IsAlignedIsMultiple(|buf|, WORD);
      if !IsAligned(|buf|, WORD) { return Failed(UnalignedWrite); }
      r := WriteBytes(ToBytes(value, WORD));
    }

    method Align16() returns (r: Outcome<()>)
      requires Valid()
      modifies this
      ensures Valid()
      ensures var padding := (|old(buf)| + 15) / 16 * 16 - |old(buf)|;
        && r == (if |old(buf)| + padding <= max then Done(()) else Failed(StackTooSmall))
        && buf == if r.Done? then old(buf) + seq(padding, _ => 0) else old(buf)
    {
      SixteenRounds(|buf|);
      var padding := AlignUp(|buf|, 16) - |buf|;
      if remaining < padding { return Failed(StackTooSmall); }
      buf, remaining := buf + seq(padding, _ => 0), remaining - padding;
      r := Done(());
    }

    method Finish(area: VmArea) returns (r: Outcome<()>)
      requires Valid() && area.Valid() && area.len == max
      modifies area, area.m, area.m.pages
      ensures area.Valid() && area.OnlyWrites() && area.m.pages.pools == old(area.m.pages.pools)
      ensures r.Done? ==> area.Contents() == Splice(old(area.Contents()), max - |buf|, buf)
      ensures r.Failed? ==> r == Failed(VmAreaWrite(OutOfMemory)) && NoRoom(area.m.pages.regions, MIN_PAGE_SIZE)
    {
      hide VmArea.Valid, Splice, NoRoom, Undisturbed;
      AreaLength(area);
      var written, done := area.Write(remaining, buf);
      if written.Err? { return Failed(VmAreaWrite(written.error)); }
      assert buf[..done] == buf;
      r := Done(());
    }
  }

  lemma AreaLength(area: VmArea)
    requires area.Valid()
    ensures |area.Contents()| == area.len
  {
  }

  lemma SixteenRounds(x: nat)
    requires x < WORDS - 16
    ensures AlignUp(x, 16) == (x + 15) / 16 * 16
  {
    assert Pow2(4) == 16;
    AlignUpIsDiv(x, 16);
  }

  // -- the first pass

  datatype Layout = Layout(sp: nat, argvBase: nat, envBase: nat, randomUaddr: nat)

  predicate Terminated(s: Bytes) {
    |s| > 0 && s[|s| - 1] == 0
  }

  predicate AllTerminated(ss: seq<Bytes>) {
    forall i :: 0 <= i < |ss| ==> Terminated(ss[i])
  }

  /** A loop of the first pass: the strings' length, or nothing if one is not terminated. */
  method Measure(ss: seq<Bytes>, offset: nat) returns (r: Option<nat>)
    ensures r == if AllTerminated(ss) then Some(offset + |Concat(ss)|) else None
  {
    var total := offset;
    for i := 0 to |ss|
      invariant AllTerminated(ss[..i]) && total == offset + |Concat(ss[..i])|
    {
      assert ss[..i + 1][..i] == ss[..i];
      if !Terminated(ss[i]) { return None; }
      total := total + |ss[i]|;
    }
    assert ss[..|ss|] == ss;
    r := Some(total);
  }

  method Estimate(argv: seq<Bytes>, env: seq<Bytes>, randomLen: nat, auxvCount: nat) returns (r: Outcome<Layout>)
    requires WORD * (3 + |argv| + |env| + 2 * auxvCount) + |Concat(argv)| + |Concat(env)| + randomLen < WORDS - 16
    ensures r == Failed(NotNulTerminated) <==> !AllTerminated(argv) || !AllTerminated(env)
    ensures
      var head := WORD * (3 + |argv| + |env| + 2 * auxvCount);
      var size := head + |Concat(argv)| + |Concat(env)| + randomLen;
      var sp := STACK_BASE + STACK_SIZE - (size + 15) / 16 * 16;
      AllTerminated(argv) && AllTerminated(env) ==>
        if sp < STACK_BASE then r == Failed(StackTooSmall)
        else r == Done(Layout(sp, sp + head, sp + head + |Concat(argv)|, sp + head + |Concat(argv)| + |Concat(env)|))
  {
    var offset := WORD * (3 + |argv| + |env| + 2 * auxvCount);
    var argvOffset := offset;
    var afterArgv := Measure(argv, offset);
    if afterArgv.None? { return Failed(NotNulTerminated); }
    var envOffset := afterArgv.value;
    var afterEnv := Measure(env, envOffset);
    if afterEnv.None? { return Failed(NotNulTerminated); }
    var randomOffset := afterEnv.value;
    offset := randomOffset + randomLen;
    SixteenRounds(offset);
    var total := AlignUp(offset, 16);
    if total > STACK_SIZE { return Failed(StackTooSmall); }
    var sp := STACK_BASE + STACK_SIZE - total;
    r := Done(Layout(sp, sp + argvOffset, sp + envOffset, sp + randomOffset));
  }

  // -- the second pass

  lemma {:induction false} WordsAppend(a: seq<nat>, b: seq<nat>)
    ensures Words(a + b) == Words(a) + Words(b)
  {
    if b == [] {
      assert a + b == a;
    } else {
      var n := |b| - 1;
      WordsAppend(a, b[..n]);
      assert (a + b)[..|a + b| - 1] == a + b[..n];
    }
  }

  lemma WordsStep(ws: seq<nat>, i: nat)
    requires i < |ws|
    ensures Words(ws[..i + 1]) == Words(ws[..i]) + ToBytes(ws[i], WORD)
  {
    assert ws[..i + 1][..i] == ws[..i];
  }

  lemma ConcatStep(ss: seq<Bytes>, i: nat)
    requires i < |ss|
    ensures Concat(ss[..i + 1]) == Concat(ss[..i]) + ss[i]
  {
    assert ss[..i + 1][..i] == ss[..i];
  }

  lemma StartsSnoc(ss: seq<Bytes>, base: nat, i: nat)
    requires i < |ss|
    ensures Starts(ss[..i + 1], base) == Starts(ss[..i], base) + [base + |Concat(ss[..i])|]
  {
    hide Concat;
    assert ss[..i + 1][..i] == ss[..i];
  }

  lemma WordsSnoc(ws: seq<nat>, x: nat)
    ensures Words(ws + [x]) == Words(ws) + ToBytes(x, WORD)
  {
    hide ToBytes;
    assert (ws + [x])[..|ws|] == ws;
  }

  lemma StartsStep(ss: seq<Bytes>, base: nat, i: nat)
    requires i < |ss|
    ensures Words(Starts(ss[..i + 1], base)) == Words(Starts(ss[..i], base)) + ToBytes(base + |Concat(ss[..i])|, WORD)
  {
    hide Concat, ToBytes, Starts, Words;
    StartsSnoc(ss, base, i);
    WordsSnoc(Starts(ss[..i], base), base + |Concat(ss[..i])|);
  }

  method PutWords(w: StackWriter, ws: seq<nat>)
    requires w.Valid() && |w.buf| % WORD == 0 && |w.buf| + WORD * |ws| <= w.max
    modifies w
    ensures w.Valid() && w.buf == old(w.buf) + Words(ws)
  {
    hide Words, ToBytes;
    assert Words([]) == [] by { WordsEmpty(); }
    for i := 0 to |ws|
      invariant w.Valid() && w.buf == old(w.buf) + Words(ws[..i])
    {
      WordsStep(ws, i);
      var r := w.WriteUsize(ws[i]);
      assert r.Done?;
    }
    assert ws[..|ws|] == ws;
  }

  lemma WordsEmpty()
    ensures Words([]) == [] && Concat([]) == [] && forall base :: Starts([], base) == []
  {
  }

  /** The loop that writes `argv` or `env`: a pointer for each string. */
  method PutPointers(w: StackWriter, ss: seq<Bytes>, base: nat)
    requires w.Valid() && |w.buf| % WORD == 0 && |w.buf| + WORD * |ss| <= w.max
    modifies w
    ensures w.Valid() && w.buf == old(w.buf) + Words(Starts(ss, base))
  {
    hide Words, ToBytes, Concat, Starts;
    WordsEmpty();
    var uaddr := base;
    for i := 0 to |ss|
      invariant w.Valid() && w.buf == old(w.buf) + Words(Starts(ss[..i], base))
      invariant uaddr == base + |Concat(ss[..i])|
    {
      StartsStep(ss, base, i);
      ConcatStep(ss, i);
      var r := w.WriteUsize(uaddr);
      assert r.Done?;
      uaddr := uaddr + |ss[i]|;
    }
    assert ss[..|ss|] == ss;
  }

  /** The loop that writes the strings themselves. */
  method PutStrings(w: StackWriter, ss: seq<Bytes>)
    requires w.Valid() && |w.buf| + |Concat(ss)| <= w.max
    modifies w
    ensures w.Valid() && w.buf == old(w.buf) + Concat(ss)
  {
    hide Concat;
    WordsEmpty();
    for i := 0 to |ss|
      invariant w.Valid() && w.buf == old(w.buf) + Concat(ss[..i])
    {
      ConcatStep(ss, i);
      ConcatPrefix(ss, i + 1);
      var r := w.WriteBytes(ss[i]);
      assert r.Done?;
    }
    assert ss[..|ss|] == ss;
  }

  lemma {:induction false} ConcatPrefix(ss: seq<Bytes>, i: nat)
    requires i <= |ss|
    ensures |Concat(ss[..i])| <= |Concat(ss)|
    decreases |ss| - i
  {
    if i == |ss| {
      assert ss[..i] == ss;
    } else {
      ConcatPrefix(ss, i + 1);
      assert ss[..i + 1][..i] == ss[..i];
    }
  }

  lemma HeadIs(a: Args)
    requires Fits(a)
    ensures Words(Head(a)) ==
            Words([|a.argv|]) + Words(Starts(a.argv, ArgvBase(a))) + Words([0]) + Words(Starts(a.env, EnvBase(a)))
            + Words([0]) + Words(Auxv(a))
  {
    hide Words, Starts, Auxv;
    var h1 := [|a.argv|] + Starts(a.argv, ArgvBase(a));
    var h2 := h1 + [0];
    var h3 := h2 + Starts(a.env, EnvBase(a));
    var h4 := h3 + [0];
    WordsAppend([|a.argv|], Starts(a.argv, ArgvBase(a)));
    WordsAppend(h1, [0]);
    WordsAppend(h2, Starts(a.env, EnvBase(a)));
    WordsAppend(h3, [0]);
    WordsAppend(h4, Auxv(a));
  }

  lemma HeadFits(a: Args)
    requires Fits(a)
    ensures WORD * (|a.argv| + |a.env| + 19) <= STACK_SIZE && ArgvBase(a) >= 0 && EnvBase(a) >= 0
  {
  }

  /** The words that the second pass starts with. */
  method FillHead(w: StackWriter, a: Args)
    requires w.Valid() && w.max == STACK_SIZE && w.buf == [] && Fits(a)
    modifies w
    ensures w.Valid() && w.buf == Words(Head(a))
  {
    hide Words, ToBytes, Concat, Starts, Auxv, Head, Fits, Sp, ArgvBase, EnvBase;
    HeadFits(a);
    AuxvSize(a);
    HeadIs(a);
    var n, m := |a.argv|, |a.env|;
    PutWords(w, [n]);
    assert |w.buf| == WORD * 1;
    PutPointers(w, a.argv, ArgvBase(a));
    assert |w.buf| == WORD * (n + 1);
    PutWords(w, [0]);
    assert |w.buf| == WORD * (n + 2);
    PutPointers(w, a.env, EnvBase(a));
    assert |w.buf| == WORD * (n + m + 2);
    PutWords(w, [0]);
    assert |w.buf| == WORD * (n + m + 3);
    PutWords(w, Auxv(a));
  }

  /** The writes of the second pass, given the layout of the first. None of them can fail. */
  method Fill(w: StackWriter, a: Args)
    requires w.Valid() && w.max == STACK_SIZE && w.buf == [] && Fits(a)
    modifies w
    ensures w.Valid() && w.buf == Image(a)
  {
    hide Words, ToBytes, Concat, Starts, Auxv, Head;
    ImageSize(a);
    FillHead(w, a);
    PutStrings(w, a.argv);
    PutStrings(w, a.env);
    var r := w.WriteBytes(a.random);
    assert r.Done? && |w.buf| == Unpadded(a);
    r := w.Align16();
    assert r.Done?;
  }

  /**
   `build_initial_stack`. Once the estimate succeeds only the write to the stack's area can fail; on success the
   image lies at the end of the stack, `sp` is where it starts, and it reads as promised.
   */
  method BuildInitialStack(stack: VmArea, a: Args) returns (r: Outcome<nat>)
    requires stack.Valid() && stack.len == STACK_SIZE && IsSane(a) && Unpadded(a) < WORDS - 16
    modifies stack, stack.m, stack.m.pages
    ensures stack.Valid() && stack.OnlyWrites() && stack.m.pages.pools == old(stack.m.pages.pools)
    ensures r == Failed(NotNulTerminated) <==> !AllTerminated(a.argv) || !AllTerminated(a.env)
    ensures r == Failed(StackTooSmall) <==> AllTerminated(a.argv) && AllTerminated(a.env) && !Fits(a)
    ensures r.Failed? && r != Failed(NotNulTerminated) && r != Failed(StackTooSmall) ==>
            r == Failed(VmAreaWrite(OutOfMemory)) && NoRoom(stack.m.pages.regions, MIN_PAGE_SIZE)
    ensures r.Done? ==> r.value == Sp(a) && STACK_BASE <= r.value && Reads(Image(a), r.value, a)
    ensures r.Done? ==> r.value - STACK_BASE + |Image(a)| == STACK_SIZE
    ensures r.Done? ==> stack.Contents() == Splice(old(stack.Contents()), r.value - STACK_BASE, Image(a))
  {
    hide VmArea.Valid, Image, Reads, Concat, Splice, NoRoom;
    var layout := Estimate(a.argv, a.env, |a.random|, AUXV_COUNT);
    if layout.Failed? { return Failed(layout.error); }
    ImageSize(a);
    ImageReads(a);
    assert layout.value == Layout(Sp(a), ArgvBase(a), EnvBase(a), RandomBase(a));
    var w := new StackWriter(STACK_SIZE);
    Fill(w, a);
    var done := w.Finish(stack);
    if done.Failed? { return Failed(done.error); }
    r := Done(layout.value.sp);
  }
}
