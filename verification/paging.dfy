/**
 Page tables as the processor reads them (Intel SDM volume 3A, "4-Level Paging"), the entry format that
 `arch/x64/vmspace.rs` writes, and the shape that a space's tables keep: a tree of distinct frames.
 */
module Paging {
  import opened Prelude
  import opened Alignment

  const ENTRIES: nat := 512
  const KERNEL_BASE: nat := 0xffff_8000_0000_0000
  const USER_END: nat := 0x8000_0000_0000
  const KERNEL_SLOT: nat := 256
  const PHYSICAL_END: nat := 0x10_0000_0000_0000  // physical addresses have at most 52 bits

  const PTE_V: nat := 1
  const PTE_W: nat := 2
  const PTE_U: nat := 4
  const PTE_HUGE: nat := 128

  type Memory = map<nat, seq<nat>>  // the tables, by physical address

  // -- entries

  function PteNew(paddr: nat, flags: nat): nat {
    Or(flags, paddr)
  }

  predicate IsPresent(e: nat) {
    And(e, PTE_V) != 0
  }

  predicate IsHuge(e: nat) {
    And(e, PTE_HUGE) != 0
  }

  predicate IsWritable(e: nat) {
    And(e, PTE_W) != 0
  }

  predicate IsUser(e: nat) {
    And(e, PTE_U) != 0
  }

  function PteAddr(e: nat): nat {
    And(e, 0x000f_ffff_ffff_f000)
  }

  predicate IsFrame(paddr: nat) {
    paddr % MIN_PAGE_SIZE == 0 && paddr < PHYSICAL_END
  }

  lemma {:induction false} BitIs(e: nat, k: nat)
    ensures And(e, Pow2(k)) != 0 <==> e / Pow2(k) % 2 == 1
  {
    if k > 0 {
      AndStep(e, Pow2(k - 1));
      BitIs(e / 2, k - 1);
      DivDiv(e, 2, Pow2(k - 1));
    }
  }

  lemma AndStep(e: nat, p: nat)
    requires p > 0
    ensures And(e, 2 * p) != 0 <==> And(e / 2, p) != 0
  {
  }

  lemma BitsAre(e: nat)
    ensures IsPresent(e) <==> e % 2 == 1
    ensures IsWritable(e) <==> e / 2 % 2 == 1
    ensures IsUser(e) <==> e / 4 % 2 == 1
    ensures IsHuge(e) <==> e / 128 % 2 == 1
  {
    assert Pow2(0) == 1 && Pow2(1) == 2 && Pow2(2) == 4;
    assert Pow2(7) == 128 by { assert Pow2(4) == 16; }
    BitIs(e, 0);
    BitIs(e, 1);
    BitIs(e, 2);
    BitIs(e, 7);
  }

  /** Adding a page-aligned address leaves the low bits alone. */
  lemma LowBits(q: nat, flags: nat)
    requires flags < MIN_PAGE_SIZE
    ensures var e := MIN_PAGE_SIZE * q + flags;
      && e % MIN_PAGE_SIZE == flags
      && e / 1 % 2 == flags / 1 % 2 && e / 2 % 2 == flags / 2 % 2
      && e / 4 % 2 == flags / 4 % 2 && e / 128 % 2 == flags / 128 % 2
  {
    var paddr := MIN_PAGE_SIZE * q;
    ModUnique(paddr + flags, MIN_PAGE_SIZE, q, flags);
    LowBit(paddr, 1, 2048 * q, flags);
    LowBit(paddr, 2, 1024 * q, flags);
    LowBit(paddr, 4, 512 * q, flags);
    LowBit(paddr, 128, 16 * q, flags);
  }

  lemma LowBit(paddr: nat, d: nat, m: nat, flags: nat)
    requires d > 0 && paddr == 2 * d * m
    ensures (paddr + flags) / d % 2 == flags / d % 2
  {
    AddMultiple(d, m, flags);
  }

  lemma AddMultiple(d: nat, m: nat, x: nat)
    requires d > 0
    ensures (2 * d * m + x) / d % 2 == x / d % 2
  {
    DivMod(x, d);
    Associate(d, 2, m);
    Distribute(d, 2 * m, x / d);
    ModUnique(2 * d * m + x, d, 2 * m + x / d, x % d);
  }

  /** Entries keep what they are made of. */
  lemma PteFields(paddr: nat, flags: nat)
    requires IsFrame(paddr) && flags < MIN_PAGE_SIZE
    ensures PteNew(paddr, flags) == paddr + flags
    ensures PteAddr(paddr + flags) == paddr
    ensures IsPresent(paddr + flags) <==> flags % 2 == 1
    ensures IsWritable(paddr + flags) <==> flags / 2 % 2 == 1
    ensures IsUser(paddr + flags) <==> flags / 4 % 2 == 1
    ensures IsHuge(paddr + flags) <==> flags / 128 % 2 == 1
  {
    hide IsPresent, IsWritable, IsUser, IsHuge, PteAddr, PteNew;
    LowBits(paddr / MIN_PAGE_SIZE, flags);
    BitsAre(paddr + flags);
    PteParts(paddr, flags);
  }

  lemma PteParts(paddr: nat, flags: nat)
    requires IsFrame(paddr) && flags < MIN_PAGE_SIZE
    ensures PteNew(paddr, flags) == paddr + flags && PteAddr(paddr + flags) == paddr
  {
    hide And, Or, Pow2;
    Pow2Values();
    OrDisjoint(flags, paddr, 12);
    AndRange(paddr + flags, 12, 52);
  }

  // -- addresses

  /** The bytes that one entry at this level spans: 4 KiB, 2 MiB, 1 GiB, 512 GiB. */
  function Span(level: nat): (s: nat)
    requires level < 4
    ensures s > 0
  {
    if level == 0 then 0x1000 else if level == 1 then 0x20_0000 else if level == 2 then 0x4000_0000 else 0x80_0000_0000
  }

  function Index(v: nat, level: nat): nat
    requires level < 4
  {
    And(v / Span(level), 0x1ff)
  }

  lemma IndexIsMod(v: nat, level: nat)
    requires level < 4
    ensures Index(v, level) == v / Span(level) % ENTRIES
  {
    assert Pow2(0) == 1 && Pow2(3) == 8;
    assert Pow2(6) == 64;
    assert Pow2(9) == 512;
    AndRange(v / Span(level), 0, 9);
  }

  /** The kernel's view of physical memory, and back. */
  function Paddr2Vaddr(paddr: nat): nat {
    Or(paddr, KERNEL_BASE)
  }

  function Vaddr2Paddr(vaddr: nat): nat {
    And(vaddr, Not(KERNEL_BASE))
  }

  lemma DirectMapRoundTrip(paddr: nat)
    requires paddr < USER_END
    ensures Paddr2Vaddr(paddr) == paddr + KERNEL_BASE < WORDS
    ensures Vaddr2Paddr(Paddr2Vaddr(paddr)) == paddr
  {
    hide And, Or;
    Pow2Values();
    OrDisjoint(paddr, KERNEL_BASE, 47);
    assert Not(KERNEL_BASE) == Pow2(47) - Pow2(0);
    AndRange(paddr + KERNEL_BASE, 0, 47);
  }
}
