/**
 Bitwise operations on 64-bit words, and the alignment helpers built from them.

 A word is a natural number below 2^64; the bitwise operators are defined digit by digit, so that what the masks
 compute is proved and not built in.
 */
module Alignment {
  import opened Prelude

  function Pow2(k: nat): (p: nat)
    ensures p > 0
  {
    if k == 0 then 1 else 2 * Pow2(k - 1)
  }

  /** One more than the largest word. */
  const WORDS: nat := 0x1_0000_0000_0000_0000

  /** A power of two that fits a word. */
  ghost predicate IsPowerOfTwo(a: nat) {
    exists k: nat :: k < 64 && a == Pow2(k)
  }

  function And(x: nat, y: nat): nat {
    if x == 0 || y == 0 then 0
    else 2 * And(x / 2, y / 2) + if x % 2 == 1 && y % 2 == 1 then 1 else 0
  }

  function Or(x: nat, y: nat): nat
    decreases x + y
  {
    if x == 0 && y == 0 then 0
    else 2 * Or(x / 2, y / 2) + if x % 2 == 1 || y % 2 == 1 then 1 else 0
  }

  /** `!x` on a 64-bit word. */
  function Not(x: nat): nat
    requires x < WORDS
  {
    WORDS - 1 - x
  }

  // alignment.rs, as written

  function AlignDown(value: nat, align: nat): nat
    requires 0 < align <= WORDS
  {
    And(value, Not(align - 1))
  }

  /** The sum wraps around, as machine arithmetic does. */
  function AlignUp(value: nat, align: nat): nat
    requires 0 < align <= WORDS
  {
    AlignDown((value + align - 1) % WORDS, align)
  }

  predicate IsAligned(value: nat, align: nat)
    requires 0 < align
  {
    And(value, align - 1) == 0
  }

  // -- the masks in terms of division

  lemma DivMod(x: nat, d: nat)
    requires d > 0
    ensures x == d * (x / d) + x % d && x % d < d
  {
  }

  lemma Distribute(a: nat, b: nat, c: nat)
    ensures a * (b + c) == a * b + a * c
  {
  }

  lemma Associate(a: nat, b: nat, c: nat)
    ensures a * (b * c) == (a * b) * c
  {
  }

  /** A number of three digits, the lower two in bases `a` and `b`. */
  lemma TwoDigits(x: nat, y: nat, a: nat, b: nat, q: nat, r: nat, s: nat)
    requires x == a * y + s && y == b * q + r && r < b && s < a
    ensures a * b > 0 && x / (a * b) == q && x % (a * b) == a * r + s
  {
    Distribute(a, b * q, r);
    Associate(a, b, q);
    MulOrder(a, r, b);
    MulOrder(a, 0, b);
    ModUnique(x, a * b, q, a * r + s);
  }

  lemma DivDiv(x: nat, a: nat, b: nat)
    requires a > 0 && b > 0
    ensures a * b > 0 && x / (a * b) == x / a / b && x % (a * b) == a * (x / a % b) + x % a
  {
    DivMod(x, a);
    DivMod(x / a, b);
    TwoDigits(x, x / a, a, b, x / a / b, x / a % b, x % a);
  }

  lemma {:induction false} MulOrder(d: nat, a: nat, b: nat)
    ensures a < b ==> d * a + d <= d * b
  {
    if a < b {
      assert d * b == d * (b - 1) + d;
      MulOrder(d, a, b - 1);
    }
  }

  lemma ModUnique(x: nat, d: nat, q: nat, r: nat)
    requires x == d * q + r && r < d
    ensures x / d == q && x % d == r
  {
    MulOrder(d, x / d, q);
    MulOrder(d, q, x / d);
  }

  lemma AndHalves(x: nat, y: nat)
    ensures And(x, y) == 2 * And(x / 2, y / 2) + if x % 2 == 1 && y % 2 == 1 then 1 else 0
  {
  }

  lemma Pow2Half(k: nat)
    requires k > 0
    ensures Pow2(k) == 2 * Pow2(k - 1)
  {
  }

  lemma AndBase(x: nat)
    ensures And(x, 0) == 0 && Pow2(0) == 1
  {
  }

  lemma HalfMod(x: nat, p: nat)
    requires p > 0
    ensures x % (2 * p) == 2 * ((x / 2) % p) + x % 2
  {
    DivDiv(x, 2, p);
  }

  lemma AndOdd(x: nat, p: nat)
    requires p > 0
    ensures And(x, 2 * p - 1) == 2 * And(x / 2, p - 1) + x % 2
  {
    hide And;
    AndHalves(x, 2 * p - 1);
  }

  lemma AndEven(x: nat, p: nat, l: nat)
    requires l <= p
    ensures And(x, 2 * p - 2 * l) == 2 * And(x / 2, p - l)
  {
    hide And;
    AndHalves(x, 2 * p - 2 * l);
  }

  /** A mask with ones from bit `lo` up to bit `hi` cuts a word there. */
  lemma {:induction false} AndRange(x: nat, lo: nat, hi: nat)
    requires lo <= hi
    ensures Pow2(lo) <= Pow2(hi)
    ensures And(x, Pow2(hi) - Pow2(lo)) == x % Pow2(hi) - x % Pow2(lo)
    decreases hi
  {
    hide And, Pow2;
    AndBase(x);
    if hi > 0 {
      Pow2Half(hi);
      HalfMod(x, Pow2(hi - 1));
      if lo == 0 {
        AndRange(x / 2, 0, hi - 1);
        AndOdd(x, Pow2(hi - 1));
      } else {
        Pow2Half(lo);
        HalfMod(x, Pow2(lo - 1));
        AndRange(x / 2, lo - 1, hi - 1);
        AndEven(x, Pow2(hi - 1), Pow2(lo - 1));
      }
    }
  }

  /** Words with no bits in common are added by `|`. */
  lemma {:induction false} OrDisjoint(x: nat, y: nat, k: nat)
    requires x < Pow2(k) && y % Pow2(k) == 0
    ensures Or(x, y) == x + y
    decreases k
  {
    if k == 0 {
      OrZero(y);
    } else {
      HalfMod(y, Pow2(k - 1));
      OrDisjoint(x / 2, y / 2, k - 1);
    }
  }

  lemma {:induction false} OrZero(y: nat)
    ensures Or(0, y) == y
  {
    if y != 0 { OrZero(y / 2); }
  }

  lemma Pow2Monotone(k: nat, m: nat)
    requires k <= m
    ensures Pow2(k) <= Pow2(m)
  {
    if k < m { Pow2Monotone(k, m - 1); }
  }

  lemma {:induction false} Pow2Add(a: nat, b: nat)
    ensures Pow2(a + b) == Pow2(a) * Pow2(b)
  {
    if a != 0 { Pow2Add(a - 1, b); }
  }

  lemma Pow2Values()
    ensures Pow2(12) == 0x1000 && Pow2(47) == 0x8000_0000_0000 && Pow2(52) == 0x10_0000_0000_0000
    ensures Pow2(63) == WORDS / 2 && Pow2(64) == WORDS
  {
    assert Pow2(8) == 0x100;
    Pow2Add(8, 4);
    Pow2Add(8, 8);
    Pow2Add(16, 16);
    Pow2Add(32, 16);
    Pow2Add(48, 16);
    Pow2Add(48, 4);
    assert Pow2(48) == 2 * Pow2(47) && Pow2(64) == 2 * Pow2(63);
  }

  lemma PowerBounds(a: nat)
    requires IsPowerOfTwo(a)
    ensures 0 < a <= WORDS / 2
  {
    var k: nat :| k < 64 && a == Pow2(k);
    Pow2Monotone(k, 63);
    Pow2Values();
  }

  lemma FloorIsMultiple(value: nat, align: nat)
    requires align > 0
    ensures (value - value % align) % align == 0
  {
    assert value - value % align == align * (value / align) + 0;
    ModUnique(value - value % align, align, value / align, 0);
  }

  /** A multiple of `align` below `value` is not above the floor of `value`. */
  lemma GreatestMultiple(d: nat, a: nat, b: nat, r: nat)
    requires r < d && d * a <= d * b + r
    ensures d * a <= d * b
  {
    MulOrder(d, b, a);
  }

  lemma FloorIsGreatest(value: nat, align: nat, m: nat)
    requires align > 0 && m % align == 0 && m <= value
    ensures m <= value - value % align
  {
    GreatestMultiple(align, m / align, value / align, value % align);
  }

  lemma AlignDownMask(value: nat, align: nat)
    requires IsPowerOfTwo(align) && value < WORDS
    ensures 0 < align <= WORDS
    ensures AlignDown(value, align) == value - value % align
  {
    hide And, Pow2;
    PowerBounds(align);
    var k: nat :| k < 64 && align == Pow2(k);
    Pow2Values();
    AndRange(value, k, 64);
  }

  /** `align_down` is the largest multiple of `align` that is not above `value`. */
  lemma AlignDownIsFloor(value: nat, align: nat)
    requires IsPowerOfTwo(align) && value < WORDS
    ensures 0 < align <= WORDS
    ensures AlignDown(value, align) == value - value % align
    ensures AlignDown(value, align) % align == 0
    ensures forall m: nat :: m % align == 0 && m <= value ==> m <= AlignDown(value, align)
  {
    hide AlignDown, IsPowerOfTwo;
    AlignDownMask(value, align);
    FloorIsMultiple(value, align);
    forall m: nat | m % align == 0 && m <= value ensures m <= value - value % align {
      FloorIsGreatest(value, align, m);
    }
  }

  /** `is_aligned` tells the multiples of `align`. */
  lemma IsAlignedIsMultiple(value: nat, align: nat)
    requires IsPowerOfTwo(align)
    ensures 0 < align && (IsAligned(value, align) <==> value % align == 0)
  {
    PowerBounds(align);
    var k: nat :| k < 64 && align == Pow2(k);
    AndRange(value, 0, k);
  }

  /**
   `align_up` is the least multiple of `align` that is not below `value`, exactly when that multiple still
   fits a word; beyond that, where overflow is not checked, the sum wraps and the result is zero.
   */
  lemma AlignUpIsCeiling(value: nat, align: nat)
    requires IsPowerOfTwo(align) && value < WORDS
    ensures 0 < align <= WORDS
    ensures value <= WORDS - align ==>
              && value <= AlignUp(value, align) < value + align
              && AlignUp(value, align) % align == 0
              && forall m: nat :: m % align == 0 && value <= m ==> AlignUp(value, align) <= m
    ensures value > WORDS - align ==> AlignUp(value, align) == 0
    ensures AlignUp(value, align) >= value <==> value <= WORDS - align
  {
    hide AlignUp, IsPowerOfTwo;
    PowerBounds(align);
    AlignUpMask(value, align);
    if value <= WORDS - align { CeilingIsLeast(value, align, AlignUp(value, align)); }
  }

  lemma AlignUpMask(value: nat, align: nat)
    requires IsPowerOfTwo(align) && value < WORDS
    ensures 0 < align <= WORDS
    ensures value <= WORDS - align ==> AlignUp(value, align) == value + align - 1 - (value + align - 1) % align
    ensures value > WORDS - align ==> AlignUp(value, align) == 0
  {
    hide AlignDown, IsPowerOfTwo;
    PowerBounds(align);
    AlignDownMask((value + align - 1) % WORDS, align);
    if value > WORDS - align { WrapsToZero(value, align); }
  }

  lemma WrapsToZero(value: nat, align: nat)
    requires value < WORDS && align <= WORDS < value + align
    ensures var sum := (value + align - 1) % WORDS; sum - sum % align == 0
  {
    ModUnique(value + align - 1, WORDS, 1, value + align - 1 - WORDS);
    ModUnique(value + align - 1 - WORDS, align, 0, value + align - 1 - WORDS);
  }

  lemma CeilingIsLeast(value: nat, align: nat, y: nat)
    requires align > 0 && y == value + align - 1 - (value + align - 1) % align
    ensures value <= y < value + align && y % align == 0
    ensures forall m: nat :: m % align == 0 && value <= m ==> y <= m
  {
    DivMod(value + align - 1, align);
    FloorIsMultiple(value + align - 1, align);
    forall m: nat | m % align == 0 && value <= m ensures y <= m {
      if m < y { MultiplesApart(m, y, align); }
    }
  }

  /**
   `align_up` where overflow is checked, as in a debug build: the sum `value + align` comes first, and panics if it
   overflows.
   */
  function CheckedAlignUp(value: nat, align: nat): Option<nat>
    requires 0 < align <= WORDS
  {
    if value + align >= WORDS then None else Some(AlignUp(value, align))
  }

  /** It panics where the multiple does not fit, or the value is the largest multiple; else it is the ceiling. */
  lemma CheckedAlignUpIsCeiling(value: nat, align: nat)
    requires IsPowerOfTwo(align) && value < WORDS
    ensures 0 < align <= WORDS
    ensures CheckedAlignUp(value, align) == None <==> AlignUp(value, align) < value || value == WORDS - align
    ensures CheckedAlignUp(value, align).Some? ==>
      var y := CheckedAlignUp(value, align).value;
      y % align == 0 && value <= y && forall m: nat :: m % align == 0 && value <= m ==> y <= m
  {
    hide AlignUp, IsPowerOfTwo;
    AlignUpIsCeiling(value, align);
  }

  lemma ApartMultiples(d: nat, a: nat, b: nat)
    requires d * a < d * b
    ensures d * a + d <= d * b
  {
    MulOrder(d, a, b);
    MulOrder(d, b, a);
  }

  lemma MultiplesApart(m: nat, n: nat, align: nat)
    requires align > 0 && m % align == 0 && n % align == 0 && m < n
    ensures m + align <= n
  {
    ApartMultiples(align, m / align, n / align);
  }

  /** Without wrap-around, rounding up is division rounded up. */
  lemma AlignUpIsDiv(value: nat, align: nat)
    requires IsPowerOfTwo(align) && value <= WORDS - align
    ensures 0 < align <= WORDS && AlignUp(value, align) == (value + align - 1) / align * align
  {
    hide AlignUp, IsPowerOfTwo;
    PowerBounds(align);
    AlignUpIsCeiling(value, align);
    var y := AlignUp(value, align);
    assert y == align * (y / align);
    ModUnique(value + align - 1, align, y / align, value + align - 1 - y);
  }
}
