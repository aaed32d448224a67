/** Single 32-bit words: their bits, the mask tricks and the bit count of
    src/mstpd_inlines.c. Bits are numbered from 0 here. */
module Words {

  type Word = bv32

  const ALL_ONES: Word := 0xffff_ffff

  /** 1 << k. */
  function Mask(k: nat): (m: Word)
    requires k < 32
  {
    if k == 0 then 1 else Mask(k - 1) << 1
  }

  predicate Has(w: Word, m: Word) {
    And(w, m) != 0
  }

  predicate Bit(w: Word, k: nat)
    requires k < 32
  {
    Has(w, Mask(k))
  }

  // The bitwise operations, named so that proofs can treat them as unknown.

  function Or(a: Word, b: Word): Word {
    a | b
  }

  function And(a: Word, b: Word): Word {
    a & b
  }

  function Xor(a: Word, b: Word): Word {
    a ^ b
  }

  function Not(a: Word): Word {
    !a
  }

  // Masks made from 1 << k: m - 1, ~(-m) and ~m + 1.

  function LowMask(m: Word): Word {
    m - 1
  }

  function EndMask(m: Word): Word {
    !(0 - m)
  }

  function HighMask(m: Word): Word {
    !m + 1
  }

  /** Exactly one bit of m is set. */
  predicate Single(m: Word) {
    m != 0 && m & (m - 1) == 0
  }

  predicate Below(m: Word, q: Word) {
    m < q
  }

  // ---------------------------------------------------------------------------
  // Masks
  // ---------------------------------------------------------------------------

  lemma LastMask()
    ensures Mask(31) == 0x8000_0000
  {
    assert Mask(4) == 0x10;
    assert Mask(8) == 0x100;
    assert Mask(12) == 0x1000;
    assert Mask(16) == 0x1_0000;
    assert Mask(20) == 0x10_0000;
    assert Mask(24) == 0x100_0000;
    assert Mask(28) == 0x1000_0000;
  }

  lemma StaysZero(k: nat, n: nat)
    requires k <= n < 32 && Mask(k) == 0
    ensures Mask(n) == 0
  {
  }

  lemma {:induction false} SingleMask(k: nat)
    requires k < 32
    ensures Single(Mask(k))
  {
    if k > 0 {
      SingleMask(k - 1);
      LastMask();
      if Mask(k) == 0 {
        StaysZero(k, 31);
      }
    }
  }

  lemma {:induction false} MaskOrder(j: nat, k: nat)
    requires j < k < 32
    ensures Below(Mask(j), Mask(k))
  {
    SingleMask(k);
    SingleMask(k - 1);
    if j < k - 1 {
      MaskOrder(j, k - 1);
    }
  }

  // ---------------------------------------------------------------------------
  // Bitwise operations, bit by bit
  // ---------------------------------------------------------------------------

  lemma SinglePart(a: Word, m: Word)
    requires Single(m)
    ensures And(a, m) == 0 || And(a, m) == m
  {
  }

  // A mask distributes over the operations.

  lemma OrParts(a: Word, b: Word, m: Word)
    ensures And(Or(a, b), m) == Or(And(a, m), And(b, m))
  {
  }

  lemma AndParts(a: Word, b: Word, m: Word)
    ensures And(And(a, b), m) == And(And(a, m), And(b, m))
  {
  }

  lemma XorParts(a: Word, b: Word, m: Word)
    ensures And(Xor(a, b), m) == Xor(And(a, m), And(b, m))
  {
  }

  lemma NotParts(a: Word, m: Word)
    ensures And(a, m) == 0 ==> And(Not(a), m) == m
    ensures And(a, m) == m ==> And(Not(a), m) == 0
  {
  }

  lemma OwnParts(m: Word)
    ensures Or(0, 0) == 0 && Or(0, m) == m && Or(m, 0) == m && Or(m, m) == m
    ensures And(0, 0) == 0 && And(0, m) == 0 && And(m, 0) == 0 && And(m, m) == m
    ensures Xor(0, 0) == 0 && Xor(0, m) == m && Xor(m, 0) == m && Xor(m, m) == 0
    ensures Single(m) ==> m != 0
  {
  }

  /** What the operations do to the bit that m selects. */
  lemma OpMask(a: Word, b: Word, m: Word)
    requires Single(m)
    ensures Has(Or(a, b), m) <==> Has(a, m) || Has(b, m)
    ensures Has(And(a, b), m) <==> Has(a, m) && Has(b, m)
    ensures Has(Xor(a, b), m) <==> Has(a, m) != Has(b, m)
    ensures Has(Not(a), m) <==> !Has(a, m)
  {
    hide Single, And, Or, Xor, Not;
    SinglePart(a, m);
    SinglePart(b, m);
    OrParts(a, b, m);
    AndParts(a, b, m);
    XorParts(a, b, m);
    NotParts(a, m);
    OwnParts(m);
  }

  /** Two masks with one bit each: the mask itself, the bits below it, and the bits from it
      on. */
  lemma TwoMasks(m: Word, q: Word)
    requires Single(m) && Single(q)
    ensures Has(m, q) <==> m == q
    ensures Has(LowMask(m), q) <==> Below(q, m)
    ensures Has(HighMask(m), q) <==> m == q || Below(m, q)
    ensures !(Below(m, q) && Below(q, m)) && (Below(m, q) ==> m != q)
  {
    TwoMasksLow(m, q);
    TwoMasksHigh(m, q);
    hide LowMask, HighMask;
  }

  lemma TwoMasksLow(m: Word, q: Word)
    requires Single(m) && Single(q)
    ensures Has(LowMask(m), q) <==> Below(q, m)
  {
  }

  lemma TwoMasksHigh(m: Word, q: Word)
    requires Single(m) && Single(q)
    ensures Has(HighMask(m), q) <==> m == q || Below(m, q)
  {
  }

  lemma OrBit(a: Word, b: Word, k: nat)
    requires k < 32
    ensures Bit(Or(a, b), k) <==> Bit(a, k) || Bit(b, k)
  {
    hide Has, Single, Mask, Or, And, Xor, Not;
    SingleMask(k);
    OpMask(a, b, Mask(k));
  }

  lemma AndBit(a: Word, b: Word, k: nat)
    requires k < 32
    ensures Bit(And(a, b), k) <==> Bit(a, k) && Bit(b, k)
  {
    hide Has, Single, Mask, Or, And, Xor, Not;
    SingleMask(k);
    OpMask(a, b, Mask(k));
  }

  lemma XorBit(a: Word, b: Word, k: nat)
    requires k < 32
    ensures Bit(Xor(a, b), k) <==> Bit(a, k) != Bit(b, k)
  {
    hide Has, Single, Mask, Or, And, Xor, Not;
    SingleMask(k);
    OpMask(a, b, Mask(k));
  }

  lemma NotBit(a: Word, k: nat)
    requires k < 32
    ensures Bit(Not(a), k) <==> !Bit(a, k)
  {
    hide Has, Single, Mask, Or, And, Xor, Not;
    SingleMask(k);
    OpMask(a, a, Mask(k));
  }

  /** The masks the source builds: one bit, the bits below n, and the bits from n on. */
  lemma MaskBits(n: nat, k: nat)
    requires n < 32 && k < 32
    ensures Bit(Mask(n), k) <==> k == n
    ensures Bit(LowMask(Mask(n)), k) <==> k < n
    ensures Bit(HighMask(Mask(n)), k) <==> k >= n
  {
    hide Has, Single, Mask, Below, LowMask, HighMask;
    SingleMask(n);
    SingleMask(k);
    TwoMasks(Mask(n), Mask(k));
    if k < n {
      MaskOrder(k, n);
    } else if n < k {
      MaskOrder(n, k);
    }
  }

  lemma ConstantMask(m: Word)
    requires Single(m)
    ensures Has(ALL_ONES, m) && !Has(0, m)
  {
  }

  lemma ConstantBits(k: nat)
    requires k < 32
    ensures Bit(ALL_ONES, k) && !Bit(0, k)
  {
    SingleMask(k);
    ConstantMask(Mask(k));
  }

  lemma NegatedMask(m: Word)
    ensures EndMask(m) == LowMask(m)
  {
  }

  // ---------------------------------------------------------------------------
  // Words as sets of bits
  // ---------------------------------------------------------------------------

  lemma LowPart(w: Word, m: Word)
    requires Single(m) && Single(m << 1) && !Has(w, m - 1) && !Has(w, m)
    ensures !Has(w, (m << 1) - 1)
  {
  }

  lemma {:induction false} NoLowBits(w: Word, n: nat)
    requires n < 32 && forall k: nat | k < n :: !Bit(w, k)
    ensures !Has(w, Mask(n) - 1)
  {
    if n > 0 {
      NoLowBits(w, n - 1);
      SingleMask(n - 1);
      SingleMask(n);
      assert !Bit(w, n - 1);
      LowPart(w, Mask(n - 1));
    }
  }

  lemma NoPart(w: Word)
    requires !Has(w, 0x8000_0000 - 1) && !Has(w, 0x8000_0000)
    ensures w == 0
  {
  }

  /** A word without bits is 0. */
  lemma NoBits(w: Word)
    requires forall k: nat | k < 32 :: !Bit(w, k)
    ensures w == 0
  {
    NoLowBits(w, 31);
    LastMask();
    assert !Bit(w, 31);
    NoPart(w);
  }

  lemma XorZero(a: Word, b: Word)
    requires Xor(a, b) == 0
    ensures a == b
  {
  }

  /** A word is known by its bits. */
  lemma SameBits(a: Word, b: Word)
    requires forall k: nat {:trigger Bit(a, k)} | k < 32 :: Bit(a, k) <==> Bit(b, k)
    ensures a == b
  {
    hide Bit, Xor;
    forall k: nat | k < 32
      ensures !Bit(Xor(a, b), k)
    {
      XorBit(a, b, k);
    }
    NoBits(Xor(a, b));
    XorZero(a, b);
  }

  /** The lowest set bit from bit k on, or 31. */
  function LowestFrom(w: Word, k: nat): (r: nat)
    requires k < 32
    ensures k <= r < 32 && (r < 31 ==> Bit(w, r)) && forall j | k <= j < r :: !Bit(w, j)
    decreases 32 - k
  {
    if k == 31 || Bit(w, k) then k else LowestFrom(w, k + 1)
  }

  /** __builtin_ctz: the number of trailing zeros of a word other than 0. */
  function Ctz(w: Word): (k: nat)
    requires w != 0
    ensures k < 32 && Bit(w, k) && forall j | 0 <= j < k :: !Bit(w, j)
  {
    var k := LowestFrom(w, 0);
    if k == 31 && !Bit(w, 31) then NoBits(w); k else k
  }

  /** ~w & (w + 1). */
  function LowClear(w: Word): Word {
    !w & (w + 1)
  }

  lemma LowClearMask(w: Word, q: Word)
    requires Single(q) && Has(LowClear(w), q)
    ensures !Has(w, q)
    ensures forall p {:trigger Has(w, p)} | Single(p) && Below(p, q) :: Has(w, p)
  {
  }

  lemma LowClearZero(w: Word)
    ensures LowClear(w) == 0 <==> w == ALL_ONES
  {
  }

  /** ~w & (w + 1) isolates the lowest clear bit. */
  lemma LowestClear(w: Word)
    requires LowClear(w) != 0
    ensures var k := Ctz(LowClear(w)); !Bit(w, k) && forall j | 0 <= j < k :: Bit(w, j)
  {
    hide LowClear, Has, Single, Below, Mask;
    var k := Ctz(LowClear(w));
    SingleMask(k);
    LowClearMask(w, Mask(k));
    forall j | 0 <= j < k
      ensures Bit(w, j)
    {
      SingleMask(j);
      MaskOrder(j, k);
    }
  }
}
