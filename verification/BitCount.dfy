/** The bit count of one word, as getNumOfBitsSetInBitmap computes it. */
module BitCount {

  import opened Words

  /** The number of set bits among the n bits from bit lo on. */
  function Ones(w: Word, lo: nat, n: nat): (c: nat)
    requires lo + n <= 32
    ensures c <= n
  {
    if n == 0 then 0 else Ones(w, lo, n - 1) + if Bit(w, lo + n - 1) then 1 else 0
  }

  // The steps of the algorithm: counts of bit pairs, of nibbles, of bytes, and their sum.

  function Pairs(w: Word): Word {
    w - ((w >> 1) & 0x5555_5555)
  }

  function Nibbles(v: Word): Word {
    (v & 0x3333_3333) + ((v >> 2) & 0x3333_3333)
  }

  function Bytes(u: Word): Word {
    (u + (u >> 4)) & 0x0f0f_0f0f
  }

  function Product(x: Word): Word {
    (x * 0x0101_0101) >> 24
  }

  function ByteCounts(w: Word): Word {
    Bytes(Nibbles(Pairs(w)))
  }

  /** What the algorithm yields for one word. */
  function CountWord(w: Word): Word {
    Product(ByteCounts(w))
  }

  // The operations of the proof, named so that they can be kept apart from each other.

  function Value(x: Word): nat {
    x as nat
  }

  function Plus(x: Word, y: Word): Word {
    x + y
  }

  function Half(w: Word): Word {
    w >> 1
  }

  function Double(w: Word): Word {
    w << 1
  }

  function LowByte(w: Word): Word {
    w & 0xff
  }

  function Shift8(w: Word): Word {
    w >> 8
  }

  /** Byte j of a word. */
  function Byte(w: Word, j: nat): Word
    requires j < 4
  {
    if j == 0 then LowByte(w)
    else if j == 1 then LowByte(Shift8(w))
    else if j == 2 then LowByte(Shift8(Shift8(w)))
    else LowByte(Shift8(Shift8(Shift8(w))))
  }

  predicate IsByte(b: Word) {
    b < 256
  }

  lemma ByteIsByte(w: Word, j: nat)
    requires j < 4
    ensures IsByte(Byte(w, j))
  {
  }

  predicate AtMost(x: Word, y: Word) {
    x <= y
  }

  lemma ValueBound(x: Word)
    ensures Value(x) <= 8 ==> AtMost(x, 8)
    ensures Value(x) <= 32 ==> AtMost(x, 32)
  {
  }

  lemma PlusSmall(x: Word, y: Word)
    requires AtMost(x, 32) && AtMost(y, 8)
    ensures Value(Plus(x, y)) == Value(x) + Value(y)
  {
  }

  lemma PlusValue(x: Word, y: Word)
    requires Value(x) <= 32 && Value(y) <= 8
    ensures Value(Plus(x, y)) == Value(x) + Value(y)
  {
    hide *;
    ValueBound(x);
    ValueBound(y);
    PlusSmall(x, y);
  }

  lemma LowByteValue(x: Word)
    requires Value(x) <= 40
    ensures LowByte(x) == x
  {
  }

  // ---------------------------------------------------------------------------
  // The steps work on each byte alone
  // ---------------------------------------------------------------------------

  lemma PairsOfByte0(w: Word)
    ensures LowByte(Pairs(w)) == Pairs(LowByte(w))
  {
  }

  lemma PairsOfByte1(w: Word)
    ensures LowByte(Shift8(Pairs(w))) == Pairs(LowByte(Shift8(w)))
  {
  }

  lemma PairsOfByte2(w: Word)
    ensures LowByte(Shift8(Shift8(Pairs(w)))) == Pairs(LowByte(Shift8(Shift8(w))))
  {
  }

  lemma PairsOfByte3(w: Word)
    ensures LowByte(Shift8(Shift8(Shift8(Pairs(w))))) == Pairs(LowByte(Shift8(Shift8(Shift8(w)))))
  {
  }

  lemma PairsByByte(w: Word, j: nat)
    requires j < 4
    ensures Byte(Pairs(w), j) == Pairs(Byte(w, j))
  {
    hide Pairs, LowByte, Shift8;
    PairsOfByte0(w);
    PairsOfByte1(w);
    PairsOfByte2(w);
    PairsOfByte3(w);
  }

  lemma NibblesLocal(v: Word)
    ensures LowByte(Nibbles(v)) == Nibbles(LowByte(v))
    ensures Shift8(Nibbles(v)) == Nibbles(Shift8(v))
  {
  }

  lemma NibblesByByte(v: Word, j: nat)
    requires j < 4
    ensures Byte(Nibbles(v), j) == Nibbles(Byte(v, j))
  {
    hide Nibbles, LowByte, Shift8;
    NibblesLocal(v);
    NibblesLocal(Shift8(v));
    NibblesLocal(Shift8(Shift8(v)));
    NibblesLocal(Shift8(Shift8(Shift8(v))));
  }

  /** No nibble count reaches 8, so that adding two of them stays within a nibble. */
  predicate NibblesFit(u: Word) {
    u & 0x7777_7777 == u
  }

  lemma NibblesAlwaysFit(v: Word)
    ensures NibblesFit(Nibbles(v))
  {
  }

  lemma BytesLow(u: Word)
    requires NibblesFit(u)
    ensures LowByte(Bytes(u)) == Bytes(LowByte(u))
  {
  }

  lemma BytesShift(u: Word)
    requires NibblesFit(u)
    ensures Shift8(Bytes(u)) == Bytes(Shift8(u))
  {
  }

  lemma ShiftFits(u: Word)
    requires NibblesFit(u)
    ensures NibblesFit(Shift8(u))
  {
  }

  lemma BytesLocal(u: Word)
    requires NibblesFit(u)
    ensures LowByte(Bytes(u)) == Bytes(LowByte(u))
    ensures Shift8(Bytes(u)) == Bytes(Shift8(u)) && NibblesFit(Shift8(u))
  {
    hide *;
    BytesLow(u);
    BytesShift(u);
    ShiftFits(u);
  }

  lemma BytesByByte(u: Word, j: nat)
    requires j < 4 && NibblesFit(u)
    ensures Byte(Bytes(u), j) == Bytes(Byte(u, j))
  {
    hide Bytes, LowByte, Shift8, NibblesFit;
    BytesLocal(u);
    BytesLocal(Shift8(u));
    BytesLocal(Shift8(Shift8(u)));
    BytesLocal(Shift8(Shift8(Shift8(u))));
  }

  lemma CountsByByte(w: Word, j: nat)
    requires j < 4
    ensures Byte(ByteCounts(w), j) == ByteCounts(Byte(w, j))
  {
    hide Pairs, Nibbles, Bytes, Byte, NibblesFit;
    PairsByByte(w, j);
    NibblesByByte(Pairs(w), j);
    NibblesAlwaysFit(Pairs(w));
    BytesByByte(Nibbles(Pairs(w)), j);
  }

  // ---------------------------------------------------------------------------
  // The multiplication adds the four bytes
  // ---------------------------------------------------------------------------

  predicate BytesFit(x: Word) {
    x & 0x0f0f_0f0f == x
  }

  lemma BytesAlwaysFit(u: Word)
    ensures BytesFit(Bytes(u))
  {
  }

  function ByteSum(b0: Word, b1: Word, b2: Word, b3: Word): Word {
    LowByte(Plus(Plus(Plus(b0, b1), b2), b3))
  }

  function Byte1(x: Word): Word {
    (x >> 8) & 0xff
  }

  function Byte2(x: Word): Word {
    (x >> 16) & 0xff
  }

  function Byte3(x: Word): Word {
    x >> 24
  }

  lemma MultiplySmall(x: Word)
    requires BytesFit(x)
    ensures Product(x) == ByteSum(LowByte(x), Byte1(x), Byte2(x), Byte3(x))
  {
  }

  lemma FourBytes(x: Word)
    ensures Byte(x, 0) == LowByte(x) && Byte(x, 1) == Byte1(x) && Byte(x, 2) == Byte2(x) && Byte(x, 3) == Byte3(x)
  {
  }

  lemma Multiply(x: Word)
    requires BytesFit(x)
    ensures Product(x) == ByteSum(Byte(x, 0), Byte(x, 1), Byte(x, 2), Byte(x, 3))
  {
    hide *;
    MultiplySmall(x);
    FourBytes(x);
  }

  lemma SumOfFour(a: Word, b: Word, c: Word, d: Word)
    requires Value(a) <= 8 && Value(b) <= 8 && Value(c) <= 8 && Value(d) <= 8
    ensures Value(ByteSum(a, b, c, d)) == Value(a) + Value(b) + Value(c) + Value(d)
  {
    hide Value, Plus, LowByte;
    PlusValue(a, b);
    PlusValue(Plus(a, b), c);
    PlusValue(Plus(Plus(a, b), c), d);
    LowByteValue(Plus(Plus(Plus(a, b), c), d));
  }

  // ---------------------------------------------------------------------------
  // One byte
  // ---------------------------------------------------------------------------

  /** Bit k of a byte as a number. */
  function Digit(b: Word, k: nat): Word
    requires k < 8
  {
    if k == 0 then b & 1
    else if k == 1 then (b >> 1) & 1
    else if k == 2 then (b >> 2) & 1
    else if k == 3 then (b >> 3) & 1
    else if k == 4 then (b >> 4) & 1
    else if k == 5 then (b >> 5) & 1
    else if k == 6 then (b >> 6) & 1
    else (b >> 7) & 1
  }

  lemma DigitMask(b: Word, k: nat)
    requires k < 8
    ensures Digit(b, k) == if Bit(b, k) then 1 else 0
  {
    assert Mask(0) == 1 && Mask(1) == 2 && Mask(2) == 4 && Mask(3) == 8;
    assert Mask(4) == 16 && Mask(5) == 32 && Mask(6) == 64 && Mask(7) == 128;
  }

  lemma ZeroOne()
    ensures Value(0) == 0 && Value(1) == 1
  {
  }

  lemma DigitValue(b: Word, k: nat)
    requires k < 8
    ensures Value(Digit(b, k)) == if Bit(b, k) then 1 else 0
  {
    hide *;
    DigitMask(b, k);
    ZeroOne();
  }

  lemma OnesStep(b: Word, k: nat)
    requires k < 8
    ensures Ones(b, 0, k + 1) == Ones(b, 0, k) + Value(Digit(b, k)) && Value(Digit(b, k)) <= 1
  {
    hide Digit, Value, Bit;
    DigitValue(b, k);
  }

  function DigitSum(b: Word, n: nat): Word
    requires n < 8
  {
    if n == 0 then Digit(b, 0) else Plus(DigitSum(b, n - 1), Digit(b, n))
  }

  lemma {:induction false} OnesOfDigits(b: Word, n: nat)
    requires n < 8
    ensures Value(DigitSum(b, n)) == Ones(b, 0, n + 1)
  {
    hide Value, Plus, Digit, Bit;
    OnesStep(b, n);
    if n > 0 {
      OnesOfDigits(b, n - 1);
      PlusValue(DigitSum(b, n - 1), Digit(b, n));
    }
  }

  lemma EightDigits(b: Word)
    ensures DigitSum(b, 7) == (b & 1) + ((b >> 1) & 1) + ((b >> 2) & 1) + ((b >> 3) & 1)
      + ((b >> 4) & 1) + ((b >> 5) & 1) + ((b >> 6) & 1) + ((b >> 7) & 1)
  {
    assert DigitSum(b, 1) == (b & 1) + ((b >> 1) & 1);
    assert DigitSum(b, 2) == (b & 1) + ((b >> 1) & 1) + ((b >> 2) & 1);
    assert DigitSum(b, 4) == (b & 1) + ((b >> 1) & 1) + ((b >> 2) & 1) + ((b >> 3) & 1) + ((b >> 4) & 1);
    assert DigitSum(b, 6) == (b & 1) + ((b >> 1) & 1) + ((b >> 2) & 1) + ((b >> 3) & 1) + ((b >> 4) & 1)
      + ((b >> 5) & 1) + ((b >> 6) & 1);
  }

  lemma CountOfEight(b: Word)
    requires IsByte(b)
    ensures ByteCounts(b) == (b & 1) + ((b >> 1) & 1) + ((b >> 2) & 1) + ((b >> 3) & 1)
      + ((b >> 4) & 1) + ((b >> 5) & 1) + ((b >> 6) & 1) + ((b >> 7) & 1)
  {
  }

  lemma CountOfByte(b: Word)
    requires IsByte(b)
    ensures Value(ByteCounts(b)) == Ones(b, 0, 8)
  {
    hide DigitSum, Digit, Pairs, Nibbles, Bytes, Value, Ones;
    CountOfEight(b);
    EightDigits(b);
    OnesOfDigits(b, 7);
  }

  // ---------------------------------------------------------------------------
  // The bits of a byte are bits of the word
  // ---------------------------------------------------------------------------

  lemma HalfMask(w: Word, m: Word)
    requires Below(m, 0x8000_0000)
    ensures Has(w, Double(m)) <==> Has(Half(w), m)
  {
  }

  lemma MaskStep(k: nat)
    requires k < 31
    ensures Mask(k + 1) == Double(Mask(k)) && Below(Mask(k), 0x8000_0000)
  {
    hide Below;
    MaskOrder(k, 31);
    LastMask();
  }

  lemma HalfBit(w: Word, k: nat)
    requires k < 31
    ensures Bit(w, k + 1) <==> Bit(Half(w), k)
  {
    hide Mask, Has, Below, Half, Double;
    MaskStep(k);
    HalfMask(w, Mask(k));
  }

  lemma EightHalves(w: Word)
    ensures Half(Half(Half(Half(Half(Half(Half(Half(w)))))))) == Shift8(w)
  {
  }

  lemma ByteShift(w: Word, k: nat)
    requires k < 24
    ensures Bit(w, k + 8) <==> Bit(Shift8(w), k)
  {
    hide *;
    HalfBit(w, k + 7);
    HalfBit(Half(w), k + 6);
    HalfBit(Half(Half(w)), k + 5);
    HalfBit(Half(Half(Half(w))), k + 4);
    HalfBit(Half(Half(Half(Half(w)))), k + 3);
    HalfBit(Half(Half(Half(Half(Half(w))))), k + 2);
    HalfBit(Half(Half(Half(Half(Half(Half(w)))))), k + 1);
    HalfBit(Half(Half(Half(Half(Half(Half(Half(w))))))), k);
    EightHalves(w);
  }

  lemma LowBits(w: Word, k: nat)
    requires k < 8
    ensures Bit(LowByte(w), k) <==> Bit(w, k)
  {
    assert Mask(8) == 0x100;
    assert LowByte(w) == And(w, LowMask(Mask(8)));
    hide Bit, Has, Mask, And, LowByte, LowMask;
    MaskBits(8, k);
    AndBit(w, LowMask(Mask(8)), k);
  }

  lemma BitOfByte(w: Word, j: nat, k: nat)
    requires j < 4 && k < 8
    ensures Bit(w, 8 * j + k) <==> Bit(Byte(w, j), k)
  {
    hide Bit, LowByte, Shift8;
    if j == 0 {
      LowBits(w, k);
    } else if j == 1 {
      LowBits(Shift8(w), k);
      ByteShift(w, k);
    } else if j == 2 {
      LowBits(Shift8(Shift8(w)), k);
      ByteShift(w, 8 + k);
      ByteShift(Shift8(w), k);
    } else {
      LowBits(Shift8(Shift8(Shift8(w))), k);
      ByteShift(w, 16 + k);
      ByteShift(Shift8(w), 8 + k);
      ByteShift(Shift8(Shift8(w)), k);
    }
  }

  lemma {:induction false} OnesByByte(w: Word, j: nat, n: nat)
    requires j < 4 && n <= 8
    ensures Ones(w, 8 * j, n) == Ones(Byte(w, j), 0, n)
  {
    hide Bit, Byte;
    if n > 0 {
      OnesByByte(w, j, n - 1);
      BitOfByte(w, j, n - 1);
    }
  }

  lemma {:induction false} OnesSplit(w: Word, lo: nat, n: nat, m: nat)
    requires lo + n + m <= 32
    ensures Ones(w, lo, n + m) == Ones(w, lo, n) + Ones(w, lo + n, m)
  {
    hide Bit;
    if m > 0 {
      OnesSplit(w, lo, n, m - 1);
    }
  }

  // ---------------------------------------------------------------------------
  // The whole word
  // ---------------------------------------------------------------------------

  lemma CountInByte(w: Word, j: nat)
    requires j < 4
    ensures Value(Byte(ByteCounts(w), j)) == Ones(w, 8 * j, 8)
  {
    hide *;
    CountsByByte(w, j);
    ByteIsByte(w, j);
    CountOfByte(Byte(w, j));
    OnesByByte(w, j, 8);
  }

  /** The algorithm yields the number of set bits. */
  lemma CountOfWord(w: Word)
    ensures Value(CountWord(w)) == Ones(w, 0, 32)
  {
    hide Ones, Product, Byte, ByteSum, Bytes, Nibbles, Pairs, Value, BytesFit;
    var c := ByteCounts(w);
    BytesAlwaysFit(Nibbles(Pairs(w)));
    Multiply(c);
    CountInByte(w, 0);
    CountInByte(w, 1);
    CountInByte(w, 2);
    CountInByte(w, 3);
    SumOfFour(Byte(c, 0), Byte(c, 1), Byte(c, 2), Byte(c, 3));
    OnesSplit(w, 0, 8, 8);
    OnesSplit(w, 0, 16, 8);
    OnesSplit(w, 0, 24, 8);
  }
}
