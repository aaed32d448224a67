/** Bitmaps of 32-bit words (src/mstpd_inlines.c) as sets of the bit numbers 1..maxBits. */
module Bitmap {

  import opened Words
  import opened BitCount

  /** The number of words of a bitmap. */
  function WordsFor(maxBits: nat): (n: nat)
    ensures 32 * n >= maxBits && 32 * n < maxBits + 32
  {
    (maxBits + 31) / 32
  }

  /** Bit number b is set. Bit 1 is the lowest bit of word 0. */
  predicate In(m: seq<Word>, b: nat) {
    1 <= b && (b - 1) / 32 < |m| && Bit(m[(b - 1) / 32], (b - 1) % 32)
  }

  ghost function Members(m: seq<Word>, maxBits: nat): set<nat> {
    set b: nat | 1 <= b <= maxBits && In(m, b)
  }

  predicate IsNumber(b: nat, maxBits: nat) {
    1 <= b <= maxBits
  }

  ghost function Universe(maxBits: nat): set<nat> {
    set b: nat | b <= maxBits && IsNumber(b, maxBits)
  }

  /** No bit is set between maxBits and the end of its word. */
  ghost predicate Clean(m: seq<Word>, maxBits: nat) {
    forall b: nat | maxBits < b <= 32 * WordsFor(maxBits) :: !In(m, b)
  }

  /** The bits set between maxBits and the end of its word. */
  ghost function Tail(m: seq<Word>, maxBits: nat): set<nat> {
    set b: nat | maxBits < b <= 32 * WordsFor(maxBits) && In(m, b)
  }

  lemma CleanTail(m: seq<Word>, maxBits: nat)
    ensures Clean(m, maxBits) <==> Tail(m, maxBits) == {}
  {
    hide In;
    if Tail(m, maxBits) == {} {
      forall b: nat | maxBits < b <= 32 * WordsFor(maxBits)
        ensures !In(m, b)
      {
        assert b !in Tail(m, maxBits);
      }
    }
  }

  /** The words from the end of the bitmap on are what they were. */
  ghost predicate RestKept(o: seq<Word>, n: seq<Word>, maxBits: nat) {
    |o| == |n| && WordsFor(maxBits) <= |n| && o[WordsFor(maxBits)..] == n[WordsFor(maxBits)..]
  }

  lemma At(m: seq<Word>, j: nat, k: nat)
    requires j < |m| && k < 32
    ensures In(m, 32 * j + k + 1) <==> Bit(m[j], k)
  {
  }

  // ---------------------------------------------------------------------------
  // Two bitmaps combined
  // ---------------------------------------------------------------------------

  datatype Op = OrOp | AndOp | XorOp | SubOp

  function Apply(op: Op, to: Word, from: Word): Word {
    match op
    case OrOp => Or(to, from)
    case AndOp => And(to, from)
    case XorOp => Xor(to, from)
    case SubOp => And(to, Not(from))
  }

  predicate Keeps(op: Op, inTo: bool, inFrom: bool) {
    match op
    case OrOp => inTo || inFrom
    case AndOp => inTo && inFrom
    case XorOp => inTo != inFrom
    case SubOp => inTo && !inFrom
  }

  ghost function Combine(op: Op, to: set<nat>, from: set<nat>): set<nat> {
    match op
    case OrOp => to + from
    case AndOp => to * from
    case XorOp => (to - from) + (from - to)
    case SubOp => to - from
  }

  lemma ApplyBit(op: Op, to: Word, from: Word, k: nat)
    requires k < 32
    ensures Bit(Apply(op, to, from), k) <==> Keeps(op, Bit(to, k), Bit(from, k))
  {
    hide Bit, Or, And, Xor, Not;
    OrBit(to, from, k);
    AndBit(to, from, k);
    XorBit(to, from, k);
    NotBit(from, k);
    AndBit(to, Not(from), k);
  }

  /** The bits of word j that belong to the bitmap. */
  function TailMask(maxBits: nat, j: nat): Word {
    if 32 * j + 32 <= maxBits then ALL_ONES
    else if 32 * j < maxBits then LowMask(Mask(maxBits - 32 * j))
    else 0
  }

  lemma TailBit(maxBits: nat, j: nat, k: nat)
    requires k < 32
    ensures Bit(TailMask(maxBits, j), k) <==> 32 * j + k < maxBits
  {
    hide Bit, Mask, LowMask;
    ConstantBits(k);
    if 32 * j < maxBits < 32 * j + 32 {
      MaskBits(maxBits - 32 * j, k);
    }
  }

  /** Word r holds the combination of two words as far as the bitmap goes. */
  ghost predicate Combined(op: Op, to: Word, from: Word, r: Word, tail: Word) {
    And(r, tail) == And(Apply(op, to, from), tail)
  }

  lemma CombinedBit(op: Op, to: Word, from: Word, r: Word, tail: Word, k: nat)
    requires k < 32 && Combined(op, to, from, r, tail) && Bit(tail, k)
    ensures Bit(r, k) <==> Keeps(op, Bit(to, k), Bit(from, k))
  {
    hide Bit, Apply, Keeps, And;
    ApplyBit(op, to, from, k);
    AndBit(r, tail, k);
    AndBit(Apply(op, to, from), tail, k);
  }

  /** What holds word by word holds of the sets. */
  lemma CombinedSets(op: Op, to: seq<Word>, from: seq<Word>, r: seq<Word>, maxBits: nat)
    requires WordsFor(maxBits) <= |to| && WordsFor(maxBits) <= |from| && WordsFor(maxBits) <= |r|
    requires forall j | 0 <= j < WordsFor(maxBits) :: Combined(op, to[j], from[j], r[j], TailMask(maxBits, j))
    ensures Members(r, maxBits) == Combine(op, Members(to, maxBits), Members(from, maxBits))
  {
    hide Bit, Combined, TailMask, Mask;
    forall b: nat | 1 <= b <= maxBits
      ensures In(r, b) <==> Keeps(op, In(to, b), In(from, b))
    {
      var j, k := (b - 1) / 32, (b - 1) % 32;
      TailBit(maxBits, j, k);
      CombinedBit(op, to[j], from[j], r[j], TailMask(maxBits, j), k);
    }
  }

  lemma MaskedTwice(x: Word, t: Word)
    ensures And(And(x, t), t) == And(x, t) && And(x, ALL_ONES) == x
  {
  }

  /** A bitmap whose words have been masked is clean. */
  lemma MaskedClean(m: seq<Word>, maxBits: nat)
    requires WordsFor(maxBits) <= |m|
    requires forall j | 0 <= j < WordsFor(maxBits) :: And(m[j], TailMask(maxBits, j)) == m[j]
    ensures Clean(m, maxBits)
  {
    hide Bit, TailMask, And;
    forall b: nat | maxBits < b <= 32 * WordsFor(maxBits)
      ensures !In(m, b)
    {
      var j, k := (b - 1) / 32, (b - 1) % 32;
      TailBit(maxBits, j, k);
      AndBit(m[j], TailMask(maxBits, j), k);
    }
  }

  /** ~(-(1 << i)), the mask of the last word. */
  function LastMask(i: nat): Word
    requires i < 32
  {
    EndMask(Mask(i))
  }

  lemma LastMaskIs(maxBits: nat, j: nat)
    requires 32 * j < maxBits < 32 * j + 32
    ensures LastMask(maxBits - 32 * j) == TailMask(maxBits, j)
  {
    hide Mask, EndMask, LowMask;
    NegatedMask(Mask(maxBits - 32 * j));
  }

  /** One word after a loop over the full words and the masking of the last one. */
  lemma WordDone(op: Op, to: Word, from: Word, r: Word, maxBits: nat, q: nat)
    requires r == And(Apply(op, to, from), TailMask(maxBits, q))
    ensures Combined(op, to, from, r, TailMask(maxBits, q)) && And(r, TailMask(maxBits, q)) == r
  {
    hide Apply, TailMask, And;
    MaskedTwice(Apply(op, to, from), TailMask(maxBits, q));
  }

  /** From a loop over the full words and a masked last word to the sets. */
  lemma LoopDone(op: Op, to: seq<Word>, from: seq<Word>, r: seq<Word>, maxBits: nat, i: nat, j: nat)
    requires |to| == |r| && WordsFor(maxBits) <= |r| && WordsFor(maxBits) <= |from|
    requires i < 32 && maxBits == 32 * j + i
    requires forall q | 0 <= q < j :: r[q] == Apply(op, to[q], from[q])
    requires i > 0 ==> r[j] == And(Apply(op, to[j], from[j]), LastMask(i))
    ensures Members(r, maxBits) == Combine(op, Members(to, maxBits), Members(from, maxBits))
    ensures Clean(r, maxBits)
  {
    hide Apply, LastMask, Combine, Members, Clean, Combined, And;
    forall q | 0 <= q < WordsFor(maxBits)
      ensures Combined(op, to[q], from[q], r[q], TailMask(maxBits, q)) && And(r[q], TailMask(maxBits, q)) == r[q]
    {
      if q < j {
        MaskedTwice(Apply(op, to[q], from[q]), ALL_ONES);
      } else {
        LastMaskIs(maxBits, j);
      }
      WordDone(op, to[q], from[q], r[q], maxBits, q);
    }
    CombinedSets(op, to, from, r, maxBits);
    MaskedClean(r, maxBits);
  }

  /** The variants for up to 32 bits: one word, not masked. */
  lemma SmallDone(op: Op, to: seq<Word>, from: seq<Word>, r: seq<Word>, maxBits: nat)
    requires 0 < maxBits <= 32 && |to| > 0 && |from| > 0 && |r| > 0
    requires r[0] == Apply(op, to[0], from[0])
    ensures Members(r, maxBits) == Combine(op, Members(to, maxBits), Members(from, maxBits))
  {
    hide Apply, TailMask, Combine;
    CombinedSets(op, to, from, r, maxBits);
  }

  /** bitOrBitmaps. */
  method BitOr(from: array<Word>, to: array<Word>, maxBits: nat)
    requires 0 < maxBits && WordsFor(maxBits) <= from.Length && WordsFor(maxBits) <= to.Length
    modifies to
    ensures Members(to[..], maxBits) == old(Members(to[..], maxBits)) + old(Members(from[..], maxBits))
    ensures maxBits > 32 ==> Clean(to[..], maxBits)
    ensures RestKept(old(to[..]), to[..], maxBits)
  {
    hide Members, Clean, LastMask, Or, And, Xor, Not;
    if maxBits <= 32 {
      to[0] := Or(to[0], from[0]);
      SmallDone(OrOp, old(to[..]), old(from[..]), to[..], maxBits);
      return;
    }
    var i, j := maxBits, 0;
    while i >= 32
      invariant i >= 0 && i + 32 * j == maxBits
      invariant forall q | 0 <= q < j :: to[q] == Or(old(to[q]), old(from[q]))
      invariant forall q | j <= q < to.Length :: to[q] == old(to[q])
      invariant forall q | j <= q < from.Length :: from[q] == old(from[q])
    {
      to[j] := Or(to[j], from[j]);
      i, j := i - 32, j + 1;
    }
    if i > 0 {
      var mask := LastMask(i);
      to[j] := Or(to[j], from[j]);
      to[j] := And(to[j], mask);
    }
    LoopDone(OrOp, old(to[..]), old(from[..]), to[..], maxBits, i, j);
  }

  lemma AndAssociates(a: Word, b: Word, m: Word)
    ensures And(a, And(b, m)) == And(And(a, b), m)
  {
  }

  /** bitAndBitmaps: the last word is masked through the other operand. */
  method BitAnd(from: array<Word>, to: array<Word>, maxBits: nat)
    requires 0 < maxBits && WordsFor(maxBits) <= from.Length && WordsFor(maxBits) <= to.Length
    modifies to
    ensures Members(to[..], maxBits) == old(Members(to[..], maxBits)) * old(Members(from[..], maxBits))
    ensures maxBits > 32 ==> Clean(to[..], maxBits)
    ensures RestKept(old(to[..]), to[..], maxBits)
  {
    hide Members, Clean, LastMask, Or, And, Xor, Not;
    if maxBits <= 32 {
      to[0] := And(to[0], from[0]);
      SmallDone(AndOp, old(to[..]), old(from[..]), to[..], maxBits);
      return;
    }
    var i, j := maxBits, 0;
    while i >= 32
      invariant i >= 0 && i + 32 * j == maxBits
      invariant forall q | 0 <= q < j :: to[q] == And(old(to[q]), old(from[q]))
      invariant forall q | j <= q < to.Length :: to[q] == old(to[q])
      invariant forall q | j <= q < from.Length :: from[q] == old(from[q])
    {
      to[j] := And(to[j], from[j]);
      i, j := i - 32, j + 1;
    }
    if i > 0 {
      var mask := LastMask(i);
      AndAssociates(to[j], from[j], mask);
      to[j] := And(to[j], And(from[j], mask));
    }
    LoopDone(AndOp, old(to[..]), old(from[..]), to[..], maxBits, i, j);
  }

  /** bitXorBitmaps. */
  method BitXor(from: array<Word>, to: array<Word>, maxBits: nat)
    requires 0 < maxBits && WordsFor(maxBits) <= from.Length && WordsFor(maxBits) <= to.Length
    modifies to
    ensures Members(to[..], maxBits) == old((Members(to[..], maxBits) - Members(from[..], maxBits))
                                            + (Members(from[..], maxBits) - Members(to[..], maxBits)))
    ensures maxBits > 32 ==> Clean(to[..], maxBits)
    ensures RestKept(old(to[..]), to[..], maxBits)
  {
    hide Members, Clean, LastMask, Or, And, Xor, Not;
    if maxBits <= 32 {
      to[0] := Xor(to[0], from[0]);
      SmallDone(XorOp, old(to[..]), old(from[..]), to[..], maxBits);
      return;
    }
    var i, j := maxBits, 0;
    while i >= 32
      invariant i >= 0 && i + 32 * j == maxBits
      invariant forall q | 0 <= q < j :: to[q] == Xor(old(to[q]), old(from[q]))
      invariant forall q | j <= q < to.Length :: to[q] == old(to[q])
      invariant forall q | j <= q < from.Length :: from[q] == old(from[q])
    {
      to[j] := Xor(to[j], from[j]);
      i, j := i - 32, j + 1;
    }
    if i > 0 {
      var mask := LastMask(i);
      to[j] := Xor(to[j], from[j]);
      to[j] := And(to[j], mask);
    }
    LoopDone(XorOp, old(to[..]), old(from[..]), to[..], maxBits, i, j);
  }

  /** bitSubBitmaps. */
  method BitSub(from: array<Word>, to: array<Word>, maxBits: nat)
    requires 0 < maxBits && WordsFor(maxBits) <= from.Length && WordsFor(maxBits) <= to.Length
    modifies to
    ensures Members(to[..], maxBits) == old(Members(to[..], maxBits)) - old(Members(from[..], maxBits))
    ensures maxBits > 32 ==> Clean(to[..], maxBits)
    ensures RestKept(old(to[..]), to[..], maxBits)
  {
    hide Members, Clean, LastMask, Or, And, Xor, Not;
    if maxBits <= 32 {
      to[0] := And(to[0], Not(from[0]));
      SmallDone(SubOp, old(to[..]), old(from[..]), to[..], maxBits);
      return;
    }
    var i, j := maxBits, 0;
    while i >= 32
      invariant i >= 0 && i + 32 * j == maxBits
      invariant forall q | 0 <= q < j :: to[q] == And(old(to[q]), Not(old(from[q])))
      invariant forall q | j <= q < to.Length :: to[q] == old(to[q])
      invariant forall q | j <= q < from.Length :: from[q] == old(from[q])
    {
      to[j] := And(to[j], Not(from[j]));
      i, j := i - 32, j + 1;
    }
    if i > 0 {
      var mask := LastMask(i);
      to[j] := And(to[j], Not(from[j]));
      to[j] := And(to[j], mask);
    }
    LoopDone(SubOp, old(to[..]), old(from[..]), to[..], maxBits, i, j);
  }

  /** bitInverseBitmap. The variant for up to 32 bits does not mask. */
  method BitInverse(words: array<Word>, maxBits: nat)
    requires 0 < maxBits && WordsFor(maxBits) <= words.Length
    modifies words
    ensures Members(words[..], maxBits) == Universe(maxBits) - old(Members(words[..], maxBits))
    ensures maxBits > 32 ==> Clean(words[..], maxBits)
    ensures RestKept(old(words[..]), words[..], maxBits)
  {
    hide Members, Clean, LastMask, Universe, And, Xor, Not;
    ghost var ones := seq(words.Length, _ => ALL_ONES);
    OnesAreAll(ones, maxBits);
    InverseIsXor();
    if maxBits <= 32 {
      words[0] := Not(words[0]);
      SmallDone(XorOp, old(words[..]), ones, words[..], maxBits);
      return;
    }
    var i, j := maxBits, 0;
    while i >= 32
      invariant i >= 0 && i + 32 * j == maxBits
      invariant forall q | 0 <= q < j :: words[q] == Not(old(words[q]))
      invariant forall q | j <= q < words.Length :: words[q] == old(words[q])
    {
      words[j] := Not(words[j]);
      i, j := i - 32, j + 1;
    }
    if i > 0 {
      var mask := LastMask(i);
      words[j] := And(Not(words[j]), mask);
    }
    LoopDone(XorOp, old(words[..]), ones, words[..], maxBits, i, j);
  }

  lemma InverseIsXor()
    ensures forall x: Word :: Xor(x, ALL_ONES) == Not(x)
  {
  }

  lemma OnesAreAll(ones: seq<Word>, maxBits: nat)
    requires WordsFor(maxBits) <= |ones| && forall j | 0 <= j < |ones| :: ones[j] == ALL_ONES
    ensures Members(ones, maxBits) == Universe(maxBits)
    ensures forall m | m <= Universe(maxBits) ::
              (m - Universe(maxBits)) + (Universe(maxBits) - m) == Universe(maxBits) - m
    ensures forall m: seq<Word> :: Members(m, maxBits) <= Universe(maxBits)
  {
    hide Bit;
    forall b: nat | 1 <= b <= maxBits
      ensures In(ones, b)
    {
      ConstantBits((b - 1) % 32);
    }
  }

  // ---------------------------------------------------------------------------
  // Single bits, whole maps
  // ---------------------------------------------------------------------------

  /** setBit. */
  method SetBit(words: array<Word>, bit: nat, maxBits: nat)
    requires 1 <= bit <= maxBits && WordsFor(maxBits) <= words.Length
    modifies words
    ensures forall b: nat :: In(words[..], b) <==> b == bit || old(In(words[..], b))
    ensures Members(words[..], maxBits) == old(Members(words[..], maxBits)) + {bit}
  {
    hide Bit, Mask, Or, And, Not;
    ghost var o := words[..];
    var j, k := (bit - 1) / 32, (bit - 1) % 32;
    words[j] := Or(words[j], Mask(k));
    forall b: nat | 1 <= b && (b - 1) / 32 < words.Length
      ensures In(words[..], b) <==> b == bit || In(o, b)
    {
      if (b - 1) / 32 == j {
        OrBit(o[j], Mask(k), (b - 1) % 32);
        MaskBits(k, (b - 1) % 32);
      }
    }
  }

  /** clrBit. */
  method ClrBit(words: array<Word>, bit: nat, maxBits: nat)
    requires 1 <= bit <= maxBits && WordsFor(maxBits) <= words.Length
    modifies words
    ensures forall b: nat :: In(words[..], b) <==> b != bit && old(In(words[..], b))
    ensures Members(words[..], maxBits) == old(Members(words[..], maxBits)) - {bit}
  {
    hide Bit, Mask, Or, And, Not;
    ghost var o := words[..];
    var j, k := (bit - 1) / 32, (bit - 1) % 32;
    words[j] := And(words[j], Not(Mask(k)));
    forall b: nat | 1 <= b && (b - 1) / 32 < words.Length
      ensures In(words[..], b) <==> b != bit && In(o, b)
    {
      if (b - 1) / 32 == j {
        AndBit(o[j], Not(Mask(k)), (b - 1) % 32);
        NotBit(Mask(k), (b - 1) % 32);
        MaskBits(k, (b - 1) % 32);
      }
    }
  }

  /** isBitSet: bits outside 1..maxBits are not set. */
  method IsBitSet(words: array<Word>, bit: nat, maxBits: nat) returns (r: bool)
    requires WordsFor(maxBits) <= words.Length
    ensures r <==> bit in Members(words[..], maxBits)
  {
    hide Mask, And;
    if 0 < bit <= maxBits {
      r := And(words[(bit - 1) / 32], Mask((bit - 1) % 32)) != 0;
    } else {
      r := false;
    }
  }

  /** clearBitmap. */
  method Clear(words: array<Word>, maxBits: nat)
    requires 0 < maxBits && WordsFor(maxBits) <= words.Length
    modifies words
    ensures Members(words[..], maxBits) == {} && Clean(words[..], maxBits)
    ensures RestKept(old(words[..]), words[..], maxBits)
  {
    var i: int, j := maxBits, 0;
    while i > 0
      invariant 0 <= j <= WordsFor(maxBits) && i + 32 * j == maxBits
      invariant forall q | 0 <= q < j :: words[q] == 0
      invariant forall q | j <= q < words.Length :: words[q] == old(words[q])
    {
      words[j] := 0;
      i, j := i - 32, j + 1;
    }
    ZerosAreNone(words[..], maxBits);
  }

  lemma ZerosAreNone(m: seq<Word>, maxBits: nat)
    requires WordsFor(maxBits) <= |m| && forall j | 0 <= j < WordsFor(maxBits) :: m[j] == 0
    ensures Members(m, maxBits) == {} && Clean(m, maxBits)
  {
    hide Bit;
    forall b: nat | 1 <= b <= 32 * WordsFor(maxBits)
      ensures !In(m, b)
    {
      ConstantBits((b - 1) % 32);
    }
  }

  /** setBitmap. With exactly 32 bits the source shifts by the width of the word. */
  method SetAll(words: array<Word>, maxBits: nat)
    requires 0 < maxBits != 32 && WordsFor(maxBits) <= words.Length
    modifies words
    ensures Members(words[..], maxBits) == Universe(maxBits) && Clean(words[..], maxBits)
    ensures RestKept(old(words[..]), words[..], maxBits)
  {
    var i, j := maxBits, 0;
    while i >= 32
      invariant i >= 0 && i + 32 * j == maxBits
      invariant forall q | 0 <= q < j :: words[q] == ALL_ONES
      invariant forall q | j <= q < words.Length :: words[q] == old(words[q])
    {
      words[j] := ALL_ONES;
      i, j := i - 32, j + 1;
    }
    if i > 0 {
      words[j] := LastMask(i);
    }
    TailsAreAll(words[..], maxBits, i, j);
  }

  lemma TailsAreAll(m: seq<Word>, maxBits: nat, i: nat, j: nat)
    requires WordsFor(maxBits) <= |m| && i < 32 && maxBits == 32 * j + i
    requires (forall q | 0 <= q < j :: m[q] == ALL_ONES) && (i > 0 ==> m[j] == LastMask(i))
    ensures Members(m, maxBits) == Universe(maxBits) && Clean(m, maxBits)
  {
    if i > 0 {
      LastMaskIs(maxBits, j);
    }
    assert forall q | 0 <= q < WordsFor(maxBits) :: m[q] == TailMask(maxBits, q);
    hide Bit, TailMask;
    forall b: nat | 1 <= b <= 32 * WordsFor(maxBits)
      ensures In(m, b) <==> b <= maxBits
    {
      TailBit(maxBits, (b - 1) / 32, (b - 1) % 32);
    }
  }

  /** copyBitmap. */
  method Copy(from: array<Word>, to: array<Word>, maxBits: nat)
    requires 0 < maxBits && WordsFor(maxBits) <= from.Length && WordsFor(maxBits) <= to.Length
    modifies to
    ensures Members(to[..], maxBits) == old(Members(from[..], maxBits))
    ensures old(Clean(from[..], maxBits)) ==> Clean(to[..], maxBits)
    ensures RestKept(old(to[..]), to[..], maxBits)
  {
    var i: int, j := maxBits, 0;
    while i > 0
      invariant 0 <= j <= WordsFor(maxBits) && i + 32 * j == maxBits
      invariant forall q | 0 <= q < j :: to[q] == old(from[q])
      invariant forall q | j <= q < to.Length :: to[q] == old(to[q])
      invariant forall q | j <= q < from.Length :: from[q] == old(from[q])
    {
      to[j] := from[j];
      i, j := i - 32, j + 1;
    }
    SameWords(old(from[..]), to[..], maxBits);
  }

  /** Bits 1 to 32 * WordsFor(maxBits) depend on the words of the bitmap alone. */
  lemma SameWords(m: seq<Word>, n: seq<Word>, maxBits: nat)
    requires WordsFor(maxBits) <= |m| && WordsFor(maxBits) <= |n|
    requires forall j | 0 <= j < WordsFor(maxBits) :: m[j] == n[j]
    ensures Members(m, maxBits) == Members(n, maxBits) && Tail(m, maxBits) == Tail(n, maxBits)
    ensures Clean(m, maxBits) <==> Clean(n, maxBits)
  {
    hide Bit;
    assert forall b: nat | 1 <= b <= 32 * WordsFor(maxBits) :: In(m, b) <==> In(n, b);
  }

  /** Bitmaps with the same members and the same tail have the same words. */
  lemma SameMembers(m: seq<Word>, n: seq<Word>, maxBits: nat, j: nat)
    requires WordsFor(maxBits) <= |m| && WordsFor(maxBits) <= |n| && j < WordsFor(maxBits)
    requires Members(m, maxBits) == Members(n, maxBits) && Tail(m, maxBits) == Tail(n, maxBits)
    ensures m[j] == n[j]
  {
    hide Bit;
    forall k: nat | k < 32
      ensures Bit(m[j], k) <==> Bit(n[j], k)
    {
      At(m, j, k);
      At(n, j, k);
      var b := 32 * j + k + 1;
      assert In(m, b) <==> In(n, b) by {
        if b <= maxBits {
          assert b in Members(m, maxBits) <==> b in Members(n, maxBits);
        } else {
          assert b in Tail(m, maxBits) <==> b in Tail(n, maxBits);
        }
      }
    }
    SameBits(m[j], n[j]);
  }

  /** Two bitmaps have the same words up to the end of the map. */
  ghost predicate WordsEqual(m: seq<Word>, n: seq<Word>, maxBits: nat)
    requires WordsFor(maxBits) <= |m| && WordsFor(maxBits) <= |n|
  {
    forall j | 0 <= j < WordsFor(maxBits) :: m[j] == n[j]
  }

  /** areBitmapsEqual: the words are compared, and thereby the sets and the tails. For clean
      maps that is set equality. */
  method AreEqual(words1: array<Word>, words2: array<Word>, maxBits: nat) returns (r: bool)
    requires 0 < maxBits && WordsFor(maxBits) <= words1.Length && WordsFor(maxBits) <= words2.Length
    ensures r <==> WordsEqual(words1[..], words2[..], maxBits)
    ensures r <==> Members(words1[..], maxBits) == Members(words2[..], maxBits)
                   && Tail(words1[..], maxBits) == Tail(words2[..], maxBits)
    ensures Clean(words1[..], maxBits) && Clean(words2[..], maxBits) ==>
      (r <==> Members(words1[..], maxBits) == Members(words2[..], maxBits))
  {
    hide Members, Clean, Tail;
    CleanTail(words1[..], maxBits);
    CleanTail(words2[..], maxBits);
    var i: int, j := maxBits, 0;
    while i > 0
      invariant 0 <= j <= WordsFor(maxBits) && i + 32 * j == maxBits
      invariant forall q | 0 <= q < j :: words1[q] == words2[q]
    {
      if words1[j] != words2[j] {
        if Tail(words1[..], maxBits) == Tail(words2[..], maxBits)
           && Members(words1[..], maxBits) == Members(words2[..], maxBits) {
          SameMembers(words1[..], words2[..], maxBits, j);
        }
        return false;
      }
      i, j := i - 32, j + 1;
    }
    SameWords(words1[..], words2[..], maxBits);
    return true;
  }

  /** areAnyBitsSetInBitmap: the words are looked at, and thereby the tail too. */
  method AreAny(words: array<Word>, maxBits: nat) returns (r: bool)
    requires 0 < maxBits && WordsFor(maxBits) <= words.Length
    ensures r <==> exists j | 0 <= j < WordsFor(maxBits) :: words[j] != 0
    ensures r <==> Members(words[..], maxBits) != {} || Tail(words[..], maxBits) != {}
    ensures Clean(words[..], maxBits) ==> (r <==> Members(words[..], maxBits) != {})
  {
    hide Members, Clean, Tail;
    CleanTail(words[..], maxBits);
    var i: int, j := maxBits, 0;
    while i > 0
      invariant 0 <= j <= WordsFor(maxBits) && i + 32 * j == maxBits
      invariant forall q | 0 <= q < j :: words[q] == 0
    {
      if words[j] != 0 {
        ghost var k := Ctz(words[j]);
        SomeMember(words[..], maxBits, j, k);
        return true;
      }
      i, j := i - 32, j + 1;
    }
    ZerosAreNone(words[..], maxBits);
    return false;
  }

  lemma SomeMember(m: seq<Word>, maxBits: nat, j: nat, k: nat)
    requires j < WordsFor(maxBits) <= |m| && k < 32 && Bit(m[j], k)
    ensures Members(m, maxBits) != {} || Tail(m, maxBits) != {}
  {
    hide Bit;
    At(m, j, k);
    assert 32 * j + k + 1 in Members(m, maxBits) + Tail(m, maxBits);
  }

  /** A bit behind the end makes a map of no members count as one with bits. */
  method StrayBit(maxBits: nat) returns (words: array<Word>, any: bool)
    requires 32 < maxBits && maxBits % 32 != 0
    ensures words.Length == WordsFor(maxBits) && Members(words[..], maxBits) == {} && any
  {
    hide Bit, In;
    words := new Word[WordsFor(maxBits)](_ => 0);
    ZerosAreNone(words[..], maxBits);
    CleanTail(words[..], maxBits);
    SetBit(words, maxBits + 1, maxBits + 1);
    any := AreAny(words, maxBits);
    assert maxBits + 1 in Tail(words[..], maxBits);
  }

  /** bitSubBitmaps does what its comment says: the words come out as those of the inverse of
      `from` anded with `to`. */
  method SubTwoWays(from: array<Word>, to: array<Word>, maxBits: nat) returns (other: array<Word>, equal: bool)
    requires 32 < maxBits && WordsFor(maxBits) <= from.Length && WordsFor(maxBits) <= to.Length
    modifies to
    ensures fresh(other) && WordsFor(maxBits) <= other.Length
    ensures WordsEqual(other[..], to[..], maxBits) && equal
    ensures Members(to[..], maxBits) == old(Members(to[..], maxBits)) - old(Members(from[..], maxBits))
  {
    hide In, Clean, WordsEqual;
    other := new Word[WordsFor(maxBits)];
    Copy(from, other, maxBits);
    BitInverse(other, maxBits);
    BitAnd(to, other, maxBits);
    BitSub(from, to, maxBits);
    equal := AreEqual(other, to, maxBits);
  }
}
