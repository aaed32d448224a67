/** Arrays of 2-bit and 4-bit fields packed into 32-bit words (setFieldInBitmap and
    getFieldFromBitmap of src/mstpd_inlines.c). Fields are numbered from 1. */
module PackedField {

  import opened Words
  import opened BitCount

  // ---------------------------------------------------------------------------
  // Shifts
  // ---------------------------------------------------------------------------

  /** w << n. */
  function Shl(w: Word, n: nat): Word {
    if n == 0 then w else Double(Shl(w, n - 1))
  }

  /** w >> n. */
  function Shr(w: Word, n: nat): Word {
    if n == 0 then w else Half(Shr(w, n - 1))
  }

  lemma DoubleMask(w: Word, m: Word)
    requires Below(m, 0x8000_0000)
    ensures Has(Double(w), Double(m)) <==> Has(w, m)
  {
  }

  lemma EndBits(w: Word)
    ensures !Has(Double(w), 1) && !Has(Half(w), 0x8000_0000)
  {
  }

  lemma DoubleBit(w: Word, k: nat)
    requires k < 32
    ensures Bit(Double(w), k) <==> k > 0 && Bit(w, k - 1)
  {
    assert Mask(0) == 1;
    hide Has, Mask, Double, Half, Below;
    EndBits(w);
    if k > 0 {
      MaskStep(k - 1);
      DoubleMask(w, Mask(k - 1));
    }
  }

  lemma {:induction false} ShlBit(w: Word, n: nat, k: nat)
    requires k < 32
    ensures Bit(Shl(w, n), k) <==> k >= n && Bit(w, k - n)
  {
    hide Bit, Double;
    if n > 0 {
      DoubleBit(Shl(w, n - 1), k);
      if k > 0 {
        ShlBit(w, n - 1, k - 1);
      }
    }
  }

  lemma LastHalf(w: Word)
    ensures !Bit(Half(w), 31)
  {
    hide Has, Half, Double;
    LastMask();
    EndBits(w);
  }

  lemma {:induction false} ShrBit(w: Word, n: nat, k: nat)
    requires k < 32
    ensures Bit(Shr(w, n), k) <==> k + n < 32 && Bit(w, k + n)
  {
    hide Bit, Half;
    if n > 0 {
      if k < 31 {
        HalfBit(Shr(w, n - 1), k);
        ShrBit(w, n - 1, k + 1);
      } else {
        LastHalf(Shr(w, n - 1));
      }
    }
  }

  // ---------------------------------------------------------------------------
  // Layout
  // ---------------------------------------------------------------------------

  /** 2 or 4 bits a field. */
  predicate IsSize(size: nat) {
    size == 2 || size == 4
  }

  /** The word of a field. */
  function WordOffset(field: nat, size: nat): nat {
    field * size / 32
  }

  /** The lowest bit of a field in its word. */
  function BitOffset(field: nat, size: nat): nat
    requires field >= 1
  {
    (field - 1) * size % 32
  }

  /** maxFields * size / 32 + 1 words hold all fields. */
  function WordsNeeded(maxFields: nat, size: nat): nat {
    maxFields * size / 32 + 1
  }

  /** The place of a field: with `n` fields to a word, field q * n + r + 1 (r < n) has bit
      offset r * size; it lies in word q, but for the last one, which lies in word q + 1. */
  ghost predicate Placed(field: nat, size: nat, n: nat, q: nat, r: nat)
    requires field >= 1
  {
    && field == q * n + r + 1 && r < n
    && BitOffset(field, size) == r * size
    && WordOffset(field, size) == if r + 1 == n then q + 1 else q
  }

  lemma PlaceOfTwo(field: nat) returns (q: nat, r: nat)
    requires field >= 1
    ensures Placed(field, 2, 16, q, r)
  {
    q, r := (field - 1) / 16, (field - 1) % 16;
    assert field == 16 * q + r + 1;
    Quotient(q, 2 * r);
    Quotient(q, 2 * r + 2);
  }

  lemma PlaceOfFour(field: nat) returns (q: nat, r: nat)
    requires field >= 1
    ensures Placed(field, 4, 8, q, r)
  {
    q, r := (field - 1) / 8, (field - 1) % 8;
    assert field == 8 * q + r + 1;
    Quotient(q, 4 * r);
    Quotient(q, 4 * r + 4);
  }

  /** Division by 32 with its remainder. */
  lemma Quotient(q: nat, r: nat)
    requires r <= 32
    ensures r < 32 ==> (32 * q + r) / 32 == q && (32 * q + r) % 32 == r
    ensures r == 32 ==> (32 * q + r) / 32 == q + 1
  {
  }

  /** A field lies within its word, which is within the array. */
  lemma FieldFits(field: nat, size: nat, maxFields: nat)
    requires IsSize(size) && 1 <= field <= maxFields
    ensures BitOffset(field, size) + size <= 32
    ensures WordOffset(field, size) < WordsNeeded(maxFields, size)
  {
    if size == 2 {
      var q, r := PlaceOfTwo(field);
    } else {
      var q, r := PlaceOfFour(field);
    }
    LessQuotient(field * size, maxFields * size);
  }

  lemma LessQuotient(a: nat, b: nat)
    requires a <= b
    ensures a / 32 <= b / 32
  {
  }

  /** Although the word offset is computed from the field number and the bit offset from
      the number before it, no two fields share a place. */
  lemma OneToOne(f: nat, g: nat, size: nat)
    requires IsSize(size) && f >= 1 && g >= 1
    requires WordOffset(f, size) == WordOffset(g, size) && BitOffset(f, size) == BitOffset(g, size)
    ensures f == g
  {
    hide WordOffset, BitOffset;
    if size == 2 {
      var q, r := PlaceOfTwo(f);
      var p, s := PlaceOfTwo(g);
    } else {
      var q, r := PlaceOfFour(f);
      var p, s := PlaceOfFour(g);
    }
  }

  /** Fields of one word do not overlap. */
  lemma Apart(f: nat, g: nat, size: nat)
    requires IsSize(size) && f >= 1 && g >= 1 && f != g && WordOffset(f, size) == WordOffset(g, size)
    ensures BitOffset(f, size) + size <= BitOffset(g, size) || BitOffset(g, size) + size <= BitOffset(f, size)
  {
    hide WordOffset, BitOffset;
    if size == 2 {
      var q, r := PlaceOfTwo(f);
      var p, s := PlaceOfTwo(g);
    } else {
      var q, r := PlaceOfFour(f);
      var p, s := PlaceOfFour(g);
    }
  }

  // ---------------------------------------------------------------------------
  // Fields
  // ---------------------------------------------------------------------------

  /** 0x3 or 0xf. */
  function FieldMask(size: nat): Word
    requires IsSize(size)
  {
    if size == 2 then 3 else 15
  }

  predicate Fits(value: Word, size: nat)
    requires IsSize(size)
  {
    value <= FieldMask(size)
  }

  /** v is the value of a field: its bits are those of the word from the bit offset on. */
  ghost predicate IsField(v: Word, m: seq<Word>, field: nat, size: nat)
    requires IsSize(size) && field >= 1 && WordOffset(field, size) < |m|
  {
    forall k: nat | k < 32 ::
      Bit(v, k) <==>
        k < size && BitOffset(field, size) + k < 32 && Bit(m[WordOffset(field, size)], BitOffset(field, size) + k)
  }

  lemma FieldMaskBit(size: nat, k: nat)
    requires IsSize(size) && k < 32
    ensures Bit(FieldMask(size), k) <==> k < size
  {
    assert Mask(2) == 4 && Mask(4) == 16;
    assert FieldMask(size) == LowMask(Mask(size));
    hide Bit, Mask, LowMask, FieldMask;
    MaskBits(size, k);
  }

  lemma FitsMask(v: Word, size: nat)
    requires IsSize(size) && Fits(v, size)
    ensures And(v, FieldMask(size)) == v
  {
  }

  lemma FitsBit(v: Word, size: nat, k: nat)
    requires IsSize(size) && Fits(v, size) && size <= k < 32
    ensures !Bit(v, k)
  {
    hide Bit, And, FieldMask, Fits;
    FitsMask(v, size);
    FieldMaskBit(size, k);
    AndBit(v, FieldMask(size), k);
  }

  /** A value is known by being the value of a field. */
  lemma FieldUnique(v: Word, u: Word, m: seq<Word>, field: nat, size: nat)
    requires IsSize(size) && field >= 1 && WordOffset(field, size) < |m|
    requires IsField(v, m, field, size) && IsField(u, m, field, size)
    ensures v == u
  {
    hide Bit, WordOffset, BitOffset;
    SameBits(v, u);
  }

  /** What setFieldInBitmap makes of the word. */
  function SetWord(w: Word, value: Word, size: nat, off: nat): Word
    requires IsSize(size)
  {
    Or(And(w, Not(Shl(FieldMask(size), off))), Shl(value, off))
  }

  lemma SetWordBit(w: Word, value: Word, size: nat, off: nat, k: nat)
    requires IsSize(size) && Fits(value, size) && off + size <= 32 && k < 32
    ensures Bit(SetWord(w, value, size, off), k) <==>
      if off <= k < off + size then Bit(value, k - off) else Bit(w, k)
  {
    hide Bit, Or, And, Not, Shl, Fits, FieldMask;
    var mask := Shl(FieldMask(size), off);
    OrBit(And(w, Not(mask)), Shl(value, off), k);
    AndBit(w, Not(mask), k);
    NotBit(mask, k);
    ShlBit(FieldMask(size), off, k);
    ShlBit(value, off, k);
    if k >= off {
      FieldMaskBit(size, k - off);
      if k >= off + size {
        FitsBit(value, size, k - off);
      }
    }
  }

  /** setFieldInBitmap: the field takes the value, and every other field keeps its own. */
  method SetField(words: array<Word>, field: nat, value: Word, size: nat, maxFields: nat)
    requires IsSize(size) && 1 <= field <= maxFields && Fits(value, size)
    requires WordsNeeded(maxFields, size) <= words.Length
    modifies words
    ensures WordOffset(field, size) < words.Length && IsField(value, words[..], field, size)
    ensures forall g: nat, v | 1 <= g <= maxFields && g != field && WordOffset(g, size) < words.Length ::
              old(IsField(v, words[..], g, size)) ==> IsField(v, words[..], g, size)
    ensures words[..] == old(words[..])[WordOffset(field, size) := words[WordOffset(field, size)]]
  {
    hide Bit, Or, And, Not, Shl, Fits, FieldMask, IsField;
    ghost var m := words[..];
    FieldFits(field, size, maxFields);
    var wdOff, bitOff := field * size / 32, (field - 1) * size % 32;
    var mask := Not(Shl(FieldMask(size), bitOff));
    words[wdOff] := Or(And(words[wdOff], mask), Shl(value, bitOff));
    SetTaken(m, words[..], field, value, size);
    forall g: nat, v | 1 <= g <= maxFields && g != field && WordOffset(g, size) < words.Length && IsField(v, m, g, size)
      ensures IsField(v, words[..], g, size)
    {
      SetKept(m, words[..], field, g, value, v, size);
    }
  }

  lemma SetTaken(m: seq<Word>, n: seq<Word>, field: nat, value: Word, size: nat)
    requires IsSize(size) && field >= 1 && Fits(value, size) && WordOffset(field, size) < |m|
    requires n == m[WordOffset(field, size) := SetWord(m[WordOffset(field, size)], value, size, BitOffset(field, size))]
    ensures IsField(value, n, field, size)
  {
    hide Bit, SetWord, Fits, WordOffset, BitOffset, WordsNeeded;
    FieldFits(field, size, field);
    var j, off := WordOffset(field, size), BitOffset(field, size);
    forall k: nat | k < 32
      ensures Bit(value, k) <==> k < size && off + k < 32 && Bit(n[j], off + k)
    {
      if k < size {
        SetWordBit(m[j], value, size, off, off + k);
      } else {
        FitsBit(value, size, k);
      }
    }
  }

  lemma SetKept(m: seq<Word>, n: seq<Word>, field: nat, g: nat, value: Word, v: Word, size: nat)
    requires IsSize(size) && field >= 1 && g >= 1 && g != field && Fits(value, size)
    requires WordOffset(field, size) < |m| && WordOffset(g, size) < |m|
    requires n == m[WordOffset(field, size) := SetWord(m[WordOffset(field, size)], value, size, BitOffset(field, size))]
    requires IsField(v, m, g, size)
    ensures IsField(v, n, g, size)
  {
    hide Bit, SetWord, Fits, WordOffset, BitOffset, WordsNeeded;
    FieldFits(field, size, field);
    FieldFits(g, size, g);
    var j, off := WordOffset(field, size), BitOffset(field, size);
    if WordOffset(g, size) == j {
      Apart(field, g, size);
    }
    forall k: nat | k < 32
      ensures Bit(v, k) <==>
        k < size && BitOffset(g, size) + k < 32 && Bit(n[WordOffset(g, size)], BitOffset(g, size) + k)
    {
      if k < size && WordOffset(g, size) == j {
        SetWordBit(m[j], value, size, off, BitOffset(g, size) + k);
      }
    }
  }

  /** getFieldFromBitmap. */
  method GetField(words: array<Word>, field: nat, size: nat, maxFields: nat) returns (value: Word)
    requires IsSize(size) && 1 <= field <= maxFields && WordsNeeded(maxFields, size) <= words.Length
    ensures WordOffset(field, size) < words.Length && IsField(value, words[..], field, size)
  {
    FieldFits(field, size, maxFields);
    hide Bit, And, Shl, Shr, FieldMask;
    var wdOff, bitOff := field * size / 32, (field - 1) * size % 32;
    var mask := Shl(FieldMask(size), bitOff);
    value := Shr(And(words[wdOff], mask), bitOff);
    forall k: nat | k < 32
      ensures Bit(value, k) <==> k < size && bitOff + k < 32 && Bit(words[wdOff], bitOff + k)
    {
      ShrBit(And(words[wdOff], mask), bitOff, k);
      if k + bitOff < 32 {
        AndBit(words[wdOff], mask, k + bitOff);
        ShlBit(FieldMask(size), bitOff, k + bitOff);
        FieldMaskBit(size, k);
      }
    }
  }

  /** A set followed by a get, of the same field and of another one. */
  method SetThenGet(words: array<Word>, field: nat, other: nat, value: Word, size: nat, maxFields: nat)
    returns (got: Word, before: Word, after: Word)
    requires IsSize(size) && 1 <= field <= maxFields && 1 <= other <= maxFields && Fits(value, size)
    requires WordsNeeded(maxFields, size) <= words.Length
    modifies words
    ensures got == value
    ensures other != field ==> after == before
  {
    hide IsField, Fits, WordsNeeded, WordOffset;
    before := GetField(words, other, size, maxFields);
    SetField(words, field, value, size, maxFields);
    got := GetField(words, field, size, maxFields);
    FieldUnique(got, value, words[..], field, size);
    after := GetField(words, other, size, maxFields);
    if other != field {
      FieldUnique(after, before, words[..], other, size);
    }
  }
}
