/** The searches and the count over bitmaps (src/mstpd_inlines.c). */
module BitmapScan {

  import opened Words
  import opened BitCount
  import opened Bitmap

  /** r is the lowest set bit above `prev`, or -1 if there is none up to maxBits. */
  ghost predicate IsNextSet(m: seq<Word>, prev: nat, maxBits: nat, r: int) {
    if r == -1 then forall b: nat | prev < b <= maxBits :: !In(m, b)
    else prev < r <= maxBits && In(m, r) && forall b: nat | prev < b < r :: !In(m, b)
  }

  /** r is the lowest clear bit above `prev`, or -1 if there is none up to maxBits. */
  ghost predicate IsNextClear(m: seq<Word>, prev: nat, maxBits: nat, r: int) {
    if r == -1 then forall b: nat | prev < b <= maxBits :: In(m, b)
    else prev < r <= maxBits && !In(m, r) && forall b: nat | prev < b < r :: In(m, b)
  }

  /** `mask` selects the bits of word j above bit number `prev`. */
  ghost predicate Selects(mask: Word, j: nat, prev: nat) {
    forall k: nat | k < 32 :: Bit(mask, k) <==> prev < 32 * j + k + 1
  }

  lemma SelectsAll(j: nat, prev: nat)
    requires prev <= 32 * j
    ensures Selects(ALL_ONES, j, prev)
  {
    hide Bit;
    forall k: nat | k < 32
      ensures Bit(ALL_ONES, k)
    {
      ConstantBits(k);
    }
  }

  lemma SelectsHigh(j: nat, prev: nat)
    requires 32 * j <= prev < 32 * j + 32
    ensures Selects(HighMask(Mask(prev - 32 * j)), j, prev)
  {
    hide Bit, HighMask, Mask;
    var mask := HighMask(Mask(prev - 32 * j));
    forall k: nat | k < 32
      ensures Bit(mask, k) <==> prev < 32 * j + k + 1
    {
      MaskBits(prev - 32 * j, k);
    }
  }

  // ---------------------------------------------------------------------------
  // Set bits
  // ---------------------------------------------------------------------------

  /** Nothing selected in word j: none of its bits above `prev` is set. */
  lemma WordPassed(m: seq<Word>, j: nat, mask: Word, prev: nat)
    requires j < |m| && Selects(mask, j, prev) && And(mask, m[j]) == 0
    ensures forall b: nat | prev < b && 32 * j < b <= 32 * j + 32 :: !In(m, b)
  {
    hide Bit, And;
    forall b: nat | prev < b && 32 * j < b <= 32 * j + 32
      ensures !In(m, b)
    {
      var k := b - 1 - 32 * j;
      At(m, j, k);
      AndBit(mask, m[j], k);
      ConstantBits(k);
    }
  }

  /** Something selected in word j: its lowest bit is the next one. */
  lemma WordFound(m: seq<Word>, j: nat, mask: Word, prev: nat)
    requires j < |m| && Selects(mask, j, prev) && And(mask, m[j]) != 0
    ensures var b := 32 * j + Ctz(And(mask, m[j])) + 1;
      prev < b && In(m, b) && forall c: nat | prev < c < b && 32 * j < c :: !In(m, c)
  {
    hide Bit, And;
    var k := Ctz(And(mask, m[j]));
    AndBit(mask, m[j], k);
    At(m, j, k);
    forall c: nat | prev < c < 32 * j + k + 1 && 32 * j < c
      ensures !In(m, c)
    {
      AndBit(mask, m[j], c - 1 - 32 * j);
      At(m, j, c - 1 - 32 * j);
    }
  }

  /** findFirstBitSet. */
  method FindFirst(words: array<Word>, maxBits: nat) returns (r: int)
    requires 0 < maxBits && WordsFor(maxBits) <= words.Length
    ensures IsNextSet(words[..], 0, maxBits, r)
  {
    hide Bit, Selects, And;
    if maxBits <= 32 {
      SelectsAll(0, 0);
      OnesKeep(words[0]);
      if words[0] == 0 {
        WordPassed(words[..], 0, ALL_ONES, 0);
        return -1;
      }
      WordFound(words[..], 0, ALL_ONES, 0);
      var bit := Ctz(words[0]) + 1;
      return if bit > maxBits then -1 else bit;
    }
    var i, j := 0, 0;
    while i < maxBits
      invariant i == 32 * j && j <= WordsFor(maxBits)
      invariant forall b: nat | 0 < b <= i :: !In(words[..], b)
    {
      SelectsAll(j, 0);
      OnesKeep(words[j]);
      if words[j] != 0 {
        WordFound(words[..], j, ALL_ONES, 0);
        var lsb := Ctz(words[j]) + 1;
        if i + lsb > maxBits {
          return -1;
        }
        return i + lsb;
      }
      WordPassed(words[..], j, ALL_ONES, 0);
      i, j := i + 32, j + 1;
    }
    return -1;
  }

  lemma OnesKeep(w: Word)
    ensures And(ALL_ONES, w) == w
  {
  }

  /** findNextBitSetInSmallBitmap. */
  method FindNextSmall(words: array<Word>, prevBit: nat, maxBits: nat) returns (r: int)
    requires 0 < maxBits <= 32 && 0 < words.Length && prevBit <= maxBits
    ensures IsNextSet(words[..], prevBit, maxBits, r)
  {
    hide Mask, And;
    var prev := prevBit;
    while prev < 32
      invariant prevBit <= prev <= 32
      invariant forall b: nat | prevBit < b <= prev :: !In(words[..], b)
    {
      At(words[..], 0, prev);
      if And(words[0], Mask(prev)) != 0 {
        return if prev + 1 > maxBits then -1 else prev + 1;
      }
      prev := prev + 1;
    }
    return -1;
  }

  /** findNextBitSet. A prevBit of maxBits is permitted. */
  method FindNext(words: array<Word>, prevBit: nat, maxBits: nat) returns (r: int)
    requires 0 < maxBits && WordsFor(maxBits) <= words.Length && prevBit <= maxBits
    ensures IsNextSet(words[..], prevBit, maxBits, r)
  {
    hide Bit, Selects, And, Mask, HighMask;
    if maxBits <= 32 {
      r := FindNextSmall(words, prevBit, maxBits);
      return;
    }
    var j := prevBit / 32;
    var mask := HighMask(Mask(prevBit - 32 * j));
    SelectsHigh(j, prevBit);
    var i := j * 32;
    while i < maxBits
      invariant i == 32 * j && j <= WordsFor(maxBits) && Selects(mask, j, prevBit)
      invariant forall b: nat | prevBit < b <= i :: !In(words[..], b)
      decreases maxBits - i
    {
      ghost var select := mask;
      mask := And(mask, words[j]);
      if mask != 0 {
        WordFound(words[..], j, select, prevBit);
        var lsb := Ctz(mask) + 1;
        if i + lsb > maxBits {
          return -1;
        }
        return i + lsb;
      }
      WordPassed(words[..], j, select, prevBit);
      i, j := i + 32, j + 1;
      mask := ALL_ONES;
      SelectsAll(j, prevBit);
    }
    return -1;
  }

  /** The loop "first, then next until -1" that runs through the daemon: it visits exactly
      the members, in ascending order, each once. */
  method Enumerate(words: array<Word>, maxBits: nat) returns (visited: seq<nat>)
    requires 0 < maxBits && WordsFor(maxBits) <= words.Length
    ensures forall i, j | 0 <= i < j < |visited| :: visited[i] < visited[j]
    ensures forall b: nat :: b in visited <==> b in Members(words[..], maxBits)
  {
    hide In;
    visited := [];
    var b := FindFirst(words, maxBits);
    ghost var last := 0;
    while b != -1
      invariant last <= maxBits && IsNextSet(words[..], last, maxBits, b)
      invariant forall i, j | 0 <= i < j < |visited| :: visited[i] < visited[j]
      invariant forall i | 0 <= i < |visited| :: 1 <= visited[i] <= last && In(words[..], visited[i])
      invariant forall c: nat | 1 <= c <= last && In(words[..], c) :: c in visited
      decreases maxBits - last
    {
      visited := visited + [b];
      last := b;
      b := FindNext(words, b, maxBits);
    }
  }

  // ---------------------------------------------------------------------------
  // Clear bits
  // ---------------------------------------------------------------------------

  /** Word j with the bits up to `prev` filled up, as the search for clear bits uses it. */
  ghost predicate Filled(w: Word, m: seq<Word>, j: nat, prev: nat)
    requires j < |m|
  {
    forall k: nat | k < 32 :: Bit(w, k) <==> Bit(m[j], k) || 32 * j + k + 1 <= prev
  }

  lemma FilledLow(m: seq<Word>, j: nat, prev: nat)
    requires j < |m| && 32 * j <= prev < 32 * j + 32
    ensures Filled(Or(LowMask(Mask(prev - 32 * j)), m[j]), m, j, prev)
  {
    hide Bit, Or, LowMask, Mask;
    var low := LowMask(Mask(prev - 32 * j));
    forall k: nat | k < 32
      ensures Bit(Or(low, m[j]), k) <==> Bit(m[j], k) || 32 * j + k + 1 <= prev
    {
      OrBit(low, m[j], k);
      MaskBits(prev - 32 * j, k);
    }
  }

  lemma FullPassed(m: seq<Word>, j: nat, w: Word, prev: nat)
    requires j < |m| && Filled(w, m, j, prev) && LowClear(w) == 0
    ensures forall b: nat | prev < b && 32 * j < b <= 32 * j + 32 :: In(m, b)
  {
    hide Bit, LowClear;
    LowClearZero(w);
    forall b: nat | prev < b && 32 * j < b <= 32 * j + 32
      ensures In(m, b)
    {
      ConstantBits(b - 1 - 32 * j);
      At(m, j, b - 1 - 32 * j);
    }
  }

  lemma ClearFound(m: seq<Word>, j: nat, w: Word, prev: nat)
    requires j < |m| && Filled(w, m, j, prev) && LowClear(w) != 0
    ensures var b := 32 * j + Ctz(LowClear(w)) + 1;
      prev < b && !In(m, b) && forall c: nat | prev < c < b && 32 * j < c :: In(m, c)
  {
    hide Bit, LowClear;
    LowestClear(w);
    var k := Ctz(LowClear(w));
    At(m, j, k);
    forall c: nat | prev < c < 32 * j + k + 1 && 32 * j < c
      ensures In(m, c)
    {
      At(m, j, c - 1 - 32 * j);
    }
  }

  /** findNextBitClr. The loop reads one word ahead; whatever lies behind the last word, it is
      never used. */
  method FindNextClear(words: array<Word>, prevBit: nat, maxBits: nat) returns (r: int)
    requires prevBit <= maxBits && WordsFor(maxBits) <= words.Length
    ensures IsNextClear(words[..], prevBit, maxBits, r)
  {
    hide Bit, Filled, LowClear, Or, LowMask, Mask;
    ghost var m := words[..];
    var j := prevBit / 32;
    var bitCount := j * 32;
    var mask := WordAt(words, j);
    mask := Or(LowMask(Mask(prevBit - 32 * j)), mask);
    if j < words.Length {
      FilledLow(m, j, prevBit);
    }
    ghost var w := mask;
    mask := LowClear(mask);
    var i := j * 32;
    while i < maxBits
      invariant i == 32 * j == bitCount && j <= WordsFor(maxBits)
      invariant (j < words.Length ==> Filled(w, m, j, prevBit)) && mask == LowClear(w)
      invariant forall b: nat | prevBit < b <= i :: In(m, b)
      decreases maxBits - i
    {
      if mask == 0 {
        FullPassed(m, j, w, prevBit);
        bitCount := bitCount + 32;
      } else {
        ClearFound(m, j, w, prevBit);
        bitCount := bitCount + Ctz(mask);
        break;
      }
      j := j + 1;
      mask := WordAt(words, j);
      w := mask;
      if j < words.Length {
        FilledNext(m, j, prevBit);
      }
      mask := LowClear(mask);
      i := i + 32;
    }
    return if bitCount < maxBits then bitCount + 1 else -1;
  }

  /** A word of the map, or anything behind its end. */
  method WordAt(words: array<Word>, j: nat) returns (w: Word)
    ensures j < words.Length ==> w == words[j]
  {
    w := *;
    if j < words.Length {
      w := words[j];
    }
  }

  lemma FilledNext(m: seq<Word>, j: nat, prev: nat)
    requires j < |m| && prev <= 32 * j
    ensures Filled(m[j], m, j, prev)
  {
    hide Bit;
  }

  // ---------------------------------------------------------------------------
  // Counting
  // ---------------------------------------------------------------------------

  /** The sum of the bit counts of the first n words. */
  ghost function OnesOfWords(m: seq<Word>, n: nat): (c: nat)
    requires n <= |m|
    ensures c <= 32 * n
  {
    if n == 0 then 0 else OnesOfWords(m, n - 1) + Ones(m[n - 1], 0, 32)
  }

  /** The members among the first 32 * j + k bits. */
  ghost function FirstMembers(m: seq<Word>, j: nat, k: nat): set<nat> {
    Members(m, 32 * j + k)
  }

  lemma {:induction false} MembersOfWord(m: seq<Word>, j: nat, k: nat)
    requires j < |m| && k <= 32
    ensures |FirstMembers(m, j, k)| == |FirstMembers(m, j, 0)| + Ones(m[j], 0, k)
  {
    hide Bit, In;
    if k > 0 {
      MembersOfWord(m, j, k - 1);
      At(m, j, k - 1);
      var s, t := FirstMembers(m, j, k - 1), FirstMembers(m, j, k);
      var b := 32 * j + k;
      assert t == if In(m, b) then s + {b} else s;
    }
  }

  lemma {:induction false} MembersOfWords(m: seq<Word>, n: nat)
    requires n <= |m|
    ensures |FirstMembers(m, n, 0)| == OnesOfWords(m, n)
  {
    hide Bit, In;
    if n > 0 {
      MembersOfWords(m, n - 1);
      MembersOfWord(m, n - 1, 32);
      assert FirstMembers(m, n, 0) == FirstMembers(m, n - 1, 32);
    } else {
      assert FirstMembers(m, 0, 0) == {};
    }
  }

  /** The words of a clean bitmap hold nothing but its members. */
  lemma CleanMembers(m: seq<Word>, maxBits: nat)
    requires WordsFor(maxBits) <= |m| && Clean(m, maxBits)
    ensures FirstMembers(m, WordsFor(maxBits), 0) == Members(m, maxBits)
  {
    hide In;
  }

  /** getNumOfBitsSetInBitmap: for any map the sum of the bit counts of its words, which is
      the number of its members when it is clean. The uint32_t sum cannot wrap. */
  method Count(words: array<Word>, maxBits: nat) returns (count: nat)
    requires 0 < maxBits < 0x8000_0000 && WordsFor(maxBits) <= words.Length
    ensures count == OnesOfWords(words[..], WordsFor(maxBits)) && count < 0x1_0000_0000
    ensures Clean(words[..], maxBits) ==> count == |Members(words[..], maxBits)|
  {
    hide CountWord, Value, Ones, Clean, Members;
    count := 0;
    var i: int, j := maxBits, 0;
    while i > 0
      invariant 0 <= j <= WordsFor(maxBits) && i + 32 * j == maxBits
      invariant count == OnesOfWords(words[..], j)
    {
      CountOfWord(words[j]);
      count := count + Value(CountWord(words[j]));
      i, j := i - 32, j + 1;
    }
    MembersOfWords(words[..], j);
    if Clean(words[..], maxBits) {
      CleanMembers(words[..], maxBits);
    }
  }
}
