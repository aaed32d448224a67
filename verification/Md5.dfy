/** Streaming MD5 and HMAC-MD5 (src/md5.c) against one-shot definitions taken from
    RFC 1321, sections 3.1 to 3.5, and RFC 2104, section 2. */
module Md5 {

  import opened Md5Block

  const MD5_BUFLEN: nat := 64

  /** The initial chaining variables. */
  const INITIAL: State := State(0x67452301, 0xefcdab89, 0x98badcfe, 0x10325476)

  const TWO_TO_THE_32: nat := 0x1_0000_0000
  const TWO_TO_THE_64: nat := 0x1_0000_0000_0000_0000

  /** From here on `len * 8` no longer fits in a 32-bit `uint`. */
  const COUNT_LIMIT: nat := 0x2000_0000

  /** What a hash is made of: a compression function and the order of bytes in a
      word and in the counter. */
  datatype Hash = Hash(
    compress: (State, seq<Byte>) -> State,
    byte: (Word, nat) -> Byte,
    countByte: (nat, nat) -> Byte)

  /** The hash `h` is the one that md5_calc computes with the operations `ar`. */
  ghost predicate Computes(h: Hash, ar: Arithmetic) {
    && ar.Valid() && h.byte == ar.byte && h.countByte == ar.countByte
    && forall s, b {:trigger Compress(ar, s, b)} | |b| == 64 :: h.compress(s, b) == Compress(ar, s, b)
  }

  /** The hash of RFC 1321 over the operations `ar`. */
  ghost function HashOf(ar: Arithmetic): (h: Hash)
    requires ar.Valid()
    ensures Computes(h, ar)
  {
    Hash((s: State, b: seq<Byte>) => if |b| == 64 then Compress(ar, s, b) else s, ar.byte, ar.countByte)
  }

  /** The operations of RFC 1321 qualify, so that everything below holds of its MD5. */
  lemma Rfc1321()
    ensures RFC_1321.Valid() && Computes(HashOf(RFC_1321), RFC_1321)
  {
    assert |SINE| == 65;
  }

  // ---------------------------------------------------------------------------
  // One-shot MD5 (RFC 1321) and HMAC (RFC 2104)
  // ---------------------------------------------------------------------------

  function Zeros(n: nat): (z: seq<Byte>)
    ensures |z| == n
  {
    seq(n, _ => 0 as Byte)
  }

  /** The number of full blocks in a message of `len` bytes. */
  function FullBlocks(len: nat): (n: nat)
    ensures 64 * n <= len < 64 * n + 64
  {
    if len < 64 then 0 else FullBlocks(len - 64) + 1
  }

  ghost function CountBytes(h: Hash, n: nat): (b: seq<Byte>)
    ensures |b| == 8
  {
    seq(8, k requires 0 <= k => h.countByte(n, k))
  }

  /** The fewest zeros after a one bit that leave room for the count at the end of a block. */
  function ZerosNeeded(len: nat): nat {
    var rest := len - 64 * FullBlocks(len);
    if rest < 56 then 55 - rest else 119 - rest
  }

  /** What is appended to a message of `len` bytes when `bits` is the bit count to record:
      a one bit, zeros up to 448 modulo 512 bits, and the count (sections 3.1 and 3.2). */
  ghost function Padding(h: Hash, len: nat, bits: nat): (p: seq<Byte>) {
    [0x80] + Zeros(ZerosNeeded(len)) + CountBytes(h, bits)
  }

  /** A padded message consists of full blocks, and fewer zeros would not do. */
  lemma PaddedLength(h: Hash, len: nat, bits: nat, z: nat)
    ensures (len + |Padding(h, len, bits)|) % 64 == 0
    ensures z < ZerosNeeded(len) ==> (len + 1 + z + 8) % 64 != 0
  {
    hide FullBlocks;
    var n := FullBlocks(len);
    assert len + 9 + ZerosNeeded(len) == 64 * (if len - 64 * n < 56 then n + 1 else n + 2);
  }

  /** The chaining variables after the first n blocks of a message (section 3.4). */
  ghost function Chain(h: Hash, m: seq<Byte>, n: nat): State
    requires 64 * n <= |m|
  {
    if n == 0 then INITIAL else h.compress(Chain(h, m, n - 1), m[64 * n - 64..64 * n])
  }

  /** The low-order byte of A comes first, the high-order byte of D last (section 3.5). */
  ghost function StateBytes(h: Hash, s: State): (d: seq<Byte>)
    ensures |d| == 16
  {
    [h.byte(s.a, 0), h.byte(s.a, 1), h.byte(s.a, 2), h.byte(s.a, 3),
     h.byte(s.b, 0), h.byte(s.b, 1), h.byte(s.b, 2), h.byte(s.b, 3),
     h.byte(s.c, 0), h.byte(s.c, 1), h.byte(s.c, 2), h.byte(s.c, 3),
     h.byte(s.d, 0), h.byte(s.d, 1), h.byte(s.d, 2), h.byte(s.d, 3)]
  }

  /** What is left of a number in 64 bits. */
  function Wrap64(x: nat): (r: nat)
    ensures r < TWO_TO_THE_64 && r <= x
  {
    if x < TWO_TO_THE_64 then x else Wrap64(x - TWO_TO_THE_64)
  }

  /** The bit count of a message, modulo 2^64. */
  ghost function BitCount(m: seq<Byte>): (bits: nat) {
    Wrap64(8 * |m|)
  }

  /** What md5_loop makes of its counter: the product has 32 bits, the sum 64. */
  function AddCount(n: nat, len: nat): (r: nat)
    ensures r < TWO_TO_THE_64
  {
    Wrap64(n + 8 * len % TWO_TO_THE_32)
  }

  /** The digest with a given bit count in the padding. */
  ghost function DigestOf(h: Hash, m: seq<Byte>, bits: nat): (d: seq<Byte>)
    ensures |d| == 16
  {
    var padded := m + Padding(h, |m|, bits);
    StateBytes(h, Chain(h, padded, FullBlocks(|padded|)))
  }

  ghost function Digest(h: Hash, m: seq<Byte>): (d: seq<Byte>)
    ensures |d| == 16
  {
    DigestOf(h, m, BitCount(m))
  }

  /** The key that HMAC works with: hashed if longer than a block, then filled with zeros. */
  ghost function BlockKey(h: Hash, key: seq<Byte>): (k: seq<Byte>)
    ensures |k| == 64
  {
    var k := if |key| > 64 then Digest(h, key) else key;
    k + Zeros(64 - |k|)
  }

  /** The same with the counter as md5_loop keeps it. */
  ghost function BlockKeyCounted(h: Hash, key: seq<Byte>): (k: seq<Byte>)
    ensures |k| == 64
  {
    var k := if |key| > 64 then DigestOf(h, key, AddCount(0, |key|)) else key;
    k + Zeros(64 - |k|)
  }

  ghost function XorAll(k: seq<Byte>, b: Byte): (x: seq<Byte>)
    ensures |x| == |k|
  {
    seq(|k|, i requires 0 <= i < |k| => k[i] ^ b)
  }

  ghost function Hmac(h: Hash, key: seq<Byte>, text: seq<Byte>): (d: seq<Byte>)
    ensures |d| == 16
  {
    var k := BlockKey(h, key);
    Digest(h, XorAll(k, 0x5c) + Digest(h, XorAll(k, 0x36) + text))
  }

  /** HMAC with the counter as md5_loop keeps it. */
  ghost function HmacCounted(h: Hash, key: seq<Byte>, text: seq<Byte>): (d: seq<Byte>)
    ensures |d| == 16
  {
    var k := BlockKeyCounted(h, key);
    var inner := DigestOf(h, XorAll(k, 0x36) + text, AddCount(AddCount(0, 64), |text|));
    Digest(h, XorAll(k, 0x5c) + inner)
  }

  /** That is HMAC as long as key and text are shorter than 2^29 bytes. */
  lemma HmacExact(h: Hash, key: seq<Byte>, text: seq<Byte>)
    requires |key| < COUNT_LIMIT && |text| < COUNT_LIMIT
    ensures HmacCounted(h, key, text) == Hmac(h, key, text)
  {
    hide AddCount, DigestOf, BitCount;
    assert BitCount([]) == 0 by { NoBits(); }
    CountAdds(0, [], key);
    assert [] + key == key;
    var pad := XorAll(BlockKey(h, key), 0x36);
    CountAdds(0, [], pad);
    assert [] + pad == pad;
    CountAdds(AddCount(0, 64), pad, text);
  }

  lemma NoBits()
    ensures BitCount([]) == 0
  {
  }

  // ---------------------------------------------------------------------------
  // Facts about blocks and counts
  // ---------------------------------------------------------------------------

  /** What follows the first n blocks does not matter to them. */
  lemma {:induction false} ChainPrefix(h: Hash, m: seq<Byte>, more: seq<Byte>, n: nat)
    requires 64 * n <= |m|
    ensures Chain(h, m + more, n) == Chain(h, m, n)
  {
    if n > 0 {
      ChainPrefix(h, m, more, n - 1);
      assert (m + more)[64 * n - 64..64 * n] == m[64 * n - 64..64 * n];
    }
  }

  lemma ChainNext(h: Hash, m: seq<Byte>, k: nat)
    requires 64 * k + 64 <= |m|
    ensures Chain(h, m, k + 1) == h.compress(Chain(h, m, k), m[64 * k..64 * k + 64])
  {
  }

  /** A block that begins in `msg` and ends in the input. */
  lemma BlockAcross(msg: seq<Byte>, input: seq<Byte>, n: nat)
    requires 64 * n <= |msg| <= 64 * n + 64 <= |msg| + |input|
    ensures (msg + input)[64 * n..64 * n + 64] == msg[64 * n..] + input[..64 * n + 64 - |msg|]
  {
  }

  /** A block that lies in the input, which follows `msg`. */
  lemma ChainBlock(h: Hash, msg: seq<Byte>, input: seq<Byte>, j: nat, k: nat)
    requires |msg| + j == 64 * k && j + 64 <= |input|
    ensures Chain(h, msg + input, k + 1) == h.compress(Chain(h, msg + input, k), input[j..j + 64])
  {
    assert input[j..j + 64] == (msg + input)[64 * k..64 * k + 64];
  }

  /** The 32-bit product that md5_loop adds to its counter is the bit count of the piece
      exactly when the piece is shorter than 2^29 bytes. */
  lemma CountExact(len: nat)
    ensures 8 * len % TWO_TO_THE_32 == 8 * len <==> len < COUNT_LIMIT
  {
  }

  /** Hence the counter stays right exactly as long as every piece is that short. */
  lemma CountAdds(n: nat, m: seq<Byte>, input: seq<Byte>)
    requires n == BitCount(m) && |input| < TWO_TO_THE_32
    ensures AddCount(n, |input|) == BitCount(m + input) <==> |input| < COUNT_LIMIT
  {
    CountExact(|input|);
    WrapAdds(8 * |m|, 8 * |input|);
    if |input| >= COUNT_LIMIT {
      WrapDiffers(n, 8 * |input| % TWO_TO_THE_32, 8 * |input|);
    }
  }

  /** Addition in a `uint`. */
  function Wrap32(x: nat): nat
    requires x < 2 * TWO_TO_THE_32
  {
    if x < TWO_TO_THE_32 then x else x - TWO_TO_THE_32
  }

  /** The loop counter of md5_loop stays within 32 bits while `len` bytes follow `done`. */
  predicate LoopFits(done: nat, len: nat) {
    64 * FullBlocks(done + len) + MD5_BUFLEN - done < TWO_TO_THE_32
  }

  /** After the last full block the guard of the loop fails exactly if its counter fits; else
      the loop goes on past the end of the input. */
  lemma LoopStopsIff(done: nat, len: nat)
    requires len < TWO_TO_THE_32 && FullBlocks(done) < FullBlocks(done + len)
    ensures var j := 64 * FullBlocks(done + len) - done;
      0 <= j <= len < j + MD5_BUFLEN && (Wrap32(j + MD5_BUFLEN) > len <==> LoopFits(done, len))
  {
    hide FullBlocks;
  }

  /** It always fits up to 2^32 - 65 bytes, for longer inputs depending on what is buffered. */
  lemma LoopFitsShort(done: nat, len: nat)
    requires len <= TWO_TO_THE_32 - MD5_BUFLEN - 1
    ensures LoopFits(done, len)
  {
    hide FullBlocks;
  }

  lemma {:induction false} WrapAdds(x: nat, y: nat)
    ensures Wrap64(Wrap64(x) + y) == Wrap64(x + y)
  {
    if x >= TWO_TO_THE_64 {
      WrapAdds(x - TWO_TO_THE_64, y);
    }
  }

  lemma WrapDiffers(n: nat, x: nat, y: nat)
    requires n < TWO_TO_THE_64 && x != y && x < TWO_TO_THE_64 && y < TWO_TO_THE_64
    ensures Wrap64(n + x) != Wrap64(n + y)
  {
  }

  /** Padding that fits into the block of the last i bytes. */
  lemma PadShort(h: Hash, msg: seq<Byte>, bits: nat, i: nat)
    requires i == |msg| - 64 * FullBlocks(|msg|) && i < 56
    ensures var all, k := msg + Padding(h, |msg|, bits), FullBlocks(|msg|);
      && FullBlocks(|all|) == k + 1 && |all| == 64 * k + 64
      && all[64 * k..64 * k + 64] == msg[|msg| - i..] + PADDAT[..56 - i] + CountBytes(h, bits)
  {
    hide FullBlocks;
    var all := msg + Padding(h, |msg|, bits);
    assert PADDAT[..56 - i] == [0x80] + Zeros(55 - i);
    assert all == msg[..|msg| - i] + (msg[|msg| - i..] + PADDAT[..56 - i] + CountBytes(h, bits));
  }

  /** Padding that needs another block. */
  lemma PadLong(h: Hash, msg: seq<Byte>, bits: nat, i: nat)
    requires i == |msg| - 64 * FullBlocks(|msg|) && i >= 56
    ensures var all, k, gap := msg + Padding(h, |msg|, bits), FullBlocks(|msg|), 64 - i;
      && FullBlocks(|all|) == k + 2 && |all| == 64 * k + 128
      && all[64 * k..64 * k + 64] == msg[|msg| - i..] + PADDAT[..gap]
      && all[64 * k + 64..64 * k + 128] == PADDAT[gap..gap + 56] + CountBytes(h, bits)
  {
    hide FullBlocks;
    var all, k, gap := msg + Padding(h, |msg|, bits), FullBlocks(|msg|), 64 - i;
    assert PADDAT[..gap] == [0x80] + Zeros(gap - 1) && PADDAT[gap..gap + 56] == Zeros(56);
    assert Zeros(ZerosNeeded(|msg|)) == Zeros(gap - 1) + Zeros(56);
    assert all == msg[..|msg| - i] + (msg[|msg| - i..] + PADDAT[..gap]) + (PADDAT[gap..gap + 56] + CountBytes(h, bits));
  }

  // ---------------------------------------------------------------------------
  // The context
  // ---------------------------------------------------------------------------

  const PADDAT: seq<Byte> := [0x80] + Zeros(63)

  method Memcpy(dst: array<Byte>, at: nat, src: seq<Byte>)
    requires at + |src| <= dst.Length
    modifies dst
    ensures dst[..] == old(dst[..at]) + src + old(dst[at + |src|..])
  {
    forall k | 0 <= k < |src| {
      dst[at + k] := src[k];
    }
  }

  /** md5_n8: the counter as it lies in memory. */
  function CountInMemory(ar: Arithmetic, order: ByteOrder, n: nat): (m: seq<Byte>)
    ensures |m| == 8
  {
    seq(8, k requires 0 <= k < 8 => if order.LittleEndian? then ar.countByte(n, k) else ar.countByte(n, 7 - k))
  }

  /** md5_st8: the chaining variables as they lie in memory. */
  function StateInMemory(ar: Arithmetic, order: ByteOrder, s: State): (m: seq<Byte>)
    ensures |m| == 16
  {
    [Stored(ar, order, s.a, 0), Stored(ar, order, s.a, 1), Stored(ar, order, s.a, 2), Stored(ar, order, s.a, 3),
     Stored(ar, order, s.b, 0), Stored(ar, order, s.b, 1), Stored(ar, order, s.b, 2), Stored(ar, order, s.b, 3),
     Stored(ar, order, s.c, 0), Stored(ar, order, s.c, 1), Stored(ar, order, s.c, 2), Stored(ar, order, s.c, 3),
     Stored(ar, order, s.d, 0), Stored(ar, order, s.d, 1), Stored(ar, order, s.d, 2), Stored(ar, order, s.d, 3)]
  }

  /** md5_ctxt. */
  class Md5Ctxt {
    const ar: Arithmetic
    const order: ByteOrder
    ghost const h: Hash
    const buf: array<Byte>
    var n: nat      // md5_n, 64 bits
    var i: nat      // md5_i
    var st: State   // md5_sta .. md5_std

    constructor (ar: Arithmetic, order: ByteOrder, ghost h: Hash)
      requires Computes(h, ar)
      ensures this.h == h && Valid() && fresh(buf)
    {
      this.ar, this.order, this.h := ar, order, h;
      buf := new Byte[MD5_BUFLEN];
      n, i, st := 0, 0, INITIAL;
    }

    ghost predicate Valid()
      reads this
    {
      Computes(h, ar) && buf.Length == MD5_BUFLEN && i < MD5_BUFLEN && n < TWO_TO_THE_64
    }

    /** The context has taken in the message `msg`: the full blocks are in the chaining
        variables, the rest lies in the buffer. */
    ghost predicate Absorbed(msg: seq<Byte>)
      reads this, buf
    {
      && Valid() && i == |msg| - 64 * FullBlocks(|msg|)
      && buf[..i] == msg[|msg| - i..]
      && st == Chain(h, msg, FullBlocks(|msg|))
    }

    /** md5_init. */
    method Init()
      requires Valid()
      modifies this, buf
      ensures Absorbed([]) && n == 0
    {
      n, i, st := 0, 0, INITIAL;
      Memcpy(buf, 0, Zeros(MD5_BUFLEN));
    }

    /** The call of md5_calc on one block. */
    method CalcBlock(b64: seq<Byte>)
      requires Valid() && |b64| == 64
      modifies this`st
      ensures st == h.compress(old(st), b64)
    {
      st := Calc(ar, order, st, b64);
    }

    /** md5_loop, for every length whose loop ends. The bit counter stays right exactly if the
        length is below 2^29. */
    method Loop(input: array<Byte>, len: nat, ghost msg: seq<Byte>)
      requires Absorbed(msg) && input != buf && len <= input.Length && len < TWO_TO_THE_32
      requires LoopFits(|msg|, len)
      modifies this, buf
      ensures Absorbed(msg + input[..len]) && n == AddCount(old(n), len)
      ensures old(n) == BitCount(msg) ==> (n == BitCount(msg + input[..len]) <==> len < COUNT_LIMIT)
    {
      hide Chain, Computes, Wrap64, FullBlocks;
      Count(len, msg, input[..len]);
      var gap := MD5_BUFLEN - i;
      if len >= gap {
        FillBlock(input, len, gap, msg);
        var j := Blocks(input, len, gap, msg, FullBlocks(|msg|) + 1);
        Keep(input, len, j, msg);
      } else {
        Append(input, len, msg);
      }
    }

    /** md5_n += len * 8. */
    method Count(len: nat, ghost msg: seq<Byte>, ghost data: seq<Byte>)
      requires Valid() && len == |data| < TWO_TO_THE_32
      modifies this`n
      ensures Valid() && n == AddCount(old(n), len)
      ensures old(n) == BitCount(msg) ==> (n == BitCount(msg + data) <==> len < COUNT_LIMIT)
    {
      hide BitCount, AddCount;
      if n == BitCount(msg) {
        CountAdds(n, msg, data);
      }
      n := AddCount(n, len);
    }

    /** The input does not fill the buffer. */
    method Append(input: array<Byte>, len: nat, ghost msg: seq<Byte>)
      requires Absorbed(msg) && input != buf && len <= input.Length && i + len < MD5_BUFLEN
      modifies this`i, buf
      ensures Absorbed(msg + input[..len])
    {
      hide Chain, Computes, Zeros, FullBlocks;
      ghost var all, start := msg + input[..len], |msg| - i;
      ChainPrefix(h, msg, input[..len], FullBlocks(|msg|));
      Memcpy(buf, i, input[..len]);
      i := i + len;
      assert buf[..i] == all[start..];
    }

    /** The head of the input fills the buffer to a block. */
    method FillBlock(input: array<Byte>, len: nat, gap: nat, ghost msg: seq<Byte>)
      requires Absorbed(msg) && input != buf && gap == MD5_BUFLEN - i && gap <= len <= input.Length
      modifies this`st, buf
      ensures Valid() && |msg| + gap == 64 * (FullBlocks(|msg|) + 1)
      ensures st == Chain(h, msg + input[..len], FullBlocks(|msg|) + 1)
    {
      hide Chain, Computes, Zeros, FullBlocks;
      ghost var n, data := FullBlocks(|msg|), input[..len];
      ChainPrefix(h, msg, data, n);
      Memcpy(buf, i, input[..gap]);
      assert buf[..] == msg[|msg| - i..] + data[..gap];
      BlockAcross(msg, data, n);
      ChainNext(h, msg + data, n);
      CalcBlock(buf[..]);
    }

    /** The loop of md5_loop: the full blocks are taken straight from the input. */
    method Blocks(input: array<Byte>, len: nat, gap: nat, ghost msg: seq<Byte>, ghost n: nat) returns (j: nat)
      requires Valid() && gap <= len <= input.Length && len < TWO_TO_THE_32 && LoopFits(|msg|, len)
      requires |msg| + gap == 64 * n && st == Chain(h, msg + input[..len], n)
      modifies this`st
      ensures gap <= j <= len < j + 64 && |msg| + j == 64 * FullBlocks(|msg| + len)
      ensures st == Chain(h, msg + input[..len], FullBlocks(|msg| + len))
    {
      hide Chain, Computes, FullBlocks;
      ghost var k, data := n, input[..len];
      j := gap;
      while Wrap32(j + MD5_BUFLEN) <= len
        invariant Valid() && gap <= j <= len && |msg| + j == 64 * k
        invariant st == Chain(h, msg + data, k)
      {
        ChainBlock(h, msg, data, j, k);
        assert input[j..j + MD5_BUFLEN] == data[j..j + MD5_BUFLEN];
        CalcBlock(input[j..j + MD5_BUFLEN]);
        j := j + MD5_BUFLEN;
        k := k + 1;
      }
    }

    /** The rest of the input goes to the buffer. */
    method Keep(input: array<Byte>, len: nat, j: nat, ghost msg: seq<Byte>)
      requires Valid() && input != buf && j <= len < j + 64 && len <= input.Length
      requires |msg| + j == 64 * FullBlocks(|msg| + len)
      requires st == Chain(h, msg + input[..len], FullBlocks(|msg| + len))
      modifies this`i, buf
      ensures Absorbed(msg + input[..len])
    {
      hide Chain, Computes, FullBlocks;
      ghost var all := msg + input[..len];
      i := len - j;
      Memcpy(buf, 0, input[j..len]);
      assert |all| - i == |msg| + j && buf[..i] == all[|msg| + j..];
    }

    /** md5_pad: both ways of padding append exactly what RFC 1321 asks for. */
    method Pad(ghost msg: seq<Byte>)
      requires Absorbed(msg)
      modifies this, buf
      ensures Valid() && n == old(n)
      ensures var padded := msg + Padding(h, |msg|, n); st == Chain(h, padded, FullBlocks(|padded|))
    {
      var gap := MD5_BUFLEN - i;
      if gap > 8 {
        PadHere(gap, msg);
      } else {
        PadOn(gap, msg);
      }
    }

    /** The padding fits into the buffer. */
    method PadHere(gap: nat, ghost msg: seq<Byte>)
      requires Absorbed(msg) && 8 < gap == MD5_BUFLEN - i
      modifies this`st, buf
      ensures Valid()
      ensures var padded := msg + Padding(h, |msg|, n); st == Chain(h, padded, FullBlocks(|padded|))
    {
      hide Chain, Computes, Zeros, Padding, CountBytes, FullBlocks;
      ghost var p, k := Padding(h, |msg|, n), FullBlocks(|msg|);
      PadShort(h, msg, n, i);
      ChainPrefix(h, msg, p, k);
      Memcpy(buf, i, PADDAT[..gap - 8]);
      CopyCount();
      assert buf[..] == msg[|msg| - i..] + PADDAT[..gap - 8] + CountBytes(h, n);
      ChainNext(h, msg + p, k);
      CalcBlock(buf[..]);
    }

    /** The padding takes up another block. */
    method PadOn(gap: nat, ghost msg: seq<Byte>)
      requires Absorbed(msg) && gap == MD5_BUFLEN - i && gap <= 8
      modifies this`st, buf
      ensures Valid()
      ensures var padded := msg + Padding(h, |msg|, n); st == Chain(h, padded, FullBlocks(|padded|))
    {
      hide Chain, Computes, Padding, CountBytes, FullBlocks;
      ghost var p, k := Padding(h, |msg|, n), FullBlocks(|msg|);
      PadLong(h, msg, n, i);
      ChainPrefix(h, msg, p, k);
      PadBlock(gap, msg[|msg| - i..]);
      ChainNext(h, msg + p, k);
      PadLast(gap);
      ChainNext(h, msg + p, k + 1);
    }

    /** The buffer is filled up with the head of the padding. */
    method PadBlock(gap: nat, ghost tail: seq<Byte>)
      requires Valid() && gap == MD5_BUFLEN - i && buf[..i] == tail
      modifies this`st, buf
      ensures Valid() && st == h.compress(old(st), tail + PADDAT[..gap])
    {
      hide Computes;
      Memcpy(buf, i, PADDAT[..gap]);
      assert buf[..] == tail + PADDAT[..gap];
      CalcBlock(buf[..]);
    }

    /** The rest of the padding and the counter make up the last block. */
    method PadLast(gap: nat)
      requires Valid() && 0 < gap <= 8
      modifies this`st, buf
      ensures Valid() && st == h.compress(old(st), PADDAT[gap..gap + 56] + CountBytes(h, n))
    {
      hide Computes, CountBytes;
      Memcpy(buf, 0, PADDAT[gap..gap + MD5_BUFLEN - 8]);
      CopyCount();
      assert buf[..] == PADDAT[gap..gap + 56] + CountBytes(h, n);
      CalcBlock(buf[..]);
    }

    /** The end of md5_pad: the counter goes to the last eight bytes of the buffer. */
    method CopyCount()
      requires Valid()
      modifies buf
      ensures buf[..] == old(buf[..56]) + CountBytes(h, n)
    {
      var n8 := CountInMemory(ar, order, n);
      if order.LittleEndian? {
        Memcpy(buf, 56, n8);
      } else {
        Memcpy(buf, 56, [n8[7], n8[6], n8[5], n8[4], n8[3], n8[2], n8[1], n8[0]]);
      }
    }

    /** md5_result. */
    method Result(digest: array<Byte>)
      requires Valid() && digest.Length >= 16
      modifies digest
      ensures digest[..] == StateBytes(h, st) + old(digest[16..])
    {
      var st8 := StateInMemory(ar, order, st);
      if order.LittleEndian? {
        Memcpy(digest, 0, st8);
      } else {
        Memcpy(digest, 0, [st8[3], st8[2], st8[1], st8[0], st8[7], st8[6], st8[5], st8[4],
                           st8[11], st8[10], st8[9], st8[8], st8[15], st8[14], st8[13], st8[12]]);
      }
    }

    /** MD5Final. */
    method Final(digest: array<Byte>, ghost msg: seq<Byte>)
      requires Absorbed(msg) && digest.Length >= 16 && digest != buf
      modifies this, buf, digest
      ensures Valid() && digest[..] == DigestOf(h, msg, old(n)) + old(digest[16..])
    {
      hide Chain, Computes, Padding, StateBytes, FullBlocks;
      Pad(msg);
      Result(digest);
    }
  }

  /** A message split into the pieces it arrives in. */
  ghost function Concat(parts: seq<seq<Byte>>): seq<Byte> {
    if |parts| == 0 then [] else Concat(parts[..|parts| - 1]) + parts[|parts| - 1]
  }

  /** What the pieces hold. */
  ghost function Parts(pieces: seq<array<Byte>>): (parts: seq<seq<Byte>>)
    reads pieces
    ensures |parts| == |pieces| && forall k | 0 <= k < |pieces| :: parts[k] == pieces[k][..]
  {
    seq(|pieces|, k requires 0 <= k < |pieces| reads pieces => pieces[k][..])
  }

  lemma ConcatStart(parts: seq<seq<Byte>>)
    ensures Concat(parts[..0]) == [] && BitCount([]) == 0
  {
  }

  lemma ConcatNext(parts: seq<seq<Byte>>, k: nat)
    requires k < |parts|
    ensures Concat(parts[..k + 1]) == Concat(parts[..k]) + parts[k]
  {
    assert parts[..k + 1][..k] == parts[..k];
  }

  /** However a message is split into pieces of less than 2^29 bytes, and whatever the byte
      order of the processor, the streamed digest is the one-shot digest of the whole. A piece
      may even be the array that the digest is written to. */
  method Md5Pieces(ar: Arithmetic, order: ByteOrder, ghost h: Hash, pieces: seq<array<Byte>>, digest: array<Byte>)
    requires Computes(h, ar) && digest.Length >= 16
    requires forall k | 0 <= k < |pieces| :: pieces[k].Length < COUNT_LIMIT
    modifies digest
    ensures digest[..] == old(Digest(h, Concat(Parts(pieces))) + digest[16..])
  {
    hide Wrap64, Chain, FullBlocks, Concat, BitCount, Computes, DigestOf, Parts, Md5Ctxt.Absorbed;
    ghost var parts := Parts(pieces);
    ConcatStart(parts);
    var ctxt := new Md5Ctxt(ar, order, h);
    ctxt.Init();
    for k := 0 to |pieces|
      invariant fresh(ctxt) && fresh(ctxt.buf) && ctxt.h == h && digest[..] == old(digest[..])
      invariant forall q | 0 <= q < |pieces| :: pieces[q][..] == parts[q]
      invariant ctxt.Absorbed(Concat(parts[..k])) && ctxt.n == BitCount(Concat(parts[..k]))
    {
      ConcatNext(parts, k);
      Update(ctxt, pieces[k], Concat(parts[..k]));
    }
    assert parts[..|pieces|] == parts;
    ctxt.Final(digest, Concat(parts));
  }

  /** One piece of a message. */
  method Update(ctxt: Md5Ctxt, piece: array<Byte>, ghost msg: seq<Byte>)
    requires ctxt.Absorbed(msg) && ctxt.n == BitCount(msg) && piece != ctxt.buf && piece.Length < COUNT_LIMIT
    modifies ctxt, ctxt.buf
    ensures ctxt.Absorbed(msg + piece[..]) && ctxt.n == BitCount(msg + piece[..])
  {
    hide Chain, FullBlocks, Computes, BitCount, AddCount, Md5Ctxt.Absorbed;
    LoopFitsShort(|msg|, piece.Length);
    assert piece[..piece.Length] == piece[..];
    ctxt.Loop(piece, piece.Length, msg);
  }

  /** One piece: MD5Init, MD5Update, MD5Final. */
  method HashOne(ctxt: Md5Ctxt, x: array<Byte>, len: nat, digest: array<Byte>)
    requires ctxt.Valid() && digest.Length >= 16 && digest != ctxt.buf && x != ctxt.buf
    requires len <= x.Length && len <= TWO_TO_THE_32 - MD5_BUFLEN - 1
    modifies ctxt, ctxt.buf, digest
    ensures digest[..] == old(DigestOf(ctxt.h, x[..len], AddCount(0, len)) + digest[16..])
  {
    hide Chain, FullBlocks, Computes, DigestOf, Md5Ctxt.Absorbed;
    ctxt.Init();
    assert [] + x[..len] == x[..len];
    LoopFitsShort(0, len);
    ctxt.Loop(x, len, []);
    ctxt.Final(digest, x[..len]);
  }

  /** Two pieces, as hmac_md5 feeds them: MD5Init, MD5Update twice, MD5Final. The second piece
      may be the array that the digest is written to. */
  method HashPair(ctxt: Md5Ctxt, x: array<Byte>, xlen: nat, y: array<Byte>, ylen: nat, digest: array<Byte>)
    requires ctxt.Valid() && digest.Length >= 16 && digest != ctxt.buf && x != ctxt.buf && y != ctxt.buf
    requires xlen <= x.Length && xlen <= TWO_TO_THE_32 - MD5_BUFLEN - 1
    requires ylen <= y.Length && ylen <= TWO_TO_THE_32 - MD5_BUFLEN - 1
    modifies ctxt, ctxt.buf, digest
    ensures ctxt.Valid()
    ensures digest[..] ==
            old(DigestOf(ctxt.h, x[..xlen] + y[..ylen], AddCount(AddCount(0, xlen), ylen)) + digest[16..])
  {
    hide Chain, FullBlocks, Computes, DigestOf, AddCount, Md5Ctxt.Absorbed;
    ghost var first, second := x[..xlen], y[..ylen];
    ctxt.Init();
    assert [] + first == first;
    LoopFitsShort(0, xlen);
    ctxt.Loop(x, xlen, []);
    LoopFitsShort(xlen, ylen);
    ctxt.Loop(y, ylen, first);
    ctxt.Final(digest, first + second);
  }

  /** The key hmac_md5 goes on with: one longer than a block is hashed first. */
  method ShortKey(ar: Arithmetic, order: ByteOrder, ghost h: Hash, key: array<Byte>, keyLen: nat)
    returns (k: array<Byte>, len: nat)
    requires Computes(h, ar) && keyLen <= key.Length && keyLen <= TWO_TO_THE_32 - MD5_BUFLEN - 1
    ensures len <= 64 && len <= k.Length && (k == key || fresh(k))
    ensures k[..len] + Zeros(64 - len) == BlockKeyCounted(h, key[..keyLen])
  {
    k, len := key, keyLen;
    if keyLen > 64 {
      k, len := new Byte[16], 16;
      var tctx := new Md5Ctxt(ar, order, h);
      HashOne(tctx, key, keyLen, k);
    }
  }

  /** bzero and bcopy of one pad. */
  method FillPad(pad: array<Byte>, k: array<Byte>, len: nat)
    requires pad.Length == 65 && len <= 64 && len <= k.Length && pad != k
    modifies pad
    ensures pad[..64] == k[..len] + Zeros(64 - len)
  {
    Memcpy(pad, 0, Zeros(65));
    ghost var zeros := pad[..];
    assert zeros == Zeros(65);
    Memcpy(pad, 0, k[..len]);
    assert pad[..] == k[..len] + zeros[len..];
  }

  /** The two pads: the key filled with zeros, then xored in place. */
  method Pads(k: array<Byte>, len: nat) returns (ipad: array<Byte>, opad: array<Byte>)
    requires len <= 64 && len <= k.Length
    ensures fresh(ipad) && fresh(opad) && ipad.Length == opad.Length == 65
    ensures ipad[..64] == XorAll(k[..len] + Zeros(64 - len), 0x36)
    ensures opad[..64] == XorAll(k[..len] + Zeros(64 - len), 0x5c)
  {
    ghost var full := k[..len] + Zeros(64 - len);
    ipad, opad := new Byte[65], new Byte[65];
    FillPad(ipad, k, len);
    FillPad(opad, k, len);
    XorPads(ipad, opad, full);
  }

  /** The loop that xors both pads. */
  method XorPads(ipad: array<Byte>, opad: array<Byte>, ghost full: seq<Byte>)
    requires ipad.Length == opad.Length == 65 && ipad != opad && ipad[..64] == opad[..64] == full
    modifies ipad, opad
    ensures ipad[..64] == XorAll(full, 0x36) && opad[..64] == XorAll(full, 0x5c)
  {
    ghost var inner, outer := XorAll(full, 0x36), XorAll(full, 0x5c);
    assert forall j | 0 <= j < 64 :: full[j] == ipad[..64][j] && full[j] == opad[..64][j];
    for i := 0 to 64
      invariant forall j | i <= j < 64 :: ipad[j] == full[j] && opad[j] == full[j]
      invariant forall j | 0 <= j < i :: ipad[j] == inner[j] && opad[j] == outer[j]
    {
      ipad[i] := ipad[i] ^ 0x36;
      opad[i] := opad[i] ^ 0x5c;
    }
  }

  /** hmac_md5: for every key and text, whose lengths are ints, the digest is HMAC with the
      counter as md5_loop keeps it, and for less than 2^29 bytes the HMAC of RFC 2104. Text,
      key and digest may be the same array; the outer pass reads `digest` and then writes it. */
  method HmacMd5(ar: Arithmetic, order: ByteOrder, ghost h: Hash, text: array<Byte>, textLen: nat,
                 key: array<Byte>, keyLen: nat, digest: array<Byte>)
    requires Computes(h, ar) && digest.Length >= 16
    requires textLen <= text.Length && textLen < 0x8000_0000 && keyLen <= key.Length && keyLen < 0x8000_0000
    modifies digest
    ensures digest[..] == old(HmacCounted(h, key[..keyLen], text[..textLen]) + digest[16..])
    ensures textLen < COUNT_LIMIT && keyLen < COUNT_LIMIT ==>
      digest[..] == old(Hmac(h, key[..keyLen], text[..textLen]) + digest[16..])
  {
    hide Computes, DigestOf, Chain, FullBlocks, AddCount, BitCount;
    ghost var keyData, textData := key[..keyLen], text[..textLen];
    if textLen < COUNT_LIMIT && keyLen < COUNT_LIMIT {
      HmacExact(h, keyData, textData);
    }
    var k, len := ShortKey(ar, order, h, key, keyLen);
    var ipad, opad := Pads(k, len);
    var context := new Md5Ctxt(ar, order, h);
    HashPair(context, ipad, 64, text, textLen, digest);
    ghost var inner := digest[..16];
    ShortCount(opad[..64], inner);
    HashPair(context, opad, 64, digest, 16, digest);
  }

  /** The counter of the outer pass is right. */
  lemma ShortCount(x: seq<Byte>, y: seq<Byte>)
    requires |x| == 64 && |y| == 16
    ensures AddCount(AddCount(0, 64), 16) == BitCount(x + y)
  {
    hide AddCount, BitCount;
    NoBits();
    CountAdds(0, [], x);
    assert [] + x == x;
    CountAdds(AddCount(0, 64), x, y);
  }
}
