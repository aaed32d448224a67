/** The block function of MD5 (RFC 1321, section 3.4): sixty-four macro calls with rotating
    registers compute the sixty-four steps of an indexed loop.

    The word operations are held in a value of type `Arithmetic`. Everything below is
    proved for every such value; `RFC_1321` is the one the program is built with. */
module Md5Block {

  type Word = bv32
  type Byte = bv8

  /** The four chaining variables, or the registers A, B, C and D. */
  datatype State = State(a: Word, b: Word, c: Word, d: Word)

  /** The operations on words: addition, the auxiliary functions of the four rounds,
      rotation to the left, the sine table, and the order of bytes within a word and within
      the bit counter. */
  datatype Arithmetic = Arithmetic(
    add: (Word, Word) -> Word,
    f: (Word, Word, Word) -> Word,
    g: (Word, Word, Word) -> Word,
    h: (Word, Word, Word) -> Word,
    i: (Word, Word, Word) -> Word,
    rotl: (Word, bv5) -> Word,
    sine: seq<Word>,
    word: (Byte, Byte, Byte, Byte) -> Word,
    byte: (Word, nat) -> Byte,
    countByte: (nat, nat) -> Byte
  ) {
    predicate Valid() {
      |sine| == 65
    }

    /** The auxiliary function of a round. */
    function Aux(round: nat, x: Word, y: Word, z: Word): Word {
      match round
      case 1 => f(x, y, z)
      case 2 => g(x, y, z)
      case 3 => h(x, y, z)
      case _ => i(x, y, z)
    }
  }

  function Add(x: Word, y: Word): Word { x + y }

  function F(x: Word, y: Word, z: Word): Word { (x & y) | (!x & z) }

  function G(x: Word, y: Word, z: Word): Word { (x & z) | (y & !z) }

  function H(x: Word, y: Word, z: Word): Word { x ^ y ^ z }

  function I(x: Word, y: Word, z: Word): Word { y ^ (x | !z) }

  /** SHIFT. */
  function Rotl(x: Word, s: bv5): Word { (x << s) | (x >> (32 - s as int)) }

  function WordOf(b0: Byte, b1: Byte, b2: Byte, b3: Byte): Word {
    b0 as Word | (b1 as Word << 8) | (b2 as Word << 16) | (b3 as Word << 24)
  }

  function ByteOf(w: Word, k: nat): Byte {
    if k == 0 then (w & 0xff) as Byte
    else if k == 1 then ((w >> 8) & 0xff) as Byte
    else if k == 2 then ((w >> 16) & 0xff) as Byte
    else (w >> 24) as Byte
  }

  /** Byte k of the counter, byte 0 being the low-order one. */
  function CountByte(n: nat, k: nat): Byte {
    if k == 0 then (n % 256) as Byte else CountByte(n / 256, k - 1)
  }

  const RFC_1321: Arithmetic := Arithmetic(Add, F, G, H, I, Rotl, SINE, WordOf, ByteOf, CountByte)

  /** T[i] is the integer part of 2^32 * |sin(i)|. */
  const SINE: seq<Word> := [
    0,
    0xd76aa478, 0xe8c7b756, 0x242070db, 0xc1bdceee,
    0xf57c0faf, 0x4787c62a, 0xa8304613, 0xfd469501,
    0x698098d8, 0x8b44f7af, 0xffff5bb1, 0x895cd7be,
    0x6b901122, 0xfd987193, 0xa679438e, 0x49b40821,
    0xf61e2562, 0xc040b340, 0x265e5a51, 0xe9b6c7aa,
    0xd62f105d, 0x02441453, 0xd8a1e681, 0xe7d3fbc8,
    0x21e1cde6, 0xc33707d6, 0xf4d50d87, 0x455a14ed,
    0xa9e3e905, 0xfcefa3f8, 0x676f02d9, 0x8d2a4c8a,
    0xfffa3942, 0x8771f681, 0x6d9d6122, 0xfde5380c,
    0xa4beea44, 0x4bdecfa9, 0xf6bb4b60, 0xbebfbc70,
    0x289b7ec6, 0xeaa127fa, 0xd4ef3085, 0x04881d05,
    0xd9d4d039, 0xe6db99e5, 0x1fa27cf8, 0xc4ac5665,
    0xf4292244, 0x432aff97, 0xab9423a7, 0xfc93a039,
    0x655b59c3, 0x8f0ccc92, 0xffeff47d, 0x85845dd1,
    0x6fa87e4f, 0xfe2ce6e0, 0xa3014314, 0x4e0811a1,
    0xf7537e82, 0xbd3af235, 0x2ad7d2bb, 0xeb86d391
  ]

  // ---------------------------------------------------------------------------
  // The indexed loop
  // ---------------------------------------------------------------------------

  /** What one step uses besides the registers: the auxiliary function of its round, the
      word of the block, and the distance of the rotation. */
  datatype Row = Row(round: nat, k: nat, s: bv5)

  /** The word of the block that step j uses. */
  function Index(j: nat): nat {
    if j < 16 then j else if j < 32 then (5 * j + 1) % 16 else if j < 48 then (3 * j + 5) % 16 else 7 * j % 16
  }

  /** The distance by which step j rotates. */
  function Shift(j: nat): bv5 {
    var q := j % 4;
    if j < 16 then (if q == 0 then 7 else if q == 1 then 12 else if q == 2 then 17 else 22)
    else if j < 32 then (if q == 0 then 5 else if q == 1 then 9 else if q == 2 then 14 else 20)
    else if j < 48 then (if q == 0 then 4 else if q == 1 then 11 else if q == 2 then 16 else 23)
    else (if q == 0 then 6 else if q == 1 then 10 else if q == 2 then 15 else 21)
  }

  ghost function Schedule(): (rows: seq<Row>)
    ensures |rows| == 64
  {
    seq(64, j requires 0 <= j => Row(j / 16 + 1, Index(j), Shift(j)))
  }

  ghost predicate Sized(ar: Arithmetic, x: seq<Word>, rows: seq<Row>) {
    ar.Valid() && |x| == 16 && |rows| == 64 && forall j | 0 <= j < 64 :: rows[j].k < 16
  }

  /** Step n of the loop (n = 1..64): the registers move up by one, and the new B is mixed
      from all four. */
  ghost function Step(ar: Arithmetic, s: State, x: seq<Word>, row: Row, n: nat): State
    requires ar.Valid() && |x| == 16 && row.k < 16 && 1 <= n <= 64
  {
    var sum := ar.add(ar.add(ar.add(s.a, ar.Aux(row.round, s.b, s.c, s.d)), x[row.k]), ar.sine[n]);
    State(s.d, ar.add(s.b, ar.rotl(sum, row.s)), s.b, s.c)
  }

  /** The first n steps. */
  ghost function Steps(ar: Arithmetic, s: State, x: seq<Word>, rows: seq<Row>, n: nat): State
    requires Sized(ar, x, rows) && n <= 64
  {
    if n == 0 then s else Step(ar, Steps(ar, s, x, rows, n - 1), x, rows[n - 1], n)
  }

  ghost function AddStates(ar: Arithmetic, s: State, t: State): State {
    State(ar.add(s.a, t.a), ar.add(s.b, t.b), ar.add(s.c, t.c), ar.add(s.d, t.d))
  }

  /** The sixteen words of a block, low-order byte first (section 2 of RFC 1321). */
  ghost function BlockWords(ar: Arithmetic, block: seq<Byte>): (x: seq<Word>)
    requires |block| == 64
    ensures |x| == 16
  {
    seq(16, k requires 0 <= k < 16 => ar.word(block[4 * k], block[4 * k + 1], block[4 * k + 2], block[4 * k + 3]))
  }

  /** The compression function. */
  ghost function Compress(ar: Arithmetic, s: State, block: seq<Byte>): State
    requires ar.Valid() && |block| == 64
  {
    ScheduleSized();
    AddStates(ar, s, Steps(ar, s, BlockWords(ar, block), Schedule(), 64))
  }

  // ---------------------------------------------------------------------------
  // The macro calls
  // ---------------------------------------------------------------------------

  /** Rows j to j + 3 of a round whose first step is one of them. */
  ghost predicate Four(rows: seq<Row>, j: nat, round: nat, k0: nat, k1: nat, k2: nat, k3: nat,
                       s0: bv5, s1: bv5, s2: bv5, s3: bv5)
    requires j + 4 <= |rows|
  {
    && rows[j] == Row(round, k0, s0) && rows[j + 1] == Row(round, k1, s1)
    && rows[j + 2] == Row(round, k2, s2) && rows[j + 3] == Row(round, k3, s3)
  }

  ghost predicate Rows1(rows: seq<Row>)
    requires |rows| == 64
  {
    && Four(rows, 0, 1, 0, 1, 2, 3, 7, 12, 17, 22)
    && Four(rows, 4, 1, 4, 5, 6, 7, 7, 12, 17, 22)
    && Four(rows, 8, 1, 8, 9, 10, 11, 7, 12, 17, 22)
    && Four(rows, 12, 1, 12, 13, 14, 15, 7, 12, 17, 22)
  }

  ghost predicate Rows2(rows: seq<Row>)
    requires |rows| == 64
  {
    && Four(rows, 16, 2, 1, 6, 11, 0, 5, 9, 14, 20)
    && Four(rows, 20, 2, 5, 10, 15, 4, 5, 9, 14, 20)
    && Four(rows, 24, 2, 9, 14, 3, 8, 5, 9, 14, 20)
    && Four(rows, 28, 2, 13, 2, 7, 12, 5, 9, 14, 20)
  }

  ghost predicate Rows3(rows: seq<Row>)
    requires |rows| == 64
  {
    && Four(rows, 32, 3, 5, 8, 11, 14, 4, 11, 16, 23)
    && Four(rows, 36, 3, 1, 4, 7, 10, 4, 11, 16, 23)
    && Four(rows, 40, 3, 13, 0, 3, 6, 4, 11, 16, 23)
    && Four(rows, 44, 3, 9, 12, 15, 2, 4, 11, 16, 23)
  }

  ghost predicate Rows4(rows: seq<Row>)
    requires |rows| == 64
  {
    && Four(rows, 48, 4, 0, 7, 14, 5, 6, 10, 15, 21)
    && Four(rows, 52, 4, 12, 3, 10, 1, 6, 10, 15, 21)
    && Four(rows, 56, 4, 8, 15, 6, 13, 6, 10, 15, 21)
    && Four(rows, 60, 4, 4, 11, 2, 9, 6, 10, 15, 21)
  }

  /** The tables of macro arguments are what the formulas of the schedule give. */
  lemma ScheduleRows12()
    ensures Rows1(Schedule()) && Rows2(Schedule())
  {
  }

  lemma ScheduleRows34()
    ensures Rows3(Schedule()) && Rows4(Schedule())
  {
  }

  lemma ScheduleSized()
    ensures forall j | 0 <= j < 64 :: Schedule()[j].k < 16
  {
    forall j | 0 <= j < 64
      ensures Schedule()[j].k < 16
    {
      assert Schedule()[j].k == Index(j);
    }
  }

  /** One call of ROUND1, ROUND2, ROUND3 or ROUND4. The registers are passed rotated, so
      that the first one is always the one the step overwrites. */
  method Round(ar: Arithmetic, round: nat, a: Word, b: Word, c: Word, d: Word, X: seq<Word>, k: nat, s: bv5, i: nat,
               ghost rows: seq<Row>, ghost st: State) returns (r: Word)
    requires Sized(ar, X, rows) && 1 <= i <= 64 && rows[i - 1] == Row(round, k, s)
    requires Steps(ar, st, X, rows, i - 1) == State(a, b, c, d)
    ensures Steps(ar, st, X, rows, i) == State(d, r, b, c)
  {
    r := ar.add(ar.add(ar.add(a, ar.Aux(round, b, c, d)), X[k]), ar.sine[i]);
    r := ar.rotl(r, s);
    r := ar.add(b, r);
  }

  method Round1(ar: Arithmetic, A0: Word, B0: Word, C0: Word, D0: Word, X: seq<Word>,
                ghost rows: seq<Row>, ghost st: State)
    returns (A: Word, B: Word, C: Word, D: Word)
    requires Sized(ar, X, rows) && Rows1(rows) && State(A0, B0, C0, D0) == Steps(ar, st, X, rows, 0)
    ensures State(A, B, C, D) == Steps(ar, st, X, rows, 16)
  {
    A, B, C, D := A0, B0, C0, D0;
    A := Round(ar, 1, A, B, C, D, X, 0, 7, 1, rows, st);
    D := Round(ar, 1, D, A, B, C, X, 1, 12, 2, rows, st);
    C := Round(ar, 1, C, D, A, B, X, 2, 17, 3, rows, st);
    B := Round(ar, 1, B, C, D, A, X, 3, 22, 4, rows, st);
    A := Round(ar, 1, A, B, C, D, X, 4, 7, 5, rows, st);
    D := Round(ar, 1, D, A, B, C, X, 5, 12, 6, rows, st);
    C := Round(ar, 1, C, D, A, B, X, 6, 17, 7, rows, st);
    B := Round(ar, 1, B, C, D, A, X, 7, 22, 8, rows, st);
    A := Round(ar, 1, A, B, C, D, X, 8, 7, 9, rows, st);
    D := Round(ar, 1, D, A, B, C, X, 9, 12, 10, rows, st);
    C := Round(ar, 1, C, D, A, B, X, 10, 17, 11, rows, st);
    B := Round(ar, 1, B, C, D, A, X, 11, 22, 12, rows, st);
    A := Round(ar, 1, A, B, C, D, X, 12, 7, 13, rows, st);
    D := Round(ar, 1, D, A, B, C, X, 13, 12, 14, rows, st);
    C := Round(ar, 1, C, D, A, B, X, 14, 17, 15, rows, st);
    B := Round(ar, 1, B, C, D, A, X, 15, 22, 16, rows, st);
  }

  method Round2(ar: Arithmetic, A0: Word, B0: Word, C0: Word, D0: Word, X: seq<Word>,
                ghost rows: seq<Row>, ghost st: State)
    returns (A: Word, B: Word, C: Word, D: Word)
    requires Sized(ar, X, rows) && Rows2(rows) && State(A0, B0, C0, D0) == Steps(ar, st, X, rows, 16)
    ensures State(A, B, C, D) == Steps(ar, st, X, rows, 32)
  {
    A, B, C, D := A0, B0, C0, D0;
    A := Round(ar, 2, A, B, C, D, X, 1, 5, 17, rows, st);
    D := Round(ar, 2, D, A, B, C, X, 6, 9, 18, rows, st);
    C := Round(ar, 2, C, D, A, B, X, 11, 14, 19, rows, st);
    B := Round(ar, 2, B, C, D, A, X, 0, 20, 20, rows, st);
    A := Round(ar, 2, A, B, C, D, X, 5, 5, 21, rows, st);
    D := Round(ar, 2, D, A, B, C, X, 10, 9, 22, rows, st);
    C := Round(ar, 2, C, D, A, B, X, 15, 14, 23, rows, st);
    B := Round(ar, 2, B, C, D, A, X, 4, 20, 24, rows, st);
    A := Round(ar, 2, A, B, C, D, X, 9, 5, 25, rows, st);
    D := Round(ar, 2, D, A, B, C, X, 14, 9, 26, rows, st);
    C := Round(ar, 2, C, D, A, B, X, 3, 14, 27, rows, st);
    B := Round(ar, 2, B, C, D, A, X, 8, 20, 28, rows, st);
    A := Round(ar, 2, A, B, C, D, X, 13, 5, 29, rows, st);
    D := Round(ar, 2, D, A, B, C, X, 2, 9, 30, rows, st);
    C := Round(ar, 2, C, D, A, B, X, 7, 14, 31, rows, st);
    B := Round(ar, 2, B, C, D, A, X, 12, 20, 32, rows, st);
  }

  method Round3(ar: Arithmetic, A0: Word, B0: Word, C0: Word, D0: Word, X: seq<Word>,
                ghost rows: seq<Row>, ghost st: State)
    returns (A: Word, B: Word, C: Word, D: Word)
    requires Sized(ar, X, rows) && Rows3(rows) && State(A0, B0, C0, D0) == Steps(ar, st, X, rows, 32)
    ensures State(A, B, C, D) == Steps(ar, st, X, rows, 48)
  {
    A, B, C, D := A0, B0, C0, D0;
    A := Round(ar, 3, A, B, C, D, X, 5, 4, 33, rows, st);
    D := Round(ar, 3, D, A, B, C, X, 8, 11, 34, rows, st);
    C := Round(ar, 3, C, D, A, B, X, 11, 16, 35, rows, st);
    B := Round(ar, 3, B, C, D, A, X, 14, 23, 36, rows, st);
    A := Round(ar, 3, A, B, C, D, X, 1, 4, 37, rows, st);
    D := Round(ar, 3, D, A, B, C, X, 4, 11, 38, rows, st);
    C := Round(ar, 3, C, D, A, B, X, 7, 16, 39, rows, st);
    B := Round(ar, 3, B, C, D, A, X, 10, 23, 40, rows, st);
    A := Round(ar, 3, A, B, C, D, X, 13, 4, 41, rows, st);
    D := Round(ar, 3, D, A, B, C, X, 0, 11, 42, rows, st);
    C := Round(ar, 3, C, D, A, B, X, 3, 16, 43, rows, st);
    B := Round(ar, 3, B, C, D, A, X, 6, 23, 44, rows, st);
    A := Round(ar, 3, A, B, C, D, X, 9, 4, 45, rows, st);
    D := Round(ar, 3, D, A, B, C, X, 12, 11, 46, rows, st);
    C := Round(ar, 3, C, D, A, B, X, 15, 16, 47, rows, st);
    B := Round(ar, 3, B, C, D, A, X, 2, 23, 48, rows, st);
  }

  method Round4(ar: Arithmetic, A0: Word, B0: Word, C0: Word, D0: Word, X: seq<Word>,
                ghost rows: seq<Row>, ghost st: State)
    returns (A: Word, B: Word, C: Word, D: Word)
    requires Sized(ar, X, rows) && Rows4(rows) && State(A0, B0, C0, D0) == Steps(ar, st, X, rows, 48)
    ensures State(A, B, C, D) == Steps(ar, st, X, rows, 64)
  {
    A, B, C, D := A0, B0, C0, D0;
    A := Round(ar, 4, A, B, C, D, X, 0, 6, 49, rows, st);
    D := Round(ar, 4, D, A, B, C, X, 7, 10, 50, rows, st);
    C := Round(ar, 4, C, D, A, B, X, 14, 15, 51, rows, st);
    B := Round(ar, 4, B, C, D, A, X, 5, 21, 52, rows, st);
    A := Round(ar, 4, A, B, C, D, X, 12, 6, 53, rows, st);
    D := Round(ar, 4, D, A, B, C, X, 3, 10, 54, rows, st);
    C := Round(ar, 4, C, D, A, B, X, 10, 15, 55, rows, st);
    B := Round(ar, 4, B, C, D, A, X, 1, 21, 56, rows, st);
    A := Round(ar, 4, A, B, C, D, X, 8, 6, 57, rows, st);
    D := Round(ar, 4, D, A, B, C, X, 15, 10, 58, rows, st);
    C := Round(ar, 4, C, D, A, B, X, 6, 15, 59, rows, st);
    B := Round(ar, 4, B, C, D, A, X, 13, 21, 60, rows, st);
    A := Round(ar, 4, A, B, C, D, X, 4, 6, 61, rows, st);
    D := Round(ar, 4, D, A, B, C, X, 11, 10, 62, rows, st);
    C := Round(ar, 4, C, D, A, B, X, 2, 15, 63, rows, st);
    B := Round(ar, 4, B, C, D, A, X, 9, 21, 64, rows, st);
  }

  // ---------------------------------------------------------------------------
  // Byte order
  // ---------------------------------------------------------------------------

  datatype ByteOrder = LittleEndian | BigEndian

  /** How the processor reads four bytes of memory as a word. */
  function Load(ar: Arithmetic, order: ByteOrder, m0: Byte, m1: Byte, m2: Byte, m3: Byte): Word {
    if order.LittleEndian? then ar.word(m0, m1, m2, m3) else ar.word(m3, m2, m1, m0)
  }

  /** Byte k of a word as it lies in memory. */
  function Stored(ar: Arithmetic, order: ByteOrder, w: Word, k: nat): Byte
    requires k < 4
  {
    if order.LittleEndian? then ar.byte(w, k) else ar.byte(w, 3 - k)
  }

  /** Sixty-four bytes of memory accessed as an array of words. */
  function Cast(ar: Arithmetic, order: ByteOrder, m: seq<Byte>): (x: seq<Word>)
    requires |m| == 64
    ensures |x| == 16
  {
    seq(16, k requires 0 <= k < 16 => Load(ar, order, m[4 * k], m[4 * k + 1], m[4 * k + 2], m[4 * k + 3]))
  }

  /** The sixty-four byte assignments of the big-endian branch of md5_calc: the bytes of
      each word are turned round. */
  function Turned(b64: seq<Byte>): (y: seq<Byte>)
    requires |b64| == 64
    ensures |y| == 64
  {
    seq(64, i requires 0 <= i < 64 => b64[i / 4 * 4 + 3 - i % 4])
  }

  /** The words md5_calc works on are those of RFC 1321, whatever the byte order. */
  lemma WordsOfBlock(ar: Arithmetic, b64: seq<Byte>)
    requires |b64| == 64
    ensures Cast(ar, LittleEndian, b64) == BlockWords(ar, b64)
    ensures Cast(ar, BigEndian, Turned(b64)) == BlockWords(ar, b64)
  {
    forall k | 0 <= k < 16
      ensures Cast(ar, BigEndian, Turned(b64))[k] == BlockWords(ar, b64)[k]
    {
      var y := Turned(b64);
      assert y[4 * k] == b64[4 * k + 3] && y[4 * k + 1] == b64[4 * k + 2];
      assert y[4 * k + 2] == b64[4 * k + 1] && y[4 * k + 3] == b64[4 * k];
    }
  }

  /** md5_calc: whatever the byte order, the compression function. */
  method Calc(ar: Arithmetic, order: ByteOrder, st: State, b64: seq<Byte>) returns (n: State)
    requires ar.Valid() && |b64| == 64
    ensures n == Compress(ar, st, b64)
  {
    var A, B, C, D := st.a, st.b, st.c, st.d;
    var X := Cast(ar, order, if order.LittleEndian? then b64 else Turned(b64));
    WordsOfBlock(ar, b64);
    ghost var rows := Schedule();
    ScheduleRows12();
    ScheduleRows34();
    ScheduleSized();
    A, B, C, D := Round1(ar, A, B, C, D, X, rows, st);
    A, B, C, D := Round2(ar, A, B, C, D, X, rows, st);
    A, B, C, D := Round3(ar, A, B, C, D, X, rows, st);
    A, B, C, D := Round4(ar, A, B, C, D, X, rows, st);
    n := State(ar.add(st.a, A), ar.add(st.b, B), ar.add(st.c, C), ar.add(st.d, D));
  }
}
