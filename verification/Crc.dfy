/**
 * The archive's CRC-32: one table lookup a byte, against the polynomial division it stands for.
 * A 32-bit word is its bits, lowest first, so `>>> n` drops n bits and `& 0xff` keeps the first eight.
 */
module Crc {
  import opened Bytes

  type Word = w: seq<bool> | |w| == 32 witness seq(32, _ => false)

  function ToBits(v: nat, n: nat): (s: seq<bool>)
    ensures |s| == n
  {
    if n == 0 then [] else [v % 2 == 1] + ToBits(v / 2, n - 1)
  }

  function FromBits(s: seq<bool>): nat
  {
    if s == [] then 0 else (if s[0] then 1 else 0) + 2 * FromBits(s[1..])
  }

  function Zeros(n: nat): (s: seq<bool>)
    ensures |s| == n
  {
    seq(n, _ => false)
  }

  function Xor(a: seq<bool>, b: seq<bool>): (s: seq<bool>)
    requires |a| == |b|
    ensures |s| == |a| && forall i :: 0 <= i < |s| ==> s[i] == (a[i] != b[i])
  {
    seq(|a|, i requires 0 <= i < |a| => a[i] != b[i])
  }

  function Not(a: Word): (s: Word)
    ensures forall i :: 0 <= i < 32 ==> s[i] == !a[i]
  {
    seq(32, i requires 0 <= i < 32 => !a[i])
  }

  /** `c >>> 1` */
  function Half(c: Word): Word
  {
    c[1..] + [false]
  }

  /** The CRC-32 polynomial of section 8 of RFC 1952, lowest power in the highest bit. */
  const POLY: Word := ToBits(0xedb88320, Width())

  function Width(): nat
  {
    32
  }

  function Eight(): nat
  {
    8
  }

  // ── The definition: one message bit at a time ──────────────────────────────

  /** Divide: bring one message bit in at the top power and subtract the polynomial when it goes out. */
  function BitStep(c: Word, bit: bool): Word
  {
    if c[0] != bit then Xor(Half(c), POLY) else Half(c)
  }

  function BitSteps(c: Word, message: seq<bool>): Word
    decreases |message|
  {
    if message == [] then c else BitSteps(BitStep(c, message[0]), message[1..])
  }

  /** The eight bits of each byte, lowest first. */
  function Divide(c: Word, data: seq<byte>): Word
    decreases |data|
  {
    if data == [] then c else Divide(BitSteps(c, ToBits(data[0], Eight())), data[1..])
  }

  /** The CRC of `data` after bytes whose CRC is `prev` (all zeros: none). */
  function Crc32Of(data: seq<byte>, prev: Word): Word
  {
    Not(Divide(Not(prev), data))
  }

  lemma {:induction false} DivideAppend(c: Word, a: seq<byte>, b: seq<byte>)
    ensures Divide(c, a + b) == Divide(Divide(c, a), b)
    decreases |a|
  {
    if a == [] {
      assert a + b == b;
    } else {
      assert (a + b)[1..] == a[1..] + b;
      DivideAppend(BitSteps(c, ToBits(a[0], Eight())), a[1..], b);
    }
  }

  lemma NotNot(c: Word)
    ensures Not(Not(c)) == c
  {
  }

  /** Carrying on from the CRC of one piece gives the CRC of both. */
  lemma Continues(a: seq<byte>, b: seq<byte>, prev: Word)
    ensures Crc32Of(a + b, prev) == Crc32Of(b, Crc32Of(a, prev))
  {
    DivideAppend(Not(prev), a, b);
    NotNot(Divide(Not(prev), a));
  }

  function Concat(chunks: seq<seq<byte>>): seq<byte>
  {
    if chunks == [] then [] else chunks[0] + Concat(chunks[1..])
  }

  /** A file's CRC taken piece by piece. */
  function CrcOfChunks(chunks: seq<seq<byte>>, prev: Word): Word
    decreases |chunks|
  {
    if chunks == [] then prev else CrcOfChunks(chunks[1..], Crc32Of(chunks[0], prev))
  }

  /** However a file is cut up, the accumulated value is the CRC of the whole. */
  lemma {:induction false} ChunkingIsIrrelevant(chunks: seq<seq<byte>>, prev: Word)
    ensures CrcOfChunks(chunks, prev) == Crc32Of(Concat(chunks), prev)
    decreases |chunks|
  {
    if chunks == [] {
      NotNot(prev);
    } else {
      ChunkingIsIrrelevant(chunks[1..], Crc32Of(chunks[0], prev));
      Continues(chunks[0], Concat(chunks[1..]), prev);
    }
  }

  // ── The table ──────────────────────────────────────────────────────────────

  function Shift(c: Word): Word
  {
    if c[0] then Xor(POLY, Half(c)) else Half(c)
  }

  function Shifts(c: Word, k: nat): Word
    decreases k
  {
    if k == 0 then c else Shifts(Shift(c), k - 1)
  }

  /** The table's entry for a byte. */
  function Entry(n: byte): Word
  {
    Shifts(ToBits(n, Width()), Eight())
  }

  lemma ShiftLinear(x: Word, y: Word)
    ensures Shift(Xor(x, y)) == Xor(Shift(x), Shift(y))
  {
    var a, b := Half(x), Half(y);
    assert Half(Xor(x, y)) == Xor(a, b);
    hide Half;
    assert Xor(POLY, Xor(a, b)) == Xor(Xor(POLY, a), b) == Xor(a, Xor(POLY, b));
    assert Xor(Xor(POLY, a), Xor(POLY, b)) == Xor(a, b);
  }

  /** Shifting is linear over exclusive-or, so the low byte can be divided apart from the rest. */
  lemma {:induction false} ShiftsLinear(x: Word, y: Word, k: nat)
    ensures Shifts(Xor(x, y), k) == Xor(Shifts(x, k), Shifts(y, k))
    decreases k
  {
    hide Shift, Xor;
    if k > 0 {
      ShiftLinear(x, y);
      ShiftsLinear(Shift(x), Shift(y), k - 1);
    }
  }

  /** The upper bits come down, and nothing is fed back while zeros go out. */
  lemma {:induction false} ZerosOut(r: seq<bool>, k: nat)
    requires k + |r| == 32
    ensures Shifts(Zeros(k) + r, k) == r + Zeros(k)
    decreases k
  {
    if k == 0 {
      assert Zeros(k) + r == r && r + Zeros(k) == r;
    } else {
      assert Half(Zeros(k) + r) == Zeros(k - 1) + (r + [false]);
      ZerosOut(r + [false], k - 1);
      assert (r + [false]) + Zeros(k - 1) == r + Zeros(k);
    }
  }

  /** One message bit added before the division instead of during it. */
  lemma BitIn(c: Word, m: seq<bool>, z: seq<bool>)
    requires m != [] && |m| + |z| == 32
    ensures Shift(Xor(c, m + z)) == Xor(BitStep(c, m[0]), m[1..] + z + [false])
  {
    var x := Xor(c, m + z);
    assert x[0] == (c[0] != m[0]);
    assert Half(m + z) == m[1..] + z + [false];
    assert Half(x) == Xor(Half(c), Half(m + z));
    assert Xor(POLY, Xor(Half(c), Half(m + z))) == Xor(Xor(Half(c), POLY), Half(m + z));
  }

  /** Message bits can be added before the division instead of during it. */
  lemma {:induction false} BitsIn(c: Word, message: seq<bool>)
    requires |message| <= 32
    ensures Shifts(Xor(c, message + Zeros(32 - |message|)), |message|) == BitSteps(c, message)
    decreases |message|
  {
    hide Shift, BitStep, Xor, Zeros;
    var n := |message|;
    if n == 0 {
      NothingIn(c, message);
    } else {
      BitIn(c, message, Zeros(32 - n));
      OneZeroMore(message[1..], 32 - n);
      BitsIn(BitStep(c, message[0]), message[1..]);
    }
  }

  lemma NothingIn(c: Word, message: seq<bool>)
    requires message == []
    ensures Xor(c, message + Zeros(32)) == c
  {
    assert message + Zeros(32) == Zeros(32);
  }

  lemma OneZeroMore(s: seq<bool>, n: nat)
    ensures s + Zeros(n) + [false] == s + Zeros(n + 1)
  {
  }

  lemma {:induction false} BitsOfValue(s: seq<bool>, n: nat)
    requires |s| <= n
    ensures ToBits(FromBits(s), n) == s + Zeros(n - |s|)
    decreases n
  {
    if s == [] {
      ZeroBits(n);
    } else {
      BitsOfValue(s[1..], n - 1);
      assert FromBits(s) / 2 == FromBits(s[1..]);
    }
  }

  lemma {:induction false} ZeroBits(n: nat)
    ensures ToBits(0, n) == Zeros(n)
  {
    if n > 0 {
      ZeroBits(n - 1);
    }
  }

  function Pow2(n: nat): nat
  {
    if n == 0 then 1 else 2 * Pow2(n - 1)
  }

  lemma {:induction false} TopBits(v: nat, k: nat, n: nat)
    requires v < Pow2(k) && k <= n
    ensures ToBits(v, n) == ToBits(v, k) + Zeros(n - k)
    decreases k
  {
    if k == 0 {
      ZeroBits(n);
    } else {
      TopBits(v / 2, k - 1, n - 1);
    }
  }

  lemma {:induction false} FromBitsBound(s: seq<bool>)
    ensures FromBits(s) < Pow2(|s|)
  {
    if s != [] {
      FromBitsBound(s[1..]);
    }
  }

  lemma TwoToTheEight()
    ensures Pow2(8) == 256
  {
    assert Pow2(4) == 16;
  }

  /** The table index: the low byte of the running value and the data byte, added. */
  function Index(c: Word, b: byte): byte
  {
    FromBitsBound(Xor(c, ToBits(b, Width()))[..8]);
    TwoToTheEight();
    FromBits(Xor(c, ToBits(b, Width()))[..8])
  }

  /** A byte added to a word, taken apart: the low byte goes through the table, the rest only moves down. */
  lemma TakenApart(c: Word, b: byte, x: Word, low: Word, high: Word)
    requires x == Xor(c, ToBits(b, Width()))
    requires low == x[..8] + Zeros(24) && high == Zeros(8) + c[8..]
    ensures x == Xor(low, high) && x == Xor(c, ToBits(b, Eight()) + Zeros(24))
  {
    TwoToTheEight();
    TopBits(b, Eight(), Width());
  }

  /** One table lookup does what eight message bits do. */
  lemma TableStep(c: Word, b: byte)
    ensures Xor(Entry(Index(c, b)), c[8..] + Zeros(8)) == BitSteps(c, ToBits(b, Eight()))
  {
    var x: Word := Xor(c, ToBits(b, Width()));
    var low, high: Word := x[..8] + Zeros(24), Zeros(8) + c[8..];
    TakenApart(c, b, x, low, high);
    BitsIn(c, ToBits(b, Eight()));
    BitsOfValue(x[..8], Width());
    ShiftsLinear(low, high, Eight());
    ZerosOut(c[8..], Eight());
  }

  /** The eight shifts of one entry. */
  method BuildEntry(n: byte) returns (c: Word)
    ensures c == Entry(n)
  {
    c := ToBits(n, Width());
    for k := 0 to 8
      invariant Shifts(c, Eight() - k) == Entry(n)
    {
      c := Shift(c);
    }
  }

  method BuildTable() returns (table: array<Word>)
    ensures fresh(table) && table.Length == 256
    ensures forall n: byte :: table[n] == Entry(n)
  {
    hide Entry;
    table := new Word[256](_ => Zeros(32));
    for n := 0 to 256
      invariant forall m: byte :: m < n ==> table[m] == Entry(m)
    {
      table[n] := BuildEntry(n);
    }
  }

  /** `crc32` with the table. */
  method Crc32(table: array<Word>, data: seq<byte>, prev: Word) returns (crc: Word)
    requires table.Length == 256 && forall n: byte :: table[n] == Entry(n)
    ensures crc == Crc32Of(data, prev)
  {
    var c := Not(prev);
    for i := 0 to |data|
      invariant Divide(Not(prev), data) == Divide(c, data[i..])
    {
      TableStep(c, data[i]);
      c := Xor(table[Index(c, data[i])], c[8..] + Zeros(8));
      assert data[i..][1..] == data[i + 1..];
    }
    crc := Not(c);
  }
}
