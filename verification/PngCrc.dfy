/** The chunk checksum: the table-driven loop against the bit-by-bit definition of section 3.4 of RFC 2083. */
module PngCrc {
  type Word = bv32

  type Octet = bv8

  type Octets = seq<Octet>

  const POLYNOMIAL: Word := 0xedb88320

  // ---------------------------------------------------------------- bit by bit

  /** Feeding one message bit, least significant bit of a byte first. */
  function FeedBit(crc: Word, bit: bool): Word {
    if (crc & 1 == 1) != bit then POLYNOMIAL ^ (crc >> 1) else crc >> 1
  }

  function FeedBits(crc: Word, bits: seq<bool>): Word
    decreases |bits|
  {
    if bits == [] then crc else FeedBits(FeedBit(crc, bits[0]), bits[1..])
  }

  // The exclusive or by name, so that proofs about whole registers can treat it as one step.
  function Xor(a: Word, b: Word): Word {
    a ^ b
  }

  function Widen(b: Octet): Word {
    b as Word
  }

  const BYTE_BITS: nat := 8

  /** The lowest `n` bits of a word, least significant first. */
  function BitsOf(v: Word, n: nat): seq<bool> {
    if n == 0 then [] else [v & 1 == 1] + BitsOf(v >> 1, n - 1)
  }

  function MessageBits(input: Octets): seq<bool> {
    if input == [] then [] else BitsOf(Widen(input[0]), BYTE_BITS) + MessageBits(input[1..])
  }

  function Complement(x: Word): Word {
    x ^ 0xffffffff
  }

  /** All ones to begin with, complemented at the end. */
  function Crc(input: Octets): Word {
    Complement(FeedBits(0xffffffff, MessageBits(input)))
  }

  lemma {:induction false} FeedInTurn(crc: Word, first: seq<bool>, rest: seq<bool>)
    ensures FeedBits(crc, first + rest) == FeedBits(FeedBits(crc, first), rest)
    decreases |first|
  {
    if first == [] {
      assert first + rest == rest;
    } else {
      assert (first + rest)[1..] == first[1..] + rest;
      FeedInTurn(FeedBit(crc, first[0]), first[1..], rest);
    }
  }

  // ---------------------------------------------------------------- byte by byte

  function Zeros(n: nat): seq<bool> {
    seq(n, _ => false)
  }

  function DropBits(x: Word, n: nat): Word {
    if n == 0 then x else DropBits(x >> 1, n - 1)
  }

  lemma XorHalves(x: Word, v: Word)
    ensures (x ^ v) >> 1 == (x >> 1) ^ (v >> 1)
    ensures ((x ^ v) & 1 == 1) == ((x & 1 == 1) != (v & 1 == 1))
  {
  }

  lemma XorAssociates(p: Word, a: Word, b: Word)
    ensures p ^ (a ^ b) == (p ^ a) ^ b
  {
  }

  lemma ShiftSplitsRaw(x: Word, v: Word)
    ensures FeedBit(x ^ v, false) == FeedBit(x, v & 1 == 1) ^ (v >> 1)
  {
    XorHalves(x, v);
    XorAssociates(POLYNOMIAL, x >> 1, v >> 1);
  }

  lemma ShiftSplits(x: Word, v: Word)
    ensures FeedBit(Xor(x, v), false) == Xor(FeedBit(x, v & 1 == 1), v >> 1)
  {
    hide FeedBit;
    ShiftSplitsRaw(x, v);
  }

  lemma FeedBitsStep(crc: Word, v: Word, n: nat)
    requires n > 0
    ensures FeedBits(crc, BitsOf(v, n)) == FeedBits(FeedBit(crc, v & 1 == 1), BitsOf(v >> 1, n - 1))
    ensures DropBits(v, n) == DropBits(v >> 1, n - 1)
  {
    var bits := BitsOf(v, n);
    assert bits[0] == (v & 1 == 1);
    assert bits[1..] == BitsOf(v >> 1, n - 1);
  }

  lemma FeedZerosStep(x: Word, n: nat)
    requires n > 0
    ensures FeedBits(x, Zeros(n)) == FeedBits(FeedBit(x, false), Zeros(n - 1))
  {
    assert Zeros(n)[1..] == Zeros(n - 1);
  }

  /** Feeding zeros to a register that already holds `v` is feeding the bits of `v`. */
  ghost predicate ZerosFeed(crc: Word, v: Word, n: nat) {
    FeedBits(Xor(crc, v), Zeros(n)) == Xor(FeedBits(crc, BitsOf(v, n)), DropBits(v, n))
  }

  lemma ZerosFeedStep(crc: Word, v: Word, n: nat)
    requires n > 0 && ZerosFeed(FeedBit(crc, v & 1 == 1), v >> 1, n - 1)
    ensures ZerosFeed(crc, v, n)
  {
    hide Xor, FeedBit;
    ShiftSplits(crc, v);
    FeedZerosStep(Xor(crc, v), n);
    FeedBitsStep(crc, v, n);
  }

  lemma {:induction false} ZerosFeedBits(crc: Word, v: Word, n: nat)
    ensures ZerosFeed(crc, v, n)
    decreases n
  {
    if n > 0 {
      ZerosFeedBits(FeedBit(crc, v & 1 == 1), v >> 1, n - 1);
      ZerosFeedStep(crc, v, n);
    }
  }

  predicate LowClear(y: Word, n: nat) {
    n == 0 || (y & 1 == 0 && LowClear(y >> 1, n - 1))
  }

  lemma {:induction false} ClearBitsAreZeros(y: Word, n: nat)
    requires LowClear(y, n)
    ensures BitsOf(y, n) == Zeros(n)
    decreases n
  {
    if n > 0 {
      ClearBitsAreZeros(y >> 1, n - 1);
      assert Zeros(n) == [false] + Zeros(n - 1);
    }
  }

  lemma LowBitsClear(x: Word)
    ensures var y := x & 0xffffff00;
      y & 1 == 0 && (y >> 1) & 1 == 0 && (y >> 2) & 1 == 0 && (y >> 3) & 1 == 0
      && (y >> 4) & 1 == 0 && (y >> 5) & 1 == 0 && (y >> 6) & 1 == 0 && (y >> 7) & 1 == 0
  {
  }

  lemma ShiftTwice(y: Word)
    ensures (y >> 1) >> 1 == y >> 2 && (y >> 2) >> 1 == y >> 3 && (y >> 3) >> 1 == y >> 4 && (y >> 4) >> 1 == y >> 5
      && (y >> 5) >> 1 == y >> 6 && (y >> 6) >> 1 == y >> 7 && (y >> 7) >> 1 == y >> 8
  {
  }

  lemma LowClearEight(y: Word)
    requires y & 1 == 0 && (y >> 1) & 1 == 0 && (y >> 2) & 1 == 0 && (y >> 3) & 1 == 0
      && (y >> 4) & 1 == 0 && (y >> 5) & 1 == 0 && (y >> 6) & 1 == 0 && (y >> 7) & 1 == 0
    ensures LowClear(y, 8)
  {
    ShiftTwice(y);
    assert LowClear(y >> 8, 0);
    assert LowClear(y >> 7, 1);
    assert LowClear(y >> 6, 2);
    assert LowClear(y >> 5, 3);
    assert LowClear(y >> 4, 4);
    assert LowClear(y >> 3, 5);
    assert LowClear(y >> 2, 6);
    assert LowClear(y >> 1, 7);
  }

  lemma DropEight(y: Word)
    ensures DropBits(y, 8) == y >> 8
  {
    ShiftTwice(y);
    assert DropBits(y >> 8, 0) == y >> 8;
    assert DropBits(y >> 7, 1) == y >> 8;
    assert DropBits(y >> 6, 2) == y >> 8;
    assert DropBits(y >> 5, 3) == y >> 8;
    assert DropBits(y >> 4, 4) == y >> 8;
    assert DropBits(y >> 3, 5) == y >> 8;
    assert DropBits(y >> 2, 6) == y >> 8;
    assert DropBits(y >> 1, 7) == y >> 8;
  }

  lemma SplitWord(x: Word)
    ensures Xor(Low(x), High(x)) == x
    ensures High(x) >> 8 == Top(x)
  {
  }

  function Low(x: Word): Word {
    x & 0xff
  }

  function High(x: Word): Word {
    x & 0xffffff00
  }

  function Top(x: Word): Word {
    x >> 8
  }

  lemma LowByteCleared(x: Word)
    ensures LowClear(High(x), 8)
  {
    LowBitsClear(x);
    LowClearEight(High(x));
  }

  lemma HighBytesKept(x: Word)
    ensures DropBits(High(x), 8) == Top(x)
  {
    SplitWord(x);
    DropEight(High(x));
  }

  // Only the low byte of the register still has to be fed; the rest is shifted out unchanged.
  lemma FeedZerosToSplit(low: Word, high: Word, n: nat)
    requires LowClear(high, n)
    ensures FeedBits(Xor(low, high), Zeros(n)) == Xor(FeedBits(low, Zeros(n)), DropBits(high, n))
  {
    hide FeedBits, BitsOf, LowClear, DropBits, Zeros, Xor;
    ClearBitsAreZeros(high, n);
    ZerosFeedBits(low, high, n);
  }

  /** The register after eight zero bits: what the table holds for a low byte. */
  function FeedByteOfZeros(x: Word): Word {
    FeedBits(x, Zeros(BYTE_BITS))
  }

  lemma FeedZerosByTable(x: Word)
    ensures FeedByteOfZeros(x) == Xor(FeedByteOfZeros(Low(x)), Top(x))
  {
    hide FeedBits, LowClear, DropBits, Zeros, Xor, Low, High, Top;
    SplitWord(x);
    LowByteCleared(x);
    HighBytesKept(x);
    FeedZerosToSplit(Low(x), High(x), BYTE_BITS);
  }

  lemma WidenFits(b: Octet)
    ensures Widen(b) >> 8 == 0
  {
  }

  lemma DropByte(b: Octet)
    ensures DropBits(Widen(b), BYTE_BITS) == 0
  {
    DropEight(Widen(b));
    WidenFits(b);
  }

  lemma XorZero(x: Word)
    ensures Xor(x, 0) == x
  {
  }

  function FeedByte(crc: Word, b: Octet): Word {
    FeedBits(crc, BitsOf(Widen(b), BYTE_BITS))
  }

  function Mixed(crc: Word, b: Octet): Word {
    Xor(crc, Widen(b))
  }

  /** Feeding a byte is feeding zeros to a register that already holds it. */
  lemma FeedMixed(crc: Word, b: Octet)
    ensures FeedByte(crc, b) == FeedByteOfZeros(Mixed(crc, b))
  {
    hide FeedBits, DropBits, BitsOf, Zeros, Xor, Widen;
    DropByte(b);
    ZerosFeedBits(crc, Widen(b), BYTE_BITS);
    XorZero(FeedByte(crc, b));
  }

  lemma TopOfXor(a: Word, b: Word)
    ensures Top(Xor(a, b)) == Xor(Top(a), Top(b))
  {
  }

  lemma TopOfByte(b: Octet)
    ensures Top(Widen(b)) == 0
  {
    WidenFits(b);
  }

  lemma TopUnmoved(crc: Word, b: Octet)
    ensures Top(Mixed(crc, b)) == Top(crc)
  {
    hide Top, Xor, Widen;
    TopOfXor(crc, Widen(b));
    TopOfByte(b);
    XorZero(Top(crc));
  }

  /** One table lookup feeds one byte. */
  lemma TableFeedsByte(crc: Word, b: Octet)
    ensures FeedByte(crc, b) == Xor(FeedByteOfZeros(Low(Mixed(crc, b))), Top(crc))
  {
    hide *;
    FeedMixed(crc, b);
    FeedZerosByTable(Mixed(crc, b));
    TopUnmoved(crc, b);
  }

  // ---------------------------------------------------------------- the loops

  lemma WordOfInt(x: Word)
    ensures (x as int) as Word == x
  {
  }

  lemma LowFits(x: Word)
    ensures Low(x) as int < 256
  {
    assert Low(x) <= 255;
  }

  method BuildTable() returns (table: array<Word>)
    ensures fresh(table) && table.Length == 256
    ensures forall k :: 0 <= k < 256 ==> table[k] == FeedByteOfZeros(k as Word)
  {
    table := new Word[256];
    var index := 0;
    while index < 256
      invariant 0 <= index <= 256
      invariant forall k :: 0 <= k < index ==> table[k] == FeedByteOfZeros(k as Word)
    {
      table[index] := BuildEntry(index as Word);
      index := index + 1;
    }
  }

  method BuildEntry(index: Word) returns (value: Word)
    ensures value == FeedByteOfZeros(index)
  {
    value := index;
    var bit := 0;
    while bit < BYTE_BITS
      invariant 0 <= bit <= BYTE_BITS
      invariant FeedBits(index, Zeros(BYTE_BITS)) == FeedBits(value, Zeros(BYTE_BITS - bit))
    {
      FeedZerosStep(value, BYTE_BITS - bit);
      value := if value & 1 == 1 then POLYNOMIAL ^ (value >> 1) else value >> 1;
      bit := bit + 1;
    }
  }

  lemma MessageStep(crc: Word, input: Octets, i: nat)
    requires i < |input|
    ensures FeedBits(crc, MessageBits(input[i..])) == FeedBits(FeedByte(crc, input[i]), MessageBits(input[i + 1..]))
  {
    assert input[i..][1..] == input[i + 1..];
    FeedInTurn(crc, BitsOf(Widen(input[i]), BYTE_BITS), MessageBits(input[i + 1..]));
  }

  predicate IsTable(table: seq<Word>) {
    |table| == 256 && forall k :: 0 <= k < 256 ==> table[k] == FeedByteOfZeros(k as Word)
  }

  lemma Lookup(table: seq<Word>, crc: Word, b: Octet)
    requires IsTable(table)
    ensures Low(Mixed(crc, b)) as int < 256
    ensures Xor(table[Low(Mixed(crc, b)) as int], Top(crc)) == FeedByte(crc, b)
  {
    hide Mixed, Low, Top, Xor, FeedByteOfZeros, FeedByte;
    LowFits(Mixed(crc, b));
    WordOfInt(Low(Mixed(crc, b)));
    TableFeedsByte(crc, b);
  }

  method Update(table: array<Word>, crc: Word, value: Octet) returns (next: Word)
    requires IsTable(table[..])
    ensures next == FeedByte(crc, value)
  {
    hide FeedByte, Mixed, Low, Top, Xor, FeedByteOfZeros;
    Lookup(table[..], crc, value);
    next := Xor(table[Low(Mixed(crc, value)) as int], Top(crc));
  }

  /** The table-driven loop computes the bit-by-bit checksum of section 3.4. */
  method Crc32(table: array<Word>, input: Octets) returns (checksum: Word)
    requires IsTable(table[..])
    ensures checksum == Crc(input)
  {
    var crc: Word := 0xffffffff;
    var i := 0;
    while i < |input|
      invariant 0 <= i <= |input|
      invariant FeedBits(0xffffffff, MessageBits(input)) == FeedBits(crc, MessageBits(input[i..]))
    {
      MessageStep(crc, input, i);
      crc := Update(table, crc, input[i]);
      i := i + 1;
    }
    checksum := crc ^ 0xffffffff;
  }

  // ---------------------------------------------------------------- error detection

  lemma FeedBitInjective(x: Word, y: Word, bit: bool)
    requires FeedBit(x, bit) == FeedBit(y, bit)
    ensures x == y
  {
  }

  lemma {:induction false} FeedBitsInjective(x: Word, y: Word, bits: seq<bool>)
    requires FeedBits(x, bits) == FeedBits(y, bits)
    ensures x == y
    decreases |bits|
  {
    if bits != [] {
      FeedBitsInjective(FeedBit(x, bits[0]), FeedBit(y, bits[0]), bits[1..]);
      FeedBitInjective(x, y, bits[0]);
    }
  }

  lemma XorCancels(crc: Word, x: Word, y: Word)
    requires Xor(crc, x) == Xor(crc, y)
    ensures x == y
  {
  }

  lemma WidenInjective(a: Octet, b: Octet)
    requires Widen(a) == Widen(b)
    ensures a == b
  {
  }

  lemma MixedInjective(crc: Word, a: Octet, b: Octet)
    requires Mixed(crc, a) == Mixed(crc, b)
    ensures a == b
  {
    hide Widen, Xor;
    XorCancels(crc, Widen(a), Widen(b));
    WidenInjective(a, b);
  }

  lemma FeedByteOfZerosInjective(x: Word, y: Word)
    requires FeedByteOfZeros(x) == FeedByteOfZeros(y)
    ensures x == y
  {
    FeedBitsInjective(x, y, Zeros(BYTE_BITS));
  }

  lemma FeedByteInjective(crc: Word, a: Octet, b: Octet)
    requires FeedByte(crc, a) == FeedByte(crc, b)
    ensures a == b
  {
    hide *;
    FeedMixed(crc, a);
    FeedMixed(crc, b);
    FeedByteOfZerosInjective(Mixed(crc, a), Mixed(crc, b));
    MixedInjective(crc, a, b);
  }

  lemma {:induction false} MessageBitsOfJoin(a: Octets, b: Octets)
    ensures MessageBits(a + b) == MessageBits(a) + MessageBits(b)
  {
    if a == [] {
      assert a + b == b;
    } else {
      assert (a + b)[1..] == a[1..] + b;
      MessageBitsOfJoin(a[1..], b);
    }
  }

  /** Feeding a message is feeding what precedes byte `i`, then the byte, then the rest. */
  lemma FeedAround(crc: Word, input: Octets, i: nat)
    requires i < |input|
    ensures FeedBits(crc, MessageBits(input))
      == FeedBits(FeedByte(FeedBits(crc, MessageBits(input[..i])), input[i]), MessageBits(input[i + 1..]))
  {
    assert input == input[..i] + input[i..];
    MessageBitsOfJoin(input[..i], input[i..]);
    FeedInTurn(crc, MessageBits(input[..i]), MessageBits(input[i..]));
    MessageStep(FeedBits(crc, MessageBits(input[..i])), input, i);
  }

  lemma SameRegisterSameByte(crc: Word, a: Octets, b: Octets, i: nat)
    requires |a| == |b| && i < |a| && a[..i] == b[..i] && a[i + 1..] == b[i + 1..]
    requires FeedBits(crc, MessageBits(a)) == FeedBits(crc, MessageBits(b))
    ensures a[i] == b[i]
  {
    var before := FeedBits(crc, MessageBits(a[..i]));
    FeedAround(crc, a, i);
    FeedAround(crc, b, i);
    FeedBitsInjective(FeedByte(before, a[i]), FeedByte(before, b[i]), MessageBits(a[i + 1..]));
    FeedByteInjective(before, a[i], b[i]);
  }

  lemma ComplementInjective(x: Word, y: Word)
    requires Complement(x) == Complement(y)
    ensures x == y
  {
  }

  lemma SameCrcSameRegister(a: Octets, b: Octets)
    requires Crc(a) == Crc(b)
    ensures FeedBits(0xffffffff, MessageBits(a)) == FeedBits(0xffffffff, MessageBits(b))
  {
    ComplementInjective(FeedBits(0xffffffff, MessageBits(a)), FeedBits(0xffffffff, MessageBits(b)));
  }

  /** Two messages of one length that differ in exactly one byte never share a checksum. */
  lemma OneWrongByteIsDetected(a: Octets, b: Octets, i: nat)
    requires |a| == |b| && i < |a| && a[..i] == b[..i] && a[i + 1..] == b[i + 1..]
    requires Crc(a) == Crc(b)
    ensures a == b
  {
    SameCrcSameRegister(a, b);
    SameRegisterSameByte(0xffffffff, a, b, i);
    assert a == a[..i] + [a[i]] + a[i + 1..];
    assert b == b[..i] + [b[i]] + b[i + 1..];
  }
}
