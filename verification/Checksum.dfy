/**
 * The CRC-32 each record of a backup carries: the table-driven form the code
 * runs, the polynomial division it stands for, and what it always detects.
 */
module Checksum {
  import opened Bytes
  import opened Bits

  /** A 32-bit register. */
  type Word = v: Bits | |v| == 32 witness Zeros(32)

  /** The IEEE polynomial, reflected. */
  const POLYNOMIAL: Word := BitsOf(0xedb8_8320, 32)

  function ByteBits(b: Byte): (r: Bits)
    ensures |r| == 8
  {
    BitsOf(b as nat, 8)
  }

  /** A byte in the low eight bits of a word. */
  function Widen(bits: Bits): Word
    requires |bits| <= 32
  {
    bits + Zeros(32 - |bits|)
  }

  /** One turn of the inner loop of the table's construction. */
  function Round(v: Word): Word {
    if v[0] then Xor(ShiftRight(v, 1), POLYNOMIAL) else ShiftRight(v, 1)
  }

  function Rounds(v: Word, n: nat): Word
    decreases n
  {
    if n == 0 then v else Rounds(Round(v), n - 1)
  }

  // ------------------------------------------------------------------ reference

  /**
   * The remainder of long division by the polynomial: the leading coefficient
   * is cancelled against the divisor, or is already zero, until fewer
   * coefficients than the divisor has are left.
   */
  function Remainder(dividend: Bits): Word
    requires |dividend| >= 32
    decreases |dividend|
  {
    if |dividend| == 32 then dividend
    else if dividend[0] then Remainder(Xor(dividend[1..33], POLYNOMIAL) + dividend[33..])
    else Remainder(dividend[1..])
  }

  /** Every bit of the message, each byte's least significant bit first. */
  function MessageBits(bytes: seq<Byte>): (r: Bits)
    ensures |r| == 8 * |bytes|
  {
    if bytes == [] then [] else ByteBits(bytes[0]) + MessageBits(bytes[1..])
  }

  /** `p` with `v` added to its 32 leading coefficients. */
  function AddLeading(v: Word, p: Bits): (r: Bits)
    requires |p| >= 32
    ensures |r| == |p|
  {
    Xor(v, p[..32]) + p[32..]
  }

  /**
   * CRC-32 by definition: the message times x^32, its first 32 coefficients
   * complemented, divided by the polynomial; the remainder complemented.
   */
  function Crc32(bytes: seq<Byte>): Word {
    Xor(Remainder(AddLeading(Ones(32), MessageBits(bytes) + Zeros(32))), Ones(32))
  }

  // ------------------------------------------------------------------- the code

  /** What the running value becomes when one byte is mixed in, one round a bit. */
  function Mix(held: Word, b: Byte): Word {
    Rounds(Xor(held, Widen(ByteBits(b))), 8)
  }

  function MixAll(held: Word, bytes: seq<Byte>): Word
    decreases |bytes|
  {
    if bytes == [] then held else MixAll(Mix(held, bytes[0]), bytes[1..])
  }

  method Table() returns (held: array<Word>)
    ensures fresh(held) && held.Length == 256
    ensures forall i :: 0 <= i < 256 ==> held[i] == Rounds(BitsOf(i, 32), 8)
  {
    held := new Word[256](_ => Zeros(32));
    var at := 0;
    while at < 256
      invariant 0 <= at <= 256
      invariant forall i :: 0 <= i < at ==> held[i] == Rounds(BitsOf(i, 32), 8)
    {
      var value := EightRounds(BitsOf(at, 32));
      held[at] := value;
      at := at + 1;
    }
  }

  /** The inner loop of the table's construction. */
  method EightRounds(start: Word) returns (value: Word)
    ensures value == Rounds(start, 8)
  {
    value := start;
    var round := 0;
    while round < 8
      invariant 0 <= round <= 8
      invariant Rounds(value, 8 - round) == Rounds(start, 8)
    {
      value := Round(value);
      round := round + 1;
    }
  }

  /** The table-driven checksum is the polynomial remainder, for every byte string. */
  method TableCrc32(bytes: seq<Byte>) returns (crc: Word)
    ensures crc == Crc32(bytes)
  {
    var table := Table();
    var held: Word := Ones(32);
    var n := 0;
    while n < |bytes|
      invariant 0 <= n <= |bytes|
      invariant forall i :: 0 <= i < 256 ==> table[i] == Rounds(BitsOf(i, 32), 8)
      invariant MixAll(held, bytes[n..]) == MixAll(Ones(32), bytes)
    {
      var mixed := Xor(held, Widen(ByteBits(bytes[n])));
      var at := NumberOf(mixed[..8]);
      IndexInTable(mixed);
      MixByTable(held, bytes[n]);
      assert bytes[n..][1..] == bytes[n + 1..];
      held := Xor(ShiftRight(held, 8), table[at]);
      n := n + 1;
    }
    crc := Xor(held, Ones(32));
    CrcIsMixing(bytes);
  }

  lemma IndexInTable(v: Word)
    ensures NumberOf(v[..8]) < 256
  {
    NumberOfBound(v[..8]);
    assert Power2(8) == 256;
  }

  // ---------------------------------------------------------- the two are equal

  lemma RoundBit(v: Word, i: nat)
    requires i < 32
    ensures Round(v)[i] == ((i < 31 && v[i + 1]) != (v[0] && POLYNOMIAL[i]))
  {
  }

  lemma RoundIsLinear(x: Word, y: Word)
    ensures Round(Xor(x, y)) == Xor(Round(x), Round(y))
  {
    forall i | 0 <= i < 32
      ensures Round(Xor(x, y))[i] == (Round(x)[i] != Round(y)[i])
    {
      RoundBit(Xor(x, y), i);
      RoundBit(x, i);
      RoundBit(y, i);
    }
  }

  lemma {:induction false} RoundsAreLinear(x: Word, y: Word, n: nat)
    ensures Rounds(Xor(x, y), n) == Xor(Rounds(x, n), Rounds(y, n))
    decreases n
  {
    if n == 0 {
    } else {
      RoundIsLinear(x, y);
      RoundsAreLinear(Round(x), Round(y), n - 1);
    }
  }

  /** Rounds that only ever meet zero bits are a plain shift. */
  lemma {:induction false} RoundsOfZeros(v: Word, n: nat)
    requires n <= 32 && v[..n] == Zeros(n)
    ensures Rounds(v, n) == ShiftRight(v, n)
    decreases n
  {
    if n == 0 {
    } else {
      assert !v[..n][0];
      var w := ShiftRight(v, 1);
      assert w[..n - 1] == v[..n][1..];
      RoundsOfZeros(w, n - 1);
      assert ShiftRight(w, n - 1) == ShiftRight(v, n);
    }
  }

  /** A word is its low byte and the rest, added. */
  lemma WordSplits(v: Word)
    ensures v == Xor(Zeros(8) + v[8..], Widen(v[..8]))
  {
  }

  lemma HighBytesShift(v: Word, held: Word)
    requires v[8..] == held[8..]
    ensures Rounds(Zeros(8) + v[8..], 8) == ShiftRight(held, 8)
  {
    var high: Word := Zeros(8) + v[8..];
    assert high[..8] == Zeros(8) && high[8..] == held[8..];
    RoundsOfZeros(high, 8);
  }

  lemma LowByteIndexes(v: Word)
    ensures Widen(v[..8]) == BitsOf(NumberOf(v[..8]), 32)
  {
    IndexInTable(v);
    assert Power2(8) == 256;
    BitsOfSmall(NumberOf(v[..8]), 8, 32);
    BitsOfNumber(v[..8]);
  }

  lemma MixByTable(held: Word, b: Byte)
    ensures var mixed := Xor(held, Widen(ByteBits(b)));
            Mix(held, b) == Xor(ShiftRight(held, 8), Rounds(BitsOf(NumberOf(mixed[..8]), 32), 8))
  {
    var mixed := Xor(held, Widen(ByteBits(b)));
    assert mixed[8..] == held[8..];
    TableByte(mixed, held);
  }

  lemma TableByte(mixed: Word, held: Word)
    requires mixed[8..] == held[8..]
    ensures Rounds(mixed, 8) == Xor(ShiftRight(held, 8), Rounds(BitsOf(NumberOf(mixed[..8]), 32), 8))
  {
    WordSplits(mixed);
    RoundsAreLinear(Zeros(8) + mixed[8..], Widen(mixed[..8]), 8);
    HighBytesShift(mixed, held);
    LowByteIndexes(mixed);
  }

  /** The register fed one bit at a time. */
  function Serial(held: Word, bits: Bits): Word
    decreases |bits|
  {
    if bits == [] then held else Serial(Round(Xor(held, Widen(bits[..1]))), bits[1..])
  }

  /** Up to 32 bits may be mixed in at once and the rounds run afterwards. */
  lemma {:induction false} SerialIsRounds(held: Word, bits: Bits)
    requires |bits| <= 32
    ensures Serial(held, bits) == Rounds(Xor(held, Widen(bits)), |bits|)
    decreases |bits|
  {
    if bits == [] {
      assert Xor(held, Widen(bits)) == held;
    } else {
      var first: Word := Widen(bits[..1]);
      var rest: Word := [false] + bits[1..] + Zeros(32 - |bits|);
      assert Widen(bits) == Xor(first, rest);
      assert Xor(held, Widen(bits)) == Xor(Xor(held, first), rest);
      RoundIsLinear(Xor(held, first), rest);
      assert Round(rest) == Widen(bits[1..]);
      SerialIsRounds(Round(Xor(held, first)), bits[1..]);
    }
  }

  lemma {:induction false} SerialConcat(held: Word, a: Bits, b: Bits)
    ensures Serial(held, a + b) == Serial(Serial(held, a), b)
    decreases |a|
  {
    if a == [] {
      assert a + b == b;
    } else {
      assert (a + b)[..1] == a[..1];
      assert (a + b)[1..] == a[1..] + b;
      SerialConcat(Round(Xor(held, Widen(a[..1]))), a[1..], b);
    }
  }

  lemma {:induction false} MixingIsSerial(held: Word, bytes: seq<Byte>)
    ensures MixAll(held, bytes) == Serial(held, MessageBits(bytes))
    decreases |bytes|
  {
    if bytes == [] {
    } else {
      SerialIsRounds(held, ByteBits(bytes[0]));
      SerialConcat(held, ByteBits(bytes[0]), MessageBits(bytes[1..]));
      MixingIsSerial(Mix(held, bytes[0]), bytes[1..]);
    }
  }

  lemma LeadingBit(v: Word, p: Bits, i: nat)
    requires |p| >= 32 && i < |p|
    ensures AddLeading(v, p)[i] == if i < 32 then v[i] != p[i] else p[i]
  {
  }

  lemma DivisionBit(held: Word, padded: Bits, mixed: Word, i: nat)
    requires |padded| > 32 && mixed == Xor(held, Widen(padded[..1])) && i < |padded| - 1
    ensures var p, q := AddLeading(held, padded), AddLeading(Round(mixed), padded[1..]);
            p[0] == mixed[0] && q[i] == (p[i + 1] != (p[0] && i < 32 && POLYNOMIAL[i]))
  {
    LeadingBit(held, padded, 0);
    LeadingBit(held, padded, i + 1);
    LeadingBit(Round(mixed), padded[1..], i);
    if i < 32 {
      RoundBit(mixed, i);
    }
  }

  /** A coefficient cancelled, seen bit by bit. */
  lemma Cancelled(p: Bits, q: Bits)
    requires |p| == |q| + 1 > 32 && p[0]
    requires forall i :: 0 <= i < |q| ==> q[i] == (p[i + 1] != (i < 32 && POLYNOMIAL[i]))
    ensures Xor(p[1..33], POLYNOMIAL) + p[33..] == q
  {
  }

  /** One coefficient cancelled, or already zero, is one bit fed. */
  lemma DivisionStep(held: Word, padded: Bits, mixed: Word)
    requires |padded| > 32 && mixed == Xor(held, Widen(padded[..1]))
    ensures var p, q := AddLeading(held, padded), AddLeading(Round(mixed), padded[1..]);
            if p[0] then Xor(p[1..33], POLYNOMIAL) + p[33..] == q else p[1..] == q
  {
    var p, q := AddLeading(held, padded), AddLeading(Round(mixed), padded[1..]);
    forall i | 0 <= i < |q|
      ensures q[i] == (p[i + 1] != (p[0] && i < 32 && POLYNOMIAL[i]))
    {
      DivisionBit(held, padded, mixed, i);
    }
    if p[0] {
      Cancelled(p, q);
    }
  }

  /** Feeding a register bit by bit is long division, one cancelled coefficient a bit. */
  lemma {:induction false} SerialIsDivision(held: Word, bits: Bits)
    ensures Serial(held, bits) == Remainder(AddLeading(held, bits + Zeros(32)))
    decreases |bits|
  {
    if bits == [] {
      assert AddLeading(held, bits + Zeros(32)) == held;
    } else {
      var padded, mixed := bits + Zeros(32), Xor(held, Widen(bits[..1]));
      assert padded[..1] == bits[..1] && padded[1..] == bits[1..] + Zeros(32);
      DivisionStep(held, padded, mixed);
      SerialIsDivision(Round(mixed), bits[1..]);
    }
  }

  lemma CrcIsMixing(bytes: seq<Byte>)
    ensures Crc32(bytes) == Xor(MixAll(Ones(32), bytes), Ones(32))
  {
    MixingIsSerial(Ones(32), bytes);
    SerialIsDivision(Ones(32), MessageBits(bytes));
  }

  // ------------------------------------------------------------------ detection

  /** The divisor's leading coefficient, which is what makes a round undoable. */
  lemma PolynomialTop()
    ensures POLYNOMIAL[31]
  {
    Power2Values();
    TopBit(0xedb8_8320, 32);
  }

  /** No two registers become one: a round can be undone. */
  lemma RoundIsInjective(x: Word, y: Word)
    requires Round(x) == Round(y)
    ensures x == y
  {
    PolynomialTop();
    assert Round(x)[31] == x[0];
    assert Round(y)[31] == y[0];
    forall i | 1 <= i < 32
      ensures x[i] == y[i]
    {
      assert Round(x)[i - 1] == (x[i] != (x[0] && POLYNOMIAL[i - 1]));
      assert Round(y)[i - 1] == (y[i] != (y[0] && POLYNOMIAL[i - 1]));
    }
  }

  lemma {:induction false} RoundsAreInjective(x: Word, y: Word, n: nat)
    requires Rounds(x, n) == Rounds(y, n)
    ensures x == y
    decreases n
  {
    if n == 0 {
    } else {
      RoundsAreInjective(Round(x), Round(y), n - 1);
      RoundIsInjective(x, y);
    }
  }

  /** Whatever bits follow, two registers that differ stay different. */
  lemma {:induction false} SerialIsInjective(x: Word, y: Word, bits: Bits)
    requires Serial(x, bits) == Serial(y, bits)
    ensures x == y
    decreases |bits|
  {
    if bits == [] {
    } else {
      var w: Word := Widen(bits[..1]);
      SerialIsInjective(Round(Xor(x, w)), Round(Xor(y, w)), bits[1..]);
      RoundIsInjective(Xor(x, w), Xor(y, w));
      assert x == Xor(Xor(x, w), w);
      assert y == Xor(Xor(y, w), w);
    }
  }

  lemma {:induction false} MessageBitsConcat(a: seq<Byte>, b: seq<Byte>)
    ensures MessageBits(a + b) == MessageBits(a) + MessageBits(b)
  {
    if a == [] {
      assert a + b == b;
    } else {
      assert (a + b)[1..] == a[1..] + b;
      MessageBitsConcat(a[1..], b);
    }
  }

  lemma {:induction false} MessageBitsAreInjective(a: seq<Byte>, b: seq<Byte>)
    requires |a| == |b| && MessageBits(a) == MessageBits(b)
    ensures a == b
  {
    if a == [] {
    } else {
      assert ByteBits(a[0]) == MessageBits(a)[..8] == ByteBits(b[0]);
      assert MessageBits(a[1..]) == MessageBits(a)[8..] == MessageBits(b[1..]);
      MessageBitsAreInjective(a[1..], b[1..]);
      assert Power2(8) == 256;
      NumberOfBits(a[0] as nat, 8);
      NumberOfBits(b[0] as nat, 8);
    }
  }

  lemma MixedBitsAreTold(held: Word, p: Bits, q: Bits)
    requires |p| == |q| <= 32
    requires Xor(held, Widen(p)) == Xor(held, Widen(q))
    ensures p == q
  {
    forall i | 0 <= i < |p|
      ensures p[i] == q[i]
    {
      assert Xor(held, Widen(p))[i] == (held[i] != p[i]);
      assert Xor(held, Widen(q))[i] == (held[i] != q[i]);
    }
  }

  /** As many bits as the register has, or fewer, leave it somewhere only they lead to. */
  lemma ShortRunsAreTold(held: Word, p: Bits, q: Bits)
    requires |p| == |q| <= 32
    requires Serial(held, p) == Serial(held, q)
    ensures p == q
  {
    SerialIsRounds(held, p);
    SerialIsRounds(held, q);
    RoundsAreInjective(Xor(held, Widen(p)), Xor(held, Widen(q)), |p|);
    MixedBitsAreTold(held, p, q);
  }

  lemma SerialTellsBursts(held: Word, head: Bits, was: Bits, now: Bits, tail: Bits)
    requires |was| == |now| <= 32 && was != now
    ensures Serial(held, head + was + tail) != Serial(held, head + now + tail)
  {
    var start := Serial(held, head);
    SerialConcat(held, head + was, tail);
    SerialConcat(held, head, was);
    SerialConcat(held, head + now, tail);
    SerialConcat(held, head, now);
    if Serial(held, head + was + tail) == Serial(held, head + now + tail) {
      SerialIsInjective(Serial(start, was), Serial(start, now), tail);
      ShortRunsAreTold(start, was, now);
      assert false;
    }
  }

  /**
   * Damage confined to thirty-two consecutive bits, at whatever bit it starts,
   * always changes the checksum.
   */
  lemma BitBurstIsDetected(a: seq<Byte>, b: seq<Byte>, head: Bits, was: Bits, now: Bits, tail: Bits)
    requires |was| == |now| <= 32 && was != now
    requires MessageBits(a) == head + was + tail && MessageBits(b) == head + now + tail
    ensures Crc32(a) != Crc32(b)
  {
    CrcIsMixing(a);
    CrcIsMixing(b);
    MixingIsSerial(Ones(32), a);
    MixingIsSerial(Ones(32), b);
    SerialTellsBursts(Ones(32), head, was, now, tail);
    var x, y := MixAll(Ones(32), a), MixAll(Ones(32), b);
    assert x == Xor(Xor(x, Ones(32)), Ones(32));
    assert y == Xor(Xor(y, Ones(32)), Ones(32));
  }

  /** So does damage confined to four consecutive bytes. */
  lemma BurstIsDetected(head: seq<Byte>, was: seq<Byte>, now: seq<Byte>, tail: seq<Byte>)
    requires |was| == |now| <= 4
    requires was != now
    ensures Crc32(head + was + tail) != Crc32(head + now + tail)
  {
    MessageBitsConcat(head + was, tail);
    MessageBitsConcat(head, was);
    MessageBitsConcat(head + now, tail);
    MessageBitsConcat(head, now);
    if MessageBits(was) == MessageBits(now) {
      MessageBitsAreInjective(was, now);
      assert false;
    }
    BitBurstIsDetected(head + was + tail, head + now + tail,
                       MessageBits(head), MessageBits(was), MessageBits(now), MessageBits(tail));
  }

  // --------------------------------------------------------------------- stored

  /** A checksum as the four bytes a frame carries it in. */
  function CrcBytes(crc: Word): (s: seq<Byte>)
    ensures |s| == 4
  {
    BigEndian(NumberOf(crc), 4)
  }

  function CrcIn(s: seq<Byte>): Word
    requires |s| == 4
  {
    BitsOf(NatIn(s), 32)
  }

  lemma CrcRoundTrip(crc: Word)
    ensures CrcIn(CrcBytes(crc)) == crc
  {
    NumberOfBound(crc);
    Power2Values();
    U32RoundTrip(NumberOf(crc));
    BitsOfNumber(crc);
  }
}
