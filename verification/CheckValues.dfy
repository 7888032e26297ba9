/** The checksum's divisor coefficient by coefficient, its code's form on machine words, and the value it is known by. */
module CheckValues {
  import opened Bytes
  import opened Bits
  import opened Checksum

  // ----------------------------------------------------------------- the divisor

  /** The powers below x^32 that the generator of IEEE 802.3 has. */
  const EXPONENTS: set<nat> := {0, 1, 2, 4, 5, 7, 8, 10, 11, 12, 16, 22, 23, 26}

  /** The low bits of `n`, least significant first, are the coefficients from x^(top - 1) down to x^0. */
  predicate Spells(n: nat, top: nat)
    decreases top
  {
    if top == 0 then true
    else if (n % 2 == 1) != (top - 1 in EXPONENTS) then false
    else Spells(n / 2, top - 1)
  }

  lemma {:induction false} SpelledBit(n: nat, top: nat, i: nat)
    requires Spells(n, top) && i < top
    ensures BitsOf(n, top)[top - 1 - i] <==> i in EXPONENTS
    decreases top
  {
    if i == top - 1 {
    } else {
      SpelledBit(n / 2, top - 1, i);
    }
  }

  lemma HighByteSpells()
    ensures Spells(0xed, 8)
  {
    assert Spells(0xed, 8) == true;
  }

  lemma HighBytesSpell()
    ensures Spells(0xedb8, 16)
  {
    HighByteSpells();
    assert Spells(0xedb8, 16) == true;
  }

  lemma ThreeBytesSpell()
    ensures Spells(0xed_b883, 24)
  {
    HighBytesSpell();
    assert Spells(0xed_b883, 24) == true;
  }

  lemma PolynomialSpells()
    ensures Spells(0xedb8_8320, 32)
  {
    ThreeBytesSpell();
    assert Spells(0xedb8_8320, 32) == true;
  }

  /**
   * The divisor is x^32 + x^26 + x^23 + x^22 + x^16 + x^12 + x^11 + x^10 + x^8 +
   * x^7 + x^5 + x^4 + x^2 + x + 1, highest power first.
   */
  lemma PolynomialCoefficients(i: nat)
    requires i < 32
    ensures POLYNOMIAL[31 - i] <==> i in EXPONENTS
  {
    PolynomialSpells();
    SpelledBit(0xedb8_8320, 32, i);
  }

  // ------------------------------------------------------------- on machine words

  /** A thing's bits one at a time, by what it says of its lowest and what is left without it. */
  function Unfolded<S>(low: S -> bool, half: S -> S, s: S, n: nat): (r: Bits)
    ensures |r| == n
  {
    if n == 0 then [] else [low(s)] + Unfolded(low, half, half(s), n - 1)
  }

  function Low(w: bv32): bool {
    w & 1 == 1
  }

  function Half(w: bv32): bv32 {
    w >> 1
  }

  function Both(x: bv32, y: bv32): bv32 {
    x ^ y
  }

  /** The low `n` bits of a machine word, least significant first. */
  function WordBits(w: bv32, n: nat): (r: Bits)
    ensures |r| == n
  {
    Unfolded(Low, Half, w, n)
  }

  function Register(w: bv32): Word {
    WordBits(w, 32)
  }

  /** The machine word and the number have the same low bits. */
  predicate Alike(w: bv32, n: nat, width: nat)
    decreases width
  {
    if width == 0 then true
    else if (w & 1 == 1) != (n % 2 == 1) then false
    else Alike(w >> 1, n / 2, width - 1)
  }

  lemma {:induction false} AlikeBits(w: bv32, n: nat, width: nat)
    requires Alike(w, n, width)
    ensures WordBits(w, width) == BitsOf(n, width)
    decreases width
  {
    if width == 0 {
    } else {
      AlikeBits(w >> 1, n / 2, width - 1);
    }
  }

  lemma XorBits(x: bv32, y: bv32)
    ensures Low(Both(x, y)) == (Low(x) != Low(y))
    ensures Half(Both(x, y)) == Both(Half(x), Half(y))
  {
  }

  lemma XorAhead(a: bool, b: bool, p: Bits, q: Bits)
    requires |p| == |q|
    ensures Xor([a] + p, [b] + q) == [a != b] + Xor(p, q)
  {
  }

  lemma {:induction false} UnfoldedXor<S>(low: S -> bool, half: S -> S, both: (S, S) -> S, x: S, y: S, n: nat)
    requires forall a, b :: low(both(a, b)) == (low(a) != low(b)) && half(both(a, b)) == both(half(a), half(b))
    ensures Unfolded(low, half, both(x, y), n) == Xor(Unfolded(low, half, x, n), Unfolded(low, half, y, n))
  {
    if n == 0 {
    } else {
      UnfoldedXor(low, half, both, half(x), half(y), n - 1);
      XorAhead(low(x), low(y), Unfolded(low, half, half(x), n - 1), Unfolded(low, half, half(y), n - 1));
    }
  }

  lemma WordsXor(x: bv32, y: bv32, n: nat)
    ensures WordBits(x ^ y, n) == Xor(WordBits(x, n), WordBits(y, n))
  {
    forall a, b
      ensures Low(Both(a, b)) == (Low(a) != Low(b)) && Half(Both(a, b)) == Both(Half(a), Half(b))
    {
      XorBits(a, b);
    }
    UnfoldedXor(Low, Half, Both, x, y, n);
  }

  /** The largest word of `n` bits. */
  function Mask(n: nat): bv32 {
    if n == 0 then 0 else (Mask(n - 1) << 1) | 1
  }

  lemma HalfWithin(w: bv32, mask: bv32)
    requires w <= (mask << 1) | 1
    ensures w >> 1 <= mask
  {
  }

  lemma {:induction false} UnfoldedPast<S>(low: S -> bool, half: S -> S, within: (S, nat) -> bool, s: S, n: nat)
    requires forall t :: within(t, 0) ==> !low(t)
    requires forall t, k: nat :: within(t, k + 1) ==> within(half(t), k)
    requires within(s, n)
    ensures Unfolded(low, half, s, n + 1) == Unfolded(low, half, s, n) + [false]
  {
    if n == 0 {
      assert Unfolded(low, half, half(s), 0) == [];
    } else {
      assert within(s, (n - 1) + 1);
      UnfoldedPast(low, half, within, half(s), n - 1);
    }
  }

  predicate Within(w: bv32, n: nat) {
    w <= Mask(n)
  }

  lemma WithinNothing(w: bv32)
    requires Within(w, 0)
    ensures !Low(w)
  {
  }

  lemma HalvesWithin(w: bv32, n: nat)
    requires Within(w, n + 1)
    ensures Within(Half(w), n)
  {
    HalfWithin(w, Mask(n));
  }

  lemma PastTheEnd(w: bv32, n: nat)
    requires Within(w, n)
    ensures WordBits(w, n + 1) == WordBits(w, n) + [false]
  {
    forall t | Within(t, 0)
      ensures !Low(t)
    {
      WithinNothing(t);
    }
    forall t, k: nat | Within(t, k + 1)
      ensures Within(Half(t), k)
    {
      HalvesWithin(t, k);
    }
    UnfoldedPast(Low, Half, Within, w, n);
  }

  lemma HalfWordIsWithin(w: bv32)
    ensures Within(w >> 1, 31)
  {
    assert Mask(8) == 0xff;
    assert Mask(16) == 0xffff;
    assert Mask(24) == 0xff_ffff;
    assert Mask(31) == 0x7fff_ffff;
  }

  lemma ShiftedRegister(w: bv32)
    ensures Register(w >> 1) == ShiftRight(Register(w), 1) && Register(w)[0] == (w & 1 == 1)
  {
    HalfWordIsWithin(w);
    PastTheEnd(w >> 1, 31);
    assert Register(w) == [w & 1 == 1] + WordBits(w >> 1, 31);
  }

  lemma PolynomialHighHalf()
    ensures Alike(0xedb8, 0xedb8, 16)
  {
    assert Alike(0xed, 0xed, 8) == true;
    assert Alike(0xedb8, 0xedb8, 16) == true;
  }

  lemma PolynomialWord()
    ensures POLYNOMIAL == Register(0xedb8_8320)
  {
    PolynomialHighHalf();
    assert Alike(0xed_b883, 0xed_b883, 24) == true;
    assert Alike(0xedb8_8320, 0xedb8_8320, 32) == true;
    AlikeBits(0xedb8_8320, 0xedb8_8320, 32);
  }

  /** One turn of the code's inner loop, on a `u32`. */
  function Turned(w: bv32): bv32 {
    if w & 1 == 1 then (w >> 1) ^ 0xedb8_8320 else w >> 1
  }

  function Turns(w: bv32, n: nat): bv32
    decreases n
  {
    if n == 0 then w else Turns(Turned(w), n - 1)
  }

  lemma TurnedWith(w: bv32, half: bv32, odd: bool, p: bv32)
    requires Register(half) == ShiftRight(Register(w), 1) && Register(w)[0] == odd && Register(p) == POLYNOMIAL
    ensures Round(Register(w)) == Register(if odd then half ^ p else half)
  {
    WordsXor(half, p, 32);
  }

  /** A round on the bits is the code's turn on the machine word. */
  lemma TurnedIsRound(w: bv32)
    ensures Round(Register(w)) == Register(Turned(w))
  {
    PolynomialWord();
    TurnedBy(w, 0xedb8_8320);
  }

  lemma TurnedBy(w: bv32, p: bv32)
    requires Register(p) == POLYNOMIAL
    ensures Round(Register(w)) == Register(if w & 1 == 1 then (w >> 1) ^ p else w >> 1)
  {
    ShiftedRegister(w);
    TurnedWith(w, w >> 1, w & 1 == 1, p);
  }

  lemma {:induction false} TurnsAreRounds(w: bv32, n: nat)
    ensures Rounds(Register(w), n) == Register(Turns(w, n))
    decreases n
  {
    if n == 0 {
    } else {
      TurnedIsRound(w);
      TurnsAreRounds(Turned(w), n - 1);
    }
  }

  // -------------------------------------------------------------- the check value

  lemma MixOne(held: bv32, b: Byte, w: bv32, next: bv32)
    requires Alike(w, b as nat, 32) && Turns(held ^ w, 8) == next
    ensures Mix(Register(held), b) == Register(next)
  {
    Power2Values();
    BitsOfSmall(b as nat, 8, 32);
    AlikeBits(w, b as nat, 32);
    WordsXor(held, w, 32);
    TurnsAreRounds(held ^ w, 8);
  }

  lemma {:induction false} ZeroIsAlike(width: nat)
    ensures Alike(0, 0, width)
  {
    if width == 0 {
    } else {
      ZeroIsAlike(width - 1);
    }
  }

  lemma LowDigitsAreAlike()
    ensures Alike(0x31, 0x31, 32)
    ensures Alike(0x32, 0x32, 32)
    ensures Alike(0x33, 0x33, 32)
  {
    ZeroIsAlike(24);
    assert Alike(0x31, 0x31, 32) == true;
    assert Alike(0x32, 0x32, 32) == true;
    assert Alike(0x33, 0x33, 32) == true;
  }

  lemma MiddleDigitsAreAlike()
    ensures Alike(0x34, 0x34, 32)
    ensures Alike(0x35, 0x35, 32)
    ensures Alike(0x36, 0x36, 32)
  {
    ZeroIsAlike(24);
    assert Alike(0x34, 0x34, 32) == true;
    assert Alike(0x35, 0x35, 32) == true;
    assert Alike(0x36, 0x36, 32) == true;
  }

  lemma HighDigitsAreAlike()
    ensures Alike(0x37, 0x37, 32)
    ensures Alike(0x38, 0x38, 32)
    ensures Alike(0x39, 0x39, 32)
  {
    ZeroIsAlike(24);
    assert Alike(0x37, 0x37, 32) == true;
    assert Alike(0x38, 0x38, 32) == true;
    assert Alike(0x39, 0x39, 32) == true;
  }

  /** The register after each of the nine digits, as the code computes it. */
  lemma DigitsTurn()
    ensures Turns(0xffff_ffff ^ 0x31, 8) == 0x7c23_1048
    ensures Turns(0x7c23_1048 ^ 0x32, 8) == 0xb0ac_bb32
    ensures Turns(0xb0ac_bb32 ^ 0x33, 8) == 0x77b7_9c2d
    ensures Turns(0x77b7_9c2d ^ 0x34, 8) == 0x641c_1f5c
    ensures Turns(0x641c_1f5c ^ 0x35, 8) == 0x340a_c5e3
    ensures Turns(0x340a_c5e3 ^ 0x36, 8) == 0xf68d_2c9e
    ensures Turns(0xf68d_2c9e ^ 0x37, 8) == 0xaffc_9660
    ensures Turns(0xaffc_9660 ^ 0x38, 8) == 0x651f_2550
    ensures Turns(0x651f_2550 ^ 0x39, 8) == 0x340b_c6d9
  {
  }

  lemma DigitsMix()
    ensures Mix(Register(0xffff_ffff), 0x31) == Register(0x7c23_1048)
    ensures Mix(Register(0x7c23_1048), 0x32) == Register(0xb0ac_bb32)
    ensures Mix(Register(0xb0ac_bb32), 0x33) == Register(0x77b7_9c2d)
    ensures Mix(Register(0x77b7_9c2d), 0x34) == Register(0x641c_1f5c)
    ensures Mix(Register(0x641c_1f5c), 0x35) == Register(0x340a_c5e3)
    ensures Mix(Register(0x340a_c5e3), 0x36) == Register(0xf68d_2c9e)
    ensures Mix(Register(0xf68d_2c9e), 0x37) == Register(0xaffc_9660)
    ensures Mix(Register(0xaffc_9660), 0x38) == Register(0x651f_2550)
    ensures Mix(Register(0x651f_2550), 0x39) == Register(0x340b_c6d9)
  {
    LowDigitsAreAlike();
    MiddleDigitsAreAlike();
    HighDigitsAreAlike();
    DigitsTurn();
    MixOne(0xffff_ffff, 0x31, 0x31, 0x7c23_1048);
    MixOne(0x7c23_1048, 0x32, 0x32, 0xb0ac_bb32);
    MixOne(0xb0ac_bb32, 0x33, 0x33, 0x77b7_9c2d);
    MixOne(0x77b7_9c2d, 0x34, 0x34, 0x641c_1f5c);
    MixOne(0x641c_1f5c, 0x35, 0x35, 0x340a_c5e3);
    MixOne(0x340a_c5e3, 0x36, 0x36, 0xf68d_2c9e);
    MixOne(0xf68d_2c9e, 0x37, 0x37, 0xaffc_9660);
    MixOne(0xaffc_9660, 0x38, 0x38, 0x651f_2550);
    MixOne(0x651f_2550, 0x39, 0x39, 0x340b_c6d9);
  }

  function Folded<A>(f: (A, Byte) -> A, a: A, bytes: seq<Byte>): A
    decreases |bytes|
  {
    if bytes == [] then a else Folded(f, f(a, bytes[0]), bytes[1..])
  }

  lemma {:induction false} MixAllFolds(held: Word, bytes: seq<Byte>)
    ensures MixAll(held, bytes) == Folded(Mix, held, bytes)
    decreases |bytes|
  {
    if bytes == [] {
    } else {
      MixAllFolds(Mix(held, bytes[0]), bytes[1..]);
    }
  }

  /** Things that follow from one another byte by byte. */
  lemma {:induction false} FoldsAlong<A>(f: (A, Byte) -> A, held: seq<A>, bytes: seq<Byte>)
    requires |held| == |bytes| + 1 && forall i :: 0 <= i < |bytes| ==> f(held[i], bytes[i]) == held[i + 1]
    ensures Folded(f, held[0], bytes) == held[|bytes|]
    decreases |bytes|
  {
    if bytes == [] {
    } else {
      forall i | 0 <= i < |bytes[1..]|
        ensures f(held[1..][i], bytes[1..][i]) == held[1..][i + 1]
      {
        assert f(held[i + 1], bytes[i + 1]) == held[i + 2];
      }
      FoldsAlong(f, held[1..], bytes[1..]);
    }
  }

  predicate IsOnes(w: bv32, n: nat)
    decreases n
  {
    if n == 0 then true else if w & 1 != 1 then false else IsOnes(w >> 1, n - 1)
  }

  lemma {:induction false} OnesBits(w: bv32, n: nat)
    requires IsOnes(w, n)
    ensures WordBits(w, n) == Ones(n)
    decreases n
  {
    if n == 0 {
    } else {
      OnesBits(w >> 1, n - 1);
    }
  }

  lemma OnesWord()
    ensures Register(0xffff_ffff) == Ones(32)
  {
    assert IsOnes(0xff, 8) == true;
    assert IsOnes(0xffff, 16) == true;
    assert IsOnes(0xff_ffff, 24) == true;
    assert IsOnes(0xffff_ffff, 32) == true;
    OnesBits(0xffff_ffff, 32);
  }

  /** "123456789" */
  const DIGITS: seq<Byte> := [0x31, 0x32, 0x33, 0x34, 0x35, 0x36, 0x37, 0x38, 0x39]

  lemma NineDigits<A>(f: (A, Byte) -> A, r0: A, r1: A, r2: A, r3: A, r4: A, r5: A, r6: A, r7: A, r8: A, r9: A)
    requires f(r0, 0x31) == r1 && f(r1, 0x32) == r2 && f(r2, 0x33) == r3
    requires f(r3, 0x34) == r4 && f(r4, 0x35) == r5 && f(r5, 0x36) == r6
    requires f(r6, 0x37) == r7 && f(r7, 0x38) == r8 && f(r8, 0x39) == r9
    ensures Folded(f, r0, DIGITS) == r9
  {
    FoldsAlong(f, [r0, r1, r2, r3, r4, r5, r6, r7, r8, r9], DIGITS);
  }

  lemma DigitsMixTo()
    ensures MixAll(Register(0xffff_ffff), DIGITS) == Register(0x340b_c6d9)
  {
    DigitsMix();
    MixAllFolds(Register(0xffff_ffff), DIGITS);
    NineDigits(Mix, Register(0xffff_ffff), Register(0x7c23_1048), Register(0xb0ac_bb32), Register(0x77b7_9c2d), Register(0x641c_1f5c),
               Register(0x340a_c5e3), Register(0xf68d_2c9e), Register(0xaffc_9660), Register(0x651f_2550), Register(0x340b_c6d9));
  }

  lemma CheckHighHalf()
    ensures Alike(0xcbf4, 0xcbf4, 16)
  {
    assert Alike(0xcb, 0xcb, 8) == true;
    assert Alike(0xcbf4, 0xcbf4, 16) == true;
  }

  lemma CheckWord()
    ensures Register(0xcbf4_3926) == BitsOf(0xcbf4_3926, 32)
  {
    CheckHighHalf();
    assert Alike(0xcb_f439, 0xcb_f439, 24) == true;
    assert Alike(0xcbf4_3926, 0xcbf4_3926, 32) == true;
    AlikeBits(0xcbf4_3926, 0xcbf4_3926, 32);
  }

  lemma DigitsCrc(start: Word, ones: bv32, last: bv32, crc: bv32)
    requires start == Ones(32) && Register(ones) == start && MixAll(start, DIGITS) == Register(last) && last ^ ones == crc
    ensures Crc32(DIGITS) == Register(crc)
  {
    CrcIsMixing(DIGITS);
    WordsXor(last, ones, 32);
  }

  lemma DigitsCrcWord()
    ensures Crc32(DIGITS) == Register(0xcbf4_3926)
  {
    OnesWord();
    DigitsMixTo();
    DigitsCrc(Ones(32), 0xffff_ffff, 0x340b_c6d9, 0xcbf4_3926);
  }

  lemma StoredHighFirst(crc: Word)
    requires crc == BitsOf(0xcbf4_3926, 32)
    ensures CrcBytes(crc) == [0xcb, 0xf4, 0x39, 0x26]
  {
    Power2Values();
    NumberOfBits(0xcbf4_3926, 32);
  }

  /** The checksum of "123456789" is 0xcbf43926, stored high byte first. */
  lemma CheckValue()
    ensures Crc32(DIGITS) == BitsOf(0xcbf4_3926, 32)
    ensures CrcBytes(Crc32(DIGITS)) == [0xcb, 0xf4, 0x39, 0x26]
  {
    DigitsCrcWord();
    CheckWord();
    StoredHighFirst(Crc32(DIGITS));
  }
}
