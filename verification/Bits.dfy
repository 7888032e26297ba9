/**
 * Machine words as their bits, least significant bit first.
 *
 * A shift right drops the first bit and appends a zero; exclusive or is
 * pointwise. Read the other way round, the same sequence is a polynomial over
 * the two-element field with its highest power first, which is how a reflected
 * CRC reads its register.
 */
module Bits {

  type Bits = seq<bool>

  function Zeros(n: nat): (r: Bits)
    ensures |r| == n && forall i :: 0 <= i < n ==> !r[i]
  {
    seq(n, _ => false)
  }

  function Ones(n: nat): (r: Bits)
    ensures |r| == n && forall i :: 0 <= i < n ==> r[i]
  {
    seq(n, _ => true)
  }

  function Xor(a: Bits, b: Bits): (r: Bits)
    requires |a| == |b|
    ensures |r| == |a| && forall i :: 0 <= i < |a| ==> r[i] == (a[i] != b[i])
  {
    seq(|a|, i requires 0 <= i < |a| => a[i] != b[i])
  }

  function ShiftRight(v: Bits, n: nat): (r: Bits)
    requires n <= |v|
    ensures |r| == |v|
  {
    v[n..] + Zeros(n)
  }

  /** The low `width` bits of `n`. */
  function BitsOf(n: nat, width: nat): (r: Bits)
    ensures |r| == width
  {
    if width == 0 then [] else [n % 2 == 1] + BitsOf(n / 2, width - 1)
  }

  function NumberOf(bits: Bits): nat {
    if bits == [] then 0 else (if bits[0] then 1 else 0) + 2 * NumberOf(bits[1..])
  }

  function Power2(n: nat): (r: nat)
    ensures r > 0
  {
    if n == 0 then 1 else 2 * Power2(n - 1)
  }

  lemma {:induction false} NumberOfBound(bits: Bits)
    ensures NumberOf(bits) < Power2(|bits|)
  {
    if bits == [] {
    } else {
      NumberOfBound(bits[1..]);
    }
  }

  lemma {:induction false} BitsOfNumber(bits: Bits)
    ensures BitsOf(NumberOf(bits), |bits|) == bits
  {
    if bits == [] {
    } else {
      BitsOfNumber(bits[1..]);
      assert NumberOf(bits) / 2 == NumberOf(bits[1..]);
    }
  }

  lemma {:induction false} NumberOfBits(n: nat, width: nat)
    requires n < Power2(width)
    ensures NumberOf(BitsOf(n, width)) == n
  {
    if width == 0 {
    } else {
      NumberOfBits(n / 2, width - 1);
      assert BitsOf(n, width)[1..] == BitsOf(n / 2, width - 1);
    }
  }

  lemma {:induction false} BitsOfZero(width: nat)
    ensures BitsOf(0, width) == Zeros(width)
  {
    if width == 0 {
    } else {
      BitsOfZero(width - 1);
    }
  }

  /** A number that needs no more than `low` bits is zero above them. */
  lemma {:induction false} BitsOfSmall(n: nat, low: nat, width: nat)
    requires low <= width && n < Power2(low)
    ensures BitsOf(n, width) == BitsOf(n, low) + Zeros(width - low)
  {
    if low == 0 {
      BitsOfZero(width);
    } else {
      BitsOfSmall(n / 2, low - 1, width - 1);
    }
  }

  lemma {:induction false} TopBit(n: nat, width: nat)
    requires width > 0 && Power2(width - 1) <= n < Power2(width)
    ensures BitsOf(n, width)[width - 1]
  {
    if width == 1 {
    } else {
      TopBit(n / 2, width - 1);
    }
  }

  lemma Power2Of8More(n: nat)
    ensures Power2(n + 8) == 256 * Power2(n)
  {
    assert Power2(n + 2) == 4 * Power2(n);
    assert Power2(n + 4) == 16 * Power2(n);
    assert Power2(n + 6) == 64 * Power2(n);
  }

  lemma Power2Values()
    ensures Power2(8) == 0x100
    ensures Power2(31) == 0x8000_0000
    ensures Power2(32) == 0x1_0000_0000
  {
    Power2Of8More(0);
    Power2Of8More(8);
    Power2Of8More(16);
    Power2Of8More(24);
  }
}
