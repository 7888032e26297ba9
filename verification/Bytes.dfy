/** Bytes, and the fixed-width big-endian integers every format here is built from. */
module Bytes {

  newtype Byte = n: int | 0 <= n < 256

  /** 256 raised to `width`: one more than the largest integer `width` bytes hold. */
  function Span(width: nat): (r: nat)
    ensures r > 0
  {
    if width == 0 then 1 else 256 * Span(width - 1)
  }

  const U32_SPAN: nat := 0x1_0000_0000
  const U64_SPAN: nat := 0x1_0000_0000_0000_0000

  function Max(a: nat, b: nat): nat {
    if a < b then b else a
  }

  lemma SpanValues()
    ensures Span(1) == 256
    ensures Span(4) == U32_SPAN
    ensures Span(8) == U64_SPAN
  {
    assert Span(2) == 65536;
    assert Span(4) == 65536 * 65536;
    assert Span(6) == 65536 * 65536 * 65536;
  }

  /** `n` as exactly `width` bytes, most significant first; high digits are dropped when it does not fit. */
  function BigEndian(n: nat, width: nat): (s: seq<Byte>)
    ensures |s| == width
  {
    if width == 0 then [] else BigEndian(n / 256, width - 1) + [(n % 256) as Byte]
  }

  /** The integer a byte string spells, most significant byte first. */
  function NatIn(s: seq<Byte>): nat {
    if s == [] then 0 else NatIn(s[..|s| - 1]) * 256 + s[|s| - 1] as nat
  }

  lemma {:induction false} NatInBound(s: seq<Byte>)
    ensures NatIn(s) < Span(|s|)
  {
    if s == [] {
    } else {
      NatInBound(s[..|s| - 1]);
    }
  }

  /** What is written is what is read back. */
  lemma {:induction false} BigEndianRoundTrip(n: nat, width: nat)
    requires n < Span(width)
    ensures NatIn(BigEndian(n, width)) == n
  {
    if width == 0 {
    } else {
      var s := BigEndian(n, width);
      assert s[..width - 1] == BigEndian(n / 256, width - 1);
      BigEndianRoundTrip(n / 256, width - 1);
    }
  }

  /** What is read is what was written: no two byte strings of one width spell one integer. */
  lemma {:induction false} NatInRoundTrip(s: seq<Byte>)
    ensures BigEndian(NatIn(s), |s|) == s
  {
    if s == [] {
    } else {
      var init := s[..|s| - 1];
      NatInRoundTrip(init);
      assert NatIn(s) / 256 == NatIn(init);
      assert s == init + [s[|s| - 1]];
    }
  }

  lemma U32RoundTrip(n: nat)
    requires n < U32_SPAN
    ensures NatIn(BigEndian(n, 4)) == n
  {
    SpanValues();
    BigEndianRoundTrip(n, 4);
  }

  lemma U64RoundTrip(n: nat)
    requires n < U64_SPAN
    ensures NatIn(BigEndian(n, 8)) == n
  {
    SpanValues();
    BigEndianRoundTrip(n, 8);
  }
}
