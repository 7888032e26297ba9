/**
 * Keys compare as unsigned bytes, lexicographically, so every component is
 * encoded for its byte order to be its logical order.
 */
module KeyOrder {
  import opened Bytes
  import opened Wrappers

  // -------------------------------------------------------------- byte order

  predicate Less(a: seq<Byte>, b: seq<Byte>) {
    b != [] && (a == [] || a[0] < b[0] || (a[0] == b[0] && Less(a[1..], b[1..])))
  }

  /** Neither is the beginning of the other. */
  predicate Diverge(a: seq<Byte>, b: seq<Byte>) {
    a != [] && b != [] && (a[0] != b[0] || Diverge(a[1..], b[1..]))
  }

  lemma Cons(x: Byte, a: seq<Byte>, s: seq<Byte>)
    ensures ([x] + a) + s == [x] + (a + s)
  {
  }

  lemma LessStep(x: Byte, a: seq<Byte>, y: Byte, b: seq<Byte>)
    ensures Less([x] + a, [y] + b) <==> x < y || (x == y && Less(a, b))
    ensures Diverge([x] + a, [y] + b) <==> x != y || Diverge(a, b)
  {
    assert ([x] + a)[1..] == a && ([y] + b)[1..] == b;
  }

  /** Where two encodings part decides, whatever follows them. */
  lemma {:induction false} FirstPartDecides(a: seq<Byte>, b: seq<Byte>, s: seq<Byte>, t: seq<Byte>)
    requires Diverge(a, b)
    ensures Less(a + s, b + t) <==> Less(a, b)
    ensures Diverge(a + s, b + t)
  {
    var x, y, c, d := a[0], b[0], a[1..], b[1..];
    assert a == [x] + c && b == [y] + d;
    if x == y {
      FirstPartDecides(c, d, s, t);
    }
    Cons(x, c, s);
    Cons(y, d, t);
    LessStep(x, c, y, d);
    LessStep(x, c + s, y, d + t);
  }

  /** What begins the same is decided by what follows. */
  lemma {:induction false} SamePartPasses(a: seq<Byte>, s: seq<Byte>, t: seq<Byte>)
    ensures Less(a + s, a + t) <==> Less(s, t)
    ensures Diverge(a + s, a + t) <==> Diverge(s, t)
  {
    if a == [] {
      assert a + s == s && a + t == t;
    } else {
      var c := a[1..];
      assert a == [a[0]] + c;
      SamePartPasses(c, s, t);
      Cons(a[0], c, s);
      Cons(a[0], c, t);
      LessStep(a[0], c + s, a[0], c + t);
    }
  }

  lemma {:induction false} NotLessItself(a: seq<Byte>)
    ensures !Less(a, a)
  {
    if a == [] {
    } else {
      NotLessItself(a[1..]);
    }
  }

  lemma {:induction false} SameWidthDiverges(a: seq<Byte>, b: seq<Byte>)
    requires |a| == |b| && a != b
    ensures Diverge(a, b)
  {
    if a[0] != b[0] {
    } else {
      assert a == [a[0]] + a[1..] && b == [b[0]] + b[1..];
      SameWidthDiverges(a[1..], b[1..]);
    }
  }

  /** Two components that never begin one another order what they stand before. */
  lemma ComponentsOrder(a: seq<Byte>, b: seq<Byte>, s: seq<Byte>, t: seq<Byte>)
    requires a == b || Diverge(a, b)
    ensures Less(a + s, b + t) <==> Less(a, b) || (a == b && Less(s, t))
  {
    if a == b {
      SamePartPasses(a, s, t);
      NotLessItself(a);
    } else {
      FirstPartDecides(a, b, s, t);
    }
  }

  // ----------------------------------------------------------- unsigned integers

  lemma BigEndianIsOneToOne(n: nat, m: nat, width: nat)
    requires n < Span(width) && m < Span(width)
    ensures BigEndian(n, width) == BigEndian(m, width) <==> n == m
  {
    BigEndianRoundTrip(n, width);
    BigEndianRoundTrip(m, width);
  }

  /** Fixed-width big-endian bytes sort as the numbers do. */
  lemma {:induction false} BigEndianOrders(n: nat, m: nat, width: nat)
    requires n < Span(width) && m < Span(width)
    ensures Less(BigEndian(n, width), BigEndian(m, width)) <==> n < m
    ensures n != m ==> Diverge(BigEndian(n, width), BigEndian(m, width))
  {
    BigEndianIsOneToOne(n, m, width);
    if n != m {
      SameWidthDiverges(BigEndian(n, width), BigEndian(m, width));
    }
    if width == 0 {
    } else {
      var a, b := BigEndian(n / 256, width - 1), BigEndian(m / 256, width - 1);
      var x, y := (n % 256) as Byte, (m % 256) as Byte;
      BigEndianOrders(n / 256, m / 256, width - 1);
      ComponentsOrder(a, b, [x], [y]);
      BigEndianIsOneToOne(n / 256, m / 256, width - 1);
      LessStep(x, [], y, []);
      assert [x] + [] == [x] && [y] + [] == [y];
    }
  }

  // ------------------------------------------------------------- signed integers

  const SIGN: int := 0x8000_0000_0000_0000

  predicate IsI64(n: int) {
    -SIGN <= n < SIGN
  }

  /** Two's complement. */
  function Unsigned(n: int): (r: nat)
    requires IsI64(n)
    ensures r < U64_SPAN
  {
    if n < 0 then n + U64_SPAN else n
  }

  function FlipTop(b: Byte): Byte {
    if b < 128 then b + 128 else b - 128
  }

  /** Big-endian two's complement with the top bit flipped. */
  function SignedBytes(n: int): (r: seq<Byte>)
    requires IsI64(n)
    ensures |r| == 8
  {
    var bytes := BigEndian(Unsigned(n), 8);
    [FlipTop(bytes[0])] + bytes[1..]
  }

  lemma {:induction false} TopByte(top: nat, rest: nat, width: nat)
    requires top < 256 && rest < Span(width)
    ensures BigEndian(top * Span(width) + rest, width + 1) == [top as Byte] + BigEndian(rest, width)
  {
    var n := top * Span(width) + rest;
    if width == 0 {
      assert BigEndian(n, 1) == BigEndian(n / 256, 0) + [(n % 256) as Byte];
    } else {
      var half := Span(width - 1);
      assert n == 256 * (top * half + rest / 256) + rest % 256;
      TopByte(top, rest / 256, width - 1);
      assert n / 256 == top * half + rest / 256;
      assert BigEndian(n, width + 1) == BigEndian(n / 256, width) + [(n % 256) as Byte];
      Cons(top as Byte, BigEndian(rest / 256, width - 1), [(rest % 256) as Byte]);
    }
  }

  /** Flipping the sign bit is adding half the range. */
  lemma SignedIsShifted(n: int)
    requires IsI64(n)
    ensures SignedBytes(n) == BigEndian(n + SIGN, 8)
  {
    var part := 0x100_0000_0000_0000;
    SevenBytes();
    var u := Unsigned(n);
    var top, rest := u / part, u % part;
    assert u == top * part + rest;
    TopByte(top, rest, 7);
    var flipped := if top < 128 then top + 128 else top - 128;
    assert n + SIGN == flipped * part + rest;
    TopByte(flipped, rest, 7);
  }

  lemma SevenBytes()
    ensures Span(7) == 0x100_0000_0000_0000
  {
    SpanValues();
    assert Span(8) == 256 * Span(7);
  }

  /** Signed integers sort numerically, negatives first. */
  lemma SignedOrders(n: int, m: int)
    requires IsI64(n) && IsI64(m)
    ensures Less(SignedBytes(n), SignedBytes(m)) <==> n < m
    ensures n != m ==> Diverge(SignedBytes(n), SignedBytes(m))
  {
    SpanValues();
    SignedIsShifted(n);
    SignedIsShifted(m);
    BigEndianOrders(n + SIGN, m + SIGN, 8);
  }

  // ------------------------------------------------ variable-length components

  const ESCAPE: Byte := 0x00
  const TERMINATOR: Byte := 0x01
  const ESCAPED_ZERO: Byte := 0xff

  /** How one byte of a component is written. */
  function EscapedByte(b: Byte): seq<Byte> {
    if b == ESCAPE then [ESCAPE, ESCAPED_ZERO] else [b]
  }

  function Escaped(s: seq<Byte>): seq<Byte> {
    if s == [] then [] else EscapedByte(s[0]) + Escaped(s[1..])
  }

  function Variable(s: seq<Byte>): seq<Byte> {
    Escaped(s) + [ESCAPE, TERMINATOR]
  }

  lemma VariableStep(s: seq<Byte>)
    requires s != []
    ensures Variable(s) == EscapedByte(s[0]) + Variable(s[1..])
  {
  }

  /** A longer component that extends a shorter one sorts after it. */
  lemma EndComesFirst(b: seq<Byte>)
    requires b != []
    ensures Less(Variable([]), Variable(b)) && !Less(Variable(b), Variable([])) && Diverge(Variable([]), Variable(b))
    ensures Diverge(Variable(b), Variable([]))
  {
    VariableStep(b);
    var rest := Variable(b[1..]);
    assert Variable([]) == [ESCAPE] + [TERMINATOR];
    if b[0] == ESCAPE {
      assert Variable(b) == [ESCAPE] + ([ESCAPED_ZERO] + rest);
      assert [TERMINATOR] == [TERMINATOR] + [];
      LessStep(TERMINATOR, [], ESCAPED_ZERO, rest);
      LessStep(ESCAPED_ZERO, rest, TERMINATOR, []);
      LessStep(ESCAPE, [TERMINATOR], ESCAPE, [ESCAPED_ZERO] + rest);
      LessStep(ESCAPE, [ESCAPED_ZERO] + rest, ESCAPE, [TERMINATOR]);
    } else {
      LessStep(ESCAPE, [TERMINATOR], b[0], rest);
      LessStep(b[0], rest, ESCAPE, [TERMINATOR]);
    }
  }

  lemma ByteComesFirst(x: Byte, a: seq<Byte>, y: Byte, b: seq<Byte>)
    requires x != y
    ensures Less(EscapedByte(x) + a, EscapedByte(y) + b) <==> x < y
    ensures Diverge(EscapedByte(x) + a, EscapedByte(y) + b)
  {
    var c := if x == ESCAPE then [ESCAPED_ZERO] + a else a;
    var d := if y == ESCAPE then [ESCAPED_ZERO] + b else b;
    assert EscapedByte(x) + a == [x] + c;
    assert EscapedByte(y) + b == [y] + d;
    LessStep(x, c, y, d);
  }

  /** Escaped, terminated components sort as the bytes they spell, and none begins another. */
  lemma {:induction false} VariableOrders(a: seq<Byte>, b: seq<Byte>)
    ensures Less(Variable(a), Variable(b)) <==> Less(a, b)
    ensures a != b ==> Diverge(Variable(a), Variable(b))
  {
    if a == [] && b == [] {
      NotLessItself(Variable([]));
    } else if a == [] {
      EndComesFirst(b);
    } else if b == [] {
      EndComesFirst(a);
    } else {
      VariableStep(a);
      VariableStep(b);
      if a[0] == b[0] {
        VariableOrders(a[1..], b[1..]);
        SamePartPasses(EscapedByte(a[0]), Variable(a[1..]), Variable(b[1..]));
        assert a == [a[0]] + a[1..] && b == [b[0]] + b[1..];
      } else {
        ByteComesFirst(a[0], Variable(a[1..]), b[0], Variable(b[1..]));
      }
    }
  }

  lemma EscapedStep(written: seq<Byte>, value: seq<Byte>, i: nat)
    requires i < |value|
    ensures written + Escaped(value[i..]) == (written + EscapedByte(value[i])) + Escaped(value[i + 1..])
  {
    assert value[i..][0] == value[i] && value[i..][1..] == value[i + 1..];
  }

  /** The component written byte by byte. */
  method PutVariable(value: seq<Byte>) returns (written: seq<Byte>)
    ensures written == Variable(value)
  {
    written := [];
    var i := 0;
    while i < |value|
      invariant i <= |value|
      invariant written + Escaped(value[i..]) == Escaped(value)
    {
      EscapedStep(written, value, i);
      if value[i] == ESCAPE {
        written := written + [ESCAPE, ESCAPED_ZERO];
      } else {
        written := written + [value[i]];
      }
      i := i + 1;
    }
    written := written + [ESCAPE, TERMINATOR];
  }

  // -------------------------------------------------------------- reading back

  datatype KeyError =
    Truncated | UnexpectedKind | Unterminated | InvalidEscape | InvalidUtf8 | UnknownIdKind | TrailingBytes

  /** A component, and what follows it. */
  datatype Took<T> = Took(value: T, rest: seq<Byte>)

  function TakeVariable(s: seq<Byte>): Result<Took<seq<Byte>>, KeyError> {
    if s == [] then Err(Unterminated)
    else if s[0] != ESCAPE then Prepend(s[0], TakeVariable(s[1..]))
    else if |s| == 1 then Err(Unterminated)
    else if s[1] == TERMINATOR then Ok(Took([], s[2..]))
    else if s[1] == ESCAPED_ZERO then Prepend(ESCAPE, TakeVariable(s[2..]))
    else Err(InvalidEscape)
  }

  function Prepend(b: Byte, taken: Result<Took<seq<Byte>>, KeyError>): Result<Took<seq<Byte>>, KeyError> {
    match taken
    case Ok(Took(value, rest)) => Ok(Took([b] + value, rest))
    case Err(why) => Err(why)
  }

  lemma TakesOne(b: Byte, after: seq<Byte>)
    ensures TakeVariable(EscapedByte(b) + after) == Prepend(b, TakeVariable(after))
  {
    var s := EscapedByte(b) + after;
    assert s[|EscapedByte(b)|..] == after;
  }

  lemma {:induction false} VariableReadsBack(value: seq<Byte>, rest: seq<Byte>)
    ensures TakeVariable(Variable(value) + rest) == Ok(Took(value, rest))
  {
    var s := Variable(value) + rest;
    if value == [] {
      assert s[2..] == rest;
    } else {
      var after := Variable(value[1..]) + rest;
      VariableReadsBack(value[1..], rest);
      VariableStep(value);
      assert s == EscapedByte(value[0]) + after;
      TakesOne(value[0], after);
      assert value == [value[0]] + value[1..];
    }
  }

  /** What reads is what the writer wrote: no component has a second spelling. */
  lemma {:induction false} VariableIsCanonical(s: seq<Byte>)
    requires TakeVariable(s).Ok?
    ensures s == Variable(TakeVariable(s).value.value) + TakeVariable(s).value.rest
  {
    var took := TakeVariable(s).value;
    if s[0] == ESCAPE && s[1] == TERMINATOR {
      assert s == [s[0], s[1]] + s[2..];
    } else {
      var width := if s[0] == ESCAPE then 2 else 1;
      VariableIsCanonical(s[width..]);
      VariableStep(took.value);
      assert took.value[1..] == TakeVariable(s[width..]).value.value;
      assert s == s[..width] + s[width..];
    }
  }

  /** A key being read, and how far. */
  class KeyReader {
    const input: seq<Byte>
    var position: nat

    ghost predicate Valid()
      reads this
    {
      position <= |input|
    }

    function Left(): seq<Byte>
      requires Valid()
      reads this
    {
      input[position..]
    }

    constructor (input: seq<Byte>)
      ensures Valid() && this.input == input && Left() == input
    {
      this.input := input;
      position := 0;
    }

    method TakeByte() returns (r: Option<Byte>)
      requires Valid()
      modifies this
      ensures Valid()
      ensures r == (if old(Left()) == [] then None else Some(old(Left())[0]))
      ensures Left() == if r.None? then old(Left()) else old(Left())[1..]
    {
      if position == |input| {
        return None;
      }
      r := Some(input[position]);
      position := position + 1;
    }

    /** A component written by `PutVariable`. */
    method Take() returns (r: Result<seq<Byte>, KeyError>)
      requires Valid()
      modifies this
      ensures Valid()
      ensures match TakeVariable(old(Left()))
              case Ok(Took(value, rest)) => r == Ok(value) && Left() == rest
              case Err(why) => r == Err(why)
    {
      ghost var start := Left();
      var out := [];
      JoinedNothing(TakeVariable(start));
      while true
        invariant Valid()
        invariant TakeVariable(start) == Joined(out, TakeVariable(Left()))
        decreases |input| - position
      {
        ghost var before := Left();
        var byte := TakeByte();
        if byte.None? {
          return Err(Unterminated);
        }
        if byte.value != ESCAPE {
          JoinedMore(out, byte.value, TakeVariable(before[1..]));
          out := out + [byte.value];
          continue;
        }
        var next := TakeByte();
        if next.None? {
          return Err(Unterminated);
        }
        assert before[1..][1..] == before[2..];
        if next.value == TERMINATOR {
          assert out + [] == out;
          return Ok(out);
        } else if next.value == ESCAPED_ZERO {
          JoinedMore(out, ESCAPE, TakeVariable(before[2..]));
          out := out + [ESCAPE];
        } else {
          return Err(InvalidEscape);
        }
      }
    }
  }

  function Joined(out: seq<Byte>, taken: Result<Took<seq<Byte>>, KeyError>): Result<Took<seq<Byte>>, KeyError> {
    match taken
    case Ok(Took(value, rest)) => Ok(Took(out + value, rest))
    case Err(why) => Err(why)
  }

  lemma JoinedNothing(taken: Result<Took<seq<Byte>>, KeyError>)
    ensures Joined([], taken) == taken
  {
    if taken.Ok? {
      assert [] + taken.value.value == taken.value.value;
    }
  }

  lemma JoinedMore(out: seq<Byte>, b: Byte, taken: Result<Took<seq<Byte>>, KeyError>)
    ensures Joined(out, Prepend(b, taken)) == Joined(out + [b], taken)
  {
    if taken.Ok? {
      assert out + ([b] + taken.value.value) == (out + [b]) + taken.value.value;
    }
  }

  function SignedIn(s: seq<Byte>): (n: int)
    requires |s| == 8
    ensures IsI64(n)
  {
    SpanValues();
    NatInBound([FlipTop(s[0])] + s[1..]);
    var u := NatIn([FlipTop(s[0])] + s[1..]);
    if u < SIGN then u else u - U64_SPAN
  }

  lemma SignedReadsBack(n: int)
    requires IsI64(n)
    ensures SignedIn(SignedBytes(n)) == n
  {
    var bytes := BigEndian(Unsigned(n), 8);
    var s := SignedBytes(n);
    assert [FlipTop(s[0])] + s[1..] == bytes;
    U64RoundTrip(Unsigned(n));
  }

  lemma SignedIsCanonical(s: seq<Byte>)
    requires |s| == 8
    ensures SignedBytes(SignedIn(s)) == s
  {
    var flipped := [FlipTop(s[0])] + s[1..];
    NatInBound(flipped);
    SpanValues();
    NatInRoundTrip(flipped);
    assert Unsigned(SignedIn(s)) == NatIn(flipped);
    assert [FlipTop(flipped[0])] + flipped[1..] == s;
  }

  // ------------------------------------------------------------------ key ranges

  datatype Bound = Included(key: seq<Byte>) | Excluded(key: seq<Byte>) | Unbounded

  datatype KeyRange = KeyRange(start: Bound, end: Bound)

  predicate Contains(range: KeyRange, key: seq<Byte>) {
    && (match range.start
        case Included(from) => !Less(key, from)
        case Excluded(from) => Less(from, key)
        case Unbounded => true)
    && (match range.end
        case Included(to) => !Less(to, key)
        case Excluded(to) => Less(key, to)
        case Unbounded => true)
  }

  /** Where the keys of a prefix stop, when they do before the end of all keys. */
  function UpperBound(prefix: seq<Byte>): Option<seq<Byte>> {
    if prefix == [] then None
    else
      var last := |prefix| - 1;
      if prefix[last] < 255 then Some(prefix[..last] + [prefix[last] + 1]) else UpperBound(prefix[..last])
  }

  method PrefixUpperBound(prefix: seq<Byte>) returns (r: Option<seq<Byte>>)
    ensures r == UpperBound(prefix)
  {
    var upper := prefix;
    while upper != []
      invariant UpperBound(upper) == UpperBound(prefix)
      decreases |upper|
    {
      var last := upper[|upper| - 1];
      upper := upper[..|upper| - 1];
      if last < 255 {
        return Some(upper + [last + 1]);
      }
    }
    return None;
  }

  function PrefixRange(prefix: seq<Byte>): KeyRange {
    match UpperBound(prefix)
    case Some(upper) => KeyRange(Included(prefix), Excluded(upper))
    case None => KeyRange(Included(prefix), Unbounded)
  }

  /** The bound, from the front of the prefix. */
  lemma {:induction false} UpperBoundStep(x: Byte, rest: seq<Byte>)
    ensures UpperBound([x] + rest)
            == match UpperBound(rest)
               case Some(upper) => Some([x] + upper)
               case None => if x < 255 then Some([x + 1]) else None
  {
    var all, last := [x] + rest, |rest| - 1;
    if rest == [] {
      assert all[..0] + [x + if x < 255 then 1 else 0] == [x + if x < 255 then 1 else 0];
    } else {
      assert all[..last + 1] == [x] + rest[..last];
      if rest[last] < 255 {
        Cons(x, rest[..last], [rest[last] + 1]);
      } else {
        UpperBoundStep(x, rest[..last]);
      }
    }
  }

  /** A prefix's range holds exactly the keys that begin with it, whatever the prefix. */
  lemma {:induction false} PrefixRangeIsExact(prefix: seq<Byte>, key: seq<Byte>)
    ensures Contains(PrefixRange(prefix), key) <==> prefix <= key
  {
    if prefix == [] || key == [] {
    } else {
      var x, p, y, k := prefix[0], prefix[1..], key[0], key[1..];
      assert prefix == [x] + p && key == [y] + k;
      UpperBoundStep(x, p);
      PrefixRangeIsExact(p, k);
      LessStep(y, k, x, p);
      match UpperBound(p)
      case Some(upper) => LessStep(y, k, x, upper);
      case None =>
        if x < 255 {
          LessStep(y, k, x + 1, []);
          assert [x + 1] + [] == [x + 1];
        }
      assert prefix <= key <==> x == y && p <= k;
    }
  }
}
