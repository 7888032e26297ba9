/**
 * The bytes of a backup file and what they spell: a head, then frames.
 *
 * The functions say what a byte string means; the methods consume a stream that
 * may hand its bytes over a few at a time, and are proved to find that meaning
 * whatever the pattern of its reads.
 */
module Format {
  import opened Bytes
  import opened Wrappers
  import opened Layout
  import opened Lists
  import opened Report
  import opened Bits
  import opened Checksum

  /** "TESSARILOG" */
  const MAGIC: seq<Byte> := [84, 69, 83, 83, 65, 82, 73, 76, 79, 71]
  /** "TESSALOG", which older files begin with. */
  const LEGACY_MAGIC: seq<Byte> := [84, 69, 83, 83, 65, 76, 79, 71]
  const FORMAT: Byte := 4
  const CODEC_VERSION: Byte := 1
  const FRAME_SECTION: Byte := 1
  const FRAME_RECORD: Byte := 2
  const FRAME_SHARD_SECTION: Byte := 3

  const HEAD_LENGTH: nat := 28

  datatype Head = Head(writer: Version, sections: U32)

  /** What one frame of a file turned out to be. The last two end the reading. */
  datatype Event =
    | Opens(span: LogSpan)
    | Holds(sequence: U64, body: seq<Byte>)
    | CutShort
    | Fails(error: Error)
  {
    predicate Whole() {
      Opens? || Holds?
    }
  }

  datatype Step = AtEnd | Took(event: Event, used: nat)

  // --------------------------------------------------------------- what it means

  function VersionIn(s: seq<Byte>): Version
    requires |s| == 12
  {
    Version(U32In(s[..4]), U32In(s[4..8]), U32In(s[8..12]))
  }

  /** The head after its magic, as read by a build running version `running`. */
  function HeadAfterMagic(s: seq<Byte>, running: Version): Result<Head, Error> {
    if |s| < 2 then Err(NotABackup)
    else if s[0] != FORMAT then Err(Unsupported(Framing, s[0]))
    else if s[1] != CODEC_VERSION then Err(Unsupported(RecordCodec, s[1]))
    else if |s| < 14 then Err(NotABackup)
    else if VersionIn(s[2..14]).NewerThan(running) then Err(WrittenByNewer(VersionIn(s[2..14])))
    else if |s| < 18 then Err(NotABackup)
    else Ok(Head(VersionIn(s[2..14]), U32In(s[14..18])))
  }

  /** How many bytes the magic at the start of `s` takes, if there is one. */
  function MagicIn(s: seq<Byte>): (r: Option<nat>)
    ensures r.Some? ==> r.value <= |s|
  {
    if |s| < 8 then None
    else if s[..8] == LEGACY_MAGIC then Some(8)
    else if s[..8] != MAGIC[..8] then None
    else if |s| < 10 then None
    else if s[8..10] != MAGIC[8..] then None
    else Some(10)
  }

  function HeadIn(s: seq<Byte>, running: Version): Result<Head, Error> {
    match MagicIn(s)
    case None => Err(NotABackup)
    case Some(n) => HeadAfterMagic(s[n..], running)
  }

  /** What follows the head of a file whose head reads. */
  function BodyOf(s: seq<Byte>): seq<Byte>
    requires exists running :: HeadIn(s, running).Ok?
  {
    s[MagicIn(s).value + 18..]
  }

  /** A stream that stops inside a frame was cut there, or broke there. */
  function Stopped(broken: bool): Event {
    if broken then Fails(Io) else CutShort
  }

  function SectionIn(s: seq<Byte>, broken: bool): Step {
    if |s| < 41 then Took(Stopped(broken), 0)
    else match LogIn(s[..25])
      case None => Took(Fails(NotABackup), 0)
      case Some(log) => Took(Opens(LogSpan(log, U64In(s[25..33]), U64In(s[33..41]))), 41)
  }

  function ShardSectionIn(s: seq<Byte>, broken: bool): Step {
    if |s| < 49 then Took(Stopped(broken), 0)
    else match ShardLogIn(s[..33])
      case None => Took(Fails(NotABackup), 0)
      case Some(log) => Took(Opens(LogSpan(log, U64In(s[33..41]), U64In(s[41..49]))), 49)
  }

  function RecordIn(s: seq<Byte>, broken: bool): Step {
    if |s| < 16 then Took(Stopped(broken), 0)
    else
      var length := U32In(s[..4]);
      var sequence := U64In(s[4..12]);
      if |s| < 16 + length then Took(Stopped(broken), 0)
      else
        var body := s[16..16 + length];
        if Crc32(body) != CrcIn(s[12..16]) then Took(Fails(Damaged(sequence)), 0)
        else Took(Holds(sequence, body), 16 + length)
  }

  /** One frame past its tag counted. */
  function PastTag(step: Step): Step {
    if step.Took? && step.event.Whole() then Took(step.event, step.used + 1) else step
  }

  /** The next frame of what is left of a stream that is `broken` past its last byte or ends there. */
  function Next(s: seq<Byte>, broken: bool): (r: Step)
    ensures r.Took? && r.event.Whole() ==> 0 < r.used <= |s|
  {
    if s == [] then (if broken then Took(Fails(Io), 0) else AtEnd)
    else if s[0] == FRAME_SECTION then PastTag(SectionIn(s[1..], broken))
    else if s[0] == FRAME_SHARD_SECTION then PastTag(ShardSectionIn(s[1..], broken))
    else if s[0] == FRAME_RECORD then PastTag(RecordIn(s[1..], broken))
    else Took(Fails(NotABackup), 0)
  }

  /** Every frame of what is left, ending at the first that cannot be read. */
  function Events(s: seq<Byte>, broken: bool): seq<Event>
    decreases |s|
  {
    match Next(s, broken)
    case AtEnd => []
    case Took(event, used) => if event.Whole() then [event] + Events(s[used..], broken) else [event]
  }

  // ------------------------------------------------------------- what is written

  function VersionBytes(v: Version): (s: seq<Byte>)
    ensures |s| == 12
  {
    BigEndian(v.major, 4) + BigEndian(v.minor, 4) + BigEndian(v.patch, 4)
  }

  function HeadBytes(head: Head): (s: seq<Byte>)
    ensures |s| == HEAD_LENGTH
  {
    MAGIC + [FORMAT, CODEC_VERSION] + VersionBytes(head.writer) + BigEndian(head.sections, 4)
  }

  function SpanBytes(span: LogSpan): (s: seq<Byte>) {
    (if span.log.home.Shard? then [FRAME_SHARD_SECTION] + ShardLogBytes(span.log)
     else [FRAME_SECTION] + LogBytes(span.log))
    + BigEndian(span.from, 8) + BigEndian(span.tail, 8)
  }

  /** The length a frame states, which saturates at the largest a `u32` holds. */
  function LengthField(n: nat): U32 {
    if n < U32_SPAN then n else U32_SPAN - 1
  }

  /** What stands before a record's body: its tag, length, sequence and checksum. */
  function RecordFraming(sequence: U64, body: seq<Byte>): (s: seq<Byte>)
    ensures |s| == 17
  {
    [FRAME_RECORD] + BigEndian(LengthField(|body|), 4) + BigEndian(sequence, 8) + CrcBytes(Crc32(body))
  }

  function RecordBytes(sequence: U64, body: seq<Byte>): (s: seq<Byte>) {
    RecordFraming(sequence, body) + body
  }

  function EventBytes(event: Event): (s: seq<Byte>)
    requires event.Whole()
    ensures |s| > 0
  {
    match event
    case Opens(span) => SpanBytes(span)
    case Holds(sequence, body) => RecordBytes(sequence, body)
  }

  predicate AllWhole(events: seq<Event>) {
    forall i :: 0 <= i < |events| ==> events[i].Whole()
  }

  function BytesOf(events: seq<Event>): seq<Byte>
    requires AllWhole(events)
  {
    if events == [] then [] else EventBytes(events[0]) + BytesOf(events[1..])
  }

  /** What the framing can carry: a nameable log, and a body whose length is stated in full. */
  predicate Writable(event: Event) {
    match event
    case Opens(span) => span.log.home.Shard? ==> span.log.home.shard != 0
    case Holds(_, body) => |body| < U32_SPAN
    case _ => false
  }

  predicate AllWritable(events: seq<Event>) {
    forall i :: 0 <= i < |events| ==> Writable(events[i])
  }

  // -------------------------------------------------------------- they are inverse

  lemma VersionRoundTrip(v: Version)
    ensures VersionIn(VersionBytes(v)) == v
  {
    var s := VersionBytes(v);
    assert s[..4] == BigEndian(v.major, 4) && s[4..8] == BigEndian(v.minor, 4) && s[8..12] == BigEndian(v.patch, 4);
    U32RoundTrip(v.major);
    U32RoundTrip(v.minor);
    U32RoundTrip(v.patch);
  }

  lemma HeadParts(head: Head, rest: seq<Byte>)
    ensures var s := HeadBytes(head) + rest;
            && s[..10] == MAGIC && s[10] == FORMAT && s[11] == CODEC_VERSION
            && s[12..24] == VersionBytes(head.writer) && s[24..28] == BigEndian(head.sections, 4)
            && s[28..] == rest
  {
  }

  lemma MagicsDiffer()
    ensures MAGIC[..8] != LEGACY_MAGIC
  {
    assert MAGIC[..8][5] != LEGACY_MAGIC[5];
  }

  /** A head is read back exactly by every build that is not older than its writer. */
  lemma HeadRoundTrip(head: Head, rest: seq<Byte>, running: Version)
    ensures var s := HeadBytes(head) + rest;
            if head.writer.NewerThan(running) then HeadIn(s, running) == Err(WrittenByNewer(head.writer))
            else HeadIn(s, running) == Ok(head) && BodyOf(s) == rest
  {
    var s := HeadBytes(head) + rest;
    HeadParts(head, rest);
    assert s[..8] == MAGIC[..8] by { assert s[..8] == s[..10][..8]; }
    assert s[8..10] == MAGIC[8..] by { assert s[8..10] == s[..10][8..]; }
    MagicsDiffer();
    var t := s[10..];
    assert t[2..14] == s[12..24] && t[14..18] == s[24..28];
    VersionRoundTrip(head.writer);
    U32RoundTrip(head.sections);
    assert s[10 + 18..] == rest;
  }

  /** The bytes of "TESSARILOG" or of "TESSALOG". */
  function MagicBytes(legacy: bool): (s: seq<Byte>)
    ensures |s| == if legacy then 8 else 10
  {
    if legacy then [0x54, 0x45, 0x53, 0x53, 0x41, 0x4c, 0x4f, 0x47]
    else [0x54, 0x45, 0x53, 0x53, 0x41, 0x52, 0x49, 0x4c, 0x4f, 0x47]
  }

  lemma EitherMagicIsFound(legacy: bool, rest: seq<Byte>)
    ensures MagicIn(MagicBytes(legacy) + rest) == Some(|MagicBytes(legacy)|)
    ensures (MagicBytes(legacy) + rest)[|MagicBytes(legacy)|..] == rest
  {
    var s := MagicBytes(legacy) + rest;
    assert forall i :: 0 <= i < |MagicBytes(legacy)| ==> s[i] == MagicBytes(legacy)[i];
    if legacy {
      assert s[..8] == LEGACY_MAGIC;
    } else {
      assert s[..8] == MAGIC[..8] && s[8..10] == MAGIC[8..];
      MagicsDiffer();
    }
  }

  /**
   * What is said of a head by its fields, in the order they are looked at:
   * framing version 4, record version 1, a writer that is not newer, under the
   * present magic or the one older files begin with.
   */
  lemma HeadIsJudged(legacy: bool, format: Byte, codec: Byte, head: Head, rest: seq<Byte>, running: Version)
    ensures HeadIn(MagicBytes(legacy) + ([format, codec] + VersionBytes(head.writer) + BigEndian(head.sections, 4) + rest), running)
         == if format != 4 then Err(Unsupported(Framing, format))
            else if codec != 1 then Err(Unsupported(RecordCodec, codec))
            else if head.writer.NewerThan(running) then Err(WrittenByNewer(head.writer))
            else Ok(head)
  {
    var t := [format, codec] + VersionBytes(head.writer) + BigEndian(head.sections, 4) + rest;
    EitherMagicIsFound(legacy, t);
    assert t[2..14] == VersionBytes(head.writer) && t[14..18] == BigEndian(head.sections, 4);
    VersionRoundTrip(head.writer);
    U32RoundTrip(head.sections);
  }

  /** A file cut anywhere inside its head is refused as no backup at all. */
  lemma CutHeadIsRefused(head: Head, cut: nat, running: Version)
    requires cut < HEAD_LENGTH && !head.writer.NewerThan(running)
    ensures HeadIn(HeadBytes(head)[..cut], running) == Err(NotABackup)
  {
    var s := HeadBytes(head);
    HeadParts(head, []);
    assert s + [] == s;
    MagicsDiffer();
    var c := s[..cut];
    if cut >= 10 {
      assert c[..8] == MAGIC[..8] by { assert c[..8] == s[..10][..8]; }
      assert c[8..10] == MAGIC[8..] by { assert c[8..10] == s[..10][8..]; }
      var t := c[10..];
      assert forall i :: 0 <= i < |t| ==> t[i] == c[10 + i] == s[10 + i];
      if cut >= 24 {
        assert t[2..14] == s[12..24];
        VersionRoundTrip(head.writer);
      }
    } else if cut >= 8 {
      assert c[..8] == MAGIC[..8] by { assert c[..8] == s[..10][..8]; }
    }
  }

  /** A name between a tag and two eight-byte bounds, taken apart again. */
  lemma SpanParts(tag: Byte, name: seq<Byte>, from: U64, tail: U64, rest: seq<Byte>)
    ensures var s := [tag] + name + BigEndian(from, 8) + BigEndian(tail, 8) + rest;
            var n := |name|;
            && s[0] == tag && |s[1..]| >= n + 16 && s[1..][..n] == name
            && U64In(s[1..][n..n + 8]) == from && U64In(s[1..][n + 8..n + 16]) == tail
  {
    var s := [tag] + name + BigEndian(from, 8) + BigEndian(tail, 8) + rest;
    PastTheTag(tag, name, BigEndian(from, 8), BigEndian(tail, 8), rest);
    BoundsParts(name, BigEndian(from, 8), BigEndian(tail, 8), rest);
    U64RoundTrip(from);
    U64RoundTrip(tail);
  }

  lemma PastTheTag(tag: Byte, name: seq<Byte>, from: seq<Byte>, tail: seq<Byte>, rest: seq<Byte>)
    ensures ([tag] + name + from + tail + rest)[0] == tag
    ensures ([tag] + name + from + tail + rest)[1..] == name + from + tail + rest
  {
  }

  lemma BoundsParts(name: seq<Byte>, from: seq<Byte>, tail: seq<Byte>, rest: seq<Byte>)
    requires |from| == |tail| == 8
    ensures var t, n := name + from + tail + rest, |name|;
            |t| >= n + 16 && t[..n] == name && t[n..n + 8] == from && t[n + 8..n + 16] == tail
  {
  }

  lemma SpanRoundTrip(span: LogSpan, rest: seq<Byte>, broken: bool)
    requires Writable(Opens(span))
    ensures Next(SpanBytes(span) + rest, broken) == Took(Opens(span), |SpanBytes(span)|)
  {
    if span.log.home.Shard? {
      SpanParts(FRAME_SHARD_SECTION, ShardLogBytes(span.log), span.from, span.tail, rest);
      ShardLogNameRoundTrip(span.log);
    } else {
      SpanParts(FRAME_SECTION, LogBytes(span.log), span.from, span.tail, rest);
      LogNameRoundTrip(span.log);
    }
  }

  lemma RecordParts(sequence: U64, body: seq<Byte>, after: seq<Byte>)
    ensures var t := (RecordFraming(sequence, body) + after)[1..];
            && t[..4] == BigEndian(LengthField(|body|), 4) && t[4..12] == BigEndian(sequence, 8)
            && t[12..16] == CrcBytes(Crc32(body)) && t[16..] == after
  {
    var a, b, c := BigEndian(LengthField(|body|), 4), BigEndian(sequence, 8), CrcBytes(Crc32(body));
    var t := (RecordFraming(sequence, body) + after)[1..];
    assert t == a + b + c + after;
  }

  lemma RecordRoundTrip(sequence: U64, body: seq<Byte>, rest: seq<Byte>, broken: bool)
    requires |body| < U32_SPAN
    ensures Next(RecordBytes(sequence, body) + rest, broken)
         == Took(Holds(sequence, body), |RecordBytes(sequence, body)|)
  {
    assert RecordBytes(sequence, body) + rest == RecordFraming(sequence, body) + (body + rest);
    var t := (RecordFraming(sequence, body) + (body + rest))[1..];
    RecordParts(sequence, body, body + rest);
    U32RoundTrip(|body|);
    U64RoundTrip(sequence);
    CrcRoundTrip(Crc32(body));
    assert t[16..16 + |body|] == t[16..][..|body|] == body;
  }

  lemma EventRoundTrip(event: Event, rest: seq<Byte>, broken: bool)
    requires Writable(event)
    ensures Next(EventBytes(event) + rest, broken) == Took(event, |EventBytes(event)|)
  {
    match event {
      case Opens(span) => SpanRoundTrip(span, rest, broken);
      case Holds(sequence, body) => RecordRoundTrip(sequence, body, rest, broken);
    }
  }

  /** A frame cut anywhere past its first byte and before its last reads as a cut, or as the failure that cut it. */
  lemma CutEvent(event: Event, cut: nat, broken: bool)
    requires Writable(event) && 0 < cut < |EventBytes(event)|
    ensures Next(EventBytes(event)[..cut], broken) == Took(if broken then Fails(Io) else CutShort, 0)
  {
    match event {
      case Opens(span) =>
      case Holds(sequence, body) => CutRecord(sequence, body, cut, broken);
    }
  }

  lemma CutRecord(sequence: U64, body: seq<Byte>, cut: nat, broken: bool)
    requires |body| < U32_SPAN && 0 < cut < 17 + |body|
    ensures Next(RecordBytes(sequence, body)[..cut], broken) == Took(if broken then Fails(Io) else CutShort, 0)
  {
    var s := RecordBytes(sequence, body);
    if cut >= 17 {
      var c := s[..cut];
      assert c == RecordFraming(sequence, body) + body[..cut - 17];
      RecordParts(sequence, body, body[..cut - 17]);
      U32RoundTrip(|body|);
    }
  }

  lemma EventsAfter(event: Event, rest: seq<Byte>, broken: bool)
    requires Writable(event)
    ensures Events(EventBytes(event) + rest, broken) == [event] + Events(rest, broken)
  {
    EventRoundTrip(event, rest, broken);
    assert (EventBytes(event) + rest)[|EventBytes(event)|..] == rest;
  }

  /** A stream of frames reads back as the frames, and as nothing else. */
  lemma {:induction false} EventsRoundTrip(events: seq<Event>)
    requires AllWritable(events)
    ensures Events(BytesOf(events), false) == events
    decreases |events|
  {
    if events == [] {
    } else {
      EventsAfter(events[0], BytesOf(events[1..]), false);
      EventsRoundTrip(events[1..]);
    }
  }

  /** Frames read first, whatever bytes follow them. */
  lemma {:induction false} EventsConcat(events: seq<Event>, rest: seq<Byte>, broken: bool)
    requires AllWritable(events)
    ensures Events(BytesOf(events) + rest, broken) == events + Events(rest, broken)
    decreases |events|
  {
    if events == [] {
      assert BytesOf(events) + rest == rest;
    } else {
      var first, others := EventBytes(events[0]), BytesOf(events[1..]);
      EventsConcat(events[1..], rest, broken);
      EventsAfter(events[0], others + rest, broken);
      Associate(first, others, rest);
      Associate([events[0]], events[1..], Events(rest, broken));
      assert events == [events[0]] + events[1..];
    }
  }

  /** How many bytes the first `n` frames take. */
  function LengthOf(events: seq<Event>, n: nat): nat
    requires AllWhole(events) && n <= |events|
  {
    |BytesOf(events[..n])|
  }

  lemma LengthAhead(events: seq<Event>, n: nat)
    requires AllWhole(events) && n < |events|
    ensures LengthOf(events, 0) == 0
    ensures LengthOf(events, n + 1) == |EventBytes(events[0])| + LengthOf(events[1..], n)
  {
    assert events[..n + 1][1..] == events[1..][..n];
  }

  /** The frames that end at or before `cut`, and a cut after them unless the bytes end there too. */
  function Survivors(events: seq<Event>, cut: nat, kept: nat): seq<Event>
    requires AllWhole(events) && kept <= |events|
  {
    events[..kept] + if cut == LengthOf(events, kept) then [] else [CutShort]
  }

  /** The cut falls after the first `kept` frames and before the next one ends. */
  predicate CutAt(events: seq<Event>, cut: nat, kept: nat)
    requires AllWhole(events)
  {
    kept < |events| && LengthOf(events, kept) <= cut < LengthOf(events, kept + 1)
  }

  lemma {:induction false} CutFalls(events: seq<Event>, cut: nat) returns (kept: nat)
    requires AllWhole(events) && cut < |BytesOf(events)|
    ensures CutAt(events, cut, kept)
    decreases |events|
  {
    LengthAhead(events, 0);
    var width := |EventBytes(events[0])|;
    if cut < width {
      kept := 0;
    } else {
      var more := CutFalls(events[1..], cut - width);
      LengthAhead(events, more);
      LengthAhead(events, more + 1);
      kept := more + 1;
    }
  }

  function Flattened<T>(encode: T -> seq<Byte>, items: seq<T>): seq<Byte> {
    if items == [] then [] else encode(items[0]) + Flattened(encode, items[1..])
  }

  lemma {:induction false} FlattenedConcat<T>(encode: T -> seq<Byte>, a: seq<T>, b: seq<T>)
    ensures Flattened(encode, a + b) == Flattened(encode, a) + Flattened(encode, b)
  {
    if a == [] {
      assert a + b == b;
    } else {
      assert (a + b)[0] == a[0] && (a + b)[1..] == a[1..] + b;
      FlattenedConcat(encode, a[1..], b);
      Associate(encode(a[0]), Flattened(encode, a[1..]), Flattened(encode, b));
    }
  }

  function FrameBytes(event: Event): seq<Byte> {
    if event.Whole() then EventBytes(event) else []
  }

  lemma {:induction false} BytesAreFlattened(events: seq<Event>)
    requires AllWhole(events)
    ensures BytesOf(events) == Flattened(FrameBytes, events)
  {
    if events == [] {
    } else {
      BytesAreFlattened(events[1..]);
    }
  }

  lemma BytesOfConcat(a: seq<Event>, b: seq<Event>)
    requires AllWhole(a) && AllWhole(b)
    ensures BytesOf(a + b) == BytesOf(a) + BytesOf(b)
  {
    BytesAreFlattened(a);
    BytesAreFlattened(b);
    BytesAreFlattened(a + b);
    FlattenedConcat(FrameBytes, a, b);
  }

  /** A strict beginning of a frame reads as a cut, or as nothing when it is empty. */
  lemma CutFrame(event: Event, cut: nat)
    requires Writable(event) && cut < |EventBytes(event)|
    ensures Events(EventBytes(event)[..cut], false) == if cut == 0 then [] else [CutShort]
  {
    if cut > 0 {
      CutEvent(event, cut, false);
    }
  }

  lemma OneFrameBytes(event: Event)
    requires event.Whole()
    ensures AllWhole([event]) && BytesOf([event]) == EventBytes(event)
  {
    assert BytesOf([event]) == EventBytes(event) + BytesOf([]);
  }

  lemma BytesAround(a: seq<Event>, event: Event, b: seq<Event>)
    requires AllWhole(a) && event.Whole() && AllWhole(b)
    ensures AllWhole(a + [event]) && BytesOf(a + [event]) == BytesOf(a) + EventBytes(event)
    ensures AllWhole(a + [event] + b) && BytesOf(a + [event] + b) == BytesOf(a) + EventBytes(event) + BytesOf(b)
  {
    OneFrameBytes(event);
    BytesOfConcat(a, [event]);
    BytesOfConcat(a + [event], b);
  }

  lemma SliceAround(events: seq<Event>, kept: nat)
    requires kept < |events|
    ensures events[..kept + 1] == events[..kept] + [events[kept]]
    ensures events == events[..kept] + [events[kept]] + events[kept + 1..]
  {
  }

  lemma FramesAround(events: seq<Event>, kept: nat)
    requires AllWhole(events) && kept < |events|
    ensures BytesOf(events) == BytesOf(events[..kept]) + EventBytes(events[kept]) + BytesOf(events[kept + 1..])
    ensures BytesOf(events[..kept + 1]) == BytesOf(events[..kept]) + EventBytes(events[kept])
  {
    SliceAround(events, kept);
    BytesAround(events[..kept], events[kept], events[kept + 1..]);
  }

  lemma PrefixWithin(a: seq<Byte>, b: seq<Byte>, c: seq<Byte>, cut: nat)
    requires |a| <= cut <= |a| + |b|
    ensures (a + b + c)[..cut] == a + b[..cut - |a|]
  {
  }

  /** What is left of the bytes: the frames before the cut, and the beginning of the one it is in. */
  lemma BytesBeforeCut(events: seq<Event>, cut: nat, kept: nat)
    requires AllWhole(events) && CutAt(events, cut, kept)
    ensures cut <= |BytesOf(events)| && cut - LengthOf(events, kept) < |EventBytes(events[kept])|
    ensures BytesOf(events)[..cut]
         == BytesOf(events[..kept]) + EventBytes(events[kept])[..cut - LengthOf(events, kept)]
  {
    FramesAround(events, kept);
    PrefixWithin(BytesOf(events[..kept]), EventBytes(events[kept]), BytesOf(events[kept + 1..]), cut);
  }

  /** Frames, and then what the bytes after them read as. */
  lemma ReadsThen(bytes: seq<Byte>, frames: seq<Event>, tail: seq<Byte>, last: seq<Event>)
    requires AllWritable(frames) && bytes == BytesOf(frames) + tail && Events(tail, false) == last
    ensures Events(bytes, false) == frames + last
  {
    EventsConcat(frames, tail, false);
  }

  lemma CutReads(events: seq<Event>, cut: nat, kept: nat)
    requires AllWritable(events) && CutAt(events, cut, kept)
    ensures cut <= |BytesOf(events)| && Events(BytesOf(events)[..cut], false) == Survivors(events, cut, kept)
  {
    var left := cut - LengthOf(events, kept);
    BytesBeforeCut(events, cut, kept);
    CutFrame(events[kept], left);
    ReadsThen(BytesOf(events)[..cut], events[..kept], EventBytes(events[kept])[..left],
              if left == 0 then [] else [CutShort]);
  }

  /**
   * Every strict byte prefix of a stream of frames reads as exactly the frames
   * that end at or before the cut, followed by a cut unless one of them ends
   * just there. Answers how many.
   */
  lemma CutEvents(events: seq<Event>, cut: nat) returns (kept: nat)
    requires AllWritable(events)
    requires cut < |BytesOf(events)|
    ensures CutAt(events, cut, kept)
    ensures Events(BytesOf(events)[..cut], false) == Survivors(events, cut, kept)
  {
    kept := CutFalls(events, cut);
    CutReads(events, cut, kept);
  }

  lemma PrefixPast(a: seq<Byte>, b: seq<Byte>, cut: nat)
    requires |a| <= cut <= |a + b|
    ensures (a + b)[..cut] == a + b[..cut - |a|]
  {
  }

  /** A body that is not the one the checksum was taken of is answered as damage. */
  lemma MismatchIsAnswered(sequence: U64, body: seq<Byte>, damaged: seq<Byte>, rest: seq<Byte>, broken: bool)
    requires |body| == |damaged| < U32_SPAN && Crc32(body) != Crc32(damaged)
    ensures Next(RecordFraming(sequence, body) + (damaged + rest), broken) == Took(Fails(Damaged(sequence)), 0)
  {
    var t := (RecordFraming(sequence, body) + (damaged + rest))[1..];
    RecordParts(sequence, body, damaged + rest);
    U32RoundTrip(|body|);
    U64RoundTrip(sequence);
    CrcRoundTrip(Crc32(body));
    assert t[16..16 + |body|] == t[16..][..|damaged|] == damaged;
  }

  /** A record's body changed in place within thirty-two consecutive bits is always noticed. */
  lemma DamageIsAnswered(sequence: U64, body: seq<Byte>, damaged: seq<Byte>,
                         head: Bits, was: Bits, now: Bits, tail: Bits, rest: seq<Byte>, broken: bool)
    requires |body| == |damaged| < U32_SPAN
    requires |was| == |now| <= 32 && was != now
    requires MessageBits(body) == head + was + tail && MessageBits(damaged) == head + now + tail
    ensures Next(RecordFraming(sequence, body) + (damaged + rest), broken) == Took(Fails(Damaged(sequence)), 0)
  {
    BitBurstIsDetected(body, damaged, head, was, now, tail);
    MismatchIsAnswered(sequence, body, damaged, rest, broken);
  }
}
