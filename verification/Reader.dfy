/**
 * Reading a backup out of a stream whose reads may be short.
 *
 * Every method here is proved to answer what `Format` says the bytes mean, for
 * every pattern of short reads: `grants` decides how many bytes each call of
 * the stream hands over, and no contract below mentions it.
 */
module Reader {
  import opened Bytes
  import opened Wrappers
  import opened Layout
  import opened Report
  import opened Checksum
  import opened Format

  /** Whether a buffer came back full, part full or untouched. */
  datatype Filled = Whole | Short | Empty

  /** A byte stream: its bytes, then an end or, when it is `broken`, a failure. */
  class Source {
    const data: seq<Byte>
    const broken: bool
    const grants: nat -> nat
    var at: nat
    var calls: nat

    constructor (data: seq<Byte>, broken: bool, grants: nat -> nat)
      ensures this.data == data && this.broken == broken
      ensures Valid() && Left() == data
    {
      this.data, this.broken, this.grants := data, broken, grants;
      at, calls := 0, 0;
    }

    ghost predicate Valid()
      reads this
    {
      at <= |data|
    }

    ghost function Left(): seq<Byte>
      requires Valid()
      reads this
    {
      data[at..]
    }

    /** One read into `into[from..]`: some bytes, none at the end, or the failure. */
    method Read(into: array<Byte>, from: nat) returns (read: Result<nat, Error>)
      requires Valid() && from < into.Length
      modifies this, into
      ensures Valid()
      ensures read.Ok? ==> read.value <= into.Length - from && read.value <= |old(Left())|
      ensures read.Ok? ==> Left() == old(Left())[read.value..]
      ensures read.Ok? ==> into[..from] == old(into[..from])
      ensures read.Ok? ==> into[from..from + read.value] == old(Left())[..read.value]
      ensures read == Err(Io) <==> old(Left()) == [] && broken
      ensures read == Ok(0) <==> old(Left()) == [] && !broken
      ensures read.Err? ==> read == Err(Io)
    {
      calls := calls + 1;
      if at == |data| {
        return if broken then Err(Io) else Ok(0);
      }
      var most := if into.Length - from < |data| - at then into.Length - from else |data| - at;
      var count := if 1 <= grants(calls) < most then grants(calls) else most;
      ghost var before := into[..];
      forall i | 0 <= i < count {
        into[from + i] := data[at + i];
      }
      assert forall i :: 0 <= i < from ==> into[i] == before[i];
      assert forall i :: from <= i < from + count ==> into[i] == data[at + i - from];
      assert into[..from] == before[..from];
      assert into[from..from + count] == data[at..at + count] == data[at..][..count];
      at := at + count;
      read := Ok(count);
    }
  }

  /** What filling `width` bytes out of `left` answers. */
  function FillAnswer(left: seq<Byte>, broken: bool, width: nat): Result<Filled, Error> {
    if |left| >= width then Ok(Filled.Whole)
    else if broken then Err(Io)
    else if left == [] then Ok(Empty)
    else Ok(Short)
  }

  /** Fills the whole of `into`, or tells a stream that was over from one that stopped midway. */
  method Fill(input: Source, into: array<Byte>) returns (filled: Result<Filled, Error>)
    requires input.Valid()
    modifies input, into
    ensures input.Valid()
    ensures filled == FillAnswer(old(input.Left()), input.broken, into.Length)
    ensures filled == Ok(Filled.Whole) ==> into[..] == old(input.Left())[..into.Length]
    ensures filled == Ok(Filled.Whole) ==> input.Left() == old(input.Left())[into.Length..]
  {
    var held := 0;
    ghost var left := input.Left();
    while held < into.Length
      invariant input.Valid() && 0 <= held <= into.Length && held <= |left|
      invariant input.Left() == left[held..]
      invariant into[..held] == left[..held]
    {
      var read := input.Read(into, held);
      if read.Err? {
        return Err(Io);
      }
      if read.value == 0 {
        return if held == 0 then Ok(Empty) else Ok(Short);
      }
      assert into[..held + read.value] == into[..held] + into[held..held + read.value];
      assert left[..held + read.value] == left[..held] + left[held..][..read.value];
      held := held + read.value;
    }
    filled := Ok(Filled.Whole);
  }

  /** `read_exact` as the head uses it: anything short of the whole is no backup. */
  method ReadExact(input: Source, width: nat) returns (read: Result<seq<Byte>, Error>)
    requires input.Valid()
    modifies input
    ensures input.Valid()
    ensures |old(input.Left())| < width ==> read == Err(NotABackup)
    ensures |old(input.Left())| >= width ==>
              && read == Ok(old(input.Left())[..width])
              && input.Left() == old(input.Left())[width..]
  {
    var buffer := new Byte[width](_ => 0);
    var filled := Fill(input, buffer);
    read := if filled == Ok(Filled.Whole) then Ok(buffer[..]) else Err(NotABackup);
  }

  method ReadMagic(input: Source) returns (found: Option<Error>)
    requires input.Valid()
    modifies input
    ensures input.Valid()
    ensures found.None? <==> MagicIn(old(input.Left())).Some?
    ensures found.None? ==> input.Left() == old(input.Left())[MagicIn(old(input.Left())).value..]
    ensures found.Some? ==> found.value == NotABackup
  {
    var opening := ReadExact(input, 8);
    if opening.Err? {
      return Some(NotABackup);
    }
    if opening.value == LEGACY_MAGIC {
      return None;
    }
    if opening.value != MAGIC[..8] {
      return Some(NotABackup);
    }
    var trailing := ReadExact(input, 2);
    if trailing.Err? || trailing.value != MAGIC[8..] {
      return Some(NotABackup);
    }
    found := None;
  }

  /** Reads a head, turning away a file of another format, codec or later build. */
  method ReadHead(input: Source, running: Version) returns (head: Result<Head, Error>)
    requires input.Valid()
    modifies input
    ensures input.Valid()
    ensures head == HeadIn(old(input.Left()), running)
    ensures head.Ok? ==> input.Left() == BodyOf(old(input.Left()))
  {
    ghost var all := input.Left();
    var found := ReadMagic(input);
    if found.Some? {
      return Err(NotABackup);
    }
    ghost var left := input.Left();
    var versions := ReadExact(input, 2);
    if versions.Err? {
      return Err(NotABackup);
    }
    if versions.value[0] != FORMAT {
      return Err(Unsupported(Framing, versions.value[0]));
    }
    if versions.value[1] != CODEC_VERSION {
      return Err(Unsupported(RecordCodec, versions.value[1]));
    }
    var raw := ReadExact(input, 12);
    if raw.Err? {
      return Err(NotABackup);
    }
    assert raw.value == left[2..14];
    var writer := VersionIn(raw.value);
    if writer.NewerThan(running) {
      return Err(WrittenByNewer(writer));
    }
    var counted := ReadExact(input, 4);
    if counted.Err? {
      return Err(NotABackup);
    }
    assert counted.value == left[14..18];
    assert input.Left() == all[MagicIn(all).value + 18..];
    head := Ok(Head(writer, U32In(counted.value)));
  }

  /** At most `wanted` bytes, read as they arrive rather than allocated as declared. */
  method ReadBody(input: Source, wanted: nat) returns (body: Result<seq<Byte>, Error>)
    requires input.Valid()
    modifies input
    ensures input.Valid()
    ensures |old(input.Left())| >= wanted ==>
              && body == Ok(old(input.Left())[..wanted])
              && input.Left() == old(input.Left())[wanted..]
    ensures |old(input.Left())| < wanted ==>
              body == if input.broken then Err(Io) else Ok(old(input.Left()))
  {
    var arrived: seq<Byte> := [];
    ghost var left := input.Left();
    var over := false;
    while |arrived| < wanted && !over
      invariant input.Valid()
      invariant |arrived| <= |left| && |arrived| <= wanted
      invariant arrived == left[..|arrived|] && input.Left() == left[|arrived|..]
      invariant over ==> |arrived| == |left| && !input.broken
      decreases !over, wanted - |arrived|
    {
      var window := if wanted - |arrived| < 32 then wanted - |arrived| else 32;
      var slot := new Byte[window](_ => 0);
      var read := input.Read(slot, 0);
      if read.Err? {
        return Err(Io);
      }
      over := read.value == 0;
      ghost var before := |arrived|;
      arrived := arrived + slot[..read.value];
      assert left[..|arrived|] == left[..before] + left[before..][..read.value];
    }
    assert over ==> arrived == left;
    body := Ok(arrived);
  }

  /** The events still to come, given the one just read and what is left after it. */
  function Unread(event: Option<Event>, left: seq<Byte>, broken: bool): seq<Event> {
    if event.None? then []
    else if event.value.Whole() then [event.value] + Events(left, broken)
    else [event.value]
  }

  /** Reads one frame and consumes exactly it; `None` says the file was over. */
  method NextFrame(input: Source) returns (event: Option<Event>)
    requires input.Valid()
    modifies input
    ensures input.Valid()
    ensures Events(old(input.Left()), input.broken) == Unread(event, input.Left(), input.broken)
    ensures event.Some? ==> IsNext(old(input.Left()), input.broken, event.value, input.Left())
    ensures event.Some? && event.value.Whole() ==> |input.Left()| < |old(input.Left())|
  {
    ghost var all := input.Left();
    var tag := new Byte[1](_ => 0);
    var filled := Fill(input, tag);
    if filled.Err? {
      return Some(Fails(Io));
    }
    if filled.value == Empty {
      return None;
    }
    assert tag[0] == tag[..][0] == all[0];
    var step: Event;
    if tag[0] == FRAME_SECTION {
      step := NextSection(input);
      SectionIsNext(all, input.broken, step, input.Left());
    } else if tag[0] == FRAME_SHARD_SECTION {
      step := NextShardSection(input);
      ShardSectionIsNext(all, input.broken, step, input.Left());
    } else if tag[0] == FRAME_RECORD {
      step := NextRecord(input);
      RecordIsNext(all, input.broken, step, input.Left());
    } else {
      step := Fails(NotABackup);
    }
    NextIsUnread(all, input.broken, step, input.Left());
    event := Some(step);
  }

  /** The event is the next of these bytes, and if it is a whole frame then exactly its bytes are gone. */
  ghost predicate IsNext(all: seq<Byte>, broken: bool, event: Event, left: seq<Byte>) {
    var step := Next(all, broken);
    step.Took? && step.event == event && (event.Whole() ==> left == all[step.used..])
  }

  lemma SectionIsNext(all: seq<Byte>, broken: bool, event: Event, left: seq<Byte>)
    requires all != [] && all[0] == FRAME_SECTION && event == SectionIn(all[1..], broken).event
    requires event.Whole() ==> left == all[1..][41..]
    ensures IsNext(all, broken, event, left)
  {
  }

  lemma ShardSectionIsNext(all: seq<Byte>, broken: bool, event: Event, left: seq<Byte>)
    requires all != [] && all[0] == FRAME_SHARD_SECTION && event == ShardSectionIn(all[1..], broken).event
    requires event.Whole() ==> left == all[1..][49..]
    ensures IsNext(all, broken, event, left)
  {
  }

  lemma RecordIsNext(all: seq<Byte>, broken: bool, event: Event, left: seq<Byte>)
    requires all != [] && all[0] == FRAME_RECORD && event == RecordIn(all[1..], broken).event
    requires event.Whole() ==> left == all[1..][RecordIn(all[1..], broken).used..]
    ensures IsNext(all, broken, event, left)
  {
  }

  lemma NextIsUnread(all: seq<Byte>, broken: bool, event: Event, left: seq<Byte>)
    requires IsNext(all, broken, event, left)
    ensures Events(all, broken) == Unread(Some(event), left, broken)
  {
  }

  method NextSection(input: Source) returns (event: Event)
    requires input.Valid()
    modifies input
    ensures input.Valid()
    ensures event == SectionIn(old(input.Left()), input.broken).event
    ensures event.Whole() ==> input.Left() == old(input.Left())[41..]
  {
    ghost var left := input.Left();
    var raw := new Byte[41](_ => 0);
    var filled := Fill(input, raw);
    if filled.Err? {
      return Fails(Io);
    }
    if filled.value != Filled.Whole {
      return CutShort;
    }
    var held := raw[..];
    assert held[..25] == left[..25] && held[25..33] == left[25..33] && held[33..41] == left[33..41];
    match LogIn(held[..25]) {
      case None => event := Fails(NotABackup);
      case Some(log) => event := Opens(LogSpan(log, U64In(held[25..33]), U64In(held[33..41])));
    }
  }

  method NextShardSection(input: Source) returns (event: Event)
    requires input.Valid()
    modifies input
    ensures input.Valid()
    ensures event == ShardSectionIn(old(input.Left()), input.broken).event
    ensures event.Whole() ==> input.Left() == old(input.Left())[49..]
  {
    ghost var left := input.Left();
    var raw := new Byte[49](_ => 0);
    var filled := Fill(input, raw);
    if filled.Err? {
      return Fails(Io);
    }
    if filled.value != Filled.Whole {
      return CutShort;
    }
    var held := raw[..];
    assert held[..33] == left[..33] && held[33..41] == left[33..41] && held[41..49] == left[41..49];
    match ShardLogIn(held[..33]) {
      case None => event := Fails(NotABackup);
      case Some(log) => event := Opens(LogSpan(log, U64In(held[33..41]), U64In(held[41..49])));
    }
  }

  method NextRecord(input: Source) returns (event: Event)
    requires input.Valid()
    modifies input
    ensures input.Valid()
    ensures event == RecordIn(old(input.Left()), input.broken).event
    ensures event.Whole() ==> input.Left() == old(input.Left())[RecordIn(old(input.Left()), input.broken).used..]
  {
    ghost var left := input.Left();
    var raw := new Byte[16](_ => 0);
    var filled := Fill(input, raw);
    if filled.Err? {
      return Fails(Io);
    }
    if filled.value != Filled.Whole {
      return CutShort;
    }
    var header := raw[..];
    assert header[..4] == left[..4] && header[4..12] == left[4..12] && header[12..16] == left[12..16];
    var length := U32In(header[..4]);
    var sequence := U64In(header[4..12]);
    var expected := CrcIn(header[12..16]);
    var body := ReadBody(input, length);
    if body.Err? {
      return Fails(Io);
    }
    if |body.value| < length {
      return CutShort;
    }
    assert body.value == left[16..16 + length];
    var computed := TableCrc32(body.value);
    if computed != expected {
      return Fails(Damaged(sequence));
    }
    event := Holds(sequence, body.value);
  }
}
