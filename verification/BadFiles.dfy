/**
 * Files that go wrong part of the way: what a restore has taken by then, and
 * what restoring and verifying both say. And how far a cut file is good.
 */
module BadFiles {
  import opened Bytes
  import opened Wrappers
  import opened Layout
  import opened Lists
  import opened Report
  import opened Bits
  import opened Checksum
  import opened Format
  import opened Stores
  import opened Sections
  import opened Writing
  import opened Reading
  import opened Restoring
  import opened Refusals

  /** A file whose frames `before` were written, and whose bytes after them are anything. */
  function FileThen(head: Head, before: seq<Section>, left: seq<Byte>): seq<Byte>
    requires AllNumbered(before)
  {
    FileEventsAreWhole(before);
    HeadBytes(head) + (BytesOf(FileEvents(before)) + left)
  }

  /** A build that can read these sections, whatever store it has. */
  ghost predicate Legible(node: Node, writer: Version, sections: seq<Section>) {
    AllNumbered(sections) && AllFramed(sections) && AllDecode(node, sections) && !writer.NewerThan(node.running)
  }

  /** The restore takes the sections and meets what is left in that state. */
  lemma RestoreReaches(node: Node, held: Held, head: Head, before: seq<Section>, left: seq<Byte>, broken: bool)
    returns (after: Held, final: Run)
    requires CanTake(node, head.writer, before) && AllExpected(held.logs, [], before)
    ensures after.logs == Filled(held.logs, before) && final.open == OpenAfter(None, before)
    ensures var p, bytes := Play(node, None, after, final, Events(left, broken)), FileThen(head, before, left);
            && StoreAfter(node, held, bytes, broken, None).logs == p.held.logs
            && Answer(node, held, bytes, broken, None) == Replayed(None, p.turn, head)
  {
    FileEventsAreWritable(before);
    after, final := PlaySections(node, held, START, before);
    EventsConcat(FileEvents(before), left, broken);
    PlayConcat(node, None, held, START, FileEvents(before), Events(left, broken));
    AcceptedFile(node, held, head, BytesOf(FileEvents(before)) + left, broken, None);
  }

  /** The inspection reads the sections and meets what is left in that state. */
  lemma InspectionReaches(node: Node, head: Head, before: seq<Section>, left: seq<Byte>, broken: bool)
    returns (final: Inspection)
    requires Legible(node, head.writer, before)
    ensures Surveys(UNREAD, final, before)
    ensures if before == [] then final == UNREAD else final.open.Some?
    ensures Verdict(node, FileThen(head, before, left), broken)
         == Findings(Inspect(node, final, Events(left, broken)), head)
  {
    FileEventsAreWritable(before);
    final := InspectSections(node, UNREAD, before);
    EventsConcat(FileEvents(before), left, broken);
    InspectConcat(node, UNREAD, FileEvents(before), Events(left, broken));
    HeadRoundTrip(head, BytesOf(FileEvents(before)) + left, node.running);
  }

  /** Restoring leaves these logs and answers this error. */
  predicate RefusedWith(node: Node, held: Held, bytes: seq<Byte>, broken: bool, logs: Logs, error: Error) {
    && StoreAfter(node, held, bytes, broken, None).logs == logs
    && Answer(node, held, bytes, broken, None) == Err(error)
  }

  lemma OneEndsPlay(node: Node, held: Held, run: Run, events: seq<Event>, error: Error)
    requires events != [] && Ends(node, None, held, run, events[0], error)
    ensures Play(node, None, held, run, events).turn == Refused(error)
    ensures error != SyncFailed ==> Play(node, None, held, run, events).held == held
  {
    EndsIff(node, None, held, run, events[0], error);
    if error != SyncFailed {
      EndLeavesTheStore(node, held, run, events[0], error);
    }
  }

  lemma EndLeavesTheStore(node: Node, held: Held, run: Run, event: Event, error: Error)
    requires Advance(node, None, held, run, event).turn == Refused(error) && error != SyncFailed
    ensures Advance(node, None, held, run, event).held == held
  {
  }

  lemma FailureEnds(node: Node, held: Held, run: Run, state: Inspection, error: Error)
    ensures Play(node, None, held, run, [Fails(error)]) == Progress(held, Refused(error))
    ensures Inspect(node, state, [Fails(error)]) == Bad(error)
  {
  }

  /**
   * Sections, and then bytes that cannot be read as a frame: everything before
   * is in, nothing after is, and restoring and verifying both say why.
   */
  lemma UnreadableIsAnswered(node: Node, held: Held, head: Head, before: seq<Section>, left: seq<Byte>, broken: bool,
                             error: Error)
    requires Legible(node, head.writer, before) && Events(left, broken) == [Fails(error)]
    ensures Verdict(node, FileThen(head, before, left), broken) == Err(error)
    ensures CanTake(node, head.writer, before) && AllExpected(held.logs, [], before) ==>
              RefusedWith(node, held, FileThen(head, before, left), broken, Filled(held.logs, before), error)
  {
    var state := InspectionReaches(node, head, before, left, broken);
    FailureEnds(node, held, START, state, error);
    if CanTake(node, head.writer, before) && AllExpected(held.logs, [], before) {
      var after, final := RestoreReaches(node, held, head, before, left, broken);
      FailureEnds(node, after, final, state, error);
    }
  }

  /** Both answers at a file's first unreadable frame: nothing is applied past it, and both give the error. */
  ghost predicate BothRefuse(node: Node, held: Held, head: Head, before: seq<Section>, left: seq<Byte>, broken: bool,
                             error: Error)
    requires AllNumbered(before)
  {
    && Verdict(node, FileThen(head, before, left), broken) == Err(error)
    && (CanTake(node, head.writer, before) && AllExpected(held.logs, [], before) ==>
          RefusedWith(node, held, FileThen(head, before, left), broken, Filled(held.logs, before), error))
  }

  /**
   * A record whose body was changed within thirty-two consecutive bits, after
   * any sections and before any bytes: restoring takes all before it and says
   * which record is damaged, and so does verifying.
   */
  lemma DamagedRecordIsNamed(node: Node, held: Held, head: Head, before: seq<Section>, sequence: U64,
                             body: seq<Byte>, damaged: seq<Byte>, lead: Bits, was: Bits, now: Bits, tail: Bits,
                             rest: seq<Byte>, broken: bool)
    requires Legible(node, head.writer, before)
    requires |body| == |damaged| < U32_SPAN
    requires |was| == |now| <= 32 && was != now
    requires MessageBits(body) == lead + was + tail && MessageBits(damaged) == lead + now + tail
    ensures BothRefuse(node, held, head, before, RecordFraming(sequence, body) + (damaged + rest), broken,
                       Damaged(sequence))
  {
    var left := RecordFraming(sequence, body) + (damaged + rest);
    DamageIsAnswered(sequence, body, damaged, lead, was, now, tail, rest, broken);
    assert Events(left, broken) == [Fails(Damaged(sequence))];
    UnreadableIsAnswered(node, held, head, before, left, broken, Damaged(sequence));
  }

  /** A frame that is neither a section nor a record is no backup's. */
  lemma UnknownFrameIsNoBackup(node: Node, held: Held, head: Head, before: seq<Section>, tag: Byte, rest: seq<Byte>,
                               broken: bool)
    requires Legible(node, head.writer, before) && tag !in {1, 2, 3}
    ensures BothRefuse(node, held, head, before, [tag] + rest, broken, NotABackup)
  {
    assert Events([tag] + rest, broken) == [Fails(NotABackup)];
    UnreadableIsAnswered(node, held, head, before, [tag] + rest, broken, NotABackup);
  }

  /** A stream that breaks between frames or anywhere inside one is a failure to read, not a cut. */
  lemma BrokenStreamFails(node: Node, held: Held, head: Head, before: seq<Section>, event: Event, cut: nat)
    requires Legible(node, head.writer, before) && Writable(event) && cut < |EventBytes(event)|
    ensures BothRefuse(node, held, head, before, EventBytes(event)[..cut], true, Io)
  {
    var left := EventBytes(event)[..cut];
    if cut == 0 {
      assert left == [];
    } else {
      CutEvent(event, cut, true);
    }
    assert Events(left, true) == [Fails(Io)];
    UnreadableIsAnswered(node, held, head, before, left, true, Io);
  }

  lemma RecordFirst(sequence: U64, body: seq<Byte>, rest: seq<Byte>, broken: bool)
    requires |body| < U32_SPAN
    ensures var events := Events(RecordBytes(sequence, body) + rest, broken);
            events != [] && events[0] == Holds(sequence, body)
  {
    RecordRoundTrip(sequence, body, rest, broken);
  }

  /** A record that arrives whole and does not decode. */
  lemma UndecodableIsAnswered(node: Node, held: Held, head: Head, before: seq<Section>, sequence: U64,
                              body: seq<Byte>, rest: seq<Byte>, broken: bool)
    requires Legible(node, head.writer, before) && before != []
    requires |body| < U32_SPAN && node.decode(body).None?
    ensures BothRefuse(node, held, head, before, RecordBytes(sequence, body) + rest, broken, Undecodable)
  {
    var left := RecordBytes(sequence, body) + rest;
    RecordFirst(sequence, body, rest, broken);
    var state := InspectionReaches(node, head, before, left, broken);
    if CanTake(node, head.writer, before) && AllExpected(held.logs, [], before) {
      var after, final := RestoreReaches(node, held, head, before, left, broken);
      LastIsOpen(None, before);
      OneEndsPlay(node, after, final, Events(left, broken), Undecodable);
    }
  }

  /** A record with no section before it. */
  lemma StrayRecordIsNoBackup(node: Node, held: Held, head: Head, sequence: U64, body: seq<Byte>, rest: seq<Byte>,
                              broken: bool)
    requires !head.writer.NewerThan(node.running) && |body| < U32_SPAN
    ensures BothRefuse(node, held, head, [], RecordBytes(sequence, body) + rest, broken, NotABackup)
  {
    var left := RecordBytes(sequence, body) + rest;
    RecordFirst(sequence, body, rest, broken);
    var state := InspectionReaches(node, head, [], left, broken);
    if CanTake(node, head.writer, []) {
      var after, final := RestoreReaches(node, held, head, [], left, broken);
      OneEndsPlay(node, after, final, Events(left, broken), NotABackup);
    }
  }

  /** A record past the next of its log leaves a hole, and the store refuses it; a verify has no log to miss it in. */
  lemma GapIsRefused(node: Node, held: Held, head: Head, before: seq<Section>, sequence: U64, body: seq<Byte>,
                     rest: seq<Byte>, broken: bool)
    requires CanTake(node, head.writer, before) && AllExpected(held.logs, [], before) && before != []
    requires |body| < U32_SPAN && node.decode(body).Some?
    requires sequence > Tail(Filled(held.logs, before), before[|before| - 1].span.log) + 1
    ensures RefusedWith(node, held, FileThen(head, before, RecordBytes(sequence, body) + rest), broken,
                        Filled(held.logs, before), StoreRefused)
  {
    var left := RecordBytes(sequence, body) + rest;
    RecordFirst(sequence, body, rest, broken);
    var after, final := RestoreReaches(node, held, head, before, left, broken);
    LastIsOpen(None, before);
    GapEnds(node, after, final, Holds(sequence, body));
    OneEndsPlay(node, after, final, Events(left, broken), StoreRefused);
  }

  lemma GapEnds(node: Node, held: Held, run: Run, event: Event)
    requires run.open.Some? && event.Holds? && node.decode(event.body).Some?
    requires event.sequence > Tail(held.logs, run.open.value.span.log) + 1
    ensures Ends(node, None, held, run, event, StoreRefused)
  {
  }

  // ------------------------------------------------------------------- how far it is good

  /** An inspection's findings, read off it with its section put away. */
  lemma ClosedFindings(final: Inspection, head: Head, cut: bool)
    ensures Findings(Reading.Reading(final.(truncated := final.truncated || cut)), head)
         == Ok(Verified(head.writer, final.records, PutAway(final).logs,
                        cut || PutAway(final).truncated || |PutAway(final).logs| < head.sections))
  {
    match final.open {
      case None =>
      case Some(_) =>
    }
  }

  lemma FindingsOf(final: Inspection, head: Head, kept: seq<Section>, cut: bool)
    requires AllNumbered(kept) && Surveys(UNREAD, final, kept)
    ensures Findings(Reading.Reading(final.(truncated := final.truncated || cut)), head)
         == Ok(Verified(head.writer, CountRecords(kept), Through(kept), cut || AnyShort(kept) || |kept| < head.sections))
  {
    ClosedFindings(final, head, cut);
    SurveyedFromNothing(final, kept);
  }

  lemma SurveyedFromNothing(final: Inspection, kept: seq<Section>)
    requires AllNumbered(kept) && Surveys(UNREAD, final, kept)
    ensures final.records == CountRecords(kept) && PutAway(final).logs == Through(kept)
    ensures PutAway(final).truncated == AnyShort(kept)
  {
    assert PutAway(UNREAD) == UNREAD;
    NothingBefore(Through(kept));
  }

  /** A written file verifies whole: each log good through its tail, and nothing said to be missing. */
  lemma WholeFileVerifies(node: Node, head: Head, sections: seq<Section>)
    requires Legible(node, head.writer, sections) && head.sections == |sections| && AllExact(sections)
    ensures Verdict(node, FileBytes(head, sections), false)
         == Ok(Verified(head.writer, CountRecords(sections), Through(sections), false))
  {
    FileEventsAreWhole(sections);
    assert BytesOf(FileEvents(sections)) + [] == BytesOf(FileEvents(sections));
    var final := InspectionReaches(node, head, sections, [], false);
    FindingsOf(final, head, sections, false);
  }

  lemma FramesSurvey(node: Node, head: Head, kept: seq<Section>, cut: bool)
    requires AllNumbered(kept) && AllDecode(node, kept)
    ensures Findings(Inspect(node, UNREAD, FileEvents(kept) + (if cut then [CutShort] else [])), head)
         == Ok(Verified(head.writer, CountRecords(kept), Through(kept), cut || AnyShort(kept) || |kept| < head.sections))
  {
    var final := InspectSections(node, UNREAD, kept);
    InspectConcat(node, UNREAD, FileEvents(kept), if cut then [CutShort] else []);
    FindingsOf(final, head, kept, cut);
    if cut {
      assert Inspect(node, final, [CutShort]) == Over(final.(truncated := true));
    }
  }

  lemma FramesVerify(node: Node, head: Head, body: seq<Byte>, kept: seq<Section>, cut: bool)
    requires Legible(node, head.writer, kept)
    requires Events(body, false) == FileEvents(kept) + (if cut then [CutShort] else [])
    ensures Verdict(node, HeadBytes(head) + body, false)
         == Ok(Verified(head.writer, CountRecords(kept), Through(kept), cut || AnyShort(kept) || |kept| < head.sections))
  {
    FramesSurvey(node, head, kept, cut);
    HeadRoundTrip(head, body, node.running);
  }

  /**
   * A file cut at any byte past its head verifies as the frames that end at or
   * before the cut, and says of each log the number of the last record of it
   * that is there.
   */
  lemma CutFileVerifies(node: Node, head: Head, sections: seq<Section>, cut: nat) returns (kept: nat)
    requires Legible(node, head.writer, sections) && head.sections == |sections| && AllExact(sections)
    requires HEAD_LENGTH <= cut < |FileBytes(head, sections)|
    ensures CutAfter(sections, cut, kept) && AllNumbered(Part(sections, kept))
    ensures Verdict(node, FileBytes(head, sections)[..cut], false)
         == Ok(Verified(head.writer, CountRecords(Part(sections, kept)), Through(Part(sections, kept)), true))
  {
    FileEventsAreWhole(sections);
    kept := CutBodyVerifies(node, head, sections, cut - HEAD_LENGTH);
    PrefixPast(HeadBytes(head), BytesOf(FileEvents(sections)), cut);
  }

  lemma CutBodyVerifies(node: Node, head: Head, sections: seq<Section>, cut: nat) returns (kept: nat)
    requires Legible(node, head.writer, sections) && head.sections == |sections| && AllExact(sections)
    requires AllWhole(FileEvents(sections)) && cut < |BytesOf(FileEvents(sections))|
    ensures CutAfter(sections, HEAD_LENGTH + cut, kept) && AllNumbered(Part(sections, kept))
    ensures Verdict(node, HeadBytes(head) + BytesOf(FileEvents(sections))[..cut], false)
         == Ok(Verified(head.writer, CountRecords(Part(sections, kept)), Through(Part(sections, kept)), true))
  {
    FileEventsAreWritable(sections);
    kept := CutEvents(FileEvents(sections), cut);
    CutVerifies(node, head, sections, BytesOf(FileEvents(sections))[..cut], kept,
                cut != LengthOf(FileEvents(sections), kept));
  }

  lemma CutVerifies(node: Node, head: Head, sections: seq<Section>, left: seq<Byte>, kept: nat, sharp: bool)
    requires Legible(node, head.writer, sections)
    requires head.sections == |sections| && AllExact(sections) && kept < |FileEvents(sections)|
    requires Events(left, false) == FileEvents(sections)[..kept] + (if sharp then [CutShort] else [])
    ensures AllNumbered(Part(sections, kept))
    ensures Verdict(node, HeadBytes(head) + left, false)
         == Ok(Verified(head.writer, CountRecords(Part(sections, kept)), Through(Part(sections, kept)), true))
  {
    PartIsThoseFrames(sections, kept);
    PartIsLegible(node, head.writer, sections, kept);
    FramesVerify(node, head, left, Part(sections, kept), sharp);
    PartIsShort(sections, kept);
  }

  lemma PartIsLegible(node: Node, writer: Version, sections: seq<Section>, kept: nat)
    requires Legible(node, writer, sections)
    ensures Legible(node, writer, Part(sections, kept))
  {
    var part := Part(sections, kept);
    PartIsWholeButLast(sections, kept);
    PartIsNumbered(sections, kept);
    forall i | 0 <= i < |part|
      ensures part[i].Framed() && Decodes(node, part[i].records)
    {
      assert sections[i].Framed() && Decodes(node, sections[i].records);
    }
  }
}
