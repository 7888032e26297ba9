/** What restoring a written backup leaves behind: whole files, cut files, and one after another. */
module Restoring {
  import opened Bytes
  import opened Wrappers
  import opened Layout
  import opened Lists
  import opened Report
  import opened Format
  import opened Stores
  import opened Sections
  import opened Writing
  import opened Reading

  function AppendAll(logs: Logs, log: LogId, records: seq<Record>): Logs
    decreases |records|
  {
    if records == [] then logs else AppendAll(Append(logs, log, records[0]), log, records[1..])
  }

  /** The logs with every section's records appended where the section says. */
  function Filled(logs: Logs, sections: seq<Section>): Logs
    decreases |sections|
  {
    if sections == [] then logs
    else Filled(AppendAll(logs, sections[0].span.log, sections[0].records), sections[1..])
  }

  lemma {:induction false} AppendAllLogs(logs: Logs, log: LogId, records: seq<Record>, id: LogId)
    ensures LogOf(AppendAll(logs, log, records), id) == LogOf(logs, id) + (if id == log then records else [])
    decreases |records|
  {
    if records == [] {
    } else {
      AppendAllLogs(Append(logs, log, records[0]), log, records[1..], id);
    }
  }

  predicate DistinctLogs(sections: seq<Section>) {
    forall i, j :: 0 <= i < j < |sections| ==> sections[i].span.log != sections[j].span.log
  }

  /** A log no section names is left alone. */
  lemma {:induction false} FilledElsewhere(logs: Logs, sections: seq<Section>, id: LogId)
    requires forall i :: 0 <= i < |sections| ==> sections[i].span.log != id
    ensures LogOf(Filled(logs, sections), id) == LogOf(logs, id)
    decreases |sections|
  {
    if sections == [] {
    } else {
      AppendAllLogs(logs, sections[0].span.log, sections[0].records, id);
      FilledElsewhere(AppendAll(logs, sections[0].span.log, sections[0].records), sections[1..], id);
    }
  }

  /** A log a section names is extended by exactly that section's records. */
  lemma {:induction false} FilledLog(logs: Logs, sections: seq<Section>, i: nat)
    requires i < |sections| && DistinctLogs(sections)
    ensures LogOf(Filled(logs, sections), sections[i].span.log)
         == LogOf(logs, sections[i].span.log) + sections[i].records
    decreases |sections|
  {
    var log := sections[i].span.log;
    var next := AppendAll(logs, sections[0].span.log, sections[0].records);
    AppendAllLogs(logs, sections[0].span.log, sections[0].records, log);
    if i == 0 {
      FilledElsewhere(next, sections[1..], log);
    } else {
      FilledLog(next, sections[1..], i - 1);
    }
  }

  // ------------------------------------------------------------------- replaying

  lemma {:induction false} PlayConcat(node: Node, upto: Option<nat>, held: Held, run: Run, a: seq<Event>, b: seq<Event>)
    ensures var first := Play(node, upto, held, run, a);
            Play(node, upto, held, run, a + b) ==
            if first.turn.Going? then Play(node, upto, first.held, first.turn.run, b) else first
    decreases |a|
  {
    if a == [] {
      assert a + b == b;
    } else {
      assert (a + b)[1..] == a[1..] + b;
      var step := Advance(node, upto, held, run, a[0]);
      if step.turn.Going? {
        PlayConcat(node, upto, step.held, step.turn.run, a[1..], b);
      }
    }
  }

  /** The record codec gives these records back. */
  predicate Decodes(node: Node, records: seq<Record>) {
    forall i :: 0 <= i < |records| ==> node.decode(records[i]) == Some(records[i])
  }

  predicate AllDecode(node: Node, sections: seq<Section>) {
    forall i :: 0 <= i < |sections| ==> Decodes(node, sections[i].records)
  }

  lemma RecordEventsAhead(from: nat, records: seq<Record>)
    requires records != [] && from + |records| < U64_SPAN
    ensures RecordEvents(from, records) == [Holds(from, records[0])] + RecordEvents(from + 1, records[1..])
  {
  }

  /** The loop's variables once the open section's next `n` records are in. */
  function Moved(run: Run, n: nat): Run
    requires run.open.Some?
  {
    run.(applied := run.applied + n, open := Some(run.open.value.(reached := run.open.value.reached + n)))
  }

  /** The open section stands where the store's log does. */
  predicate InStep(held: Held, run: Run) {
    run.open.Some? && run.open.value.reached == Tail(held.logs, run.open.value.span.log)
  }

  /** The next record of the open section is taken and nothing else moves. */
  lemma PlayRecord(node: Node, upto: Option<nat>, held: Held, run: Run, record: Record) returns (after: Held)
    requires node.Willing() && node.decode(record) == Some(record)
    requires InStep(held, run) && run.open.value.reached + 1 < U64_SPAN
    requires upto.Some? ==> run.open.value.reached < upto.value
    ensures after.logs == Append(held.logs, run.open.value.span.log, record)
    ensures InStep(after, Moved(run, 1))
    ensures Advance(node, upto, held, run, Holds(run.open.value.reached + 1, record))
         == Progress(after, Going(Moved(run, 1)))
  {
    after := Advance(node, upto, held, run, Holds(run.open.value.reached + 1, record)).held;
  }

  lemma PlayNext(node: Node, upto: Option<nat>, held: Held, run: Run, event: Event, events: seq<Event>,
                 after: Held, next: Run)
    requires Advance(node, upto, held, run, event) == Progress(after, Going(next))
    ensures Play(node, upto, held, run, [event] + events) == Play(node, upto, after, next, events)
  {
    assert ([event] + events)[1..] == events;
  }

  lemma {:induction false} PlayRecords(node: Node, upto: Option<nat>, held: Held, run: Run, records: seq<Record>)
    returns (after: Held)
    requires node.Willing() && Decodes(node, records)
    requires InStep(held, run) && run.open.value.reached + 1 + |records| < U64_SPAN
    requires upto.Some? ==> run.open.value.reached + |records| <= upto.value
    ensures after.logs == AppendAll(held.logs, run.open.value.span.log, records)
    ensures PlaysTo(node, upto, held, run, records, after)
    decreases |records|
  {
    if records == [] {
      after := held;
      MovedAdds(run, 0, 0);
    } else {
      DecodesRest(node, records);
      var next := PlayRecord(node, upto, held, run, records[0]);
      after := PlayRecords(node, upto, next, Moved(run, 1), records[1..]);
      PlayOn(node, upto, held, run, records, next, after);
      AppendAllAhead(held.logs, run.open.value.span.log, records);
    }
  }

  /** The open section's next records are all taken. */
  predicate PlaysTo(node: Node, upto: Option<nat>, held: Held, run: Run, records: seq<Record>, after: Held)
    requires run.open.Some? && run.open.value.reached + 1 + |records| < U64_SPAN
  {
    Play(node, upto, held, run, RecordEvents(run.open.value.reached + 1, records))
    == Progress(after, Going(Moved(run, |records|)))
  }

  lemma DecodesRest(node: Node, records: seq<Record>)
    requires records != [] && Decodes(node, records)
    ensures node.decode(records[0]) == Some(records[0]) && Decodes(node, records[1..])
  {
  }

  lemma AppendAllAhead(logs: Logs, log: LogId, records: seq<Record>)
    requires records != []
    ensures AppendAll(logs, log, records) == AppendAll(Append(logs, log, records[0]), log, records[1..])
  {
  }

  lemma PlayOn(node: Node, upto: Option<nat>, held: Held, run: Run, records: seq<Record>, next: Held, after: Held)
    requires run.open.Some? && records != [] && run.open.value.reached + 1 + |records| < U64_SPAN
    requires Advance(node, upto, held, run, Holds(run.open.value.reached + 1, records[0])) == Progress(next, Going(Moved(run, 1)))
    requires PlaysTo(node, upto, next, Moved(run, 1), records[1..], after)
    ensures PlaysTo(node, upto, held, run, records, after)
  {
    var from := run.open.value.reached + 1;
    RecordEventsAhead(from, records);
    MovedAdds(run, 1, |records| - 1);
    PlayNext(node, upto, held, run, Holds(from, records[0]), RecordEvents(from + 1, records[1..]), next, Moved(run, 1));
    assert Moved(run, 1).open.value.reached + 1 == from + 1;
  }

  lemma MovedAdds(run: Run, m: nat, n: nat)
    requires run.open.Some?
    ensures Moved(run, 0) == run && Moved(Moved(run, m), n) == Moved(run, m + n)
  {
  }

  /** The store stands where the section continues from, and its home holds nothing foreign. */
  ghost predicate Awaits(logs: Logs, begun: seq<LogId>, span: LogSpan) {
    Tail(logs, span.log) == Base(span) && NothingForeign(logs, begun, span.log)
  }

  ghost predicate Expects(logs: Logs, begun: seq<LogId>, section: Section) {
    Awaits(logs, begun, section.span)
  }

  ghost predicate NothingForeign(logs: Logs, begun: seq<LogId>, log: LogId) {
    forall id :: id in logs && id.home == log.home && id != log && id !in begun ==> Tail(logs, id) == 0
  }

  /** The loop's variables once a section has opened. */
  function Begun(run: Run, section: Section): Run
    requires section.Numbered()
  {
    Close(run).(begun := run.begun + [section.span.log], open := Some(Opening(section.span, section.span.from - 1)))
  }

  lemma PlayOpening(node: Node, upto: Option<nat>, held: Held, run: Run, section: Section)
    requires node.ListsLogs() && section.Numbered() && Expects(held.logs, run.begun, section)
    ensures Advance(node, upto, held, run, Opens(section.span)) == Progress(held, Going(Begun(run, section)))
  {
    assert Enumerates(node.list(held.logs), held.logs);
  }

  lemma PlaySection(node: Node, upto: Option<nat>, held: Held, run: Run, section: Section) returns (after: Held)
    requires node.ListsLogs() && node.Willing() && Decodes(node, section.records)
    requires section.Numbered() && Expects(held.logs, run.begun, section)
    requires upto.Some? ==> section.Reached() <= upto.value
    ensures after.logs == AppendAll(held.logs, section.span.log, section.records)
    ensures Play(node, upto, held, run, SectionEvents(section))
         == Progress(after, Going(Moved(Begun(run, section), |section.records|)))
  {
    PlayOpening(node, upto, held, run, section);
    PlayNext(node, upto, held, run, Opens(section.span), RecordEvents(section.span.from, section.records),
             held, Begun(run, section));
    after := PlayRecords(node, upto, held, Begun(run, section), section.records);
  }

  /** Every section is expected when its turn comes. */
  ghost predicate AllExpected(logs: Logs, begun: seq<LogId>, sections: seq<Section>)
    requires AllNumbered(sections)
    decreases |sections|
  {
    sections == [] ||
    (&& Expects(logs, begun, sections[0])
     && AllExpected(AppendAll(logs, sections[0].span.log, sections[0].records),
                    begun + [sections[0].span.log], sections[1..]))
  }

  predicate AnyShort(sections: seq<Section>)
    requires AllNumbered(sections)
  {
    exists i :: 0 <= i < |sections| && sections[i].Reached() < sections[i].span.tail
  }

  lemma AnyShortOneMore(sections: seq<Section>)
    requires AllNumbered(sections) && sections != []
    ensures AnyShort(sections)
       <==> sections[0].Reached() < sections[0].span.tail || AnyShort(sections[1..])
  {
    if AnyShort(sections[1..]) {
      var i :| 0 <= i < |sections[1..]| && sections[1..][i].Reached() < sections[1..][i].span.tail;
      assert sections[i + 1].Reached() < sections[i + 1].span.tail;
    }
    if AnyShort(sections) {
      var i :| 0 <= i < |sections| && sections[i].Reached() < sections[i].span.tail;
      assert i > 0 ==> sections[1..][i - 1].Reached() < sections[1..][i - 1].span.tail;
    }
  }

  /** What the loop's variables say once the sections are in. */
  predicate Reports(before: Run, after: Run, sections: seq<Section>)
    requires AllNumbered(sections)
  {
    && after.applied == before.applied + CountRecords(sections)
    && Close(after).logs == Close(before).logs + Spans(sections)
    && Close(after).truncated == (Close(before).truncated || AnyShort(sections))
  }

  lemma ReportsOneMore(before: Run, after: Run, sections: seq<Section>)
    requires AllNumbered(sections) && sections != []
    requires Reports(Moved(Begun(before, sections[0]), |sections[0].records|), after, sections[1..])
    ensures Reports(before, after, sections)
  {
    AnyShortOneMore(sections);
    var done, first, later := Close(before).logs, [sections[0].span], Spans(sections[1..]);
    assert Spans(sections) == first + later;
    Associate(done, first, later);
  }

  /** The logs of the sections, in order. */
  function LogsOf(sections: seq<Section>): seq<LogId> {
    if sections == [] then [] else [sections[0].span.log] + LogsOf(sections[1..])
  }

  /** The section open once these are read, and where it stands. */
  function OpenAfter(open: Option<Opening>, sections: seq<Section>): Option<Opening>
    requires AllNumbered(sections)
    decreases |sections|
  {
    if sections == [] then open
    else OpenAfter(Some(Opening(sections[0].span, sections[0].Reached())), sections[1..])
  }

  lemma {:induction false} LastIsOpen(open: Option<Opening>, sections: seq<Section>)
    requires AllNumbered(sections) && sections != []
    ensures var last := sections[|sections| - 1];
            OpenAfter(open, sections) == Some(Opening(last.span, last.Reached()))
    decreases |sections|
  {
    if |sections| > 1 {
      LastIsOpen(Some(Opening(sections[0].span, sections[0].Reached())), sections[1..]);
    }
  }

  /** A replay of whole or shortened sections takes every record of them. */
  lemma {:induction false} PlaySections(node: Node, held: Held, run: Run, sections: seq<Section>)
    returns (after: Held, final: Run)
    requires node.ListsLogs() && node.Willing() && AllDecode(node, sections)
    requires AllNumbered(sections) && AllExpected(held.logs, run.begun, sections)
    ensures after.logs == Filled(held.logs, sections) && Reports(run, final, sections)
    ensures final.begun == run.begun + LogsOf(sections)
    ensures final.open == OpenAfter(run.open, sections)
    ensures Play(node, None, held, run, FileEvents(sections)) == Progress(after, Going(final))
    decreases |sections|
  {
    if sections == [] {
      after, final := held, run;
      assert Close(run).logs + Spans(sections) == Close(run).logs;
    } else {
      var next := PlaySection(node, None, held, run, sections[0]);
      var begun := Moved(Begun(run, sections[0]), |sections[0].records|);
      after, final := PlaySections(node, next, begun, sections[1..]);
      PlayTheRest(node, held, run, sections, next, begun, after, final);
      ReportsOneMore(run, final, sections);
      BegunAhead(run, sections[0], sections);
    }
  }

  lemma BegunAhead(run: Run, section: Section, sections: seq<Section>)
    requires AllNumbered(sections) && sections != [] && section == sections[0]
    ensures var begun := Moved(Begun(run, section), |section.records|);
            && begun.begun + LogsOf(sections[1..]) == run.begun + LogsOf(sections)
            && OpenAfter(begun.open, sections[1..]) == OpenAfter(run.open, sections)
  {
    Associate(run.begun, [section.span.log], LogsOf(sections[1..]));
  }

  lemma PlayTheRest(node: Node, held: Held, run: Run, sections: seq<Section>, next: Held, begun: Run, after: Held, final: Run)
    requires AllNumbered(sections) && sections != []
    requires Play(node, None, held, run, SectionEvents(sections[0])) == Progress(next, Going(begun))
    requires Play(node, None, next, begun, FileEvents(sections[1..])) == Progress(after, Going(final))
    ensures Play(node, None, held, run, FileEvents(sections)) == Progress(after, Going(final))
  {
    PlayConcat(node, None, held, run, SectionEvents(sections[0]), FileEvents(sections[1..]));
  }

  // ---------------------------------------------------------------------- files

  /** A node that can take these sections: it refuses nothing of its own and reads what they carry. */
  ghost predicate CanTake(node: Node, writer: Version, sections: seq<Section>) {
    && node.ListsLogs() && node.Willing()
    && AllNumbered(sections) && AllFramed(sections) && AllDecode(node, sections)
    && !writer.NewerThan(node.running)
  }

  /** A file whose head is accepted is its frames replayed, and then a sync. */
  lemma AcceptedFile(node: Node, held: Held, head: Head, body: seq<Byte>, broken: bool, upto: Option<nat>)
    requires !head.writer.NewerThan(node.running)
    requires upto.Some? ==> head.sections == 1
    ensures var bytes, p := HeadBytes(head) + body, Play(node, upto, held, START, Events(body, broken));
            && StoreAfter(node, held, bytes, broken, upto) == Synced(node, p.held)
            && Answer(node, held, bytes, broken, upto)
            == if node.syncFails(p.held.syncs) then Err(SyncFailed) else Replayed(upto, p.turn, head)
  {
    HeadRoundTrip(head, body, node.running);
  }

  /** What replaying these sections, with or without a cut after them, reports. */
  lemma FramesReport(node: Node, held: Held, head: Head, kept: seq<Section>, cut: bool) returns (after: Held)
    requires node.ListsLogs() && node.Willing() && AllDecode(node, kept)
    requires AllNumbered(kept) && AllExpected(held.logs, [], kept)
    ensures after.logs == Filled(held.logs, kept)
    ensures var p := Play(node, None, held, START, FileEvents(kept) + (if cut then [CutShort] else []));
            && p.held == after
            && Replayed(None, p.turn, head)
            == Ok(Restored(head.writer, CountRecords(kept), Spans(kept),
                           cut || AnyShort(kept) || |kept| < head.sections))
  {
    var final;
    after, final := PlaySections(node, held, START, kept);
    PlayConcat(node, None, held, START, FileEvents(kept), if cut then [CutShort] else []);
    SummaryOf(final, head, kept, cut);
    if cut {
      assert Play(node, None, after, final, [CutShort]) == Progress(after, Ended(final.(truncated := true)));
    }
  }

  lemma SummaryOf(final: Run, head: Head, kept: seq<Section>, cut: bool)
    requires AllNumbered(kept) && Reports(START, final, kept)
    ensures Summary(None, final.(truncated := final.truncated || cut), head)
         == Restored(head.writer, CountRecords(kept), Spans(kept), cut || AnyShort(kept) || |kept| < head.sections)
  {
    NothingBefore(Spans(kept));
    ClosedSummary(final, head, cut);
  }

  /** A run's report, read off the run with its section put away. */
  lemma ClosedSummary(run: Run, head: Head, cut: bool)
    ensures Summary(None, run.(truncated := run.truncated || cut), head)
         == Restored(head.writer, run.applied, Close(run).logs,
                     cut || Close(run).truncated || |Close(run).logs| < head.sections)
  {
    match run.open {
      case None =>
      case Some(opening) =>
    }
  }

  lemma NothingBefore<T>(s: seq<T>)
    ensures [] + s == s
  {
  }

  lemma FramesRestore(node: Node, held: Held, head: Head, body: seq<Byte>, kept: seq<Section>, cut: bool)
    requires CanTake(node, head.writer, kept) && AllExpected(held.logs, [], kept)
    requires Events(body, false) == FileEvents(kept) + (if cut then [CutShort] else [])
    ensures Outcome(node, held, HeadBytes(head) + body, None, Filled(held.logs, kept),
                    Ok(Restored(head.writer, CountRecords(kept), Spans(kept),
                                cut || AnyShort(kept) || |kept| < head.sections)))
  {
    AcceptedFile(node, held, head, body, false, None);
    var after := FramesReport(node, held, head, kept, cut);
  }

  /** A restore of `bytes` leaves these logs and answers this. */
  predicate Outcome(node: Node, held: Held, bytes: seq<Byte>, upto: Option<nat>, logs: Logs,
                    answer: Result<Restored, Error>)
  {
    && StoreAfter(node, held, bytes, false, upto).logs == logs
    && Answer(node, held, bytes, false, upto) == answer
  }

  /** A written file is the replay of the frames it was written from. */
  lemma FileOutcome(node: Node, held: Held, head: Head, sections: seq<Section>, upto: Option<nat>)
    requires CanTake(node, head.writer, sections) && (upto.Some? ==> head.sections == 1)
    ensures var p := Play(node, upto, held, START, FileEvents(sections));
            Outcome(node, held, FileBytes(head, sections), upto, p.held.logs, Replayed(upto, p.turn, head))
  {
    FileEventsAreWritable(sections);
    EventsRoundTrip(FileEvents(sections));
    AcceptedFile(node, held, head, BytesOf(FileEvents(sections)), false, upto);
  }

  /**
   * A whole file restored where every section is expected appends exactly its
   * records to exactly the logs it names, and says that nothing is missing.
   */
  lemma WholeFileRestores(node: Node, held: Held, head: Head, sections: seq<Section>)
    requires CanTake(node, head.writer, sections) && AllExpected(held.logs, [], sections)
    requires head.sections == |sections| && AllExact(sections)
    ensures Outcome(node, held, FileBytes(head, sections), None, Filled(held.logs, sections),
                    Ok(Restored(head.writer, CountRecords(sections), Spans(sections), false)))
  {
    FileOutcome(node, held, head, sections, None);
    var none: seq<Event> := [];
    assert FileEvents(sections) + none == FileEvents(sections);
    var after := FramesReport(node, held, head, sections, false);
  }

  /** The cut falls after the first `kept` frames of the file and before the next one ends. */
  ghost predicate CutAfter(sections: seq<Section>, cut: nat, kept: nat)
    requires AllNumbered(sections)
  {
    FileEventsAreWhole(sections);
    && kept < |FileEvents(sections)|
    && HEAD_LENGTH + LengthOf(FileEvents(sections), kept) <= cut
    && cut < HEAD_LENGTH + LengthOf(FileEvents(sections), kept + 1)
  }

  /**
   * A file cut at any byte is either refused before anything is applied, when
   * the cut is inside its head, or restores exactly the frames that end at or
   * before the cut: its earlier sections whole and what is left of the one it
   * was cut in, with their count and their spans, and with the word that
   * something is missing. Answers how many frames that was.
   */
  lemma CutFileRestores(node: Node, held: Held, head: Head, sections: seq<Section>, cut: nat) returns (kept: nat)
    requires CanTake(node, head.writer, sections) && AllExpected(held.logs, [], sections)
    requires head.sections == |sections| && AllExact(sections)
    requires cut < |FileBytes(head, sections)|
    ensures cut < HEAD_LENGTH ==> RefusedUntouched(node, held, FileBytes(head, sections)[..cut], NotABackup)
    ensures HEAD_LENGTH <= cut ==>
              && CutAfter(sections, cut, kept)
              && RestoresPart(node, held, FileBytes(head, sections)[..cut], head, Part(sections, kept))
  {
    kept := 0;
    FileEventsAreWhole(sections);
    if cut < HEAD_LENGTH {
      CutInHead(node, held, head, BytesOf(FileEvents(sections)), cut);
    } else {
      kept := CutInBody(node, held, head, sections, cut - HEAD_LENGTH);
      PrefixPast(HeadBytes(head), BytesOf(FileEvents(sections)), cut);
    }
  }

  lemma CutInBody(node: Node, held: Held, head: Head, sections: seq<Section>, cut: nat) returns (kept: nat)
    requires CanTake(node, head.writer, sections) && AllExpected(held.logs, [], sections)
    requires head.sections == |sections| && AllExact(sections) && AllWhole(FileEvents(sections))
    requires cut < |BytesOf(FileEvents(sections))|
    ensures CutAfter(sections, HEAD_LENGTH + cut, kept)
    ensures RestoresPart(node, held, HeadBytes(head) + BytesOf(FileEvents(sections))[..cut], head, Part(sections, kept))
  {
    FileEventsAreWritable(sections);
    kept := CutEvents(FileEvents(sections), cut);
    CutRestores(node, held, head, sections, BytesOf(FileEvents(sections))[..cut], kept,
                cut != LengthOf(FileEvents(sections), kept));
  }

  lemma CutInHead(node: Node, held: Held, head: Head, body: seq<Byte>, cut: nat)
    requires cut < HEAD_LENGTH && !head.writer.NewerThan(node.running)
    ensures RefusedUntouched(node, held, (HeadBytes(head) + body)[..cut], NotABackup)
  {
    assert (HeadBytes(head) + body)[..cut] == HeadBytes(head)[..cut];
    CutHeadIsRefused(head, cut, node.running);
  }

  /** The file is turned away with this error before the store is touched at all. */
  predicate RefusedUntouched(node: Node, held: Held, bytes: seq<Byte>, error: Error) {
    && StoreAfter(node, held, bytes, false, None) == held
    && Answer(node, held, bytes, false, None) == Err(error)
  }

  /** The restore takes exactly this part, reports it, and says the file is truncated. */
  predicate RestoresPart(node: Node, held: Held, bytes: seq<Byte>, head: Head, part: seq<Section>) {
    Outcome(node, held, bytes, None, Filled(held.logs, part),
            Ok(Restored(head.writer, CountRecords(part), Spans(part), true)))
  }

  lemma CutRestores(node: Node, held: Held, head: Head, sections: seq<Section>, left: seq<Byte>, kept: nat, sharp: bool)
    requires CanTake(node, head.writer, sections) && AllExpected(held.logs, [], sections)
    requires head.sections == |sections| && AllExact(sections) && kept < |FileEvents(sections)|
    requires Events(left, false) == FileEvents(sections)[..kept] + (if sharp then [CutShort] else [])
    ensures RestoresPart(node, held, HeadBytes(head) + left, head, Part(sections, kept))
  {
    PartIsThoseFrames(sections, kept);
    PartIsTaken(node, head.writer, sections, kept);
    ExpectedPart(held.logs, [], sections, kept);
    FramesRestore(node, held, head, left, Part(sections, kept), sharp);
    PartIsShort(sections, kept);
  }

  lemma PartIsTaken(node: Node, writer: Version, sections: seq<Section>, kept: nat)
    requires CanTake(node, writer, sections)
    ensures CanTake(node, writer, Part(sections, kept))
  {
    var part := Part(sections, kept);
    PartIsWholeButLast(sections, kept);
    PartIsNumbered(sections, kept);
    forall i | 0 <= i < |part|
      ensures part[i].Framed() && Decodes(node, part[i].records)
    {
      assert sections[i].Framed() && Decodes(node, sections[i].records);
    }
  }

  lemma PartIsShort(sections: seq<Section>, kept: nat)
    requires AllNumbered(sections) && AllExact(sections) && kept < |FileEvents(sections)|
    ensures AllNumbered(Part(sections, kept))
    ensures |Part(sections, kept)| < |sections| || AnyShort(Part(sections, kept))
  {
    var part := Part(sections, kept);
    PartIsWholeButLast(sections, kept);
    PartIsNumbered(sections, kept);
    PartLacksSomething(sections, kept);
    if |part| == |sections| {
      var last := |part| - 1;
      assert part[last].Reached() < sections[last].span.tail;
    }
  }

  lemma {:induction false} ExpectedPart(logs: Logs, begun: seq<LogId>, sections: seq<Section>, kept: nat)
    requires AllNumbered(sections) && AllExpected(logs, begun, sections)
    ensures AllNumbered(Part(sections, kept)) && AllExpected(logs, begun, Part(sections, kept))
    decreases |sections|
  {
    PartIsNumbered(sections, kept);
    var part := Part(sections, kept);
    if kept > 0 && sections != [] {
      if kept <= 1 + |sections[0].records| {
        assert part[1..] == [];
      } else {
        var more := kept - 1 - |sections[0].records|;
        ExpectedPart(AppendAll(logs, sections[0].span.log, sections[0].records), begun + [sections[0].span.log],
                     sections[1..], more);
        assert part[1..] == Part(sections[1..], more);
      }
    }
  }
}
