/** A backup written, cut, restored and continued: what is left is what was there. */
module RoundTrips {
  import opened Bytes
  import opened Wrappers
  import opened Layout
  import opened Report
  import opened Format
  import Reader
  import opened Stores
  import opened Sections
  import opened Writing
  import opened Reading
  import opened Restoring

  const EMPTY: Held := Held(map[], map[], 0, 0, 0)

  /** Every section starts at its log's first record. */
  predicate FromTheStart(sections: seq<Section>) {
    forall i :: 0 <= i < |sections| ==> sections[i].span.from == 1
  }

  /** Whole sections of distinct logs are each expected by a store that holds only what they put there. */
  lemma {:induction false} WholeSectionsExpected(logs: Logs, begun: seq<LogId>, sections: seq<Section>)
    requires AllNumbered(sections) && FromTheStart(sections) && DistinctLogs(sections)
    requires forall id :: Tail(logs, id) > 0 ==> id in begun
    requires forall i :: 0 <= i < |sections| ==> sections[i].span.log !in begun
    ensures AllExpected(logs, begun, sections)
    decreases |sections|
  {
    if sections == [] {
    } else {
      var log := sections[0].span.log;
      var next := AppendAll(logs, log, sections[0].records);
      forall id | Tail(next, id) > 0
        ensures id in begun + [log]
      {
        AppendAllLogs(logs, log, sections[0].records, id);
      }
      WholeSectionsExpected(next, begun + [log], sections[1..]);
    }
  }

  /** What a whole backup is made of: each log listed, as it stood at some moment of the writing. */
  ghost predicate IsBackup(history: nat -> Logs, begin: nat, end: nat, ids: seq<LogId>, sections: seq<Section>) {
    && Grows(history) && AllTaken(history, begin, end, ids, sections)
    && |sections| < U32_SPAN
    && forall i, j :: 0 <= i < j < |ids| ==> ids[i] != ids[j]
  }

  lemma BackupSections(history: nat -> Logs, begin: nat, end: nat, ids: seq<LogId>, sections: seq<Section>)
    requires IsBackup(history, begin, end, ids, sections)
    ensures AllNumbered(sections) && AllExact(sections) && FromTheStart(sections) && DistinctLogs(sections)
    ensures forall i :: 0 <= i < |ids| ==> sections[i].span.log == ids[i]
    ensures AllExpected(map[], [], sections)
  {
    forall i | 0 <= i < |ids|
      ensures sections[i].Numbered() && sections[i].Exact() && sections[i].span.from == 1
      ensures sections[i].span.log == ids[i]
    {
      assert TakenWithin(history, begin, end, ids[i], 1, sections[i]);
    }
    WholeSectionsExpected(map[], [], sections);
  }

  /** The logs hold, for every listed log, what it held at some moment of the writing, and nothing else. */
  ghost predicate Mirrors(history: nat -> Logs, begin: nat, end: nat, ids: seq<LogId>, logs: Logs) {
    && (forall i :: 0 <= i < |ids| ==>
          exists t :: begin <= t <= end && LogOf(logs, ids[i]) == LogOf(history(t), ids[i]))
    && (forall id :: id !in ids ==> LogOf(logs, id) == [])
  }

  lemma FilledMirrorsLog(history: nat -> Logs, begin: nat, end: nat, ids: seq<LogId>, sections: seq<Section>, i: nat)
    requires IsBackup(history, begin, end, ids, sections) && DistinctLogs(sections)
    requires i < |ids| && sections[i].span.log == ids[i]
    ensures exists t :: begin <= t <= end && LogOf(Filled(map[], sections), ids[i]) == LogOf(history(t), ids[i])
  {
    FilledLog(map[], sections, i);
    assert TakenWithin(history, begin, end, ids[i], 1, sections[i]);
    var t :| begin <= t <= end && sections[i] == SectionOf(ids[i], 1, LogOf(history(t), ids[i]));
    assert LogOf(Filled(map[], sections), ids[i]) == LogOf(history(t), ids[i]);
  }

  lemma FilledMirrors(history: nat -> Logs, begin: nat, end: nat, ids: seq<LogId>, sections: seq<Section>)
    requires IsBackup(history, begin, end, ids, sections)
    ensures Mirrors(history, begin, end, ids, Filled(map[], sections))
  {
    BackupSections(history, begin, end, ids, sections);
    var after := Filled(map[], sections);
    forall i | 0 <= i < |ids|
      ensures exists t :: begin <= t <= end && LogOf(after, ids[i]) == LogOf(history(t), ids[i])
    {
      FilledMirrorsLog(history, begin, end, ids, sections, i);
    }
    forall id | id !in ids
      ensures LogOf(after, id) == []
    {
      FilledElsewhere(map[], sections, id);
    }
  }

  /**
   * A whole backup of logs that kept growing, restored into an empty store: for
   * every listed log exactly what that log held at some moment of the writing,
   * for every other log nothing, and nothing said to be missing.
   */
  lemma BackupRestores(node: Node, writer: Version, history: nat -> Logs, begin: nat, end: nat,
                       ids: seq<LogId>, sections: seq<Section>)
    returns (logs: Logs)
    requires IsBackup(history, begin, end, ids, sections) && CanTake(node, writer, sections)
    ensures Mirrors(history, begin, end, ids, logs)
    ensures Outcome(node, EMPTY, FileBytes(Head(writer, |sections|), sections), None, logs,
                    Ok(Restored(writer, CountRecords(sections), Spans(sections), false)))
  {
    logs := Filled(map[], sections);
    FilledMirrors(history, begin, end, ids, sections);
    BackupSections(history, begin, end, ids, sections);
    WholeFileRestores(node, EMPTY, Head(writer, |sections|), sections);
  }

  // ------------------------------------------------------------------ bootstrapping

  lemma PartIsPrefix(sections: seq<Section>, kept: nat, i: nat)
    requires DistinctLogs(sections) && i < |sections|
    ensures var part := Part(sections, kept);
            LogOf(Filled(map[], part), sections[i].span.log) == if i < |part| then part[i].records else []
  {
    var part := Part(sections, kept);
    PartIsWholeButLast(sections, kept);
    if i < |part| {
      FilledLog(map[], part, i);
    } else {
      FilledElsewhere(map[], part, sections[i].span.log);
    }
  }

  /** Following a log from one past its tail gives the log followed. */
  predicate FollowsOn(held: seq<Record>, leader: seq<Record>) {
    |held| <= |leader| && held + leader[|held|..] == leader
  }

  /** From every moment after the writing, following each log from where it stands gives the leader's. */
  ghost predicate AllFollowOn(history: nat -> Logs, end: nat, ids: seq<LogId>, logs: Logs) {
    forall i, m :: 0 <= i < |ids| && m >= end ==> FollowsOn(LogOf(logs, ids[i]), LogOf(history(m), ids[i]))
  }

  lemma PartFollowsOn(history: nat -> Logs, begin: nat, end: nat, ids: seq<LogId>, sections: seq<Section>, kept: nat)
    requires IsBackup(history, begin, end, ids, sections)
    ensures AllFollowOn(history, end, ids, Filled(map[], Part(sections, kept)))
  {
    BackupSections(history, begin, end, ids, sections);
    PartIsWholeButLast(sections, kept);
    var after := Filled(map[], Part(sections, kept));
    forall i, m | 0 <= i < |ids| && m >= end
      ensures FollowsOn(LogOf(after, ids[i]), LogOf(history(m), ids[i]))
    {
      PartIsPrefix(sections, kept, i);
      assert TakenWithin(history, begin, end, ids[i], 1, sections[i]);
      SectionIsABeginning(history, begin, end, ids[i], sections[i], m);
      BeginningFollowsOn(LogOf(after, ids[i]), sections[i].records, LogOf(history(m), ids[i]));
    }
  }

  lemma SectionIsABeginning(history: nat -> Logs, begin: nat, end: nat, log: LogId, section: Section, m: nat)
    requires Grows(history) && TakenWithin(history, begin, end, log, 1, section) && m >= end
    ensures section.records <= LogOf(history(m), log)
  {
    var t :| begin <= t <= end && section == SectionOf(log, 1, LogOf(history(t), log));
  }

  lemma BeginningFollowsOn(held: seq<Record>, records: seq<Record>, leader: seq<Record>)
    requires held <= records <= leader
    ensures FollowsOn(held, leader)
  {
  }

  lemma PartHoldsNothingElse(sections: seq<Section>, kept: nat, id: LogId)
    requires forall i :: 0 <= i < |sections| ==> sections[i].span.log != id
    ensures LogOf(Filled(map[], Part(sections, kept)), id) == []
  {
    PartIsWholeButLast(sections, kept);
    FilledElsewhere(map[], Part(sections, kept), id);
  }

  /**
   * A new node brought up from a backup cut anywhere past its head: it holds
   * exactly the frames that end at or before the cut and no other record, it is
   * told the file was truncated, and, from every later moment of the leader,
   * following each log from the position named gives the leader's log: nothing
   * is lost and nothing is repeated.
   */
  lemma CutBootstrapContinues(node: Node, writer: Version, history: nat -> Logs, begin: nat, end: nat,
                              ids: seq<LogId>, sections: seq<Section>, cut: nat)
    returns (kept: nat)
    requires IsBackup(history, begin, end, ids, sections) && CanTake(node, writer, sections)
    requires AllNumbered(sections) && HEAD_LENGTH <= cut < |FileBytes(Head(writer, |sections|), sections)|
    ensures CutAfter(sections, cut, kept)
    ensures var part := Part(sections, kept);
            var logs := Filled(map[], part);
            var bytes := FileBytes(Head(writer, |sections|), sections)[..cut];
            && StoreAfter(node, EMPTY, bytes, false, None).logs == logs
            && AllFollowOn(history, end, ids, logs) && (forall id :: id !in ids ==> LogOf(logs, id) == [])
            && BootstrapAnswer(Answer(node, EMPTY, bytes, false, None), node, logs)
            == Ok(Bootstrapped(writer, CountRecords(part), FollowFrom(logs, node.list(logs)), true))
  {
    BackupSections(history, begin, end, ids, sections);
    kept := CutFileRestores(node, EMPTY, Head(writer, |sections|), sections, cut);
    PartFollowsOn(history, begin, end, ids, sections, kept);
    forall id | id !in ids
      ensures LogOf(Filled(map[], Part(sections, kept)), id) == []
    {
      PartHoldsNothingElse(sections, kept, id);
    }
  }

  // -------------------------------------------------------------------- continuing

  /** How many of a section's records a restore up to `upto` takes. */
  function Allowed(section: Section, upto: nat): (r: nat)
    requires section.Numbered()
    ensures r <= |section.records|
  {
    if upto < section.span.from then 0
    else if upto - section.span.from + 1 < |section.records| then upto - section.span.from + 1
    else |section.records|
  }

  lemma SectionSplit(section: Section, n: nat)
    requires section.Numbered() && n <= |section.records|
    ensures section.Shortened(n).Numbered()
    ensures SectionEvents(section)
         == SectionEvents(section.Shortened(n)) + RecordEvents(section.span.from + n, section.records[n..])
  {
  }

  /** A restore with a bound takes the log as far as that bound and no further. */
  lemma UptoRestores(node: Node, held: Held, writer: Version, section: Section, upto: nat)
    requires section.Numbered() && section.Exact() && Expects(held.logs, [], section)
    requires CanTake(node, writer, [section])
    ensures Outcome(node, held, FileBytes(Head(writer, 1), [section]), Some(upto),
                    AppendAll(held.logs, section.span.log, section.records[..Allowed(section, upto)]),
                    Ok(Restored(writer, Allowed(section, upto), [section.span], false)))
  {
    assert [section][0] == section;
    FileOutcome(node, held, Head(writer, 1), [section], Some(upto));
    var after := PlayUptoReport(node, held, section, upto, writer);
  }

  lemma PlayUptoReport(node: Node, held: Held, section: Section, upto: nat, writer: Version) returns (after: Held)
    requires node.ListsLogs() && node.Willing() && Decodes(node, section.records)
    requires section.Numbered() && Expects(held.logs, [], section)
    ensures after.logs == AppendAll(held.logs, section.span.log, section.records[..Allowed(section, upto)])
    ensures var p := Play(node, Some(upto), held, START, FileEvents([section]));
            && p.held == after
            && Replayed(Some(upto), p.turn, Head(writer, 1))
            == Ok(Restored(writer, Allowed(section, upto), [section.span], false))
  {
    assert FileEvents([section]) == SectionEvents(section);
    after := PlayUpto(node, held, section, upto);
    UptoSummary(section, upto, Allowed(section, upto), writer);
  }

  lemma UptoSummary(section: Section, upto: nat, n: nat, writer: Version)
    requires section.Numbered()
    ensures Summary(Some(upto), Moved(Begun(START, section), n), Head(writer, 1))
         == Restored(writer, n, [section.span], false)
  {
  }

  /** Records past the bound stop the replay where it is. */
  lemma PlayPast(node: Node, held: Held, run: Run, upto: nat, from: nat, records: seq<Record>)
    requires run.open.Some? && from + |records| < U64_SPAN
    requires records != [] ==> from > upto
    ensures var p := Play(node, Some(upto), held, run, RecordEvents(from, records));
            p.held == held && !p.turn.Refused? && p.turn.run == run
  {
  }

  lemma PlayUpto(node: Node, held: Held, section: Section, upto: nat) returns (after: Held)
    requires node.ListsLogs() && node.Willing() && Decodes(node, section.records)
    requires section.Numbered() && Expects(held.logs, [], section)
    ensures after.logs == AppendAll(held.logs, section.span.log, section.records[..Allowed(section, upto)])
    ensures var p := Play(node, Some(upto), held, START, SectionEvents(section));
            && p.held == after && !p.turn.Refused?
            && p.turn.run == Moved(Begun(START, section), Allowed(section, upto))
  {
    var n := Allowed(section, upto);
    var short, rest := section.Shortened(n), section.records[n..];
    SectionSplit(section, n);
    after := PlayAllowed(node, held, section, upto);
    PlayConcat(node, Some(upto), held, START, SectionEvents(short), RecordEvents(section.span.from + n, rest));
    PlayPast(node, after, Moved(Begun(START, section), n), upto, section.span.from + n, rest);
  }

  lemma PlayAllowed(node: Node, held: Held, section: Section, upto: nat) returns (after: Held)
    requires node.ListsLogs() && node.Willing() && Decodes(node, section.records)
    requires section.Numbered() && Expects(held.logs, [], section)
    ensures after.logs == AppendAll(held.logs, section.span.log, section.records[..Allowed(section, upto)])
    ensures Play(node, Some(upto), held, START, SectionEvents(section.Shortened(Allowed(section, upto))))
         == Progress(after, Going(Moved(Begun(START, section), Allowed(section, upto))))
  {
    var short := section.Shortened(Allowed(section, upto));
    assert Begun(START, short) == Begun(START, section);
    if upto + 1 < section.span.from {
      after := PlaySectionNone(node, held, section, upto);
    } else {
      after := PlaySection(node, Some(upto), held, START, short);
    }
  }

  lemma PlaySectionNone(node: Node, held: Held, section: Section, upto: nat) returns (after: Held)
    requires node.ListsLogs() && section.Numbered() && Expects(held.logs, [], section)
    ensures after == held
    ensures Play(node, Some(upto), held, START, SectionEvents(section.Shortened(0)))
         == Progress(after, Going(Moved(Begun(START, section), 0)))
  {
    after := held;
    PlayOpening(node, Some(upto), held, START, section);
    var none: seq<Event> := [];
    assert SectionEvents(section.Shortened(0)) == [Opens(section.span)] + none;
    PlayNext(node, Some(upto), held, START, Opens(section.span), none, held, Begun(START, section));
    MovedAdds(Begun(START, section), 0, 0);
  }

  /** How a section is refused by a store with these logs, if it is. */
  function Refusal(node: Node, logs: Logs, begun: seq<LogId>, span: LogSpan): Option<Error> {
    if Tail(logs, span.log) != Base(span) then Some(WrongBase(Base(span), Tail(logs, span.log)))
    else match Foreign(logs, OfHome(node.list(logs), span.log.home), span.log, begun)
      case None => None
      case Some(found) => Some(WrongBase(0, found))
  }

  lemma RefusedIffNotAwaited(node: Node, held: Held, run: Run, span: LogSpan)
    requires node.ListsLogs()
    ensures Refusal(node, held.logs, run.begun, span).None? <==> Awaits(held.logs, run.begun, span)
    ensures Refusal(node, held.logs, run.begun, span).Some? ==>
              Advance(node, None, held, run, Opens(span))
              == Progress(held, Refused(Refusal(node, held.logs, run.begun, span).value))
  {
    assert Enumerates(node.list(held.logs), held.logs);
  }

  lemma SpanFirst(span: LogSpan, rest: seq<Byte>, broken: bool)
    requires Writable(Opens(span))
    ensures var events := Events(SpanBytes(span) + rest, broken); events != [] && events[0] == Opens(span)
  {
    SpanRoundTrip(span, rest, broken);
  }

  lemma FirstIsRefused(node: Node, upto: Option<nat>, held: Held, run: Run, span: LogSpan, events: seq<Event>)
    requires node.ListsLogs() && !Awaits(held.logs, run.begun, span) && events != [] && events[0] == Opens(span)
    ensures Refusal(node, held.logs, run.begun, span).Some?
    ensures Play(node, upto, held, run, events)
         == Progress(held, Refused(Refusal(node, held.logs, run.begun, span).value))
  {
    RefusedIffNotAwaited(node, held, run, span);
  }

  /**
   * A file whose first section the store does not await moves no log, whatever
   * its head counts, whatever follows that section's frame, whatever bound was
   * asked for and whatever else the node would refuse.
   */
  lemma UnexpectedIsRefused(node: Node, held: Held, head: Head, span: LogSpan, rest: seq<Byte>, broken: bool, upto: Option<nat>)
    requires node.ListsLogs() && !head.writer.NewerThan(node.running)
    requires Writable(Opens(span)) && !Awaits(held.logs, [], span)
    ensures Refusal(node, held.logs, [], span).Some?
    ensures var bytes := HeadBytes(head) + (SpanBytes(span) + rest);
            && StoreAfter(node, held, bytes, broken, upto).logs == held.logs
            && Answer(node, held, bytes, broken, upto)
            == Err(if upto.Some? && head.sections != 1 then ManyLogs(PointInTimeRestore, head.sections)
                   else if node.syncFails(held.syncs) then SyncFailed
                   else Refusal(node, held.logs, [], span).value)
  {
    var body := SpanBytes(span) + rest;
    HeadRoundTrip(head, body, node.running);
    SpanFirst(span, rest, broken);
    FirstIsRefused(node, upto, held, START, span, Events(body, broken));
    if upto.Some? && head.sections != 1 {
      UptoNeedsOneLog(node, held, HeadBytes(head) + body, broken, upto.value);
    } else {
      AcceptedFile(node, held, head, body, broken, upto);
    }
  }

  /**
   * A later section the store does not await ends the restore there: the
   * sections before it are in whole, and nothing after it is.
   */
  lemma LaterUnexpectedIsRefused(node: Node, held: Held, head: Head, before: seq<Section>, span: LogSpan,
                                 rest: seq<Byte>, broken: bool)
    requires CanTake(node, head.writer, before) && AllExpected(held.logs, [], before)
    requires Writable(Opens(span)) && !Awaits(Filled(held.logs, before), LogsOf(before), span)
    ensures Refusal(node, Filled(held.logs, before), LogsOf(before), span).Some? && AllWhole(FileEvents(before))
    ensures var bytes := HeadBytes(head) + (BytesOf(FileEvents(before)) + (SpanBytes(span) + rest));
            && StoreAfter(node, held, bytes, broken, None).logs == Filled(held.logs, before)
            && Answer(node, held, bytes, broken, None)
            == Err(Refusal(node, Filled(held.logs, before), LogsOf(before), span).value)
  {
    FileEventsAreWritable(before);
    var left := SpanBytes(span) + rest;
    var after, final := PlaySections(node, held, START, before);
    assert [] + LogsOf(before) == LogsOf(before);
    SpanFirst(span, rest, broken);
    FirstIsRefused(node, None, after, final, span, Events(left, broken));
    EventsConcat(FileEvents(before), left, broken);
    PlayConcat(node, None, held, START, FileEvents(before), Events(left, broken));
    AcceptedFile(node, held, head, BytesOf(FileEvents(before)) + left, broken, None);
  }

  lemma OneSectionBytes(writer: Version, section: Section)
    requires section.Numbered()
    ensures AllNumbered([section]) && AllWhole(RecordEvents(section.span.from, section.records))
    ensures FileBytes(Head(writer, 1), [section])
         == HeadBytes(Head(writer, 1))
            + (SpanBytes(section.span) + BytesOf(RecordEvents(section.span.from, section.records)))
  {
    assert [section][0] == section;
    var events := SectionEvents(section);
    assert FileEvents([section]) == events + FileEvents([]) == events;
    assert events[1..] == RecordEvents(section.span.from, section.records);
  }

  /**
   * A one-section file is taken exactly when the log stands where the section
   * continues from and its home holds nothing foreign; otherwise it is refused
   * as the wrong base and no log moves.
   */
  lemma OneSectionIsTakenIffExpected(node: Node, held: Held, writer: Version, section: Section)
    requires node.ListsLogs() && !writer.NewerThan(node.running)
    requires section.Numbered() && section.Exact() && Writable(Opens(section.span))
    ensures Expects(held.logs, [], section) && CanTake(node, writer, [section]) ==>
              Outcome(node, held, FileBytes(Head(writer, 1), [section]), None,
                      AppendAll(held.logs, section.span.log, section.records),
                      Ok(Restored(writer, |section.records|, [section.span], false)))
    ensures !Expects(held.logs, [], section) ==>
              && Refusal(node, held.logs, [], section.span).Some?
              && Outcome(node, held, FileBytes(Head(writer, 1), [section]), None, held.logs,
                         Err(if node.syncFails(held.syncs) then SyncFailed else Refusal(node, held.logs, [], section.span).value))
  {
    assert [section][0] == section;
    if Expects(held.logs, [], section) {
      if CanTake(node, writer, [section]) {
        WholeFileRestores(node, held, Head(writer, 1), [section]);
        OneSectionReport(section);
      }
    } else {
      RefusedIffNotAwaited(node, held, START, section.span);
      OneSectionIsRefused(node, held, writer, section,
                          if node.syncFails(held.syncs) then SyncFailed else Refusal(node, held.logs, [], section.span).value);
    }
  }

  lemma OneSectionIsRefused(node: Node, held: Held, writer: Version, section: Section, error: Error)
    requires node.ListsLogs() && !writer.NewerThan(node.running) && section.Numbered()
    requires Writable(Opens(section.span)) && !Awaits(held.logs, [], section.span)
    requires if node.syncFails(held.syncs) then error == SyncFailed
             else Refusal(node, held.logs, [], section.span) == Some(error)
    ensures Outcome(node, held, FileBytes(Head(writer, 1), [section]), None, held.logs, Err(error))
  {
    OneSectionBytes(writer, section);
    UnexpectedIsRefused(node, held, Head(writer, 1), section.span,
                        BytesOf(RecordEvents(section.span.from, section.records)), false, None);
  }

  lemma OneSectionReport(section: Section)
    requires section.Numbered()
    ensures CountRecords([section]) == |section.records| && Spans([section]) == [section.span]
    ensures forall logs :: Filled(logs, [section]) == AppendAll(logs, section.span.log, section.records)
  {
    assert [section][1..] == [];
  }

  /** A bound makes no sense for a file of several logs or none, and such a file is turned away untouched. */
  lemma UptoNeedsOneLog(node: Node, held: Held, bytes: seq<Byte>, broken: bool, upto: nat)
    requires HeadIn(bytes, node.running).Ok? && HeadIn(bytes, node.running).value.sections != 1
    ensures StoreAfter(node, held, bytes, broken, Some(upto)) == held
    ensures Answer(node, held, bytes, broken, Some(upto))
         == Err(ManyLogs(PointInTimeRestore, HeadIn(bytes, node.running).value.sections))
  {
  }

  lemma {:induction false} AppendAllConcat(logs: Logs, log: LogId, a: seq<Record>, b: seq<Record>)
    ensures AppendAll(AppendAll(logs, log, a), log, b) == AppendAll(logs, log, a + b)
    decreases |a|
  {
    if a == [] {
      assert a + b == b;
    } else {
      assert (a + b)[1..] == a[1..] + b;
      AppendAllConcat(Append(logs, log, a[0]), log, a[1..], b);
    }
  }

  lemma NothingForeignStill(logs: Logs, log: LogId, records: seq<Record>)
    requires NothingForeign(logs, [], log)
    ensures NothingForeign(AppendAll(logs, log, records), [], log)
    ensures Tail(AppendAll(logs, log, records), log) == Tail(logs, log) + |records|
  {
    var after := AppendAll(logs, log, records);
    AppendAllLogs(logs, log, records, log);
    forall id | id in after && id.home == log.home && id != log
      ensures Tail(after, id) == 0
    {
      AppendAllLogs(logs, log, records, id);
      assert Tail(logs, id) == 0;
    }
  }

  /** Two files of one log, written one after the other: the whole of it, and what came at and after `start`. */
  ghost predicate WrittenInTurn(first: Section, part: Section, start: nat, earlier: seq<Record>, later: seq<Record>) {
    && earlier <= later && |later| + 1 < U64_SPAN && 1 <= start < U64_SPAN
    && first == SectionOf(first.span.log, 1, earlier)
    && part == SectionOf(part.span.log, start, later) && part.span.log == first.span.log
  }

  /** The store a point-in-time restore of the first file leaves. */
  function MiddleStore(node: Node, held: Held, writer: Version, first: Section, upto: nat): Held
    requires first.Numbered()
  {
    StoreAfter(node, held, FileBytes(Head(writer, 1), [first]), false, Some(upto))
  }

  /**
   * A log restored up to any sequence it holds and then continued by an
   * incremental taken after it, later, ends where one whole restore of the
   * later log does.
   */
  lemma IncrementalContinues(node: Node, held: Held, writer: Version, first: Section, part: Section,
                             earlier: seq<Record>, later: seq<Record>, upto: nat, middle: Held)
    requires upto <= |earlier| && WrittenInTurn(first, part, upto + 1, earlier, later)
    requires CanTake(node, writer, [SectionOf(first.span.log, 1, later)])
    requires Tail(held.logs, first.span.log) == 0 && NothingForeign(held.logs, [], first.span.log)
    requires middle == MiddleStore(node, held, writer, first, upto)
    ensures Outcome(node, middle, FileBytes(Head(writer, 1), [part]), None,
                    AppendAll(held.logs, part.span.log, later), Ok(Restored(writer, |part.records|, [part.span], false)))
  {
    TakenSoFar(earlier, later, upto, earlier[..upto]);
    IncrementalWith(node, held, writer, first, part, earlier, later, upto, middle, earlier[..upto]);
  }

  /** An incremental that starts past what was restored is refused, and the store stays where it was. */
  lemma IncrementalPastIsRefused(node: Node, held: Held, writer: Version, first: Section, part: Section,
                                 earlier: seq<Record>, later: seq<Record>, upto: nat, middle: Held)
    requires upto > |earlier| && WrittenInTurn(first, part, upto + 1, earlier, later)
    requires CanTake(node, writer, [SectionOf(first.span.log, 1, later)])
    requires Tail(held.logs, first.span.log) == 0 && NothingForeign(held.logs, [], first.span.log)
    requires middle == MiddleStore(node, held, writer, first, upto)
    ensures Outcome(node, middle, FileBytes(Head(writer, 1), [part]), None, middle.logs, Err(WrongBase(upto, |earlier|)))
  {
    MiddleStandsShort(node, held, writer, first, earlier, later, upto, middle);
    PastIsRefused(node, middle, writer, part, first.span.log, later, upto, |earlier|);
  }

  lemma PastIsRefused(node: Node, middle: Held, writer: Version, part: Section, log: LogId,
                      later: seq<Record>, upto: nat, found: nat)
    requires |later| + 1 < U64_SPAN && upto + 1 < U64_SPAN && part == SectionOf(log, upto + 1, later)
    requires CanTake(node, writer, [SectionOf(log, 1, later)]) && found == Tail(middle.logs, log) < upto
    ensures Outcome(node, middle, FileBytes(Head(writer, 1), [part]), None, middle.logs, Err(WrongBase(upto, found)))
  {
    Carried(node, writer, log, upto + 1, later, later);
    ContinuePast(node, middle, writer, part, upto, found);
  }

  lemma MiddleStandsShort(node: Node, held: Held, writer: Version, first: Section,
                          earlier: seq<Record>, later: seq<Record>, upto: nat, middle: Held)
    requires upto > |earlier| && earlier <= later && |later| + 1 < U64_SPAN
    requires first == SectionOf(first.span.log, 1, earlier)
    requires CanTake(node, writer, [SectionOf(first.span.log, 1, later)])
    requires Tail(held.logs, first.span.log) == 0 && NothingForeign(held.logs, [], first.span.log)
    requires middle == MiddleStore(node, held, writer, first, upto)
    ensures Tail(middle.logs, first.span.log) == |earlier|
  {
    MiddleLogs(node, held, writer, first.span.log, earlier, later, upto);
    NothingForeignStill(held.logs, first.span.log, earlier[..|earlier|]);
  }

  lemma TakenSoFar(earlier: seq<Record>, later: seq<Record>, upto: nat, taken: seq<Record>)
    requires earlier <= later && upto <= |earlier| && taken == earlier[..upto]
    ensures taken <= later && |taken| == upto
    ensures earlier[..if upto < |earlier| then upto else |earlier|] == taken
  {
  }

  lemma IncrementalWith(node: Node, held: Held, writer: Version, first: Section, part: Section,
                        earlier: seq<Record>, later: seq<Record>, upto: nat, middle: Held, taken: seq<Record>)
    requires WrittenInTurn(first, part, upto + 1, earlier, later)
    requires CanTake(node, writer, [SectionOf(first.span.log, 1, later)])
    requires Tail(held.logs, first.span.log) == 0 && NothingForeign(held.logs, [], first.span.log)
    requires middle == MiddleStore(node, held, writer, first, upto)
    requires taken <= later && |taken| == upto
    requires earlier[..if upto < |earlier| then upto else |earlier|] == taken
    ensures Outcome(node, middle, FileBytes(Head(writer, 1), [part]), None,
                    AppendAll(held.logs, part.span.log, later), Ok(Restored(writer, |part.records|, [part.span], false)))
  {
    MiddleReady(node, held, writer, first, earlier, later, upto, taken);
    ContinueTaken(node, held.logs, middle, writer, part, taken, later);
  }

  lemma MiddleReady(node: Node, held: Held, writer: Version, first: Section, earlier: seq<Record>, later: seq<Record>,
                    upto: nat, taken: seq<Record>)
    requires earlier <= later && |later| + 1 < U64_SPAN && first == SectionOf(first.span.log, 1, earlier)
    requires CanTake(node, writer, [SectionOf(first.span.log, 1, later)])
    requires Tail(held.logs, first.span.log) == 0 && NothingForeign(held.logs, [], first.span.log)
    requires taken == earlier[..if upto < |earlier| then upto else |earlier|]
    ensures var log, middle := first.span.log, MiddleStore(node, held, writer, first, upto).logs;
            && middle == AppendAll(held.logs, log, taken)
            && Tail(middle, log) == |taken| && NothingForeign(middle, [], log)
  {
    MiddleLogs(node, held, writer, first.span.log, earlier, later, upto);
    NothingForeignStill(held.logs, first.span.log, taken);
  }

  lemma MiddleLogs(node: Node, held: Held, writer: Version, log: LogId, earlier: seq<Record>, later: seq<Record>, upto: nat)
    requires earlier <= later && |later| + 1 < U64_SPAN
    requires CanTake(node, writer, [SectionOf(log, 1, later)])
    requires Tail(held.logs, log) == 0 && NothingForeign(held.logs, [], log)
    ensures StoreAfter(node, held, FileBytes(Head(writer, 1), [SectionOf(log, 1, earlier)]), false, Some(upto)).logs
         == AppendAll(held.logs, log, earlier[..if upto < |earlier| then upto else |earlier|])
  {
    var a := SectionOf(log, 1, earlier);
    Carried(node, writer, log, 1, earlier, later);
    UptoRestores(node, held, writer, a, upto);
    assert a.records == earlier;
  }

  /** The whole restore an incremental one is measured against. */
  lemma WholeAtOnce(node: Node, held: Held, writer: Version, log: LogId, later: seq<Record>)
    requires |later| + 1 < U64_SPAN && CanTake(node, writer, [SectionOf(log, 1, later)])
    requires Tail(held.logs, log) == 0 && NothingForeign(held.logs, [], log)
    ensures var whole := SectionOf(log, 1, later);
            Outcome(node, held, FileBytes(Head(writer, 1), [whole]), None, AppendAll(held.logs, log, later),
                    Ok(Restored(writer, |later|, [whole.span], false)))
  {
    var whole := SectionOf(log, 1, later);
    assert whole.records == later;
    assert [whole][0] == whole && whole.Framed();
    OneSectionIsTakenIffExpected(node, held, writer, whole);
  }

  lemma ContinueTaken(node: Node, logs: Logs, middle: Held, writer: Version, part: Section,
                      taken: seq<Record>, later: seq<Record>)
    requires taken <= later && |later| + 1 < U64_SPAN
    requires part == SectionOf(part.span.log, |taken| + 1, later)
    requires CanTake(node, writer, [SectionOf(part.span.log, 1, later)])
    requires middle.logs == AppendAll(logs, part.span.log, taken) && Tail(middle.logs, part.span.log) == |taken|
    requires NothingForeign(middle.logs, [], part.span.log)
    ensures Outcome(node, middle, FileBytes(Head(writer, 1), [part]), None, AppendAll(logs, part.span.log, later),
                    Ok(Restored(writer, |part.records|, [part.span], false)))
  {
    Carried(node, writer, part.span.log, |taken| + 1, later, later);
    ContinueFrom(node, logs, middle, writer, part, taken, later);
  }

  lemma ContinueFrom(node: Node, logs: Logs, middle: Held, writer: Version, part: Section,
                     taken: seq<Record>, later: seq<Record>)
    requires taken <= later && |later| + 1 < U64_SPAN
    requires part == SectionOf(part.span.log, |taken| + 1, later) && CanTake(node, writer, [part])
    requires middle.logs == AppendAll(logs, part.span.log, taken) && Tail(middle.logs, part.span.log) == |taken|
    requires NothingForeign(middle.logs, [], part.span.log)
    ensures Outcome(node, middle, FileBytes(Head(writer, 1), [part]), None, AppendAll(logs, part.span.log, later),
                    Ok(Restored(writer, |part.records|, [part.span], false)))
  {
    AppendRest(logs, part.span.log, taken, later);
    assert [part][0] == part && part.Framed();
    OneSectionIsTakenIffExpected(node, middle, writer, part);
  }

  lemma AppendRest(logs: Logs, log: LogId, taken: seq<Record>, later: seq<Record>)
    requires taken <= later
    ensures var rest := Onward(later, |taken| + 1);
            |rest| == |later| - |taken| && AppendAll(AppendAll(logs, log, taken), log, rest) == AppendAll(logs, log, later)
  {
    var rest := Onward(later, |taken| + 1);
    AppendAllConcat(logs, log, taken, rest);
    assert later == taken + rest;
  }

  lemma ContinuePast(node: Node, middle: Held, writer: Version, part: Section, needs: nat, found: nat)
    requires part.Numbered() && part.Exact() && CanTake(node, writer, [part])
    requires needs == part.span.from - 1 && found == Tail(middle.logs, part.span.log) && needs != found
    ensures Outcome(node, middle, FileBytes(Head(writer, 1), [part]), None, middle.logs, Err(WrongBase(needs, found)))
  {
    assert [part][0] == part && part.Framed();
    WrongTailIsRefused(node, middle.logs, part.span);
    OneSectionIsRefused(node, middle, writer, part, WrongBase(needs, found));
  }

  lemma WrongTailIsRefused(node: Node, logs: Logs, span: LogSpan)
    requires 1 <= span.from && Tail(logs, span.log) != span.from - 1
    ensures Refusal(node, logs, [], span) == Some(WrongBase(span.from - 1, Tail(logs, span.log)))
    ensures !Awaits(logs, [], span)
  {
  }

  lemma Carried(node: Node, writer: Version, log: LogId, start: nat, earlier: seq<Record>, later: seq<Record>)
    requires earlier <= later && |later| + 1 < U64_SPAN && 1 <= start < U64_SPAN
    requires CanTake(node, writer, [SectionOf(log, 1, later)])
    ensures CanTake(node, writer, [SectionOf(log, start, earlier)])
  {
    var whole, part := SectionOf(log, 1, later), SectionOf(log, start, earlier);
    assert [whole][0] == whole && whole.Framed() && Decodes(node, whole.records);
    assert forall i :: 0 <= i < |part.records| ==> part.records[i] == whole.records[start - 1 + i];
  }

  // ---------------------------------------------------------------- on the code itself

  /** Every log of this history, at every moment, is one a backup can carry and this node can take. */
  ghost predicate Portable(history: nat -> Logs, node: Node) {
    && (forall t, log :: log in history(t) && log.home.Shard? ==> log.home.shard != 0)
    && (forall t, log, i :: 0 <= i < |LogOf(history(t), log)| ==>
          |LogOf(history(t), log)[i]| < U32_SPAN && node.decode(LogOf(history(t), log)[i]) == Some(LogOf(history(t), log)[i]))
  }

  lemma TakenIsPortable(history: nat -> Logs, begin: nat, end: nat, log: LogId, section: Section, node: Node, t: nat)
    requires Grows(history) && Portable(history, node) && TakenWithin(history, begin, end, log, 1, section)
    requires log in history(t)
    ensures section.Framed() && Decodes(node, section.records)
  {
    var m :| begin <= m <= end && section == SectionOf(log, 1, LogOf(history(m), log));
    assert section.records == LogOf(history(m), log);
  }

  lemma BackupCanBeTaken(history: nat -> Logs, begin: nat, end: nat, ids: seq<LogId>, sections: seq<Section>,
                         from: Node, node: Node, listed: nat)
    requires Grows(history) && Portable(history, node) && AllTaken(history, begin, end, ids, sections)
    requires from.ListsLogs() && ids == from.list(history(listed)) && |ids| < U32_SPAN
    requires node.ListsLogs() && node.Willing() && !from.running.NewerThan(node.running) && AllNumbered(sections)
    ensures IsBackup(history, begin, end, ids, sections) && CanTake(node, from.running, sections)
  {
    assert Enumerates(ids, history(listed));
    forall i | 0 <= i < |sections|
      ensures sections[i].Framed() && Decodes(node, sections[i].records)
    {
      assert TakenWithin(history, begin, end, ids[i], 1, sections[i]);
      assert ids[i] in ids;
      TakenIsPortable(history, begin, end, ids[i], sections[i], node, listed);
    }
  }

  /** A restore that answered well and whose syncs go through left nothing unsynced. */
  lemma AnsweredIsDurable(node: Node, held: Held, bytes: seq<Byte>)
    requires node.Willing() && Answer(node, held, bytes, false, None).Ok?
    ensures var after := StoreAfter(node, held, bytes, false, None); after.durable == after.logs
  {
  }

  /** What is written of a portable history comes back. */
  ghost predicate ComesBack(node: Node, history: nat -> Logs, begin: nat, end: nat, ids: seq<LogId>, bytes: seq<Byte>) {
    var after, answer := StoreAfter(node, EMPTY, bytes, false, None), Answer(node, EMPTY, bytes, false, None);
    && Mirrors(history, begin, end, ids, after.logs) && after.durable == after.logs
    && answer.Ok? && !answer.value.truncated && |answer.value.logs| == |ids|
  }

  lemma WrittenComesBack(history: nat -> Logs, begin: nat, end: nat, ids: seq<LogId>, sections: seq<Section>,
                         from: Node, node: Node, listed: nat)
    requires Grows(history) && Portable(history, node) && AllTaken(history, begin, end, ids, sections)
    requires from.ListsLogs() && ids == from.list(history(listed)) && |ids| < U32_SPAN
    requires node.ListsLogs() && node.Willing() && !from.running.NewerThan(node.running) && AllNumbered(sections)
    ensures ComesBack(node, history, begin, end, ids, FileBytes(Head(from.running, LengthField(|sections|)), sections))
  {
    BackupCanBeTaken(history, begin, end, ids, sections, from, node, listed);
    var logs := BackupRestores(node, from.running, history, begin, end, ids, sections);
    AnsweredIsDurable(node, EMPTY, FileBytes(Head(from.running, |sections|), sections));
  }

  /**
   * A backup written while its logs grow, and read back into an empty store
   * through reads of any lengths: the store mirrors what was written, and
   * everything in it is durable.
   */
  method BackUpAndRestore(origin: Origin, store: Store, grants: nat -> nat)
    returns (answer: Result<Restored, Error>, ghost ids: seq<LogId>)
    requires Grows(origin.history) && origin.node.ListsLogs() && Portable(origin.history, store.node)
    requires forall t :: |origin.node.list(origin.history(t))| < U32_SPAN
    requires store.node.ListsLogs() && store.node.Willing() && !origin.node.running.NewerThan(store.node.running)
    requires store.State() == EMPTY
    modifies origin, store
    ensures Mirrors(origin.history, old(origin.now), origin.now, ids, store.logs)
    ensures exists t :: old(origin.now) < t <= origin.now && ids == origin.node.list(origin.history(t))
    ensures answer.Ok? && !answer.value.truncated && |answer.value.logs| == |ids|
    ensures store.durable == store.logs
  {
    var out := new Sink();
    var bytes;
    bytes, ids := BackUp(origin, out, store.node);
    assert store.State() == EMPTY;
    var input := new Reader.Source(bytes, false, grants);
    answer := ReadUntil(store, input, None);
  }

  method BackUp(origin: Origin, out: Sink, ghost node: Node) returns (bytes: seq<Byte>, ghost ids: seq<LogId>)
    requires Grows(origin.history) && origin.node.ListsLogs() && Portable(origin.history, node)
    requires forall t :: |origin.node.list(origin.history(t))| < U32_SPAN
    requires node.ListsLogs() && node.Willing() && !origin.node.running.NewerThan(node.running)
    requires out.head == [] && out.frames == []
    modifies origin, out
    ensures exists t :: old(origin.now) < t <= origin.now && ids == origin.node.list(origin.history(t))
    ensures ComesBack(node, origin.history, old(origin.now), origin.now, ids, bytes)
  {
    ghost var begin := origin.now;
    var written;
    ghost var sections;
    written, ids, sections := Write(origin, out);
    ghost var listed :| begin < listed <= origin.now && ids == origin.node.list(origin.history(listed));
    WrittenComesBack(origin.history, begin, origin.now, ids, sections, origin.node, node, listed);
    bytes := out.Bytes();
  }
}
