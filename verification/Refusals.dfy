/**
 * What a restore and an inspection answer at a frame that cannot be read or
 * taken, and how far an inspection says a file is good.
 */
module Refusals {
  import opened Bytes
  import opened Wrappers
  import opened Layout
  import opened Lists
  import opened Report
  import opened Bits
  import opened Checksum
  import opened Format
  import opened Stores
  import opened Sections
  import opened Writing
  import opened Reading
  import opened Restoring

  // ------------------------------------------------------------- why a restore stops

  /** A log that is not the section's, that this file did not begin, and that holds something. */
  predicate IsForeign(logs: Logs, begun: seq<LogId>, log: LogId, id: LogId) {
    id != log && id !in begun && LogOf(logs, id) != []
  }

  /** The first foreign log of a listing stands at `k`. */
  predicate FirstForeign(logs: Logs, begun: seq<LogId>, log: LogId, ids: seq<LogId>, k: nat) {
    && k < |ids| && IsForeign(logs, begun, log, ids[k])
    && forall j :: 0 <= j < k ==> !IsForeign(logs, begun, log, ids[j])
  }

  /** A section ends the restore: its log stands elsewhere, or its home holds another store's log. */
  ghost predicate SpanEnds(node: Node, logs: Logs, begun: seq<LogId>, span: LogSpan, error: Error) {
    var needs := if span.from == 0 then 0 else span.from - 1;
    var found := |LogOf(logs, span.log)|;
    if found != needs then error == WrongBase(needs, found)
    else
      var ids := OfHome(node.list(logs), span.log.home);
      exists k: nat :: FirstForeign(logs, begun, span.log, ids, k) && error == WrongBase(0, |LogOf(logs, ids[k])|)
  }

  /** A log does not take this record as number `sequence`: a gap, a record not admitted, or no repeat. */
  predicate LogRefuses(node: Node, logs: Logs, log: LogId, sequence: nat, record: Record) {
    var held := LogOf(logs, log);
    || sequence > |held| + 1
    || (sequence == |held| + 1 && !node.admits(logs, log, record))
    || (0 < sequence <= |held| && !node.repeats(logs, log, held[sequence - 1], record))
  }

  /** A record ends the restore: no section is open, it does not decode, its log refuses it, or a chunk does not sync. */
  ghost predicate RecordEnds(node: Node, upto: Option<nat>, held: Held, run: Run, sequence: nat, body: seq<Byte>, error: Error) {
    if run.open.None? then error == NotABackup
    else
      && (upto.Some? ==> sequence <= upto.value)
      && match node.decode(body) {
           case None => error == Undecodable
           case Some(record) =>
             if LogRefuses(node, held.logs, run.open.value.span.log, sequence, record) then error == StoreRefused
             else error == SyncFailed && (run.applied + 1) % 1024 == 0 && node.syncFails(held.syncs)
         }
  }

  /** A frame met in this state ends the restore with this error. */
  ghost predicate Ends(node: Node, upto: Option<nat>, held: Held, run: Run, event: Event, error: Error) {
    match event
    case CutShort => false
    case Fails(found) => error == found
    case Opens(span) => SpanEnds(node, held.logs, run.begun, span, error)
    case Holds(sequence, body) => RecordEnds(node, upto, held, run, sequence, body, error)
  }

  lemma {:induction false} ForeignIsFirst(logs: Logs, ids: seq<LogId>, log: LogId, begun: seq<LogId>, k: nat)
    requires FirstForeign(logs, begun, log, ids, k)
    ensures Foreign(logs, ids, log, begun) == Some(|LogOf(logs, ids[k])|)
  {
    if k > 0 {
      assert !IsForeign(logs, begun, log, ids[0]);
      ForeignIsFirst(logs, ids[1..], log, begun, k - 1);
    }
  }

  lemma {:induction false} ForeignIsFound(logs: Logs, ids: seq<LogId>, log: LogId, begun: seq<LogId>) returns (k: nat)
    requires Foreign(logs, ids, log, begun).Some?
    ensures FirstForeign(logs, begun, log, ids, k)
  {
    if IsForeign(logs, begun, log, ids[0]) {
      k := 0;
    } else {
      var j := ForeignIsFound(logs, ids[1..], log, begun);
      k := j + 1;
    }
  }

  lemma SpanEndsIff(node: Node, held: Held, run: Run, span: LogSpan, error: Error)
    ensures OpenSection(node, held, run, span) == Refused(error) <==> SpanEnds(node, held.logs, run.begun, span, error)
  {
    var ids := OfHome(node.list(held.logs), span.log.home);
    if SpanEnds(node, held.logs, run.begun, span, error) && Tail(held.logs, span.log) == Base(span) {
      var k: nat :| FirstForeign(held.logs, run.begun, span.log, ids, k) && error == WrongBase(0, |LogOf(held.logs, ids[k])|);
      ForeignIsFirst(held.logs, ids, span.log, run.begun, k);
    }
    if Foreign(held.logs, ids, span.log, run.begun).Some? {
      var k := ForeignIsFound(held.logs, ids, span.log, run.begun);
      ForeignIsFirst(held.logs, ids, span.log, run.begun, k);
    }
  }

  lemma RecordEndsIff(node: Node, upto: Option<nat>, held: Held, run: Run, sequence: nat, body: seq<Byte>, error: Error)
    ensures TakeRecord(node, upto, held, run, sequence, body).turn == Refused(error)
       <==> RecordEnds(node, upto, held, run, sequence, body, error)
  {
    if run.open.Some? && node.decode(body).Some? {
      var log, record := run.open.value.span.log, node.decode(body).value;
      assert LogRefuses(node, held.logs, log, sequence, record) <==> !Takes(node, held.logs, log, sequence, record);
      assert Landed(held, log, sequence, record).syncs == held.syncs;
    }
  }

  lemma EndsIff(node: Node, upto: Option<nat>, held: Held, run: Run, event: Event, error: Error)
    ensures Advance(node, upto, held, run, event).turn == Refused(error) <==> Ends(node, upto, held, run, event, error)
  {
    match event {
      case CutShort =>
      case Fails(_) =>
      case Opens(span) => SpanEndsIff(node, held, run, span, error);
      case Holds(sequence, body) => RecordEndsIff(node, upto, held, run, sequence, body, error);
    }
  }

  /** The frames before the `k`th are got past, and that one ends the restore with this error. */
  ghost predicate EndsAt(node: Node, upto: Option<nat>, held: Held, run: Run, events: seq<Event>, k: nat, error: Error) {
    && k < |events|
    && var p := Play(node, upto, held, run, events[..k]);
       p.turn.Going? && Ends(node, upto, p.held, p.turn.run, events[k], error)
  }

  lemma EndingIsAnswered(node: Node, upto: Option<nat>, held: Held, run: Run, events: seq<Event>, k: nat, error: Error)
    requires EndsAt(node, upto, held, run, events, k, error)
    ensures Play(node, upto, held, run, events).turn == Refused(error)
  {
    var p := Play(node, upto, held, run, events[..k]);
    EndsIff(node, upto, p.held, p.turn.run, events[k], error);
    assert events[k..][0] == events[k] && events == events[..k] + events[k..];
    PlayConcat(node, upto, held, run, events[..k], events[k..]);
  }

  lemma {:induction false} RefusalHasAFrame(node: Node, upto: Option<nat>, held: Held, run: Run, events: seq<Event>, error: Error)
    returns (k: nat)
    requires Play(node, upto, held, run, events).turn == Refused(error)
    ensures EndsAt(node, upto, held, run, events, k, error)
    decreases |events|
  {
    EndsIff(node, upto, held, run, events[0], error);
    var step := Advance(node, upto, held, run, events[0]);
    if step.turn.Going? {
      var j := RefusalHasAFrame(node, upto, step.held, step.turn.run, events[1..], error);
      k := j + 1;
      assert events[..k][0] == events[0] && events[..k][1..] == events[1..][..j];
    } else {
      k := 0;
      assert events[..0] == [];
    }
  }

  /** A replay is refused with an error exactly when some frame, all before it taken, is a reason for that error. */
  lemma RefusedIffAFrameEnds(node: Node, upto: Option<nat>, held: Held, events: seq<Event>, error: Error)
    ensures Play(node, upto, held, START, events).turn == Refused(error)
       <==> exists k: nat :: EndsAt(node, upto, held, START, events, k, error)
  {
    if Play(node, upto, held, START, events).turn == Refused(error) {
      var k := RefusalHasAFrame(node, upto, held, START, events, error);
    }
    if k: nat :| EndsAt(node, upto, held, START, events, k, error) {
      EndingIsAnswered(node, upto, held, START, events, k, error);
    }
  }

  // ---------------------------------------------------------- why an inspection stops

  /** A frame an inspection has nothing against: it is whole, and if it is a record it decodes. */
  predicate Good(node: Node, event: Event) {
    event.Opens? || (event.Holds? && node.decode(event.body).Some?)
  }

  /** The first bad frame of a file, and what is wrong with it. */
  predicate BadAt(node: Node, events: seq<Event>, k: nat, error: Error) {
    && k < |events|
    && (forall i :: 0 <= i < k ==> Good(node, events[i]))
    && (k > 0 ==> events[0].Opens?)
    && match events[k] {
         case CutShort => false
         case Opens(_) => false
         case Fails(found) => error == found
         case Holds(_, body) => if k == 0 then error == NotABackup else node.decode(body).None? && error == Undecodable
       }
  }

  /** The same, from inside a section. */
  predicate BadInside(node: Node, events: seq<Event>, k: nat, error: Error) {
    && k < |events|
    && (forall i :: 0 <= i < k ==> Good(node, events[i]))
    && (events[k] == Fails(error) || (events[k].Holds? && node.decode(events[k].body).None? && error == Undecodable))
  }

  lemma {:induction false} BadInsideIsAnswered(node: Node, state: Inspection, events: seq<Event>, k: nat, error: Error)
    requires state.open.Some? && BadInside(node, events, k, error)
    ensures Inspect(node, state, events) == Bad(error)
    decreases |events|
  {
    if k > 0 {
      assert Good(node, events[0]);
      var next := Look(node, state, events[0]).state;
      assert forall i :: 0 <= i < k - 1 ==> events[1..][i] == events[i + 1];
      BadInsideIsAnswered(node, next, events[1..], k - 1, error);
    }
  }

  lemma {:induction false} BadInsideIsFound(node: Node, state: Inspection, events: seq<Event>, error: Error) returns (k: nat)
    requires state.open.Some? && Inspect(node, state, events) == Bad(error)
    ensures BadInside(node, events, k, error)
    decreases |events|
  {
    var found := Look(node, state, events[0]);
    if found.Reading? {
      var j := BadInsideIsFound(node, found.state, events[1..], error);
      k := j + 1;
      assert forall i :: 0 < i < k ==> events[i] == events[1..][i - 1];
    } else {
      k := 0;
    }
  }

  /**
   * An inspection is refused with an error exactly when, after good frames only
   * and the first of them a section, a frame stands that cannot be read, a
   * record that does not decode, or a record with no section before it.
   */
  lemma BadIffAFrameIs(node: Node, events: seq<Event>, error: Error)
    ensures Inspect(node, UNREAD, events) == Bad(error) <==> exists k: nat :: BadAt(node, events, k, error)
  {
    if Inspect(node, UNREAD, events) == Bad(error) {
      var k := FirstBad(node, events, error);
    }
    if k: nat :| BadAt(node, events, k, error) {
      if k > 0 {
        assert forall i :: 0 <= i < k - 1 ==> events[1..][i] == events[i + 1];
        BadInsideIsAnswered(node, Look(node, UNREAD, events[0]).state, events[1..], k - 1, error);
      }
    }
  }

  lemma FirstBad(node: Node, events: seq<Event>, error: Error) returns (k: nat)
    requires Inspect(node, UNREAD, events) == Bad(error)
    ensures BadAt(node, events, k, error)
  {
    if events[0].Opens? {
      var j := BadInsideIsFound(node, Look(node, UNREAD, events[0]).state, events[1..], error);
      k := j + 1;
      assert forall i :: 0 < i < k ==> events[i] == events[1..][i - 1];
    } else {
      k := 0;
    }
  }

  // ------------------------------------------------------------- inspecting sections

  lemma {:induction false} InspectConcat(node: Node, state: Inspection, a: seq<Event>, b: seq<Event>)
    ensures var first := Inspect(node, state, a);
            Inspect(node, state, a + b) == if first.Reading? then Inspect(node, first.state, b) else first
    decreases |a|
  {
    if a == [] {
      assert a + b == b;
    } else {
      assert (a + b)[1..] == a[1..] + b;
      var found := Look(node, state, a[0]);
      if found.Reading? {
        InspectConcat(node, found.state, a[1..], b);
      }
    }
  }

  /** An inspection with `n` more records of its open section read. */
  function Deeper(state: Inspection, n: nat): Inspection
    requires state.open.Some?
  {
    var open := state.open.value;
    state.(records := state.records + n, open := Some(open.(goodThrough := open.goodThrough + n)))
  }

  lemma {:induction false} InspectRecords(node: Node, state: Inspection, records: seq<Record>)
    requires state.open.Some? && Decodes(node, records)
    requires state.open.value.goodThrough + 1 + |records| < U64_SPAN
    ensures Inspect(node, state, RecordEvents(state.open.value.goodThrough + 1, records))
         == Reading.Reading(Deeper(state, |records|))
    decreases |records|
  {
    if records == [] {
    } else {
      var at := state.open.value.goodThrough + 1;
      DecodesRest(node, records);
      InspectRecords(node, Deeper(state, 1), records[1..]);
      RecordEventsAhead(at, records);
      InspectNext(node, state, Holds(at, records[0]), RecordEvents(at + 1, records[1..]), Deeper(state, 1));
      DeeperAdds(state, |records| - 1);
    }
  }

  lemma DeeperAdds(state: Inspection, n: nat)
    requires state.open.Some?
    ensures Deeper(Deeper(state, 1), n) == Deeper(state, 1 + n)
  {
  }

  lemma InspectNext(node: Node, state: Inspection, event: Event, events: seq<Event>, next: Inspection)
    requires Look(node, state, event) == Reading.Reading(next)
    ensures Inspect(node, state, [event] + events) == Inspect(node, next, events)
  {
    assert ([event] + events)[1..] == events;
  }

  /** An inspection once a section's frames are read. */
  function Inspected(state: Inspection, section: Section): Inspection
    requires section.Numbered()
  {
    PutAway(state).(records := state.records + |section.records|,
                    open := Some(VerifiedLog(section.span, section.Reached())))
  }

  lemma InspectSection(node: Node, state: Inspection, section: Section)
    requires section.Numbered() && Decodes(node, section.records)
    ensures Inspect(node, state, SectionEvents(section)) == Reading.Reading(Inspected(state, section))
  {
    var begun := PutAway(state).(open := Some(VerifiedLog(section.span, section.span.from - 1)));
    InspectNext(node, state, Opens(section.span), RecordEvents(section.span.from, section.records), begun);
    InspectRecords(node, begun, section.records);
  }

  /** What verifying says of sections: of each, that it is good through its last record. */
  function Through(sections: seq<Section>): (r: seq<VerifiedLog>)
    requires AllNumbered(sections)
    ensures |r| == |sections|
    ensures forall i :: 0 <= i < |r| ==>
              r[i].span == sections[i].span && r[i].goodThrough == sections[i].span.from - 1 + |sections[i].records|
  {
    seq(|sections|, i requires 0 <= i < |sections| =>
      VerifiedLog(sections[i].span, sections[i].span.from - 1 + |sections[i].records|))
  }

  /** What an inspection's variables say once the sections are read. */
  predicate Surveys(before: Inspection, after: Inspection, sections: seq<Section>)
    requires AllNumbered(sections)
  {
    && after.records == before.records + CountRecords(sections)
    && PutAway(after).logs == PutAway(before).logs + Through(sections)
    && PutAway(after).truncated == (PutAway(before).truncated || AnyShort(sections))
  }

  lemma SurveysOneMore(before: Inspection, after: Inspection, sections: seq<Section>)
    requires AllNumbered(sections) && sections != []
    requires Surveys(Inspected(before, sections[0]), after, sections[1..])
    ensures Surveys(before, after, sections)
  {
    AnyShortOneMore(sections);
    var done, later := PutAway(before).logs, Through(sections[1..]);
    var first := [VerifiedLog(sections[0].span, sections[0].Reached())];
    assert Through(sections) == first + later;
    Associate(done, first, later);
  }

  lemma {:induction false} InspectSections(node: Node, state: Inspection, sections: seq<Section>)
    returns (final: Inspection)
    requires AllNumbered(sections) && AllDecode(node, sections)
    ensures Inspect(node, state, FileEvents(sections)) == Reading.Reading(final)
    ensures Surveys(state, final, sections)
    ensures sections != [] ==> final.open.Some?
    ensures sections == [] ==> final == state
    decreases |sections|
  {
    if sections == [] {
      final := state;
      assert PutAway(state).logs + Through(sections) == PutAway(state).logs;
    } else {
      InspectSection(node, state, sections[0]);
      final := InspectSections(node, Inspected(state, sections[0]), sections[1..]);
      InspectConcat(node, state, SectionEvents(sections[0]), FileEvents(sections[1..]));
      SurveysOneMore(state, final, sections);
    }
  }
}
