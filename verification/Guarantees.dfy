/**
 * What every run of a restore keeps, whatever the file, the store and the node:
 * a run of any length over any events, so every prefix of one too.
 */
module Guarantees {
  import opened Bytes
  import opened Wrappers
  import opened Layout
  import opened Lists
  import opened Report
  import opened Format
  import opened Stores
  import opened Reading

  /** A record landed and not yet synced. */
  datatype Landing = Landing(log: LogId, record: Record)

  function LandEach(logs: Logs, landed: seq<Landing>): Logs {
    if landed == [] then logs
    else
      var last := landed[|landed| - 1];
      Append(LandEach(logs, landed[..|landed| - 1]), last.log, last.record)
  }

  /** The logs are the durable copy and, over all of them together, the exposed records landed since. */
  ghost predicate Trails(held: Held) {
    exists landed :: held.logs == LandEach(held.durable, landed) && |landed| == held.exposed
  }

  /** Every record of every home this file has begun sits in a log this file has begun. */
  ghost predicate Isolated(logs: Logs, begun: seq<LogId>) {
    forall id: LogId, log :: log in begun && id.home == log.home && Tail(logs, id) > 0 ==> id in begun
  }

  /** No log lost or changed a record, and only the logs begun gained any. */
  ghost predicate OnlyGrew(before: Logs, after: Logs, begun: seq<LogId>) {
    forall id ::
      && LogOf(before, id) <= LogOf(after, id)
      && (id !in begun ==> LogOf(before, id) == LogOf(after, id))
  }

  /** At most a chunk of records is exposed now, and at most a chunk ever was. */
  predicate Bounded(held: Held) {
    held.exposed <= 1024 && held.peak <= 1024
  }

  /** What holds of the store however a frame was answered. */
  ghost predicate Safe(start: Held, held: Held, begun: seq<LogId>) {
    && Trails(held) && Bounded(held)
    && Isolated(held.logs, begun)
    && OnlyGrew(start.logs, held.logs, begun)
  }

  /** What holds besides, between any two frames. */
  predicate Counted(held: Held, run: Run) {
    && held.exposed <= run.applied % RESTORE_CHUNK
    && (run.open.Some? ==> run.open.value.span.log in run.begun)
  }

  ghost predicate Kept(start: Held, held: Held, run: Run) {
    Safe(start, held, run.begun) && Counted(held, run)
  }

  lemma LandedTrails(held: Held, log: LogId, at: nat, record: Record)
    requires Trails(held)
    ensures Trails(Landed(held, log, at, record))
  {
    var landed :| held.logs == LandEach(held.durable, landed) && |landed| == held.exposed;
    var more := landed + [Landing(log, record)];
    assert more[..|landed|] == landed;
    assert LandEach(held.durable, more) == Append(held.logs, log, record);
  }

  lemma SyncedTrails(node: Node, held: Held)
    requires Trails(held)
    ensures Trails(Synced(node, held))
  {
    assert LandEach(held.logs, []) == held.logs;
    var landed :| held.logs == LandEach(held.durable, landed) && |landed| == held.exposed;
  }

  lemma LandedKeeps(start: Held, held: Held, run: Run, log: LogId, at: nat, record: Record)
    requires Kept(start, held, run) && log in run.begun
    ensures var landed := Landed(held, log, at, record);
            Safe(start, landed, run.begun) && landed.exposed <= held.exposed + 1
  {
    LandedTrails(held, log, at, record);
    if at > Tail(held.logs, log) {
      var landed := Landed(held, log, at, record);
      forall id
        ensures LogOf(landed.logs, id) == if id == log then LogOf(held.logs, id) + [record] else LogOf(held.logs, id)
      {
      }
    }
  }

  lemma SyncedKeeps(node: Node, start: Held, held: Held, begun: seq<LogId>)
    requires Safe(start, held, begun)
    ensures Safe(start, Synced(node, held), begun)
    ensures !node.syncFails(held.syncs) ==> Synced(node, held).exposed == 0
  {
    SyncedTrails(node, held);
  }

  lemma ChunkStep(applied: nat)
    ensures (applied + 1) % RESTORE_CHUNK == 0 || (applied + 1) % RESTORE_CHUNK == applied % RESTORE_CHUNK + 1
  {
  }

  lemma RecordKeeps(node: Node, upto: Option<nat>, start: Held, held: Held, run: Run, sequence: nat, body: seq<Byte>)
    requires Kept(start, held, run)
    ensures var step := TakeRecord(node, upto, held, run, sequence, body);
            && Safe(start, step.held, run.begun)
            && (step.turn.Going? ==> Kept(start, step.held, step.turn.run) && step.turn.run.begun == run.begun)
  {
    var step := TakeRecord(node, upto, held, run, sequence, body);
    if run.open.Some? && node.decode(body).Some? {
      var landed := Landed(held, run.open.value.span.log, sequence, node.decode(body).value);
      LandedKeeps(start, held, run, run.open.value.span.log, sequence, node.decode(body).value);
      SyncedKeeps(node, start, landed, run.begun);
      StepCounts(node, upto, held, run, sequence, body, landed);
    }
  }

  lemma StepCounts(node: Node, upto: Option<nat>, held: Held, run: Run, sequence: nat, body: seq<Byte>, landed: Held)
    requires Counted(held, run) && run.open.Some? && node.decode(body).Some?
    requires landed == Landed(held, run.open.value.span.log, sequence, node.decode(body).value)
    ensures var step := TakeRecord(node, upto, held, run, sequence, body);
            && step.held in {held, landed, Synced(node, landed)}
            && (step.turn.Going? ==> Counted(step.held, step.turn.run) && step.turn.run.begun == run.begun)
  {
    ChunkStep(run.applied);
  }

  lemma OpeningKeeps(node: Node, start: Held, held: Held, run: Run, span: LogSpan)
    requires node.ListsLogs() && Kept(start, held, run)
    ensures var turn := OpenSection(node, held, run, span);
            turn.Going? ==> Kept(start, held, turn.run)
  {
    var turn := OpenSection(node, held, run, span);
    if turn.Going? {
      assert Enumerates(node.list(held.logs), held.logs);
      var begun := turn.run.begun;
      assert begun == run.begun + [span.log];
      forall id: LogId, log | log in begun && id.home == log.home && Tail(held.logs, id) > 0
        ensures id in begun
      {
        if log !in run.begun {
          assert id in OfHome(node.list(held.logs), span.log.home);
        }
      }
    }
  }

  /** The logs the sections of a file name, in order. */
  function NamedLogs(events: seq<Event>): seq<LogId> {
    if events == [] then []
    else (if events[0].Opens? then [events[0].span.log] else []) + NamedLogs(events[1..])
  }

  lemma NamedAhead(begun: seq<LogId>, events: seq<Event>)
    requires events != []
    ensures begun + NamedLogs(events) ==
            (if events[0].Opens? then begun + [events[0].span.log] else begun) + NamedLogs(events[1..])
  {
  }

  /**
   * Over every run: the durable copy trails the logs by at most one chunk at
   * every moment, no log loses a record, only logs the file named gain any, and
   * two stores' writers are never merged in one home.
   */
  lemma {:induction false} EveryRunKeeps(node: Node, upto: Option<nat>, start: Held, held: Held, run: Run,
                                         events: seq<Event>)
    returns (begun: seq<LogId>)
    requires node.ListsLogs() && Kept(start, held, run)
    ensures var p := Play(node, upto, held, run, events);
            && Safe(start, p.held, begun)
            && (p.turn.Going? ==> Kept(start, p.held, p.turn.run) && begun == p.turn.run.begun)
    ensures begun <= run.begun + NamedLogs(events)
    decreases |events|
  {
    begun := run.begun;
    if events == [] {
    } else {
      match events[0] {
        case CutShort =>
        case Fails(_) =>
        case Opens(span) => OpeningKeeps(node, start, held, run, span);
        case Holds(sequence, body) => RecordKeeps(node, upto, start, held, run, sequence, body);
      }
      var step := Advance(node, upto, held, run, events[0]);
      if step.turn.Going? {
        begun := EveryRunKeeps(node, upto, start, step.held, step.turn.run, events[1..]);
        NamedAhead(run.begun, events);
      }
    }
  }

  /** A record moves the log its section named, and no other. */
  lemma RecordsLandWhereNamed(node: Node, upto: Option<nat>, held: Held, run: Run, event: Event, id: LogId)
    ensures var after := Advance(node, upto, held, run, event).held.logs;
            LogOf(after, id) != LogOf(held.logs, id) ==>
              && event.Holds? && run.open.Some? && id == run.open.value.span.log
              && node.decode(event.body).Some?
              && event.sequence == Tail(held.logs, id) + 1
              && LogOf(after, id) == LogOf(held.logs, id) + [node.decode(event.body).value]
  {
  }

  /**
   * What the frames carry for a log that holds `tail` records: in order, the
   * decoded bodies of the frames that stand under a section naming it and are
   * numbered next. `under` is the log whose section is open.
   */
  function Carried(node: Node, under: Option<LogId>, id: LogId, tail: nat, events: seq<Event>): seq<Record>
    decreases |events|
  {
    if events == [] then []
    else match events[0]
      case CutShort => []
      case Fails(_) => []
      case Opens(span) => Carried(node, Some(span.log), id, tail, events[1..])
      case Holds(sequence, body) =>
        if under == Some(id) && sequence == tail + 1 && node.decode(body).Some?
        then [node.decode(body).value] + Carried(node, under, id, tail + 1, events[1..])
        else Carried(node, under, id, tail, events[1..])
  }

  function Under(run: Run): Option<LogId> {
    if run.open.None? then None else Some(run.open.value.span.log)
  }

  /** What one frame adds to a log. */
  function Added(node: Node, under: Option<LogId>, id: LogId, tail: nat, event: Event): seq<Record> {
    if event.Holds? && under == Some(id) && event.sequence == tail + 1 && node.decode(event.body).Some?
    then [node.decode(event.body).value] else []
  }

  lemma StepAdds(node: Node, upto: Option<nat>, held: Held, run: Run, event: Event, id: LogId)
    ensures var step := Advance(node, upto, held, run, event);
            var added := Added(node, Under(run), id, Tail(held.logs, id), event);
            && (step.turn.Going? ==>
                  && event.Whole() && LogOf(step.held.logs, id) == LogOf(held.logs, id) + added
                  && Under(step.turn.run) == if event.Opens? then Some(event.span.log) else Under(run))
            && (LogOf(step.held.logs, id) == LogOf(held.logs, id) || LogOf(step.held.logs, id) == LogOf(held.logs, id) + added)
  {
    RecordsLandWhereNamed(node, upto, held, run, event, id);
  }

  lemma CarriedAhead(node: Node, under: Option<LogId>, id: LogId, tail: nat, events: seq<Event>)
    requires events != [] && events[0].Whole()
    ensures var added := Added(node, under, id, tail, events[0]);
            var next := if events[0].Opens? then Some(events[0].span.log) else under;
            Carried(node, under, id, tail, events) == added + Carried(node, next, id, tail + |added|, events[1..])
  {
  }

  lemma AddedIsCarried(node: Node, under: Option<LogId>, id: LogId, tail: nat, events: seq<Event>)
    requires events != []
    ensures Added(node, under, id, tail, events[0]) <= Carried(node, under, id, tail, events)
  {
  }

  /** A log went from `before` to `after` by a beginning of what was carried, and by all of it if nothing stopped it. */
  predicate Gained(before: seq<Record>, after: seq<Record>, carried: seq<Record>, unstopped: bool) {
    before <= after <= before + carried && (unstopped ==> after == before + carried)
  }

  lemma GainsJoin(before: seq<Record>, added: seq<Record>, after: seq<Record>, rest: seq<Record>, unstopped: bool)
    requires Gained(before + added, after, rest, unstopped)
    ensures Gained(before, after, added + rest, unstopped)
  {
    Associate(before, added, rest);
  }

  /**
   * Over every run, what each log gains is a beginning of what the frames carry
   * for it, in order, and all of it unless the run stopped at a frame.
   */
  lemma {:induction false} GainsAreCarried(node: Node, upto: Option<nat>, held: Held, run: Run, events: seq<Event>, id: LogId)
    ensures var p := Play(node, upto, held, run, events);
            Gained(LogOf(held.logs, id), LogOf(p.held.logs, id),
                   Carried(node, Under(run), id, Tail(held.logs, id), events), p.turn.Going?)
    decreases |events|
  {
    if events == [] {
    } else {
      var step := Advance(node, upto, held, run, events[0]);
      StepAdds(node, upto, held, run, events[0], id);
      if step.turn.Going? {
        var p := Play(node, upto, step.held, step.turn.run, events[1..]);
        GainsAreCarried(node, upto, step.held, step.turn.run, events[1..], id);
        CarriesOn(node, LogOf(held.logs, id), LogOf(step.held.logs, id), LogOf(p.held.logs, id),
                  Under(run), Under(step.turn.run), id, events, p.turn.Going?);
      } else {
        AddedIsCarried(node, Under(run), id, Tail(held.logs, id), events);
      }
    }
  }

  /** One frame further: what it added and what is carried after it are what was carried from it on. */
  lemma CarriesOn(node: Node, before: seq<Record>, mid: seq<Record>, after: seq<Record>,
                  under: Option<LogId>, next: Option<LogId>, id: LogId, events: seq<Event>, unstopped: bool)
    requires events != [] && events[0].Whole() && mid == before + Added(node, under, id, |before|, events[0])
    requires next == if events[0].Opens? then Some(events[0].span.log) else under
    requires Gained(mid, after, Carried(node, next, id, |mid|, events[1..]), unstopped)
    ensures Gained(before, after, Carried(node, under, id, |before|, events), unstopped)
  {
    CarriedAhead(node, under, id, |before|, events);
    GainsJoin(before, Added(node, under, id, |before|, events[0]), after, Carried(node, next, id, |mid|, events[1..]), unstopped);
  }

  /** How many records the frames hold. */
  function RecordCount(events: seq<Event>): nat {
    if events == [] then 0 else (if events[0].Holds? then 1 else 0) + RecordCount(events[1..])
  }

  /** The sections the frames open, in order. */
  function OpenedSpans(events: seq<Event>): seq<LogSpan> {
    if events == [] then [] else (if events[0].Opens? then [events[0].span] else []) + OpenedSpans(events[1..])
  }

  /** A run that got past every frame counts every record, repeats included, and lists every section. */
  lemma {:induction false} RunsReportWhatTheyRead(node: Node, upto: Option<nat>, held: Held, run: Run, events: seq<Event>)
    ensures var turn := Play(node, upto, held, run, events).turn;
            turn.Going? ==>
              && turn.run.applied == run.applied + RecordCount(events)
              && Close(turn.run).logs == Close(run).logs + OpenedSpans(events)
    decreases |events|
  {
    if events == [] {
    } else {
      var step := Advance(node, upto, held, run, events[0]);
      if step.turn.Going? {
        RunsReportWhatTheyRead(node, upto, step.held, step.turn.run, events[1..]);
        var first := if events[0].Opens? then [events[0].span] else [];
        assert Close(step.turn.run).logs == Close(run).logs + first;
        Associate(Close(run).logs, first, OpenedSpans(events[1..]));
      }
    }
  }

  /** A store nothing is unsynced in, restored into before or not. */
  predicate Settled(held: Held) {
    held.exposed == 0 && held.peak <= 1024 && held.durable == held.logs
  }

  /** What an accepted file leaves, by how its replay ended and whether the last sync went through. */
  predicate Durably(node: Node, after: Held, answer: Result<Restored, Error>, replayed: Progress,
                    upto: Option<nat>, head: Head)
  {
    && after.logs == replayed.held.logs
    && if node.syncFails(replayed.held.syncs) then answer == Err(SyncFailed)
       else after.durable == after.logs && after.exposed == 0 && answer == Replayed(upto, replayed.turn, head)
  }

  /**
   * Durability of a restore. A file turned away leaves the store untouched. Once
   * a file is accepted, if the last sync goes through then everything applied is
   * durable and the answer is the replay's own, refusals of every kind included;
   * if it fails, its failure is the answer. Never were more than a chunk of
   * records, over all logs together, exposed.
   */
  lemma RestoreIsDurable(node: Node, held: Held, bytes: seq<Byte>, broken: bool, upto: Option<nat>)
    returns (begun: seq<LogId>)
    requires node.ListsLogs() && Settled(held)
    ensures var after := StoreAfter(node, held, bytes, broken, upto);
            var answer := Answer(node, held, bytes, broken, upto);
            && Safe(held, after, begun)
            && match TurnedAway(node, bytes, upto) {
                 case Some(error) => after == held && answer == Err(error)
                 case None =>
                   && begun <= NamedLogs(Events(BodyOf(bytes), broken))
                   && Durably(node, after, answer, PlayFile(node, held, bytes, broken, upto), upto,
                              HeadIn(bytes, node.running).value)
               }
  {
    begun := [];
    assert LandEach(held.durable, []) == held.logs;
    if TurnedAway(node, bytes, upto).None? {
      begun := EveryRunKeeps(node, upto, held, held, START, Events(BodyOf(bytes), broken));
      SyncedKeeps(node, held, PlayFile(node, held, bytes, broken, upto).held, begun);
      var named := NamedLogs(Events(BodyOf(bytes), broken));
      assert [] + named == named;
    }
  }

  // ------------------------------------------------------- verify predicts restore

  function SpansOf(logs: seq<VerifiedLog>): (r: seq<LogSpan>)
    ensures |r| == |logs|
  {
    seq(|logs|, i requires 0 <= i < |logs| => logs[i].span)
  }

  /** The two loops' variables say the same. */
  predicate Agree(run: Run, state: Inspection) {
    && run.applied == state.records
    && run.truncated == state.truncated
    && run.logs == SpansOf(state.logs)
    && match (run.open, state.open) {
         case (None, None) => true
         case (Some(a), Some(b)) => a.span == b.span && a.reached == b.goodThrough
         case _ => false
       }
  }

  lemma CloseAgrees(run: Run, state: Inspection)
    requires Agree(run, state)
    ensures Agree(Close(run), PutAway(state))
  {
    if state.open.Some? {
      var done := state.open.value;
      assert SpansOf(state.logs + [done]) == SpansOf(state.logs) + [done.span];
    }
  }

  /** A frame a restore gets past is one an inspection gets past the same way. */
  lemma StepAgrees(node: Node, held: Held, run: Run, state: Inspection, event: Event)
    requires Agree(run, state)
    ensures var turn, finding := Advance(node, None, held, run, event).turn, Look(node, state, event);
            match turn {
              case Going(next) => finding.Reading? && Agree(next, finding.state)
              case Ended(next) => finding.Over? && Agree(next, finding.state)
              case Refused(_) => true
            }
  {
    CloseAgrees(run, state);
  }

  lemma {:induction false} RunsAgree(node: Node, held: Held, run: Run, state: Inspection, events: seq<Event>)
    requires Agree(run, state)
    ensures var turn, finding := Play(node, None, held, run, events).turn, Inspect(node, state, events);
            !turn.Refused? ==> !finding.Bad? && Agree(turn.run, finding.state)
    decreases |events|
  {
    if events == [] {
    } else {
      StepAgrees(node, held, run, state, events[0]);
      var step, finding := Advance(node, None, held, run, events[0]), Look(node, state, events[0]);
      if step.turn.Going? {
        RunsAgree(node, step.held, step.turn.run, finding.state, events[1..]);
      }
    }
  }

  /**
   * For every byte string and every store: a file that restores verifies, with
   * the same writer, the same count, the same sections and the same word on
   * whether it is truncated.
   */
  lemma VerifyPredictsRestore(node: Node, held: Held, bytes: seq<Byte>, broken: bool)
    requires Answer(node, held, bytes, broken, None).Ok?
    ensures var restored := Answer(node, held, bytes, broken, None).value;
            var verdict := Verdict(node, bytes, broken);
            && verdict.Ok?
            && verdict.value.writtenBy == restored.writtenBy
            && verdict.value.records == restored.records
            && SpansOf(verdict.value.logs) == restored.logs
            && verdict.value.truncated == restored.truncated
  {
    var events := Events(BodyOf(bytes), broken);
    RunsAgree(node, held, START, UNREAD, events);
    var run := Play(node, None, held, START, events).turn.run;
    CloseAgrees(run, Inspect(node, UNREAD, events).state);
  }
}
