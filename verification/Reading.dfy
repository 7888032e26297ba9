/**
 * Restoring a backup, bringing a node up from one, and inspecting one.
 *
 * `Play` and `Inspect` are the two loops as folds over the events of a file;
 * the methods are the loops themselves, proved to compute the folds.
 */
module Reading {
  import opened Bytes
  import opened Wrappers
  import opened Layout
  import opened Report
  import opened Format
  import opened Reader
  import opened Stores

  /** The most records a restore leaves unsynced. */
  const RESTORE_CHUNK: nat := 1024

  /** The section being read, and the last sequence of it reached. */
  datatype Opening = Opening(span: LogSpan, reached: nat)

  /** The variables of the restore's loop. */
  datatype Run = Run(
    applied: nat,
    begun: seq<LogId>,
    open: Option<Opening>,
    logs: seq<LogSpan>,
    truncated: bool)

  const START: Run := Run(0, [], None, [], false)

  /** What one frame leads to: the next, a deliberate stop, or a refusal. */
  datatype Turn = Going(run: Run) | Ended(run: Run) | Refused(error: Error)

  datatype Progress = Progress(held: Held, turn: Turn)

  /** The position a section continues from. */
  function Base(span: LogSpan): nat {
    if span.from == 0 then 0 else span.from - 1
  }

  /** The tail of the first listed log that is neither `log` nor begun by this file and is not empty. */
  function Foreign(logs: Logs, ids: seq<LogId>, log: LogId, begun: seq<LogId>): (r: Option<nat>)
    ensures r.None? <==> forall id :: id in ids && id != log && id !in begun ==> Tail(logs, id) == 0
  {
    if ids == [] then None
    else
      assert ids == [ids[0]] + ids[1..];
      if ids[0] != log && ids[0] !in begun && Tail(logs, ids[0]) > 0 then Some(Tail(logs, ids[0]))
      else Foreign(logs, ids[1..], log, begun)
  }

  predicate IsShort(opening: Opening) {
    opening.reached < opening.span.tail
  }

  /** Put the open section away, noting whether it stopped before its tail. */
  function Close(run: Run): Run {
    match run.open
    case None => run
    case Some(opening) =>
      run.(open := None, logs := run.logs + [opening.span], truncated := run.truncated || IsShort(opening))
  }

  function OpenSection(node: Node, held: Held, run: Run, span: LogSpan): Turn {
    var at := Tail(held.logs, span.log);
    if at != Base(span) then Refused(WrongBase(Base(span), at))
    else match Foreign(held.logs, OfHome(node.list(held.logs), span.log.home), span.log, run.begun)
      case Some(found) => Refused(WrongBase(0, found))
      case None => Going(Close(run).(begun := run.begun + [span.log], open := Some(Opening(span, at))))
  }

  function TakeRecord(node: Node, upto: Option<nat>, held: Held, run: Run, sequence: nat, body: seq<Byte>): Progress {
    match run.open
    case None => Progress(held, Refused(NotABackup))
    case Some(opening) =>
      if upto.Some? && sequence > upto.value then Progress(held, Ended(run))
      else match node.decode(body)
        case None => Progress(held, Refused(Undecodable))
        case Some(record) =>
          if !Takes(node, held.logs, opening.span.log, sequence, record) then Progress(held, Refused(StoreRefused))
          else
            var landed := Landed(held, opening.span.log, sequence, record);
            var next := run.(applied := run.applied + 1, open := Some(opening.(reached := sequence)));
            if next.applied % RESTORE_CHUNK != 0 then Progress(landed, Going(next))
            else if node.syncFails(landed.syncs) then Progress(Synced(node, landed), Refused(SyncFailed))
            else Progress(Synced(node, landed), Going(next))
  }

  function Advance(node: Node, upto: Option<nat>, held: Held, run: Run, event: Event): Progress {
    match event
    case CutShort => Progress(held, Ended(run.(truncated := true)))
    case Fails(error) => Progress(held, Refused(error))
    case Opens(span) => Progress(held, OpenSection(node, held, run, span))
    case Holds(sequence, body) => TakeRecord(node, upto, held, run, sequence, body)
  }

  /** The restore's loop over the events of a file. */
  function Play(node: Node, upto: Option<nat>, held: Held, run: Run, events: seq<Event>): Progress
    decreases |events|
  {
    if events == [] then Progress(held, Going(run))
    else
      var step := Advance(node, upto, held, run, events[0]);
      if step.turn.Going? then Play(node, upto, step.held, step.turn.run, events[1..]) else step
  }

  /** What a replay that was not refused reports. */
  function Summary(upto: Option<nat>, run: Run, head: Head): Restored {
    var logs := Close(run).logs;
    var short := run.open.Some? && upto.None? && IsShort(run.open.value);
    Restored(head.writer, run.applied, logs, run.truncated || short || |logs| < head.sections)
  }

  function Replayed(upto: Option<nat>, turn: Turn, head: Head): Result<Restored, Error> {
    match turn
    case Refused(error) => Err(error)
    case Going(run) => Ok(Summary(upto, run, head))
    case Ended(run) => Ok(Summary(upto, run, head))
  }

  /** Why a file is turned away before anything of it is applied, if it is. */
  function TurnedAway(node: Node, bytes: seq<Byte>, upto: Option<nat>): Option<Error> {
    match HeadIn(bytes, node.running)
    case Err(error) => Some(error)
    case Ok(head) =>
      if upto.Some? && head.sections != 1 then Some(ManyLogs(PointInTimeRestore, head.sections)) else None
  }

  function PlayFile(node: Node, held: Held, bytes: seq<Byte>, broken: bool, upto: Option<nat>): Progress
    requires HeadIn(bytes, node.running).Ok?
  {
    Play(node, upto, held, START, Events(BodyOf(bytes), broken))
  }

  /** The store after a restore of `bytes`, whatever it answered. */
  function StoreAfter(node: Node, held: Held, bytes: seq<Byte>, broken: bool, upto: Option<nat>): Held {
    if TurnedAway(node, bytes, upto).Some? then held
    else Synced(node, PlayFile(node, held, bytes, broken, upto).held)
  }

  /** What a restore of `bytes` answers; a final sync that fails is answered first. */
  function Answer(node: Node, held: Held, bytes: seq<Byte>, broken: bool, upto: Option<nat>): Result<Restored, Error> {
    match TurnedAway(node, bytes, upto)
    case Some(error) => Err(error)
    case None =>
      var progress := PlayFile(node, held, bytes, broken, upto);
      if node.syncFails(progress.held.syncs) then Err(SyncFailed)
      else Replayed(upto, progress.turn, HeadIn(bytes, node.running).value)
  }

  /** Restores a file into a store, whole or as far as `upto`. */
  method ReadUntil(store: Store, input: Source, upto: Option<nat>) returns (answer: Result<Restored, Error>)
    requires input.Valid()
    modifies store, input
    ensures input.Valid()
    ensures store.State() == StoreAfter(store.node, old(store.State()), old(input.Left()), input.broken, upto)
    ensures answer == Answer(store.node, old(store.State()), old(input.Left()), input.broken, upto)
  {
    var head := ReadHead(input, store.node.running);
    if head.Err? {
      return Err(head.error);
    }
    if upto.Some? && head.value.sections != 1 {
      return Err(ManyLogs(PointInTimeRestore, head.value.sections));
    }
    var replayed := Replay(store, input, upto, head.value);
    var synced := store.SyncLanded();
    answer := if synced then replayed else Err(SyncFailed);
  }

  /** The restore's loop over the frames of an accepted file. */
  method Replay(store: Store, input: Source, upto: Option<nat>, head: Head)
    returns (answer: Result<Restored, Error>)
    requires input.Valid()
    modifies store, input
    ensures input.Valid()
    ensures var progress := Play(store.node, upto, old(store.State()), START,
                                 Events(old(input.Left()), input.broken));
            store.State() == progress.held && answer == Replayed(upto, progress.turn, head)
  {
    ghost var whole := Play(store.node, upto, store.State(), START, Events(input.Left(), input.broken));
    var run := START;
    while true
      invariant input.Valid()
      invariant whole == Play(store.node, upto, store.State(), run, Events(input.Left(), input.broken))
      decreases |input.Left()|
    {
      var event := NextFrame(input);
      if event.None? {
        break;
      }
      var turn := TakeEvent(store, upto, run, event.value);
      if turn.Refused? {
        return Err(turn.error);
      }
      run := turn.run;
      if turn.Ended? {
        break;
      }
      assert whole == Play(store.node, upto, store.State(), run, Events(input.Left(), input.broken));
    }
    answer := Ok(Summary(upto, run, head));
  }

  /** One frame: a cut, a refusal, a section opened against the store, or a record landed in it. */
  method TakeEvent(store: Store, upto: Option<nat>, run: Run, event: Event) returns (turn: Turn)
    modifies store
    ensures Progress(store.State(), turn) == Advance(store.node, upto, old(store.State()), run, event)
    ensures turn.Going? ==> event.Whole()
  {
    match event {
      case CutShort =>
        turn := Ended(run.(truncated := true));
      case Fails(error) =>
        turn := Refused(error);
      case Opens(span) =>
        var at := store.CommittedTail(span.log);
        var needs := if span.from == 0 then 0 else span.from - 1;
        if at != needs {
          return Refused(WrongBase(needs, at));
        }
        var foreign := FindForeign(store, span.log, run.begun);
        if foreign.Some? {
          return Refused(WrongBase(0, foreign.value));
        }
        var next := run.(begun := run.begun + [span.log], open := Some(Opening(span, at)));
        if run.open.Some? {
          var done := run.open.value;
          next := next.(truncated := run.truncated || done.reached < done.span.tail, logs := run.logs + [done.span]);
        }
        turn := Going(next);
      case Holds(sequence, body) =>
        if run.open.None? {
          return Refused(NotABackup);
        }
        if upto.Some? && sequence > upto.value {
          return Ended(run);
        }
        var record := store.node.decode(body);
        if record.None? {
          return Refused(Undecodable);
        }
        var taken := store.RestoreRecordIn(run.open.value.span.log, sequence, record.value);
        if !taken {
          return Refused(StoreRefused);
        }
        var applied := run.applied + 1;
        if applied % RESTORE_CHUNK == 0 {
          var synced := store.SyncLanded();
          if !synced {
            return Refused(SyncFailed);
          }
        }
        turn := Going(run.(applied := applied, open := Some(run.open.value.(reached := sequence))));
    }
  }

  /** Whether the range already holds a log this file did not put there. */
  method FindForeign(store: Store, log: LogId, begun: seq<LogId>) returns (found: Option<nat>)
    ensures found == Foreign(store.logs, OfHome(store.node.list(store.logs), log.home), log, begun)
  {
    var ids := store.ListHome(log.home);
    var i := 0;
    while i < |ids|
      invariant 0 <= i <= |ids|
      invariant Foreign(store.logs, ids, log, begun) == Foreign(store.logs, ids[i..], log, begun)
    {
      assert ids[i..][1..] == ids[i + 1..];
      if ids[i] != log && ids[i] !in begun {
        var tail := store.CommittedTail(ids[i]);
        if tail > 0 {
          return Some(tail);
        }
      }
      i := i + 1;
    }
    found := None;
  }

  function FollowFrom(logs: Logs, ids: seq<LogId>): (r: seq<(LogId, nat)>)
    ensures |r| == |ids|
    ensures forall i :: 0 <= i < |ids| ==> r[i] == (ids[i], Tail(logs, ids[i]) + 1)
  {
    seq(|ids|, i requires 0 <= i < |ids| => (ids[i], Tail(logs, ids[i]) + 1))
  }

  /** One past the committed tail of every log the node holds. */
  method Positions(store: Store) returns (follow: seq<(LogId, nat)>)
    ensures follow == FollowFrom(store.logs, store.node.list(store.logs))
  {
    var ids := store.List();
    follow := [];
    for i := 0 to |ids|
      invariant |follow| == i
      invariant forall j :: 0 <= j < i ==> follow[j] == (ids[j], Tail(store.logs, ids[j]) + 1)
    {
      var reached := store.CommittedTail(ids[i]);
      follow := follow + [(ids[i], reached + 1)];
    }
  }

  /** What a bootstrap answers: the restore's report, and where the node itself now stands. */
  function BootstrapAnswer(restored: Result<Restored, Error>, node: Node, logs: Logs): Result<Bootstrapped, Error> {
    match restored
    case Err(error) => Err(error)
    case Ok(r) => Ok(Bootstrapped(r.writtenBy, r.records, FollowFrom(logs, node.list(logs)), r.truncated))
  }

  /** Restores into a new node and names the next position of each log it then holds. */
  method Bootstrap(store: Store, input: Source) returns (answer: Result<Bootstrapped, Error>)
    requires input.Valid()
    modifies store, input
    ensures input.Valid()
    ensures store.State() == StoreAfter(store.node, old(store.State()), old(input.Left()), input.broken, None)
    ensures answer == BootstrapAnswer(Answer(store.node, old(store.State()), old(input.Left()), input.broken, None),
                                      store.node, store.logs)
  {
    var restored := ReadUntil(store, input, None);
    if restored.Err? {
      return Err(restored.error);
    }
    var follow := Positions(store);
    answer := Ok(Bootstrapped(restored.value.writtenBy, restored.value.records, follow, restored.value.truncated));
  }

  // ------------------------------------------------------------------ verifying

  datatype Inspection = Inspection(
    records: nat,
    open: Option<VerifiedLog>,
    logs: seq<VerifiedLog>,
    truncated: bool)

  datatype Finding = Reading(state: Inspection) | Over(state: Inspection) | Bad(error: Error)

  function PutAway(state: Inspection): Inspection {
    match state.open
    case None => state
    case Some(done) =>
      state.(open := None, logs := state.logs + [done],
             truncated := state.truncated || done.goodThrough < done.span.tail)
  }

  function Look(node: Node, state: Inspection, event: Event): Finding {
    match event
    case CutShort => Over(state.(truncated := true))
    case Fails(error) => Bad(error)
    case Opens(span) => Reading(PutAway(state).(open := Some(VerifiedLog(span, Base(span)))))
    case Holds(sequence, body) =>
      if state.open.None? then Bad(NotABackup)
      else if node.decode(body).None? then Bad(Undecodable)
      else Reading(state.(records := state.records + 1,
                          open := Some(state.open.value.(goodThrough := sequence))))
  }

  function Inspect(node: Node, state: Inspection, events: seq<Event>): Finding
    decreases |events|
  {
    if events == [] then Reading(state)
    else match Look(node, state, events[0])
      case Reading(next) => Inspect(node, next, events[1..])
      case over => over
  }

  function Findings(finding: Finding, head: Head): Result<Verified, Error> {
    match finding
    case Bad(error) => Err(error)
    case _ =>
      var done := PutAway(finding.state);
      Ok(Verified(head.writer, done.records, done.logs, done.truncated || |done.logs| < head.sections))
  }

  const UNREAD: Inspection := Inspection(0, None, [], false)

  /** What reading the file without applying it answers. */
  function Verdict(node: Node, bytes: seq<Byte>, broken: bool): Result<Verified, Error> {
    match HeadIn(bytes, node.running)
    case Err(error) => Err(error)
    case Ok(head) => Findings(Inspect(node, UNREAD, Events(BodyOf(bytes), broken)), head)
  }

  method Verify(node: Node, input: Source) returns (answer: Result<Verified, Error>)
    requires input.Valid()
    modifies input
    ensures input.Valid()
    ensures answer == Verdict(node, old(input.Left()), input.broken)
  {
    var head := ReadHead(input, node.running);
    if head.Err? {
      return Err(head.error);
    }
    var state := UNREAD;
    ghost var whole := Inspect(node, UNREAD, Events(input.Left(), input.broken));
    while true
      invariant input.Valid()
      invariant whole == Inspect(node, state, Events(input.Left(), input.broken))
      decreases |input.Left()|
    {
      var event := NextFrame(input);
      if event.None? {
        break;
      }
      var finding := LookAt(node, state, event.value);
      if finding.Bad? {
        return Err(finding.error);
      }
      state := finding.state;
      if finding.Over? {
        break;
      }
    }
    if state.open.Some? {
      var done := state.open.value;
      state := state.(open := None, logs := state.logs + [done],
                      truncated := state.truncated || done.goodThrough < done.span.tail);
    }
    answer := Ok(Verified(head.value.writer, state.records, state.logs,
                          state.truncated || |state.logs| < head.value.sections));
  }

  method LookAt(node: Node, state: Inspection, event: Event) returns (finding: Finding)
    ensures finding == Look(node, state, event)
    ensures finding.Reading? ==> event.Whole()
  {
    match event {
      case CutShort =>
        finding := Over(state.(truncated := true));
      case Fails(error) =>
        finding := Bad(error);
      case Opens(span) =>
        var next := state.(open := Some(VerifiedLog(span, if span.from == 0 then 0 else span.from - 1)));
        if state.open.Some? {
          var done := state.open.value;
          next := next.(truncated := state.truncated || done.goodThrough < done.span.tail, logs := state.logs + [done]);
        }
        finding := Reading(next);
      case Holds(sequence, body) =>
        if state.open.None? {
          return Bad(NotABackup);
        }
        if node.decode(body).None? {
          return Bad(Undecodable);
        }
        finding := Reading(state.(records := state.records + 1,
                                  open := Some(state.open.value.(goodThrough := sequence))));
    }
  }
}
