/**
 * The pushed stream: a leader, a follower and the two links between them.
 *
 * The leader sends rounds as records land, up to two unacknowledged, and keeps
 * its own cursors; the follower applies each round, reports what it then holds,
 * and, when a round does not apply whole or its set of logs changes, asks to be
 * streamed from where it stands and throws away every round until the leader's
 * mark. Both links deliver in order.
 */
module PushedStream {
  import opened Layout
  import opened Lists
  import opened Stores

  type Histories = map<Reach, seq<Record>>

  function HistoryOf(logs: Histories, home: Reach): seq<Record> {
    if home in logs then logs[home] else []
  }

  /** A log, and the first position of it not held. */
  datatype Ask = Ask(home: Reach, from: nat)

  type Asks = seq<Ask>

  /** One record and where in its log it stands. */
  datatype Entry = Entry(at: nat, record: Record)

  type Answers = seq<seq<Entry>>

  /**
   * What the leader sends. `cut` is where the leader's cursors stood when it
   * did and `seen` what its logs then held; neither travels, and no step reads
   * either.
   */
  datatype Frame = Round(answers: Answers, cut: Asks) | Beat(cut: Asks, seen: Histories) | Mark

  datatype Message = HeldUpTo(holds: Asks) | StreamFrom(holds: Asks)

  /** How far the leader runs ahead of the reports it has read. */
  const UNACKNOWLEDGED: nat := 2

  datatype Leader = Leader(logs: Histories, next: Asks, unacknowledged: seq<seq<nat>>)

  datatype Follower = Follower(logs: Histories, holds: Asks, restarting: bool, over: bool)

  datatype System = System(leader: Leader, follower: Follower, toFollower: seq<Frame>, toLeader: seq<Message>)

  // ------------------------------------------------------------------- positions

  function Positions(asks: Asks): (r: seq<nat>)
    ensures |r| == |asks| && forall i :: 0 <= i < |r| ==> r[i] == asks[i].from
  {
    seq(|asks|, i requires 0 <= i < |asks| => asks[i].from)
  }

  /** Where an answer leaves its log: past its last record, or where it was. */
  function Past(from: nat, answer: seq<Entry>): nat {
    if answer == [] then from else answer[|answer| - 1].at + 1
  }

  /** Where a round leaves every log if it applies whole. */
  function After(asks: Asks, answers: Answers): (r: Asks)
    requires |asks| == |answers|
    ensures |r| == |asks|
    ensures forall i :: 0 <= i < |r| ==> r[i] == Ask(asks[i].home, Past(asks[i].from, answers[i]))
  {
    seq(|asks|, i requires 0 <= i < |asks| => Ask(asks[i].home, Past(asks[i].from, answers[i])))
  }

  /** Every log held past where a round left it. */
  predicate Covers(held: seq<nat>, left: seq<nat>) {
    |left| == |held| && forall i :: 0 <= i < |left| ==> left[i] <= held[i]
  }

  /** The rounds still unacknowledged once these positions are reported. */
  function Acknowledge(unacknowledged: seq<seq<nat>>, held: seq<nat>): seq<seq<nat>> {
    if unacknowledged != [] && Covers(held, unacknowledged[0]) then Acknowledge(unacknowledged[1..], held)
    else unacknowledged
  }

  // ------------------------------------------------------------------- the leader

  /** `count` records of a log from a position on. */
  function CutLog(log: seq<Record>, from: nat, count: nat): (r: seq<Entry>)
    requires 1 <= from && from - 1 + count <= |log|
    ensures |r| == count
    ensures forall i :: 0 <= i < count ==> r[i] == Entry(from + i, log[from - 1 + i])
  {
    seq(count, i requires 0 <= i < count => Entry(from + i, log[from - 1 + i]))
  }

  /** The leader's cursors stand in its logs, and the counts fit what follows them. */
  predicate CanCut(logs: Histories, next: Asks, counts: seq<nat>) {
    && |counts| == |next|
    && forall i :: 0 <= i < |next| ==>
         1 <= next[i].from && next[i].from - 1 + counts[i] <= |HistoryOf(logs, next[i].home)|
  }

  function CutRound(logs: Histories, next: Asks, counts: seq<nat>): (r: Answers)
    requires CanCut(logs, next, counts)
    ensures |r| == |next|
    ensures forall i :: 0 <= i < |r| ==> r[i] == CutLog(HistoryOf(logs, next[i].home), next[i].from, counts[i])
  {
    seq(|next|, i requires 0 <= i < |next| => CutLog(HistoryOf(logs, next[i].home), next[i].from, counts[i]))
  }

  /** Nothing after the leader's cursors has landed on it. */
  predicate Level(logs: Histories, asks: Asks) {
    forall i :: 0 <= i < |asks| ==> asks[i].from == |HistoryOf(logs, asks[i].home)| + 1
  }

  // ----------------------------------------------------------------- the follower

  /** One record applied where it says it stands: the next one lands, one already held is passed over. */
  function Land(log: seq<Record>, entry: Entry): seq<Record> {
    if entry.at == |log| + 1 then log + [entry.record] else log
  }

  /** A record past the next position is a gap, and refused. */
  predicate Lands(log: seq<Record>, entry: Entry) {
    entry.at <= |log| + 1
  }

  function LandAll(log: seq<Record>, entries: seq<Entry>): seq<Record> {
    if entries == [] then log
    else
      var before := LandAll(log, entries[..|entries| - 1]);
      Land(before, entries[|entries| - 1])
  }

  predicate AllLand(log: seq<Record>, entries: seq<Entry>) {
    entries == [] ||
    (&& AllLand(log, entries[..|entries| - 1])
     && Lands(LandAll(log, entries[..|entries| - 1]), entries[|entries| - 1]))
  }

  /** How much of each answer the writer-order rule lets apply. */
  predicate Withholds(answers: Answers, counts: seq<nat>) {
    |counts| == |answers| && forall i :: 0 <= i < |answers| ==> counts[i] <= |answers[i]|
  }

  /** The follower's logs once the first `n` logs of a round are in. */
  function Applied(logs: Histories, holds: Asks, answers: Answers, counts: seq<nat>, n: nat): Histories
    requires n <= |holds| == |answers| && Withholds(answers, counts)
  {
    if n == 0 then logs
    else
      var before := Applied(logs, holds, answers, counts, n - 1);
      var home := holds[n - 1].home;
      before[home := LandAll(HistoryOf(before, home), answers[n - 1][..counts[n - 1]])]
  }

  predicate AllApply(logs: Histories, holds: Asks, answers: Answers, counts: seq<nat>, n: nat)
    requires n <= |holds| == |answers| && Withholds(answers, counts)
  {
    n == 0 ||
    (&& AllApply(logs, holds, answers, counts, n - 1)
     && var before := Applied(logs, holds, answers, counts, n - 1);
        AllLand(HistoryOf(before, holds[n - 1].home), answers[n - 1][..counts[n - 1]]))
  }

  /** What a store is ready to take next of each log. */
  function Holding(logs: Histories, homes: seq<Reach>): (r: Asks)
    ensures |r| == |homes|
    ensures forall i :: 0 <= i < |r| ==> r[i] == Ask(homes[i], |HistoryOf(logs, homes[i])| + 1)
  {
    seq(|homes|, i requires 0 <= i < |homes| => Ask(homes[i], |HistoryOf(logs, homes[i])| + 1))
  }

  /** What the follower does with a frame: its next state, what it says back, and the position it calls level. */
  datatype Heard = Heard(follower: Follower, said: seq<Message>, level: seq<nat>)

  function Hear(f: Follower, frame: Frame, counts: seq<nat>, homes: seq<Reach>): Heard
    requires frame.Round? ==> Withholds(frame.answers, counts)
  {
    match frame
    case Mark => Heard(f.(restarting := false), [], [])
    case Beat(_, _) =>
      Heard(f, [], if !f.restarting && f.holds != [] && f.holds[0].from > 0 then [f.holds[0].from - 1] else [])
    case Round(answers, _) =>
      if f.restarting then Heard(f, [], [])
      else if |answers| != |f.holds| then Heard(f.(over := true), [], [])
      else if !AllApply(f.logs, f.holds, answers, counts, |answers|) then Heard(f.(over := true), [], [])
      else
        var logs := Applied(f.logs, f.holds, answers, counts, |answers|);
        var now := Holding(logs, homes);
        if now == After(f.holds, answers) then Heard(f.(logs := logs, holds := now), [HeldUpTo(now)], [])
        else Heard(f.(logs := logs, holds := now, restarting := true), [StreamFrom(now)], [])
  }

  /** How much of each round the follower is let apply. */
  predicate WithholdsEach(frames: seq<Frame>, counts: seq<seq<nat>>) {
    |frames| == |counts| &&
    forall i :: 0 <= i < |frames| && frames[i].Round? ==> Withholds(frames[i].answers, counts[i])
  }

  /** One frame after another, each heard where the one before it left off, to the last or to a refusal. */
  ghost predicate Follows(f: Follower, frames: seq<Frame>, counts: seq<seq<nat>>, homes: seq<seq<Reach>>, heard: seq<Heard>)
    requires WithholdsEach(frames, counts) && |frames| == |homes|
  {
    && 0 < |heard| <= |frames| + 1 && heard[0] == Heard(f, [], [])
    && forall i :: 0 <= i < |heard| - 1 ==>
         && !heard[i].follower.over
         && heard[i + 1] == Then(heard[i], Hear(heard[i].follower, frames[i], counts[i], homes[i]))
  }

  function Then(before: Heard, now: Heard): Heard {
    Heard(now.follower, before.said + now.said, before.level + now.level)
  }

  // -------------------------------------------------------------------- the steps

  datatype Step =
    | Commit(home: Reach, record: Record)
    | Send(counts: seq<nat>)
    | Receive
    | Idle
    | Take(applied: seq<nat>, homes: seq<Reach>)

  predicate Enabled(s: System, step: Step) {
    match step
    case Commit(_, _) => true
    case Send(counts) =>
      && |s.leader.unacknowledged| < UNACKNOWLEDGED
      && CanCut(s.leader.logs, s.leader.next, counts)
      && exists i :: 0 <= i < |counts| && counts[i] > 0
    case Receive => s.toLeader != []
    case Idle => s.leader.unacknowledged == [] && Level(s.leader.logs, s.leader.next)
    case Take(applied, homes) =>
      && s.toFollower != [] && !s.follower.over && Distinct(homes)
      && (s.toFollower[0].Round? ==> Withholds(s.toFollower[0].answers, applied))
  }

  function Do(s: System, step: Step): System
    requires Enabled(s, step)
  {
    var leader := s.leader;
    match step
    case Commit(home, record) =>
      s.(leader := leader.(logs := leader.logs[home := HistoryOf(leader.logs, home) + [record]]))
    case Send(counts) =>
      var answers := CutRound(leader.logs, leader.next, counts);
      var next := After(leader.next, answers);
      s.(leader := leader.(next := next, unacknowledged := leader.unacknowledged + [Positions(next)]),
         toFollower := s.toFollower + [Round(answers, leader.next)])
    case Receive =>
      (match s.toLeader[0]
       case HeldUpTo(holds) =>
         s.(leader := leader.(unacknowledged := Acknowledge(leader.unacknowledged, Positions(holds))),
            toLeader := s.toLeader[1..])
       case StreamFrom(holds) =>
         s.(leader := leader.(next := holds, unacknowledged := []),
            toFollower := s.toFollower + [Mark],
            toLeader := s.toLeader[1..]))
    case Idle => s.(toFollower := s.toFollower + [Beat(leader.next, leader.logs)])
    case Take(applied, homes) =>
      var heard := Hear(s.follower, s.toFollower[0], applied, homes);
      s.(follower := heard.follower, toFollower := s.toFollower[1..], toLeader := s.toLeader + heard.said)
  }

  // ------------------------------------------------------------- what always holds

  /** One set of logs is, log by log, the beginning of another. */
  ghost predicate Begins(a: Histories, b: Histories) {
    forall home :: HistoryOf(a, home) <= HistoryOf(b, home)
  }

  predicate WellCut(logs: Histories, answers: Answers, cut: Asks) {
    && |answers| == |cut|
    && forall i :: 0 <= i < |cut| ==> IsCut(HistoryOf(logs, cut[i].home), cut[i].from, answers[i])
  }

  /** The answer is a stretch of the log from `from` on, in order and with nothing left out. */
  predicate IsCut(log: seq<Record>, from: nat, answer: seq<Entry>) {
    1 <= from && from - 1 + |answer| <= |log| && answer == CutLog(log, from, |answer|)
  }

  /** A frame says nothing the leader's logs do not. */
  ghost predicate Truthful(logs: Histories, frame: Frame) {
    match frame
    case Mark => true
    case Round(answers, cut) => WellCut(logs, answers, cut)
    case Beat(cut, seen) => Level(seen, cut) && Begins(seen, logs)
  }

  ghost predicate AllTruthful(logs: Histories, frames: seq<Frame>) {
    forall i :: 0 <= i < |frames| ==> Truthful(logs, frames[i])
  }

  predicate NoMark(frames: seq<Frame>) {
    forall i :: 0 <= i < |frames| ==> !frames[i].Mark?
  }

  /** Each round in line is cut where the one before it leaves off, from `from` on, and the last leaves off at `to`. */
  predicate Chain(from: Asks, frames: seq<Frame>, to: Asks)
    decreases |frames|
  {
    if frames == [] then from == to
    else match frames[0]
      case Mark => false
      case Beat(cut, _) => cut == from && Chain(from, frames[1..], to)
      case Round(answers, cut) => cut == from && |answers| == |cut| && Chain(After(cut, answers), frames[1..], to)
  }

  /** Where each round in line leaves every log. */
  function Lefts(frames: seq<Frame>): seq<seq<nat>> {
    if frames == [] then [] else LeftBy(frames[0]) + Lefts(frames[1..])
  }

  function LeftBy(frame: Frame): seq<seq<nat>> {
    if frame.Round? && |frame.answers| == |frame.cut| then [Positions(After(frame.cut, frame.answers))] else []
  }

  predicate AllHeld(messages: seq<Message>) {
    forall i :: 0 <= i < |messages| ==> messages[i].HeldUpTo?
  }

  function Reported(messages: seq<Message>): (r: seq<seq<nat>>)
    ensures |r| == |messages|
    ensures forall i :: 0 <= i < |r| ==> r[i] == Positions(messages[i].holds)
  {
    seq(|messages|, i requires 0 <= i < |messages| => Positions(messages[i].holds))
  }

  /** Positions that only ever move on, and do move. */
  predicate Rises(a: seq<nat>, b: seq<nat>) {
    Covers(b, a) && !Covers(a, b)
  }

  predicate Rising(s: seq<seq<nat>>) {
    forall i :: 0 < i < |s| ==> Rises(s[i - 1], s[i])
  }

  /** No report names a position past what is applied. */
  predicate NotAhead(logs: Histories, asks: Asks) {
    forall i :: 0 <= i < |asks| ==> 1 <= asks[i].from <= |HistoryOf(logs, asks[i].home)| + 1
  }

  function Homes(asks: Asks): (r: seq<Reach>)
    ensures |r| == |asks| && forall i :: 0 <= i < |r| ==> r[i] == asks[i].home
  {
    seq(|asks|, i requires 0 <= i < |asks| => asks[i].home)
  }

  /** Rounds follow one another from where the follower stands to where the leader's cursors do. */
  predicate InLine(s: System, frames: seq<Frame>) {
    && Chain(s.follower.holds, frames, s.leader.next)
    && s.leader.unacknowledged == Reported(s.toLeader) + Lefts(frames)
    && Rising(s.leader.unacknowledged)
    && (s.leader.unacknowledged != [] ==>
          s.leader.unacknowledged[|s.leader.unacknowledged| - 1] == Positions(s.leader.next))
  }

  /** No restart under way. */
  predicate Flowing(s: System) {
    !s.follower.restarting && AllHeld(s.toLeader) && InLine(s, s.toFollower)
  }

  /** A restart asked for and not yet read by the leader. */
  predicate Asked(s: System) {
    && s.follower.restarting && s.toLeader != []
    && s.toLeader[|s.toLeader| - 1] == StreamFrom(s.follower.holds)
    && (forall i :: 0 <= i < |s.toLeader| - 1 ==> s.toLeader[i].HeldUpTo?)
    && NoMark(s.toFollower)
  }

  /** A restart taken by the leader, its mark `k` frames away. */
  predicate MarkedAt(s: System, k: nat) {
    && s.follower.restarting && s.toLeader == []
    && k < |s.toFollower| && s.toFollower[k].Mark?
    && (forall i :: 0 <= i < k ==> !s.toFollower[i].Mark?)
    && InLine(s, s.toFollower[k + 1..])
  }

  ghost predicate Marked(s: System) {
    exists k :: MarkedAt(s, k)
  }

  /** What the follower holds, and what is on the way, agrees with the leader's logs. */
  ghost predicate Sound(s: System) {
    && !s.follower.over
    && Distinct(Homes(s.follower.holds))
    && s.follower.holds == Holding(s.follower.logs, Homes(s.follower.holds))
    && Begins(s.follower.logs, s.leader.logs)
    && AllTruthful(s.leader.logs, s.toFollower)
    && NotAhead(s.leader.logs, s.leader.next)
    && (forall i :: 0 <= i < |s.toLeader| ==> NotAhead(s.follower.logs, s.toLeader[i].holds))
    && |s.leader.unacknowledged| <= UNACKNOWLEDGED
  }

  ghost predicate Invariant(s: System) {
    Sound(s) && (Flowing(s) || Asked(s) || Marked(s))
  }

  /** The stream has just opened: the leader's cursors are the positions the follower named. */
  ghost predicate Opened(s: System) {
    && s.toFollower == [] && s.toLeader == []
    && !s.follower.restarting && !s.follower.over
    && s.leader.next == s.follower.holds && s.leader.unacknowledged == []
    && Distinct(Homes(s.follower.holds))
    && s.follower.holds == Holding(s.follower.logs, Homes(s.follower.holds))
    && Begins(s.follower.logs, s.leader.logs)
  }

  // ------------------------------------------------------- the follower's own loop

  /** The follower's end of the stream, with the store it applies to. */
  class Following {
    var logs: Histories
    var holds: Asks
    var restarting: bool
    var over: bool
    var said: seq<Message>
    var level: seq<nat>

    function View(): Follower
      reads this
    {
      Follower(logs, holds, restarting, over)
    }

    /** Names what it holds of each log, and asks to be streamed from there. */
    constructor (logs: Histories, homes: seq<Reach>)
      ensures View() == Follower(logs, Holding(logs, homes), false, false)
      ensures said == [StreamFrom(holds)] && level == []
    {
      this.logs := logs;
      holds := Holding(logs, homes);
      restarting, over := false, false;
      said := [StreamFrom(Holding(logs, homes))];
      level := [];
    }

    /** Applies what is not withheld of each answer, stopping at the first gap. */
    method Apply(answers: Answers, counts: seq<nat>) returns (whole: bool)
      requires |holds| == |answers| && Withholds(answers, counts)
      modifies this`logs
      ensures whole == AllApply(old(logs), holds, answers, counts, |answers|)
      ensures logs == if whole then Applied(old(logs), holds, answers, counts, |answers|) else old(logs)
    {
      whole := true;
      var now := logs;
      var n := 0;
      while n < |answers| && whole
        invariant n <= |answers|
        invariant whole ==> AllApply(logs, holds, answers, counts, n) && now == Applied(logs, holds, answers, counts, n)
        invariant !whole ==> n < |answers| && !AllApply(logs, holds, answers, counts, n + 1)
        decreases |answers| - n + if whole then 1 else 0
      {
        var home := holds[n].home;
        var entries := answers[n][..counts[n]];
        whole := AllLand(HistoryOf(now, home), entries);
        if whole {
          now := now[home := LandAll(HistoryOf(now, home), entries)];
          n := n + 1;
        }
      }
      if whole {
        logs := now;
      } else {
        RefusedStays(logs, holds, answers, counts, n + 1, |answers|);
      }
    }

    /** One frame of the stream. */
    method Take(frame: Frame, counts: seq<nat>, homes: seq<Reach>)
      requires frame.Round? ==> Withholds(frame.answers, counts)
      modifies this
      ensures var heard := Hear(old(View()), frame, counts, homes);
              && View() == heard.follower
              && said == old(said) + heard.said
              && level == old(level) + heard.level
    {
      match frame {
        case Mark => restarting := false;
        case Beat(_, _) =>
          if !restarting && holds != [] && holds[0].from > 0 {
            level := level + [holds[0].from - 1];
          }
        case Round(answers, _) =>
          if restarting {
            return;
          }
          if |answers| != |holds| {
            over := true;
            return;
          }
          var whole := After(holds, answers);
          var applied := Apply(answers, counts);
          if !applied {
            over := true;
            return;
          }
          holds := Holding(logs, homes);
          if holds == whole {
            said := said + [HeldUpTo(holds)];
          } else {
            said := said + [StreamFrom(holds)];
            restarting := true;
          }
      }
    }

    /** Follows the stream to its end, or to the first refusal. */
    method Follow(frames: seq<Frame>, counts: seq<seq<nat>>, homes: seq<seq<Reach>>) returns (ghost heard: seq<Heard>)
      requires WithholdsEach(frames, counts) && |frames| == |homes| && !over
      modifies this
      ensures Follows(old(View()), frames, counts, homes, heard)
      ensures Stands(old(said), old(level), heard[|heard| - 1])
      ensures over || |heard| == |frames| + 1
    {
      ghost var words, levels := said, level;
      heard := [Heard(View(), [], [])];
      var n := 0;
      while n < |frames| && !over
        invariant n <= |frames| && |heard| == n + 1
        invariant Follows(old(View()), frames, counts, homes, heard)
        invariant Stands(words, levels, heard[n])
      {
        ghost var next := TakeNext(this, frames[n], counts[n], homes[n], words, levels, heard[n]);
        heard := heard + [next];
        n := n + 1;
      }
    }

    /** Everything heard so far is done and said. */
    ghost predicate Stands(words: seq<Message>, levels: seq<nat>, heard: Heard)
      reads this
    {
      View() == heard.follower && said == words + heard.said && level == levels + heard.level
    }
  }

  /** One frame more, kept beside what has been heard before it. */
  method TakeNext(following: Following, frame: Frame, counts: seq<nat>, homes: seq<Reach>,
                  ghost words: seq<Message>, ghost levels: seq<nat>, ghost heard: Heard)
    returns (ghost next: Heard)
    requires following.Stands(words, levels, heard) && (frame.Round? ==> Withholds(frame.answers, counts))
    modifies following
    ensures next == Then(heard, Hear(heard.follower, frame, counts, homes)) && following.Stands(words, levels, next)
  {
    ghost var now := Hear(heard.follower, frame, counts, homes);
    following.Take(frame, counts, homes);
    Associate(words, heard.said, now.said);
    Associate(levels, heard.level, now.level);
    next := Then(heard, now);
  }

  lemma {:induction false} RefusedStays(logs: Histories, holds: Asks, answers: Answers, counts: seq<nat>, n: nat, m: nat)
    requires n <= m <= |holds| == |answers| && Withholds(answers, counts)
    requires !AllApply(logs, holds, answers, counts, n)
    ensures !AllApply(logs, holds, answers, counts, m)
  {
    if n == m {
    } else {
      RefusedStays(logs, holds, answers, counts, n, m - 1);
    }
  }
}
