/** Every run of the pushed stream: what each step keeps, and what follows. */
module PushedRuns {
  import opened Layout
  import opened Lists
  import opened Stores
  import opened PushedStream

  // ---------------------------------------------------------- one round, one log

  /** A stretch of the leader's log lands whole on a follower that stands where it begins. */
  lemma {:induction false} CutLands(log: seq<Record>, held: seq<Record>, answer: seq<Entry>, count: nat)
    requires held <= log && IsCut(log, |held| + 1, answer) && count <= |answer|
    ensures AllLand(held, answer[..count])
    ensures LandAll(held, answer[..count]) == log[..|held| + count]
  {
    if count == 0 {
    } else {
      var part := answer[..count];
      assert part[..count - 1] == answer[..count - 1];
      CutLands(log, held, answer, count - 1);
      assert part[count - 1] == Entry(|held| + count, log[|held| + count - 1]);
      assert log[..|held| + count] == log[..|held| + count - 1] + [log[|held| + count - 1]];
    }
  }

  /** Where a log of a round is once the first `n` logs are in. */
  function Reached(leader: Histories, logs: Histories, holds: Asks, counts: seq<nat>, n: nat, home: Reach): seq<Record>
    requires n <= |holds| == |counts|
  {
    if n == 0 then HistoryOf(logs, home)
    else if holds[n - 1].home == home && holds[n - 1].from >= 1
            && holds[n - 1].from - 1 + counts[n - 1] <= |HistoryOf(leader, home)|
    then HistoryOf(leader, home)[..holds[n - 1].from - 1 + counts[n - 1]]
    else Reached(leader, logs, holds, counts, n - 1, home)
  }

  lemma {:induction false} NotYetReached(leader: Histories, logs: Histories, holds: Asks, counts: seq<nat>, n: nat, home: Reach)
    requires n <= |holds| == |counts| && forall i :: 0 <= i < n ==> holds[i].home != home
    ensures Reached(leader, logs, holds, counts, n, home) == HistoryOf(logs, home)
  {
    if n == 0 {
    } else {
      NotYetReached(leader, logs, holds, counts, n - 1, home);
    }
  }

  lemma {:induction false} ReachedBegins(leader: Histories, logs: Histories, holds: Asks, counts: seq<nat>, n: nat, home: Reach)
    requires n <= |holds| == |counts| && Begins(logs, leader)
    requires holds == Holding(logs, Homes(holds))
    ensures HistoryOf(logs, home) <= Reached(leader, logs, holds, counts, n, home) <= HistoryOf(leader, home)
  {
    if n == 0 {
    } else {
      ReachedBegins(leader, logs, holds, counts, n - 1, home);
      var hold := holds[n - 1];
      assert hold == Ask(Homes(holds)[n - 1], |HistoryOf(logs, Homes(holds)[n - 1])| + 1);
    }
  }

  /** What a follower and a round cut where it stands have in common. */
  ghost predicate Meets(leader: Histories, logs: Histories, holds: Asks, answers: Answers) {
    && Distinct(Homes(holds)) && holds == Holding(logs, Homes(holds))
    && Begins(logs, leader) && WellCut(leader, answers, holds)
  }

  /** The `n`-th log of a round: its answer lands where the follower's copy ends. */
  predicate Fits(leader: Histories, logs: Histories, holds: Asks, answers: Answers, counts: seq<nat>, n: nat)
    requires 0 < n <= |holds| == |answers| && Withholds(answers, counts)
  {
    var home := holds[n - 1].home;
    var held, entries := HistoryOf(logs, home), answers[n - 1][..counts[n - 1]];
    && Reached(leader, logs, holds, counts, n - 1, home) == held
    && AllLand(held, entries)
    && LandAll(held, entries) == Reached(leader, logs, holds, counts, n, home)
  }

  lemma LogFits(leader: Histories, logs: Histories, holds: Asks, answers: Answers, counts: seq<nat>, n: nat)
    requires Meets(leader, logs, holds, answers) && Withholds(answers, counts) && 0 < n <= |holds|
    ensures Fits(leader, logs, holds, answers, counts, n)
  {
    var at := holds[n - 1].home;
    var held := HistoryOf(logs, at);
    assert at == Homes(holds)[n - 1];
    forall i | 0 <= i < n - 1 ensures holds[i].home != at {
      assert Homes(holds)[i] != Homes(holds)[n - 1];
    }
    NotYetReached(leader, logs, holds, counts, n - 1, at);
    assert holds[n - 1].from == |held| + 1;
    assert IsCut(HistoryOf(leader, at), |held| + 1, answers[n - 1]);
    CutLands(HistoryOf(leader, at), held, answers[n - 1], counts[n - 1]);
    ReachedHere(leader, logs, holds, counts, n);
  }

  lemma ReachedHere(leader: Histories, logs: Histories, holds: Asks, counts: seq<nat>, n: nat)
    requires 0 < n <= |holds| == |counts| && holds[n - 1].from >= 1
    requires holds[n - 1].from - 1 + counts[n - 1] <= |HistoryOf(leader, holds[n - 1].home)|
    ensures Reached(leader, logs, holds, counts, n, holds[n - 1].home)
         == HistoryOf(leader, holds[n - 1].home)[..holds[n - 1].from - 1 + counts[n - 1]]
  {
  }

  ghost predicate AllFit(leader: Histories, logs: Histories, holds: Asks, answers: Answers, counts: seq<nat>)
    requires |holds| == |answers| && Withholds(answers, counts)
  {
    forall n: nat :: 0 < n <= |holds| ==> Fits(leader, logs, holds, answers, counts, n)
  }

  lemma RoundFits(leader: Histories, logs: Histories, holds: Asks, answers: Answers, counts: seq<nat>)
    requires Meets(leader, logs, holds, answers) && Withholds(answers, counts)
    ensures AllFit(leader, logs, holds, answers, counts)
  {
    forall n: nat | 0 < n <= |holds| ensures Fits(leader, logs, holds, answers, counts, n) {
      LogFits(leader, logs, holds, answers, counts, n);
    }
  }

  /** Taking in one more log touches that log only. */
  lemma OneLogOnly(logs: Histories, holds: Asks, answers: Answers, counts: seq<nat>, n: nat, home: Reach)
    requires 0 < n <= |holds| == |answers| && Withholds(answers, counts)
    ensures HistoryOf(Applied(logs, holds, answers, counts, n), home)
            == if holds[n - 1].home == home
               then LandAll(HistoryOf(Applied(logs, holds, answers, counts, n - 1), home), answers[n - 1][..counts[n - 1]])
               else HistoryOf(Applied(logs, holds, answers, counts, n - 1), home)
  {
  }

  lemma NextReached(leader: Histories, logs: Histories, holds: Asks, counts: seq<nat>, n: nat, home: Reach)
    requires 0 < n <= |holds| == |counts| && holds[n - 1].home != home
    ensures Reached(leader, logs, holds, counts, n, home) == Reached(leader, logs, holds, counts, n - 1, home)
  {
  }

  /** Where every log stands once the first `n` logs of a round cut for the follower are in. */
  lemma {:induction false} LandsAt(leader: Histories, logs: Histories, holds: Asks, answers: Answers, counts: seq<nat>, n: nat, home: Reach)
    requires |holds| == |answers| && Withholds(answers, counts) && AllFit(leader, logs, holds, answers, counts) && n <= |holds|
    ensures HistoryOf(Applied(logs, holds, answers, counts, n), home) == Reached(leader, logs, holds, counts, n, home)
  {
    if n == 0 {
    } else {
      LandsAt(leader, logs, holds, answers, counts, n - 1, home);
      OneLogOnly(logs, holds, answers, counts, n, home);
      if holds[n - 1].home == home {
        assert Fits(leader, logs, holds, answers, counts, n);
      } else {
        NextReached(leader, logs, holds, counts, n, home);
      }
    }
  }

  /** A round cut where the follower stands applies, log after log. */
  lemma {:induction false} RoundApplies(leader: Histories, logs: Histories, holds: Asks, answers: Answers, counts: seq<nat>, n: nat)
    requires |holds| == |answers| && Withholds(answers, counts) && AllFit(leader, logs, holds, answers, counts) && n <= |holds|
    ensures AllApply(logs, holds, answers, counts, n)
  {
    if n == 0 {
    } else {
      RoundApplies(leader, logs, holds, answers, counts, n - 1);
      LandsAt(leader, logs, holds, answers, counts, n - 1, holds[n - 1].home);
      assert Fits(leader, logs, holds, answers, counts, n);
      NextApplies(logs, HistoryOf(logs, holds[n - 1].home), holds, answers, counts, n);
    }
  }

  lemma NextApplies(logs: Histories, held: seq<Record>, holds: Asks, answers: Answers, counts: seq<nat>, n: nat)
    requires 0 < n <= |holds| == |answers| && Withholds(answers, counts)
    requires AllApply(logs, holds, answers, counts, n - 1)
    requires HistoryOf(Applied(logs, holds, answers, counts, n - 1), holds[n - 1].home) == held
    requires AllLand(held, answers[n - 1][..counts[n - 1]])
    ensures AllApply(logs, holds, answers, counts, n)
  {
  }

  /** What a round that applies leaves behind. */
  lemma RoundIsTaken(leader: Histories, logs: Histories, holds: Asks, answers: Answers, counts: seq<nat>)
    requires Meets(leader, logs, holds, answers) && Withholds(answers, counts)
    ensures AllApply(logs, holds, answers, counts, |answers|)
    ensures Begins(logs, Applied(logs, holds, answers, counts, |answers|))
    ensures Begins(Applied(logs, holds, answers, counts, |answers|), leader)
  {
    RoundFits(leader, logs, holds, answers, counts);
    RoundApplies(leader, logs, holds, answers, counts, |answers|);
    var after := Applied(logs, holds, answers, counts, |answers|);
    forall home ensures HistoryOf(logs, home) <= HistoryOf(after, home) <= HistoryOf(leader, home) {
      LandsAt(leader, logs, holds, answers, counts, |answers|, home);
      ReachedBegins(leader, logs, holds, counts, |answers|, home);
    }
  }

  // ------------------------------------------------------------------- the queues

  lemma {:induction false} ChainGrows(from: Asks, frames: seq<Frame>, to: Asks, frame: Frame, next: Asks)
    requires Chain(from, frames, to)
    requires Chain(to, [frame], next)
    ensures Chain(from, frames + [frame], next)
    decreases |frames|
  {
    var all := frames + [frame];
    if frames == [] {
      assert all == [frame];
    } else {
      assert all[0] == frames[0] && all[1..] == frames[1..] + [frame];
      match frames[0]
      case Beat(cut, _) => ChainGrows(from, frames[1..], to, frame, next);
      case Round(answers, cut) => ChainGrows(After(cut, answers), frames[1..], to, frame, next);
    }
  }

  lemma {:induction false} ChainHasNoMark(from: Asks, frames: seq<Frame>, to: Asks)
    requires Chain(from, frames, to)
    ensures NoMark(frames)
    decreases |frames|
  {
    if frames == [] {
    } else {
      match frames[0]
      case Beat(cut, _) => ChainHasNoMark(from, frames[1..], to);
      case Round(answers, cut) => ChainHasNoMark(After(cut, answers), frames[1..], to);
      forall i | 0 <= i < |frames| ensures !frames[i].Mark? {
        assert i > 0 ==> frames[i] == frames[1..][i - 1];
      }
    }
  }

  lemma {:induction false} LeftsGrow(frames: seq<Frame>, frame: Frame)
    ensures Lefts(frames + [frame]) == Lefts(frames) + Lefts([frame])
  {
    var all := frames + [frame];
    if frames == [] {
      assert all == [frame];
    } else {
      assert all[0] == frames[0] && all[1..] == frames[1..] + [frame];
      LeftsGrow(frames[1..], frame);
      Associate(LeftBy(frames[0]), Lefts(frames[1..]), Lefts([frame]));
    }
  }

  lemma LeftOf(answers: Answers, cut: Asks)
    requires |answers| == |cut|
    ensures Lefts([Round(answers, cut)]) == [Positions(After(cut, answers))]
    ensures Chain(cut, [Round(answers, cut)], After(cut, answers))
  {
    var one := [Round(answers, cut)];
    assert one[1..] == [];
  }

  /** A round with something in it moves on. */
  lemma SendRises(logs: Histories, next: Asks, counts: seq<nat>)
    requires CanCut(logs, next, counts) && exists i :: 0 <= i < |counts| && counts[i] > 0
    ensures Rises(Positions(next), Positions(After(next, CutRound(logs, next, counts))))
    ensures WellCut(logs, CutRound(logs, next, counts), next)
    ensures NotAhead(logs, After(next, CutRound(logs, next, counts)))
  {
    var answers := CutRound(logs, next, counts);
    var before, after := Positions(next), Positions(After(next, answers));
    forall i | 0 <= i < |next|
      ensures after[i] == before[i] + counts[i]
    {
      assert answers[i] == CutLog(HistoryOf(logs, next[i].home), next[i].from, counts[i]);
    }
    var k :| 0 <= k < |counts| && counts[k] > 0;
    assert !(after[k] <= before[k]);
  }

  lemma RisingGrows(s: seq<seq<nat>>, next: seq<nat>)
    requires Rising(s) && (s != [] ==> Rises(s[|s| - 1], next))
    ensures Rising(s + [next])
  {
  }

  /** A report of the oldest round acknowledges that round and no other. */
  lemma AcknowledgesOne(unacknowledged: seq<seq<nat>>)
    requires Rising(unacknowledged) && unacknowledged != []
    ensures Acknowledge(unacknowledged, unacknowledged[0]) == unacknowledged[1..]
    ensures Rising(unacknowledged[1..])
  {
    var rest := unacknowledged[1..];
    if rest != [] {
      assert Rises(unacknowledged[0], unacknowledged[1]);
      assert rest[0] == unacknowledged[1];
    }
    forall i | 0 < i < |rest| ensures Rises(rest[i - 1], rest[i]) {
      assert Rises(unacknowledged[i], unacknowledged[i + 1]);
    }
  }

  lemma {:induction false} AcknowledgeShrinks(unacknowledged: seq<seq<nat>>, held: seq<nat>)
    ensures |Acknowledge(unacknowledged, held)| <= |unacknowledged|
  {
    if unacknowledged == [] || !Covers(held, unacknowledged[0]) {
    } else {
      AcknowledgeShrinks(unacknowledged[1..], held);
    }
  }

  // ------------------------------------------------------------------- each step

  lemma OpeningKeeps(s: System)
    requires Opened(s)
    ensures Invariant(s)
  {
    forall i | 0 <= i < |s.leader.next|
      ensures 1 <= s.leader.next[i].from <= |HistoryOf(s.leader.logs, s.leader.next[i].home)| + 1
    {
      var home := Homes(s.follower.holds)[i];
      assert HistoryOf(s.follower.logs, home) <= HistoryOf(s.leader.logs, home);
    }
    assert Reported(s.toLeader) + Lefts(s.toFollower) == [];
    assert Flowing(s);
  }

  /** What is true of a log stays true as it grows. */
  lemma GrowthKeepsTruth(logs: Histories, more: Histories, frame: Frame)
    requires Truthful(logs, frame) && Begins(logs, more)
    ensures Truthful(more, frame)
  {
    match frame
    case Mark =>
    case Beat(cut, seen) =>
      forall home ensures HistoryOf(seen, home) <= HistoryOf(more, home) {
        assert HistoryOf(seen, home) <= HistoryOf(logs, home);
        assert HistoryOf(logs, home) <= HistoryOf(more, home);
      }
    case Round(answers, cut) =>
      forall i | 0 <= i < |cut|
        ensures IsCut(HistoryOf(more, cut[i].home), cut[i].from, answers[i])
      {
        assert IsCut(HistoryOf(logs, cut[i].home), cut[i].from, answers[i]);
        GrowthKeepsCut(HistoryOf(logs, cut[i].home), HistoryOf(more, cut[i].home), cut[i].from, answers[i]);
      }
  }

  lemma GrowthKeepsCut(log: seq<Record>, more: seq<Record>, from: nat, answer: seq<Entry>)
    requires log <= more && IsCut(log, from, answer)
    ensures IsCut(more, from, answer)
  {
    assert answer == CutLog(more, from, |answer|);
  }

  lemma GrowthKeepsPlace(logs: Histories, more: Histories, asks: Asks)
    requires Begins(logs, more) && NotAhead(logs, asks)
    ensures NotAhead(more, asks)
  {
    forall i | 0 <= i < |asks| ensures 1 <= asks[i].from <= |HistoryOf(more, asks[i].home)| + 1 {
      assert HistoryOf(logs, asks[i].home) <= HistoryOf(more, asks[i].home);
    }
  }

  lemma BeginsThrough(a: Histories, b: Histories, c: Histories)
    requires Begins(a, b) && Begins(b, c)
    ensures Begins(a, c)
  {
    forall home ensures HistoryOf(a, home) <= HistoryOf(c, home) {
      assert HistoryOf(a, home) <= HistoryOf(b, home);
      assert HistoryOf(b, home) <= HistoryOf(c, home);
    }
  }

  lemma CommitKeeps(s: System, home: Reach, record: Record)
    requires Invariant(s)
    ensures Invariant(Do(s, Commit(home, record)))
  {
    var t := Do(s, Commit(home, record));
    var before, after := s.leader.logs, t.leader.logs;
    assert Begins(before, after);
    BeginsThrough(s.follower.logs, before, after);
    forall i | 0 <= i < |t.toFollower| ensures Truthful(after, t.toFollower[i]) {
      GrowthKeepsTruth(before, after, s.toFollower[i]);
    }
    GrowthKeepsPlace(before, after, s.leader.next);
    PhaseIsKept(s, t);
  }

  /** The phase speaks of cursors, queues and holds, not of the leader's logs. */
  lemma PhaseIsKept(s: System, t: System)
    requires Flowing(s) || Asked(s) || Marked(s)
    requires t == s.(leader := s.leader.(logs := t.leader.logs))
    ensures Flowing(t) || Asked(t) || Marked(t)
  {
    if Marked(s) {
      var k: nat :| MarkedAt(s, k);
      assert MarkedAt(t, k);
    }
  }

  /** One more frame at the end of those in line. */
  lemma LineGrows(s: System, t: System, frames: seq<Frame>, frame: Frame)
    requires InLine(s, frames)
    requires t.follower == s.follower && t.toLeader == s.toLeader
    requires Chain(s.leader.next, [frame], t.leader.next)
    requires t.leader.unacknowledged == s.leader.unacknowledged + Lefts([frame])
    requires Rising(t.leader.unacknowledged)
    requires t.leader.unacknowledged != [] ==>
               t.leader.unacknowledged[|t.leader.unacknowledged| - 1] == Positions(t.leader.next)
    ensures InLine(t, frames + [frame])
  {
    ChainGrows(s.follower.holds, frames, s.leader.next, frame, t.leader.next);
    LeftsGrow(frames, frame);
  }

  /** A frame the leader adds keeps the phase. */
  lemma SendingKeepsPhase(s: System, t: System, frame: Frame)
    requires Flowing(s) || Asked(s) || Marked(s)
    requires !frame.Mark? && t.follower == s.follower && t.toLeader == s.toLeader
    requires t.toFollower == s.toFollower + [frame]
    requires forall frames :: InLine(s, frames) ==> InLine(t, frames + [frame])
    ensures Flowing(t) || Asked(t) || Marked(t)
  {
    if Flowing(s) {
      assert InLine(t, s.toFollower + [frame]);
    } else if Marked(s) {
      var k: nat :| MarkedAt(s, k);
      assert t.toFollower[k + 1..] == s.toFollower[k + 1..] + [frame];
      assert InLine(t, s.toFollower[k + 1..] + [frame]);
      assert MarkedAt(t, k);
    }
  }

  lemma SendKeepsLine(s: System, counts: seq<nat>, frames: seq<Frame>)
    requires Enabled(s, Send(counts)) && InLine(s, frames)
    ensures InLine(Do(s, Send(counts)), frames + [Round(CutRound(s.leader.logs, s.leader.next, counts), s.leader.next)])
  {
    var t := Do(s, Send(counts));
    var answers := CutRound(s.leader.logs, s.leader.next, counts);
    SendRises(s.leader.logs, s.leader.next, counts);
    LeftOf(answers, s.leader.next);
    RisingGrows(s.leader.unacknowledged, Positions(t.leader.next));
    LineGrows(s, t, frames, Round(answers, s.leader.next));
  }

  lemma SendKeeps(s: System, counts: seq<nat>)
    requires Invariant(s) && Enabled(s, Send(counts))
    ensures Invariant(Do(s, Send(counts)))
  {
    var t := Do(s, Send(counts));
    var frame := Round(CutRound(s.leader.logs, s.leader.next, counts), s.leader.next);
    forall frames | InLine(s, frames) ensures InLine(t, frames + [frame]) {
      SendKeepsLine(s, counts, frames);
    }
    SendingKeepsPhase(s, t, frame);
    SendRises(s.leader.logs, s.leader.next, counts);
    FrameKeepsTruth(s.leader.logs, s.toFollower, frame);
  }

  lemma FrameKeepsTruth(logs: Histories, frames: seq<Frame>, frame: Frame)
    requires AllTruthful(logs, frames) && Truthful(logs, frame)
    ensures AllTruthful(logs, frames + [frame])
  {
  }

  lemma IdleKeeps(s: System)
    requires Invariant(s) && Enabled(s, Idle)
    ensures Invariant(Do(s, Idle))
  {
    var t := Do(s, Idle);
    var frame := Beat(s.leader.next, s.leader.logs);
    forall frames | InLine(s, frames) ensures InLine(t, frames + [frame]) {
      IdleKeepsLine(s, frames);
    }
    SendingKeepsPhase(s, t, frame);
    BeatIsTruthful(s.leader.next, s.leader.logs);
    FrameKeepsTruth(s.leader.logs, s.toFollower, frame);
  }

  lemma IdleKeepsLine(s: System, frames: seq<Frame>)
    requires Enabled(s, Idle) && InLine(s, frames)
    ensures InLine(Do(s, Idle), frames + [Beat(s.leader.next, s.leader.logs)])
  {
    BeatAdds(s.leader.next, s.leader.logs);
    assert s.leader.unacknowledged + [] == [];
    LineGrows(s, Do(s, Idle), frames, Beat(s.leader.next, s.leader.logs));
  }

  lemma BeatIsTruthful(next: Asks, logs: Histories)
    requires Level(logs, next)
    ensures Truthful(logs, Beat(next, logs))
  {
  }

  lemma BeatAdds(cut: Asks, seen: Histories)
    ensures Lefts([Beat(cut, seen)]) == [] && Chain(cut, [Beat(cut, seen)], cut)
  {
    var one := [Beat(cut, seen)];
    assert one[1..] == [];
  }

  lemma ReceiveHeldKeeps(s: System)
    requires Invariant(s) && Enabled(s, Receive) && s.toLeader[0].HeldUpTo?
    ensures Invariant(Do(s, Receive))
  {
    var t := Do(s, Receive);
    AcknowledgeShrinks(s.leader.unacknowledged, Positions(s.toLeader[0].holds));
    assert Sound(t);
    if Flowing(s) {
      HeldAcknowledgesOne(s);
    } else {
      assert Asked(t);
    }
  }

  /** In the flow, a report acknowledges exactly the oldest round. */
  lemma HeldAcknowledgesOne(s: System)
    requires Flowing(s) && s.toLeader != []
    ensures Do(s, Receive).leader.unacknowledged == s.leader.unacknowledged[1..]
    ensures Flowing(Do(s, Receive))
  {
    var t := Do(s, Receive);
    var reported := Reported(s.toLeader);
    assert s.leader.unacknowledged[0] == reported[0];
    AcknowledgesOne(s.leader.unacknowledged);
    assert Reported(t.toLeader) == reported[1..];
    assert (reported + Lefts(s.toFollower))[1..] == reported[1..] + Lefts(s.toFollower);
  }

  /** A restart read by the leader is the last word the follower said. */
  lemma AskedIsRead(s: System)
    requires Invariant(s) && Enabled(s, Receive) && s.toLeader[0].StreamFrom?
    ensures Asked(s) && |s.toLeader| == 1 && s.toLeader[0].holds == s.follower.holds
  {
  }

  lemma ReceiveRestartKeeps(s: System)
    requires Invariant(s) && Enabled(s, Receive) && s.toLeader[0].StreamFrom?
    ensures Invariant(Do(s, Receive))
  {
    var t := Do(s, Receive);
    AskedIsRead(s);
    GrowthKeepsPlace(s.follower.logs, s.leader.logs, s.follower.holds);
    var k := |s.toFollower|;
    assert t.toFollower[k + 1..] == [];
    assert Reported(t.toLeader) + Lefts([]) == [];
    assert MarkedAt(t, k);
    assert Truthful(t.leader.logs, Mark);
    assert Sound(t);
  }

  // --------------------------------------------------- what the follower takes

  /** While a restart is under way nothing is applied or said. */
  lemma RestartingDrops(s: System, applied: seq<nat>, homes: seq<Reach>)
    requires Enabled(s, Take(applied, homes)) && s.follower.restarting
    ensures Do(s, Take(applied, homes))
            == s.(follower := s.follower.(restarting := !s.toFollower[0].Mark?), toFollower := s.toFollower[1..])
  {
    assert s.toLeader + [] == s.toLeader;
  }

  lemma TakeNothingKeeps(s: System, applied: seq<nat>, homes: seq<Reach>)
    requires Invariant(s) && Enabled(s, Take(applied, homes)) && s.follower.restarting
    ensures Invariant(Do(s, Take(applied, homes)))
  {
    var t := Do(s, Take(applied, homes));
    RestartingDrops(s, applied, homes);
    assert Sound(t);
    if Asked(s) {
      assert Asked(t);
    } else {
      var k: nat :| MarkedAt(s, k);
      MarkComes(s, t, k);
    }
  }

  lemma MarkComes(s: System, t: System, k: nat)
    requires MarkedAt(s, k)
    requires t == s.(follower := s.follower.(restarting := !s.toFollower[0].Mark?), toFollower := s.toFollower[1..])
    ensures if k == 0 then Flowing(t) else MarkedAt(t, k - 1)
  {
    if k > 0 {
      assert t.toFollower[k..] == s.toFollower[k + 1..];
    }
  }

  lemma TakeBeatKeeps(s: System, applied: seq<nat>, homes: seq<Reach>)
    requires Invariant(s) && Enabled(s, Take(applied, homes)) && !s.follower.restarting && !s.toFollower[0].Round?
    ensures Invariant(Do(s, Take(applied, homes)))
    ensures s.toFollower[0].Beat?
  {
    var t := Do(s, Take(applied, homes));
    assert Flowing(s);
    assert s.toLeader + [] == s.toLeader;
    assert t == s.(toFollower := s.toFollower[1..]);
    BeatPasses(s, t);
  }

  lemma BeatPasses(s: System, t: System)
    requires Sound(s) && Flowing(s) && s.toFollower != [] && !s.toFollower[0].Round?
    requires t == s.(toFollower := s.toFollower[1..])
    ensures Sound(t) && Flowing(t)
  {
    assert Lefts(s.toFollower) == Lefts(s.toFollower[1..]);
  }

  /** A round read in the flow was cut exactly where the follower stands. */
  lemma RoundMeets(s: System)
    requires Sound(s) && Flowing(s) && s.toFollower != [] && s.toFollower[0].Round?
    ensures s.toFollower[0].cut == s.follower.holds
    ensures Meets(s.leader.logs, s.follower.logs, s.follower.holds, s.toFollower[0].answers)
  {
    assert Truthful(s.leader.logs, s.toFollower[0]);
  }

  /** What hearing a round in the flow comes to. */
  lemma RoundIsHeard(s: System, applied: seq<nat>, homes: seq<Reach>)
    requires Invariant(s) && Enabled(s, Take(applied, homes)) && !s.follower.restarting && s.toFollower[0].Round?
    ensures Flowing(s) && |s.toFollower[0].answers| == |s.follower.holds|
    ensures var f, answers := s.follower, s.toFollower[0].answers;
            var logs := Applied(f.logs, f.holds, answers, applied, |answers|);
            && AllApply(f.logs, f.holds, answers, applied, |answers|)
            && Do(s, Take(applied, homes)).follower.logs == logs
            && Begins(f.logs, logs) && Begins(logs, s.leader.logs)
  {
    RoundMeets(s);
    RoundIsTaken(s.leader.logs, s.follower.logs, s.follower.holds, s.toFollower[0].answers, applied);
    HearingApplies(s.follower, s.toFollower[0], applied, homes);
  }

  lemma HearingApplies(f: Follower, frame: Frame, applied: seq<nat>, homes: seq<Reach>)
    requires frame.Round? && !f.restarting && |frame.answers| == |f.holds| && Withholds(frame.answers, applied)
    requires AllApply(f.logs, f.holds, frame.answers, applied, |frame.answers|)
    ensures Hear(f, frame, applied, homes).follower.logs == Applied(f.logs, f.holds, frame.answers, applied, |frame.answers|)
  {
  }

  lemma TakeRoundKeeps(s: System, applied: seq<nat>, homes: seq<Reach>)
    requires Invariant(s) && Enabled(s, Take(applied, homes)) && !s.follower.restarting && s.toFollower[0].Round?
    ensures Invariant(Do(s, Take(applied, homes)))
  {
    var f, answers := s.follower, s.toFollower[0].answers;
    RoundIsHeard(s, applied, homes);
    RoundIsKept(s, Do(s, Take(applied, homes)), Applied(f.logs, f.holds, answers, applied, |answers|), homes);
  }

  lemma RoundIsKept(s: System, t: System, logs: Histories, homes: seq<Reach>)
    requires Sound(s) && Flowing(s) && s.toFollower != [] && s.toFollower[0].Round?
    requires |s.toFollower[0].answers| == |s.follower.holds| && Distinct(homes)
    requires Begins(s.follower.logs, logs) && Begins(logs, s.leader.logs)
    requires var now := Holding(logs, homes);
             var whole := now == After(s.follower.holds, s.toFollower[0].answers);
             t == s.(follower := Follower(logs, now, !whole, false), toFollower := s.toFollower[1..],
                     toLeader := s.toLeader + [if whole then HeldUpTo(now) else StreamFrom(now)])
    ensures Invariant(t)
  {
    var now := Holding(logs, homes);
    assert Homes(now) == homes;
    TakenIsSound(s, t);
    if now == After(s.follower.holds, s.toFollower[0].answers) {
      InStepFlows(s, t, now);
    } else {
      ChainHasNoMark(s.follower.holds, s.toFollower, s.leader.next);
      assert Asked(t);
    }
  }

  lemma TakenIsSound(s: System, t: System)
    requires Sound(s) && s.toFollower != []
    requires t.leader == s.leader && t.toFollower == s.toFollower[1..]
    requires |t.toLeader| == |s.toLeader| + 1 && t.toLeader[..|s.toLeader|] == s.toLeader
    requires t.toLeader[|s.toLeader|].holds == t.follower.holds
    requires !t.follower.over && Distinct(Homes(t.follower.holds))
    requires t.follower.holds == Holding(t.follower.logs, Homes(t.follower.holds))
    requires Begins(s.follower.logs, t.follower.logs) && Begins(t.follower.logs, t.leader.logs)
    ensures Sound(t)
  {
    forall i | 0 <= i < |t.toLeader| ensures NotAhead(t.follower.logs, t.toLeader[i].holds) {
      if i < |s.toLeader| {
        assert t.toLeader[i] == s.toLeader[i];
        GrowthKeepsPlace(s.follower.logs, t.follower.logs, s.toLeader[i].holds);
      }
    }
  }

  lemma InStepFlows(s: System, t: System, now: Asks)
    requires Flowing(s) && s.toFollower != [] && s.toFollower[0].Round?
    requires |s.toFollower[0].answers| == |s.follower.holds|
    requires now == After(s.follower.holds, s.toFollower[0].answers)
    requires t.leader == s.leader && t.toFollower == s.toFollower[1..]
    requires t.toLeader == s.toLeader + [HeldUpTo(now)]
    requires t.follower.holds == now && !t.follower.restarting
    ensures Flowing(t)
  {
    var left := Positions(now);
    assert Lefts(s.toFollower) == [left] + Lefts(s.toFollower[1..]);
    assert Reported(t.toLeader) == Reported(s.toLeader) + [left];
    Associate(Reported(s.toLeader), [left], Lefts(t.toFollower));
  }

  /** Every step, from every state where the invariant holds, keeps it. */
  lemma EveryStepKeeps(s: System, step: Step)
    requires Invariant(s) && Enabled(s, step)
    ensures Invariant(Do(s, step))
  {
    match step
    case Commit(home, record) => CommitKeeps(s, home, record);
    case Send(counts) => SendKeeps(s, counts);
    case Idle => IdleKeeps(s);
    case Receive =>
      if s.toLeader[0].HeldUpTo? {
        ReceiveHeldKeeps(s);
      } else {
        ReceiveRestartKeeps(s);
      }
    case Take(applied, homes) =>
      if s.follower.restarting {
        TakeNothingKeeps(s, applied, homes);
      } else if s.toFollower[0].Round? {
        TakeRoundKeeps(s, applied, homes);
      } else {
        TakeBeatKeeps(s, applied, homes);
      }
  }

  // -------------------------------------------------------------------- every run

  /** A run: opened, and each state one enabled step after the last. */
  ghost predicate IsRun(states: seq<System>, steps: seq<Step>) {
    && |states| == |steps| + 1 && Opened(states[0])
    && forall i :: 0 <= i < |steps| ==> Enabled(states[i], steps[i]) && states[i + 1] == Do(states[i], steps[i])
  }

  lemma {:induction false} EveryRunKeeps(states: seq<System>, steps: seq<Step>, n: nat)
    requires IsRun(states, steps) && n < |states|
    ensures Invariant(states[n])
  {
    if n == 0 {
      OpeningKeeps(states[0]);
    } else {
      EveryRunKeeps(states, steps, n - 1);
      EveryStepKeeps(states[n - 1], steps[n - 1]);
    }
  }
}
