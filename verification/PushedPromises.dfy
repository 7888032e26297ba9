/** What the pushed stream promises over every run. */
module PushedPromises {
  import opened Layout
  import opened Lists
  import opened Stores
  import opened PushedStream
  import opened PushedRuns

  // ------------------------------------------------------------- what is applied

  /** A round leaves each of its logs `counts[i]` records further along the leader's. */
  lemma {:induction false} ReachedIn(leader: Histories, logs: Histories, holds: Asks, counts: seq<nat>, n: nat, i: nat)
    requires Distinct(Homes(holds)) && |holds| == |counts| && i < n <= |holds|
    requires holds[i].from >= 1 && holds[i].from - 1 + counts[i] <= |HistoryOf(leader, holds[i].home)|
    ensures Reached(leader, logs, holds, counts, n, holds[i].home)
            == HistoryOf(leader, holds[i].home)[..holds[i].from - 1 + counts[i]]
  {
    if i == n - 1 {
    } else {
      assert Homes(holds)[i] != Homes(holds)[n - 1];
      ReachedIn(leader, logs, holds, counts, n - 1, i);
      NextReached(leader, logs, holds, counts, n, holds[i].home);
    }
  }

  lemma ReachedAt(leader: Histories, logs: Histories, holds: Asks, answers: Answers, counts: seq<nat>, i: nat)
    requires Meets(leader, logs, holds, answers) && Withholds(answers, counts) && i < |holds|
    ensures holds[i].from - 1 + counts[i] <= |HistoryOf(leader, holds[i].home)|
    ensures Reached(leader, logs, holds, counts, |answers|, holds[i].home)
            == HistoryOf(leader, holds[i].home)[..holds[i].from - 1 + counts[i]]
  {
    assert IsCut(HistoryOf(leader, holds[i].home), holds[i].from, answers[i]);
    ReachedIn(leader, logs, holds, counts, |answers|, i);
  }

  /** The follower's logs move along the leader's, each by its count, and no other log changes. */
  ghost predicate MovesAlong(leader: Histories, before: Histories, after: Histories, homes: seq<Reach>, counts: seq<nat>) {
    && |counts| == |homes|
    && (forall i :: 0 <= i < |homes| ==> MovesBy(HistoryOf(leader, homes[i]), HistoryOf(before, homes[i]),
                                                HistoryOf(after, homes[i]), counts[i]))
    && (forall home :: home !in homes ==> HistoryOf(after, home) == HistoryOf(before, home))
  }

  predicate MovesBy(leader: seq<Record>, before: seq<Record>, after: seq<Record>, count: nat) {
    |before| + count <= |leader| && after == leader[..|before| + count]
  }

  lemma RoundMovesLog(leader: Histories, logs: Histories, holds: Asks, answers: Answers, counts: seq<nat>, i: nat)
    requires Meets(leader, logs, holds, answers) && Withholds(answers, counts) && i < |holds|
    ensures var home, now := Homes(holds)[i], Applied(logs, holds, answers, counts, |answers|);
            MovesBy(HistoryOf(leader, home), HistoryOf(logs, home), HistoryOf(now, home), counts[i])
  {
    RoundFits(leader, logs, holds, answers, counts);
    LandsAt(leader, logs, holds, answers, counts, |answers|, holds[i].home);
    ReachedAt(leader, logs, holds, answers, counts, i);
  }

  lemma RoundMovesNoOther(leader: Histories, logs: Histories, holds: Asks, answers: Answers, counts: seq<nat>, home: Reach)
    requires Meets(leader, logs, holds, answers) && Withholds(answers, counts) && home !in Homes(holds)
    ensures HistoryOf(Applied(logs, holds, answers, counts, |answers|), home) == HistoryOf(logs, home)
  {
    forall i | 0 <= i < |holds|
      ensures holds[i].home != home
    {
      assert Homes(holds)[i] in Homes(holds);
    }
    RoundFits(leader, logs, holds, answers, counts);
    LandsAt(leader, logs, holds, answers, counts, |answers|, home);
    NotYetReached(leader, logs, holds, counts, |answers|, home);
  }

  lemma RoundMovesAlong(leader: Histories, logs: Histories, holds: Asks, answers: Answers, counts: seq<nat>)
    requires Meets(leader, logs, holds, answers) && Withholds(answers, counts)
    ensures MovesAlong(leader, logs, Applied(logs, holds, answers, counts, |answers|), Homes(holds), counts)
  {
    var homes, now := Homes(holds), Applied(logs, holds, answers, counts, |answers|);
    forall i | 0 <= i < |homes|
      ensures MovesBy(HistoryOf(leader, homes[i]), HistoryOf(logs, homes[i]), HistoryOf(now, homes[i]), counts[i])
    {
      RoundMovesLog(leader, logs, holds, answers, counts, i);
    }
    forall home | home !in homes
      ensures HistoryOf(now, home) == HistoryOf(logs, home)
    {
      RoundMovesNoOther(leader, logs, holds, answers, counts, home);
    }
  }

  /**
   * Every round applied was cut from exactly the positions the follower then
   * holds, whatever was in flight, and moves each log along the leader's by
   * what the writer order let through, and no other log at all.
   */
  lemma RoundsApplyWhereTheyWereCut(states: seq<System>, steps: seq<Step>, n: nat)
    requires IsRun(states, steps) && n < |steps| && steps[n].Take?
    requires states[n].toFollower[0].Round? && !states[n].follower.restarting
    ensures var s, t := states[n], states[n + 1];
            && s.toFollower[0].cut == s.follower.holds
            && s.follower.holds == Holding(s.follower.logs, Homes(s.follower.holds))
            && WellCut(s.leader.logs, s.toFollower[0].answers, s.follower.holds)
            && MovesAlong(s.leader.logs, s.follower.logs, t.follower.logs, Homes(s.follower.holds), steps[n].applied)
            && !t.follower.over
  {
    EveryRunKeeps(states, steps, n);
    EveryRunKeeps(states, steps, n + 1);
    RoundIsHeard(states[n], steps[n].applied, steps[n].homes);
    RoundMeets(states[n]);
    RoundMovesAlong(states[n].leader.logs, states[n].follower.logs, states[n].follower.holds,
                    states[n].toFollower[0].answers, steps[n].applied);
  }

  lemma BeginsItself(logs: Histories)
    ensures Begins(logs, logs)
  {
  }

  lemma StepOnlyAdds(s: System, step: Step)
    requires Invariant(s) && Enabled(s, step)
    ensures Begins(s.follower.logs, Do(s, step).follower.logs)
    ensures Begins(s.leader.logs, Do(s, step).leader.logs)
  {
    BeginsItself(s.follower.logs);
    BeginsItself(s.leader.logs);
    if step.Take? && !s.follower.restarting && s.toFollower[0].Round? {
      RoundIsHeard(s, step.applied, step.homes);
    }
  }

  lemma {:induction false} LogsOnlyGrow(states: seq<System>, steps: seq<Step>, n: nat, m: nat)
    requires IsRun(states, steps) && n <= m < |states|
    ensures Begins(states[n].follower.logs, states[m].follower.logs)
    ensures Begins(states[n].leader.logs, states[m].leader.logs)
  {
    if n < m {
      LogsOnlyGrow(states, steps, n, m - 1);
      EveryRunKeeps(states, steps, m - 1);
      GrowsOn(states[n], states[m - 1], steps[m - 1]);
    } else {
      BeginsItself(states[n].follower.logs);
      BeginsItself(states[n].leader.logs);
    }
  }

  lemma GrowsOn(first: System, s: System, step: Step)
    requires Invariant(s) && Enabled(s, step)
    requires Begins(first.follower.logs, s.follower.logs) && Begins(first.leader.logs, s.leader.logs)
    ensures Begins(first.follower.logs, Do(s, step).follower.logs)
    ensures Begins(first.leader.logs, Do(s, step).leader.logs)
  {
    var t := Do(s, step);
    StepOnlyAdds(s, step);
    BeginsThrough(first.follower.logs, s.follower.logs, t.follower.logs);
    BeginsThrough(first.leader.logs, s.leader.logs, t.leader.logs);
  }

  /** The follower's logs only ever grow, stay beginnings of the leader's, and no round is refused. */
  lemma FollowerIsAPrefix(states: seq<System>, steps: seq<Step>, n: nat, m: nat)
    requires IsRun(states, steps) && n <= m < |states|
    ensures Begins(states[n].follower.logs, states[m].follower.logs)
    ensures Begins(states[m].follower.logs, states[m].leader.logs)
    ensures !states[m].follower.over
  {
    LogsOnlyGrow(states, steps, n, m);
    EveryRunKeeps(states, steps, m);
  }

  /** No report, in flight or being counted, names a position past what is applied. */
  lemma ReportsAreNotAhead(states: seq<System>, steps: seq<Step>, n: nat, i: nat)
    requires IsRun(states, steps) && n < |states| && i < |states[n].toLeader|
    ensures NotAhead(states[n].follower.logs, states[n].toLeader[i].holds)
    ensures NotAhead(states[n].leader.logs, states[n].toLeader[i].holds)
  {
    EveryRunKeeps(states, steps, n);
    GrowthKeepsPlace(states[n].follower.logs, states[n].leader.logs, states[n].toLeader[i].holds);
  }

  /** Outside a restart, rounds in flight and reports in flight are what the leader waits for: two at most. */
  lemma TwoUnacknowledged(states: seq<System>, steps: seq<Step>, n: nat)
    requires IsRun(states, steps) && n < |states| && !states[n].follower.restarting
    ensures |states[n].leader.unacknowledged| == |states[n].toLeader| + |Lefts(states[n].toFollower)| <= 2
    ensures Chain(states[n].follower.holds, states[n].toFollower, states[n].leader.next)
  {
    EveryRunKeeps(states, steps, n);
  }

  // ------------------------------------------------------------------ heartbeats

  /** What a heartbeat on its way says the leader held, the leader did hold when it sent it. */
  lemma {:induction false} SeenWasHeld(states: seq<System>, steps: seq<Step>, n: nat, i: nat) returns (m: nat)
    requires IsRun(states, steps) && n < |states| && i < |states[n].toFollower| && states[n].toFollower[i].Beat?
    ensures m < n && steps[m].Idle? && states[m].leader.logs == states[n].toFollower[i].seen
    ensures states[m].leader.next == states[n].toFollower[i].cut
  {
    assert n > 0;
    var s, t, step := states[n - 1], states[n], steps[n - 1];
    assert t == Do(s, step);
    if step.Take? {
      assert t.toFollower == s.toFollower[1..];
      m := SeenWasHeld(states, steps, n - 1, i + 1);
    } else if i < |s.toFollower| {
      assert t.toFollower[i] == s.toFollower[i];
      m := SeenWasHeld(states, steps, n - 1, i);
    } else {
      m := n - 1;
    }
  }

  lemma LevelIsTheSame(logs: Histories, leader: Histories, holds: Asks, i: nat)
    requires Level(logs, holds) && Level(leader, holds) && i < |holds|
    requires HistoryOf(logs, holds[i].home) <= HistoryOf(leader, holds[i].home)
          || HistoryOf(leader, holds[i].home) <= HistoryOf(logs, holds[i].home)
    ensures HistoryOf(logs, holds[i].home) == HistoryOf(leader, holds[i].home)
  {
    assert |HistoryOf(logs, holds[i].home)| == |HistoryOf(leader, holds[i].home)|;
  }

  lemma HoldingIsLevel(logs: Histories, holds: Asks)
    requires holds == Holding(logs, Homes(holds))
    ensures Level(logs, holds)
  {
    forall i | 0 <= i < |holds| ensures holds[i].from == |HistoryOf(logs, holds[i].home)| + 1 {
      assert holds[i] == Ask(Homes(holds)[i], |HistoryOf(logs, Homes(holds)[i])| + 1);
    }
  }

  /** Two beginnings of one log: the shorter begins the longer. */
  lemma OneBeginsTheOther(a: seq<Record>, b: seq<Record>, whole: seq<Record>)
    requires a <= whole && b <= whole
    ensures a <= b || b <= a
  {
    assert a == whole[..|a|] && b == whole[..|b|];
  }

  lemma BeatFindsLevel(s: System, i: nat)
    requires Sound(s) && Flowing(s) && s.toFollower != [] && s.toFollower[0].Beat? && i < |s.follower.holds|
    ensures HistoryOf(s.follower.logs, s.follower.holds[i].home)
            == HistoryOf(s.toFollower[0].seen, s.follower.holds[i].home)
  {
    var seen, holds := s.toFollower[0].seen, s.follower.holds;
    assert Truthful(s.leader.logs, s.toFollower[0]);
    assert holds == s.toFollower[0].cut;
    HoldingIsLevel(s.follower.logs, holds);
    OneBeginsTheOther(HistoryOf(s.follower.logs, holds[i].home), HistoryOf(seen, holds[i].home),
                      HistoryOf(s.leader.logs, holds[i].home));
    LevelIsTheSame(s.follower.logs, seen, holds, i);
  }

  /**
   * A heartbeat taken as level really meant level: every log the follower holds
   * is, record for record, what the leader held of it when it sent the beat, and
   * the position called level is that log's length.
   */
  lemma BeatMeansLevel(states: seq<System>, steps: seq<Step>, n: nat) returns (m: nat)
    requires IsRun(states, steps) && n < |steps| && steps[n].Take?
    requires states[n].toFollower[0].Beat? && !states[n].follower.restarting
    ensures m < n && steps[m].Idle?
    ensures forall i :: 0 <= i < |states[n].follower.holds| ==>
              HistoryOf(states[n].follower.logs, states[n].follower.holds[i].home)
              == HistoryOf(states[m].leader.logs, states[n].follower.holds[i].home)
    ensures var f := states[n].follower;
            Hear(f, states[n].toFollower[0], steps[n].applied, steps[n].homes).level
            == if f.holds == [] then [] else [|HistoryOf(states[m].leader.logs, f.holds[0].home)|]
  {
    EveryRunKeeps(states, steps, n);
    m := SeenWasHeld(states, steps, n, 0);
    var f := states[n].follower;
    forall i | 0 <= i < |f.holds|
      ensures HistoryOf(f.logs, f.holds[i].home) == HistoryOf(states[m].leader.logs, f.holds[i].home)
    {
      BeatFindsLevel(states[n], i);
    }
    HoldingIsLevel(f.logs, f.holds);
  }
}
