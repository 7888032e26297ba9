/** What the follower says back, when the leader may speak, and what no round can do. */
module PushedAnswers {
  import opened Layout
  import opened Lists
  import opened Stores
  import opened PushedStream
  import opened PushedRuns
  import opened PushedPromises

  // -------------------------------------------------------------- whole or restart

  /** The round was let apply whole and the follower still has the logs it had. */
  predicate Whole(holds: Asks, answers: Answers, applied: seq<nat>, homes: seq<Reach>) {
    && homes == Homes(holds) && |applied| == |answers|
    && forall i :: 0 <= i < |answers| ==> applied[i] == |answers[i]|
  }

  /** Where a cut leaves its log. */
  lemma CutLeaves(log: seq<Record>, from: nat, answer: seq<Entry>)
    requires IsCut(log, from, answer)
    ensures Past(from, answer) == from + |answer|
  {
  }

  lemma StandsAt(leader: Histories, logs: Histories, holds: Asks, answers: Answers, applied: seq<nat>, i: nat)
    requires Meets(leader, logs, holds, answers) && Withholds(answers, applied) && i < |holds|
    ensures |HistoryOf(Applied(logs, holds, answers, applied, |answers|), holds[i].home)| + 1 == holds[i].from + applied[i]
    ensures Past(holds[i].from, answers[i]) == holds[i].from + |answers[i]|
  {
    RoundMovesLog(leader, logs, holds, answers, applied, i);
    HoldingIsLevel(logs, holds);
    CutLeaves(HistoryOf(leader, holds[i].home), holds[i].from, answers[i]);
  }

  /** Every log of the round stands as far past where it was as was let apply. */
  predicate Advanced(after: Histories, holds: Asks, answers: Answers, applied: seq<nat>) {
    && |holds| == |answers| == |applied|
    && forall i :: 0 <= i < |holds| ==>
         && |HistoryOf(after, holds[i].home)| + 1 == holds[i].from + applied[i]
         && Past(holds[i].from, answers[i]) == holds[i].from + |answers[i]|
  }

  lemma WholeIsHeld(after: Histories, holds: Asks, answers: Answers, applied: seq<nat>, homes: seq<Reach>)
    requires Advanced(after, holds, answers, applied) && Whole(holds, answers, applied, homes)
    ensures Holding(after, homes) == After(holds, answers)
  {
  }

  lemma HeldIsWhole(after: Histories, holds: Asks, answers: Answers, applied: seq<nat>, homes: seq<Reach>)
    requires Advanced(after, holds, answers, applied) && Holding(after, homes) == After(holds, answers)
    ensures Whole(holds, answers, applied, homes)
  {
    var now, left := Holding(after, homes), After(holds, answers);
    forall i | 0 <= i < |homes|
      ensures homes[i] == holds[i].home && applied[i] == |answers[i]|
    {
      assert now[i] == left[i];
    }
    assert homes == Homes(holds);
  }

  lemma HoldsWholeIff(leader: Histories, logs: Histories, holds: Asks, answers: Answers, applied: seq<nat>, homes: seq<Reach>)
    requires Meets(leader, logs, holds, answers) && Withholds(answers, applied)
    ensures Holding(Applied(logs, holds, answers, applied, |answers|), homes) == After(holds, answers)
       <==> Whole(holds, answers, applied, homes)
  {
    var after := Applied(logs, holds, answers, applied, |answers|);
    forall i | 0 <= i < |holds|
      ensures |HistoryOf(after, holds[i].home)| + 1 == holds[i].from + applied[i]
      ensures Past(holds[i].from, answers[i]) == holds[i].from + |answers[i]|
    {
      StandsAt(leader, logs, holds, answers, applied, i);
    }
    if Holding(after, homes) == After(holds, answers) {
      HeldIsWhole(after, holds, answers, applied, homes);
    }
    if Whole(holds, answers, applied, homes) {
      WholeIsHeld(after, holds, answers, applied, homes);
    }
  }

  /**
   * In every run: a round taken is reported held exactly when it was let apply
   * whole and the follower's logs are the ones it had; otherwise the follower
   * asks to be streamed from where it then stands, and waits for the mark.
   */
  lemma HeldIffWhole(states: seq<System>, steps: seq<Step>, n: nat)
    requires IsRun(states, steps) && n < |steps| && steps[n].Take?
    requires states[n].toFollower[0].Round? && !states[n].follower.restarting
    ensures var s, t := states[n], states[n + 1];
            var whole := Whole(s.follower.holds, s.toFollower[0].answers, steps[n].applied, steps[n].homes);
            && t.follower.holds == Holding(t.follower.logs, steps[n].homes)
            && t.follower.restarting == !whole
            && t.toLeader == s.toLeader + [if whole then HeldUpTo(t.follower.holds) else StreamFrom(t.follower.holds)]
  {
    var s := states[n];
    EveryRunKeeps(states, steps, n);
    RoundIsHeard(s, steps[n].applied, steps[n].homes);
    RoundMeets(s);
    HoldsWholeIff(s.leader.logs, s.follower.logs, s.follower.holds, s.toFollower[0].answers, steps[n].applied, steps[n].homes);
  }

  // --------------------------------------------------------------- when to speak

  /** The leader may send whatever it has while fewer than two rounds wait to be acknowledged, and never a third. */
  lemma SendsUpToTwo(s: System, counts: seq<nat>)
    requires CanCut(s.leader.logs, s.leader.next, counts) && exists i :: 0 <= i < |counts| && counts[i] > 0
    ensures Enabled(s, Send(counts)) <==> |s.leader.unacknowledged| in {0, 1}
  {
  }

  lemma NothingInFlight(s: System)
    requires Sound(s) && Flowing(s) && s.leader.unacknowledged == []
    ensures s.toLeader == [] && Lefts(s.toFollower) == []
  {
    assert |Reported(s.toLeader) + Lefts(s.toFollower)| == 0;
  }

  lemma {:induction false} ChainOfBeats(from: Asks, frames: seq<Frame>, to: Asks)
    requires Chain(from, frames, to) && Lefts(frames) == []
    ensures from == to
    decreases |frames|
  {
    if frames == [] {
    } else {
      assert Lefts(frames) == LeftBy(frames[0]) + Lefts(frames[1..]);
      if frames[0].Beat? {
        ChainOfBeats(from, frames[1..], to);
      }
    }
  }

  /** Outside a restart a heartbeat is sent only when the follower already has, record for record, all the leader has. */
  lemma BeatsAreSentLevel(states: seq<System>, steps: seq<Step>, n: nat, i: nat)
    requires IsRun(states, steps) && n < |steps| && steps[n].Idle? && !states[n].follower.restarting
    requires i < |states[n].follower.holds|
    ensures var s := states[n];
            && s.toLeader == [] && s.follower.holds == s.leader.next
            && HistoryOf(s.follower.logs, s.follower.holds[i].home) == HistoryOf(s.leader.logs, s.follower.holds[i].home)
  {
    var s := states[n];
    EveryRunKeeps(states, steps, n);
    NothingInFlight(s);
    ChainOfBeats(s.follower.holds, s.toFollower, s.leader.next);
    HoldingIsLevel(s.follower.logs, s.follower.holds);
    LevelIsTheSame(s.follower.logs, s.leader.logs, s.follower.holds, i);
  }

  // ------------------------------------------------------- whatever a round says

  lemma {:induction false} LandingOnlyAdds(log: seq<Record>, entries: seq<Entry>)
    ensures log <= LandAll(log, entries)
    ensures |LandAll(log, entries)| <= |log| + |entries|
  {
    if entries == [] {
    } else {
      LandingOnlyAdds(log, entries[..|entries| - 1]);
    }
  }

  lemma {:induction false} AppliedOnlyAdds(logs: Histories, holds: Asks, answers: Answers, counts: seq<nat>, n: nat, home: Reach)
    requires n <= |holds| == |answers| && Withholds(answers, counts)
    ensures HistoryOf(logs, home) <= HistoryOf(Applied(logs, holds, answers, counts, n), home)
  {
    if n == 0 {
    } else {
      AppliedOnlyAdds(logs, holds, answers, counts, n - 1, home);
      OneLogOnly(logs, holds, answers, counts, n, home);
      LandingOnlyAdds(HistoryOf(Applied(logs, holds, answers, counts, n - 1), home), answers[n - 1][..counts[n - 1]]);
    }
  }

  /** No frame, whatever it says, takes a record from the follower or changes one; and only a heartbeat is called level, outside a restart. */
  lemma NoFrameTakesAway(f: Follower, frame: Frame, counts: seq<nat>, homes: seq<Reach>)
    requires frame.Round? ==> Withholds(frame.answers, counts)
    ensures var heard := Hear(f, frame, counts, homes);
            && Begins(f.logs, heard.follower.logs)
            && (heard.follower.logs != f.logs ==> frame.Round? && !f.restarting)
            && (heard.level != [] ==> frame.Beat? && !f.restarting)
  {
    if frame.Round? && |frame.answers| == |f.holds| {
      forall home
        ensures HistoryOf(f.logs, home) <= HistoryOf(Applied(f.logs, f.holds, frame.answers, counts, |frame.answers|), home)
      {
        AppliedOnlyAdds(f.logs, f.holds, frame.answers, counts, |frame.answers|, home);
      }
    }
  }

  lemma {:induction false} GapDoesNotLand(log: seq<Record>, entries: seq<Entry>, j: nat)
    requires j < |entries| && entries[j].at > |log| + j + 1
    ensures !AllLand(log, entries)
  {
    var last := |entries| - 1;
    var before := entries[..last];
    if j == last {
      LandingOnlyAdds(log, before);
    } else {
      assert before[j] == entries[j];
      GapDoesNotLand(log, before, j);
    }
  }

  lemma {:induction false} OthersAreUntouched(logs: Histories, holds: Asks, answers: Answers, counts: seq<nat>, n: nat, home: Reach)
    requires n <= |holds| == |answers| && Withholds(answers, counts) && forall i :: 0 <= i < n ==> holds[i].home != home
    ensures HistoryOf(Applied(logs, holds, answers, counts, n), home) == HistoryOf(logs, home)
  {
    if n == 0 {
    } else {
      OthersAreUntouched(logs, holds, answers, counts, n - 1, home);
      OneLogOnly(logs, holds, answers, counts, n, home);
    }
  }

  /** A round with a record past anything the records before it could have reached, or with the wrong number of answers, is refused. */
  lemma GapIsRefused(f: Follower, answers: Answers, cut: Asks, counts: seq<nat>, homes: seq<Reach>, i: nat, j: nat)
    requires Withholds(answers, counts) && !f.restarting && Distinct(Homes(f.holds))
    requires |answers| != |f.holds| ||
             (i < |answers| && j < counts[i] && answers[i][j].at > |HistoryOf(f.logs, f.holds[i].home)| + j + 1)
    ensures var heard := Hear(f, Round(answers, cut), counts, homes);
            heard.follower == f.(over := true) && heard.said == [] && heard.level == []
  {
    if |answers| == |f.holds| {
      forall k | 0 <= k < i
        ensures f.holds[k].home != f.holds[i].home
      {
        assert Homes(f.holds)[k] != Homes(f.holds)[i];
      }
      OthersAreUntouched(f.logs, f.holds, answers, counts, i, f.holds[i].home);
      assert answers[i][..counts[i]][j] == answers[i][j];
      GapDoesNotLand(HistoryOf(f.logs, f.holds[i].home), answers[i][..counts[i]], j);
      RefusedStays(f.logs, f.holds, answers, counts, i + 1, |answers|);
    }
  }
}
