/**
 * How the pushed stream catches up: while the leader commits nothing, every way
 * of sending, receiving and applying comes to rest, and at rest the follower
 * holds what the leader does.
 */
module PushedProgress {
  import opened Layout
  import opened Lists
  import opened Stores
  import opened PushedStream
  import opened PushedRuns
  import opened PushedPromises

  function Whole(answers: Answers): (r: seq<nat>)
    ensures Withholds(answers, r) && forall i :: 0 <= i < |r| ==> r[i] == |answers[i]|
  {
    seq(|answers|, i requires 0 <= i < |answers| => |answers[i]|)
  }

  /** How much of each log the leader has not sent. */
  function Unsent(logs: Histories, next: Asks): (r: seq<nat>)
    requires NotAhead(logs, next)
    ensures CanCut(logs, next, r)
    ensures forall i :: 0 <= i < |r| ==> next[i].from - 1 + r[i] == |HistoryOf(logs, next[i].home)|
  {
    seq(|next|, i requires 0 <= i < |next| => |HistoryOf(logs, next[i].home)| + 1 - next[i].from)
  }

  /** A round that applies whole leaves the follower where the round does. */
  lemma WholeIsInStep(leader: Histories, logs: Histories, holds: Asks, answers: Answers)
    requires Meets(leader, logs, holds, answers)
    ensures Holding(Applied(logs, holds, answers, Whole(answers), |answers|), Homes(holds)) == After(holds, answers)
  {
    var counts := Whole(answers);
    RoundFits(leader, logs, holds, answers, counts);
    var now := Applied(logs, holds, answers, counts, |answers|);
    forall i | 0 <= i < |holds|
      ensures Holding(now, Homes(holds))[i] == After(holds, answers)[i]
    {
      LandsAt(leader, logs, holds, answers, counts, |answers|, holds[i].home);
      ReachedAt(leader, logs, holds, answers, counts, i);
      assert IsCut(HistoryOf(leader, holds[i].home), holds[i].from, answers[i]);
    }
  }

  // ------------------------------------------------------------------- the measure

  /** A restart the leader has yet to read. */
  function Restarts(s: System): nat {
    if s.follower.restarting && s.toLeader != [] then 1 else 0
  }

  /** How many records of the first `n` logs are past the leader's cursors. */
  function Remaining(logs: Histories, next: Asks, n: nat): nat
    requires NotAhead(logs, next) && n <= |next|
  {
    if n == 0 then 0 else Remaining(logs, next, n - 1) + |HistoryOf(logs, next[n - 1].home)| + 1 - next[n - 1].from
  }

  function Total(counts: seq<nat>, n: nat): nat
    requires n <= |counts|
  {
    if n == 0 then 0 else Total(counts, n - 1) + counts[n - 1]
  }

  function InFlight(s: System): nat {
    2 * |s.toFollower| + |s.toLeader|
  }

  predicate Placed(s: System) {
    NotAhead(s.leader.logs, s.leader.next)
  }

  function Left(s: System): nat
    requires Placed(s)
  {
    Remaining(s.leader.logs, s.leader.next, |s.leader.next|)
  }

  /** Fewer restarts to read, or as many and less to send, or as much and less in flight. */
  predicate Nearer(t: System, s: System)
    requires Placed(t) && Placed(s)
  {
    || Restarts(t) < Restarts(s)
    || (Restarts(t) == Restarts(s) && Left(t) < Left(s))
    || (Restarts(t) == Restarts(s) && Left(t) == Left(s) && InFlight(t) < InFlight(s))
  }

  /** Both links empty, and nothing left to send. */
  predicate AtRest(s: System) {
    s.toFollower == [] && s.toLeader == [] && Level(s.leader.logs, s.leader.next)
  }

  /** A send, a receipt, or a take that holds nothing back and keeps the set of logs. */
  predicate Progresses(s: System, step: Step) {
    && Enabled(s, step)
    && match step
       case Commit(_, _) => false
       case Idle => false
       case Send(_) => true
       case Receive => true
       case Take(applied, homes) =>
         && homes == Homes(s.follower.holds)
         && (s.toFollower[0].Round? && !s.follower.restarting ==> applied == Whole(s.toFollower[0].answers))
  }

  // ------------------------------------------------------------------- every step

  /** Where sending leaves each cursor. */
  lemma SentCursor(logs: Histories, next: Asks, counts: seq<nat>, i: nat)
    requires CanCut(logs, next, counts) && i < |next|
    ensures After(next, CutRound(logs, next, counts))[i] == Ask(next[i].home, next[i].from + counts[i])
  {
    assert CutRound(logs, next, counts)[i] == CutLog(HistoryOf(logs, next[i].home), next[i].from, counts[i]);
  }

  lemma {:induction false} MovedLeaves(logs: Histories, next: Asks, later: Asks, counts: seq<nat>, n: nat)
    requires NotAhead(logs, next) && NotAhead(logs, later) && n <= |next| == |later| == |counts|
    requires forall i :: 0 <= i < |next| ==> later[i] == Ask(next[i].home, next[i].from + counts[i])
    ensures Remaining(logs, later, n) + Total(counts, n) == Remaining(logs, next, n)
  {
    if n == 0 {
    } else {
      MovedLeaves(logs, next, later, counts, n - 1);
    }
  }

  lemma {:induction false} TotalCovers(counts: seq<nat>, n: nat, i: nat)
    requires i < n <= |counts|
    ensures Total(counts, n) >= counts[i]
  {
    if i == n - 1 {
    } else {
      TotalCovers(counts, n - 1, i);
    }
  }

  /** What one step of progress comes to. */
  ghost predicate Advances(s: System, t: System) {
    && Placed(s) && Placed(t) && Nearer(t, s)
    && t.leader.logs == s.leader.logs && Homes(t.follower.holds) == Homes(s.follower.holds)
  }

  lemma SendAdvances(s: System, counts: seq<nat>)
    requires Invariant(s) && Enabled(s, Send(counts))
    ensures Advances(s, Do(s, Send(counts)))
  {
    var next, logs := s.leader.next, s.leader.logs;
    SendRises(logs, next, counts);
    var later := After(next, CutRound(logs, next, counts));
    forall i | 0 <= i < |next|
      ensures later[i] == Ask(next[i].home, next[i].from + counts[i])
    {
      SentCursor(logs, next, counts, i);
    }
    MovedLeaves(logs, next, later, counts, |next|);
    var i :| 0 <= i < |counts| && counts[i] > 0;
    TotalCovers(counts, |next|, i);
  }

  lemma ReceiveAdvances(s: System)
    requires Invariant(s) && s.toLeader != []
    ensures Advances(s, Do(s, Receive))
  {
    EveryStepKeeps(s, Receive);
    if s.toLeader[0].StreamFrom? {
      AskedIsRead(s);
    } else if s.follower.restarting {
      assert Asked(s);
    }
  }

  lemma DropAdvances(s: System, applied: seq<nat>, homes: seq<Reach>)
    requires Invariant(s) && Enabled(s, Take(applied, homes)) && s.follower.restarting
    ensures Advances(s, Do(s, Take(applied, homes)))
  {
    RestartingDrops(s, applied, homes);
  }

  lemma WholeRoundIsHeard(s: System)
    requires Invariant(s) && s.toFollower != [] && !s.follower.restarting && s.toFollower[0].Round?
    ensures |s.toFollower[0].answers| == |s.follower.holds|
    ensures var f, answers := s.follower, s.toFollower[0].answers;
            var whole, left := Whole(answers), After(f.holds, answers);
            var logs := Applied(f.logs, f.holds, answers, whole, |answers|);
            Hear(f, s.toFollower[0], whole, Homes(f.holds)) == Heard(f.(logs := logs, holds := left), [HeldUpTo(left)], [])
  {
    var f, answers := s.follower, s.toFollower[0].answers;
    RoundIsHeard(s, Whole(answers), Homes(f.holds));
    RoundMeets(s);
    WholeIsInStep(s.leader.logs, f.logs, f.holds, answers);
  }

  lemma ApplyAdvances(s: System)
    requires Invariant(s) && s.toFollower != [] && !s.follower.restarting && s.toFollower[0].Round?
    requires Enabled(s, Take(Whole(s.toFollower[0].answers), Homes(s.follower.holds)))
    ensures Advances(s, Do(s, Take(Whole(s.toFollower[0].answers), Homes(s.follower.holds))))
  {
    WholeRoundIsHeard(s);
    var t := Do(s, Take(Whole(s.toFollower[0].answers), Homes(s.follower.holds)));
    assert Homes(After(s.follower.holds, s.toFollower[0].answers)) == Homes(s.follower.holds);
    assert t.leader == s.leader && InFlight(t) < InFlight(s);
  }

  lemma BeatAdvances(s: System, applied: seq<nat>, homes: seq<Reach>)
    requires Invariant(s) && Enabled(s, Take(applied, homes)) && !s.follower.restarting && !s.toFollower[0].Round?
    ensures Advances(s, Do(s, Take(applied, homes)))
  {
    assert Flowing(s);
    assert s.toLeader + [] == s.toLeader;
    assert Do(s, Take(applied, homes)) == s.(toFollower := s.toFollower[1..]);
  }

  /** Every step of progress, from every state the invariant allows, brings the end nearer. */
  lemma ProgressAdvances(s: System, step: Step)
    requires Invariant(s) && Progresses(s, step)
    ensures Advances(s, Do(s, step))
  {
    match step
    case Send(counts) => SendAdvances(s, counts);
    case Receive => ReceiveAdvances(s);
    case Take(applied, homes) =>
      if s.follower.restarting {
        DropAdvances(s, applied, homes);
      } else if s.toFollower[0].Round? {
        ApplyAdvances(s);
      } else {
        BeatAdvances(s, applied, homes);
      }
  }

  /** Nothing the two ends can be in is a dead end: short of rest, some step of progress can be taken. */
  lemma ThereIsAWayOn(s: System) returns (step: Step)
    requires Invariant(s) && !AtRest(s)
    ensures Progresses(s, step)
  {
    if s.toFollower != [] {
      step := Take(if s.toFollower[0].Round? then Whole(s.toFollower[0].answers) else [], Homes(s.follower.holds));
    } else if s.toLeader != [] {
      step := Receive;
    } else {
      var next, logs := s.leader.next, s.leader.logs;
      step := Send(Unsent(logs, next));
      assert Flowing(s);
      assert Reported(s.toLeader) + Lefts(s.toFollower) == [];
      var i :| 0 <= i < |next| && next[i].from != |HistoryOf(logs, next[i].home)| + 1;
      assert Unsent(logs, next)[i] > 0;
    }
  }

  /** At rest the follower holds exactly what the leader does of every log it holds. */
  lemma RestIsLevel(s: System, i: nat)
    requires Invariant(s) && AtRest(s) && i < |s.follower.holds|
    ensures HistoryOf(s.follower.logs, s.follower.holds[i].home) == HistoryOf(s.leader.logs, s.follower.holds[i].home)
  {
    assert Flowing(s);
    assert s.follower.holds == s.leader.next;
    HoldingIsLevel(s.follower.logs, s.follower.holds);
    LevelIsTheSame(s.follower.logs, s.leader.logs, s.follower.holds, i);
  }

  // ----------------------------------------------------------------- every schedule

  /** The state after `n` steps of a schedule, which stops at rest. */
  ghost function Scheduled(s: System, schedule: nat -> Step, n: nat): System {
    if n == 0 then s
    else
      var before := Scheduled(s, schedule, n - 1);
      if AtRest(before) || !Enabled(before, schedule(n - 1)) then before else Do(before, schedule(n - 1))
  }

  /** Short of rest, the schedule takes a step of progress; which one is up to it. */
  ghost predicate Works(s: System, schedule: nat -> Step) {
    forall n: nat :: AtRest(Scheduled(s, schedule, n)) || Progresses(Scheduled(s, schedule, n), schedule(n))
  }

  /** At rest with the same logs to hold, and nothing new on the leader. */
  ghost predicate Settled(s: System, t: System) {
    && Invariant(t) && AtRest(t)
    && t.leader.logs == s.leader.logs && Homes(t.follower.holds) == Homes(s.follower.holds)
  }

  lemma {:induction false} ScheduleSettles(s: System, schedule: nat -> Step, k: nat) returns (n: nat)
    requires Works(s, schedule) && Invariant(Scheduled(s, schedule, k))
    requires Scheduled(s, schedule, k).leader.logs == s.leader.logs
    requires Homes(Scheduled(s, schedule, k).follower.holds) == Homes(s.follower.holds)
    ensures Settled(s, Scheduled(s, schedule, n))
    decreases Restarts(Scheduled(s, schedule, k)), Left(Scheduled(s, schedule, k)), InFlight(Scheduled(s, schedule, k))
  {
    var now := Scheduled(s, schedule, k);
    if AtRest(now) {
      n := k;
    } else {
      var next := Scheduled(s, schedule, k + 1);
      assert Progresses(now, schedule(k));
      assert next == Do(now, schedule(k));
      ProgressAdvances(now, schedule(k));
      EveryStepKeeps(now, schedule(k));
      n := ScheduleSettles(s, schedule, k + 1);
    }
  }

  /**
   * From every state of a run, mid-restart or not, every schedule of sends,
   * receipts and whole takes, in whatever order it puts them, comes to rest in
   * finitely many steps, with the follower holding exactly the leader's logs.
   */
  lemma CatchesUp(states: seq<System>, run: seq<Step>, k: nat, schedule: nat -> Step) returns (n: nat)
    requires IsRun(states, run) && k < |states| && Works(states[k], schedule)
    ensures var s, t := states[k], Scheduled(states[k], schedule, n);
            && AtRest(t) && Homes(t.follower.holds) == Homes(s.follower.holds)
            && t.leader.logs == s.leader.logs
            && forall i :: 0 <= i < |t.follower.holds| ==>
                 HistoryOf(t.follower.logs, t.follower.holds[i].home) == HistoryOf(s.leader.logs, t.follower.holds[i].home)
  {
    EveryRunKeeps(states, run, k);
    n := ScheduleSettles(states[k], schedule, 0);
    var t := Scheduled(states[k], schedule, n);
    forall i | 0 <= i < |t.follower.holds|
      ensures HistoryOf(t.follower.logs, t.follower.holds[i].home) == HistoryOf(t.leader.logs, t.follower.holds[i].home)
    {
      RestIsLevel(t, i);
    }
  }
}
