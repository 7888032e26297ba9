/** Several runs folded into one spread each, and two baselines compared. */
module Comparisons {
  import opened Wrappers
  import opened Bytes
  import opened Lists
  import opened Baselines

  // --------------------------------------------------------------------- folding

  /** One phase of one run, in nanoseconds; a noted one carries no timings to compare. */
  datatype Timing = Timing(phase: string, p50: nat, p99: nat, noted: bool)

  function Nanos(taken: nat): nat {
    if taken < U64_SPAN then taken else U64_SPAN - 1
  }

  function Flatten(runs: seq<seq<Timing>>): seq<Timing> {
    if runs == [] then [] else Flatten(runs[..|runs| - 1]) + runs[|runs| - 1]
  }

  function Mention(t: Timing): Option<string> {
    if t.noted then None else Some(t.phase)
  }

  function Mentions(timings: seq<Timing>): (r: seq<Option<string>>)
    ensures |r| == |timings| && forall i :: 0 <= i < |r| ==> r[i] == Mention(timings[i])
  {
    seq(|timings|, i requires 0 <= i < |timings| => Mention(timings[i]))
  }

  datatype Percentile = P50 | P99

  function Pick(t: Timing, which: Percentile): nat {
    Nanos(if which.P50? then t.p50 else t.p99)
  }

  /** What the runs measured of one phase. */
  function Measured(timings: seq<Timing>, phase: string, which: Percentile): seq<nat> {
    if timings == [] then []
    else
      var before, last := Measured(timings[..|timings| - 1], phase, which), timings[|timings| - 1];
      if !last.noted && last.phase == phase then before + [Pick(last, which)] else before
  }

  /** Lowest first. */
  function SortUp(s: seq<nat>): (r: seq<nat>)
    ensures |r| == |SortDown(s)| && forall i :: 0 <= i < |r| ==> r[i] == SortDown(s)[|r| - 1 - i]
  {
    var down := SortDown(s);
    seq(|down|, i requires 0 <= i < |down| => down[|down| - 1 - i])
  }

  /** The lower of the middle values, with the least and the greatest. */
  function SpreadOf(values: seq<nat>): Spread {
    var sorted := SortUp(values);
    if sorted == [] then Spread(0, 0, 0)
    else Spread(sorted[(|sorted| - 1) / 2], sorted[0], sorted[|sorted| - 1])
  }

  lemma SortUpSorts(s: seq<nat>)
    ensures |SortUp(s)| == |s|
    ensures forall i, j :: 0 <= i < j < |s| ==> SortUp(s)[i] <= SortUp(s)[j]
    ensures forall x :: x in SortUp(s) <==> x in s
  {
    var down, up := SortDown(s), SortUp(s);
    SortDownSorts(s);
    assert |multiset(down)| == |down| && |multiset(s)| == |s|;
    forall x ensures x in up <==> x in s {
      assert x in s <==> x in multiset(s);
      assert x in down <==> x in multiset(down);
      if x in up {
        var i :| 0 <= i < |up| && up[i] == x;
        assert down[|up| - 1 - i] == x;
      }
      if x in down {
        var i :| 0 <= i < |down| && down[i] == x;
        assert up[|up| - 1 - i] == x;
      }
    }
  }

  /** The median is one of the values, and the range holds them all and reaches no further. */
  lemma SpreadIsTheRange(values: seq<nat>)
    requires values != []
    ensures var s := SpreadOf(values);
            && s.median in values && s.low in values && s.high in values
            && s.low <= s.median <= s.high
            && forall i :: 0 <= i < |values| ==> s.low <= values[i] <= s.high
  {
    var sorted := SortUp(values);
    SortUpSorts(values);
    assert sorted[0] in sorted && sorted[|sorted| - 1] in sorted && sorted[(|sorted| - 1) / 2] in sorted;
    forall i | 0 <= i < |values| ensures sorted[0] <= values[i] <= sorted[|sorted| - 1] {
      assert values[i] in values;
      assert values[i] in sorted;
      var k :| 0 <= k < |sorted| && sorted[k] == values[i];
    }
  }

  function FoldedPhase(workload: string, timings: seq<Timing>, phase: string): Phase {
    Phase(workload, phase, SpreadOf(Measured(timings, phase, P50)), SpreadOf(Measured(timings, phase, P99)))
  }

  function FoldedPhases(workload: string, timings: seq<Timing>, names: seq<string>): (r: seq<Phase>)
    ensures |r| == |names| && forall i :: 0 <= i < |r| ==> r[i] == FoldedPhase(workload, timings, names[i])
  {
    seq(|names|, i requires 0 <= i < |names| => FoldedPhase(workload, timings, names[i]))
  }

  /** Folds the runs of a workload: a spread for every phase they time. */
  method Folded(workload: string, runs: seq<seq<Timing>>) returns (phases: seq<Phase>)
    ensures phases == FoldedPhases(workload, Flatten(runs), FirstMentions(Mentions(Flatten(runs))))
  {
    var timings := Flatten(runs);
    var names := [];
    var i := 0;
    while i < |timings|
      invariant i <= |timings|
      invariant names == FirstMentions(Mentions(timings)[..i])
    {
      assert Mentions(timings)[..i + 1][..i] == Mentions(timings)[..i];
      if !timings[i].noted && timings[i].phase !in names {
        names := names + [timings[i].phase];
      }
      i := i + 1;
    }
    assert Mentions(timings)[..i] == Mentions(timings);
    phases := FoldedPhases(workload, timings, names);
  }

  lemma {:induction false} MeasuredIsThere(timings: seq<Timing>, i: nat, which: Percentile)
    requires i < |timings| && !timings[i].noted
    ensures Pick(timings[i], which) in Measured(timings, timings[i].phase, which)
  {
    if i == |timings| - 1 {
    } else {
      MeasuredIsThere(timings[..|timings| - 1], i, which);
    }
  }

  // ------------------------------------------------------------------- comparing

  datatype Breach = Breach(workload: string, phase: string, which: Percentile, was: nat, now: nat)

  datatype Unchecked = OtherConditions | NotMeasured(workload: string, phase: string) | NotInBaseline(workload: string, phase: string)

  datatype Comparison = Comparison(breaches: seq<Breach>, unchecked: seq<Unchecked>, compared: nat)

  /** A run is in breach when the limit, the slowest recorded run and the timer floor are all exceeded; sums and products saturate. */
  predicate Breached(before: Spread, now: nat, percent: nat, floor: nat) {
    var share := if percent + 100 < U64_SPAN then percent + 100 else U64_SPAN - 1;
    && now > before.median * share / 100
    && now > before.high
    && (if now < before.median then 0 else now - before.median) >= floor
  }

  predicate SameKey(a: Phase, b: Phase) {
    a.workload == b.workload && a.phase == b.phase
  }

  predicate Known(phases: seq<Phase>, p: Phase) {
    exists i :: 0 <= i < |phases| && SameKey(phases[i], p)
  }

  /** The first phase of that name. */
  function Find(phases: seq<Phase>, p: Phase): (r: Option<Phase>)
    ensures r.Some? <==> Known(phases, p)
    ensures r.Some? ==> r.value in phases && SameKey(r.value, p)
  {
    if phases == [] then None else if SameKey(phases[0], p) then Some(phases[0])
    else
      var rest := Find(phases[1..], p);
      assert Known(phases[1..], p) ==> Known(phases, p) by {
        if i :| 0 <= i < |phases| - 1 && SameKey(phases[1..][i], p) {
          assert SameKey(phases[i + 1], p);
        }
      }
      assert Known(phases, p) ==> Known(phases[1..], p) by {
        if i :| 0 <= i < |phases| && SameKey(phases[i], p) {
          assert SameKey(phases[1..][i - 1], p);
        }
      }
      rest
  }

  function BreachIn(limits: Thresholds, was: Phase, current: Phase, which: Percentile): seq<Breach> {
    var before, after := if which.P50? then was.p50 else was.p99, if which.P50? then current.p50 else current.p99;
    var percent := if which.P50? then limits.p50 else limits.p99;
    if Breached(before, after.low, percent, limits.floor)
    then [Breach(was.workload, was.phase, which, before.median, after.low)] else []
  }

  /** One phase of the baseline looked for in what was measured. */
  function Checked(found: Comparison, limits: Thresholds, was: Phase, measured: seq<Phase>): Comparison {
    match Find(measured, was)
    case None => found.(unchecked := found.unchecked + [NotMeasured(was.workload, was.phase)])
    case Some(current) =>
      found.(compared := found.compared + 1,
             breaches := found.breaches + BreachIn(limits, was, current, P50) + BreachIn(limits, was, current, P99))
  }

  function CheckedAll(limits: Thresholds, phases: seq<Phase>, measured: seq<Phase>): Comparison {
    if phases == [] then Comparison([], [], 0)
    else Checked(CheckedAll(limits, phases[..|phases| - 1], measured), limits, phases[|phases| - 1], measured)
  }

  function Unknown(phases: seq<Phase>, known: seq<Phase>): seq<Unchecked> {
    if phases == [] then []
    else
      var before, last := Unknown(phases[..|phases| - 1], known), phases[|phases| - 1];
      if Known(known, last) then before else before + [NotInBaseline(last.workload, last.phase)]
  }

  function Compared(baseline: Baseline, now: Baseline): Comparison {
    if baseline.conditions != now.conditions then Comparison([], [OtherConditions], 0)
    else
      var found := CheckedAll(baseline.thresholds, baseline.phases, now.phases);
      found.(unchecked := found.unchecked + Unknown(now.phases, baseline.phases))
  }

  /** What measuring again shows, judged by the limits the baseline carries. */
  method Compare(baseline: Baseline, now: Baseline) returns (found: Comparison)
    ensures found == Compared(baseline, now)
  {
    found := Comparison([], [], 0);
    if baseline.conditions != now.conditions {
      return Comparison([], [OtherConditions], 0);
    }
    var limits := baseline.thresholds;
    var i := 0;
    while i < |baseline.phases|
      invariant i <= |baseline.phases| && found == CheckedAll(limits, baseline.phases[..i], now.phases)
    {
      assert baseline.phases[..i + 1][..i] == baseline.phases[..i];
      found := Checked(found, limits, baseline.phases[i], now.phases);
      i := i + 1;
    }
    assert baseline.phases[..i] == baseline.phases;
    ghost var checked := found;
    i := 0;
    while i < |now.phases|
      invariant i <= |now.phases|
      invariant found == checked.(unchecked := checked.unchecked + Unknown(now.phases[..i], baseline.phases))
    {
      var held := now.phases[i];
      assert now.phases[..i + 1][..i] == now.phases[..i];
      if !Known(baseline.phases, held) {
        found := found.(unchecked := found.unchecked + [NotInBaseline(held.workload, held.phase)]);
      }
      i := i + 1;
    }
    assert now.phases[..i] == now.phases;
  }

  // ----------------------------------------------------------- what is promised

  predicate AllKnown(phases: seq<Phase>, known: seq<Phase>) {
    forall i :: 0 <= i < |phases| ==> Known(known, phases[i])
  }

  lemma {:induction false} CheckedAllIsTotal(limits: Thresholds, phases: seq<Phase>, measured: seq<Phase>)
    ensures var found := CheckedAll(limits, phases, measured);
            && found.compared + |found.unchecked| == |phases|
            && (found.unchecked == [] <==> AllKnown(phases, measured))
  {
    if phases == [] {
    } else {
      var init, last := phases[..|phases| - 1], phases[|phases| - 1];
      CheckedAllIsTotal(limits, init, measured);
      assert AllKnown(phases, measured) <==> AllKnown(init, measured) && Known(measured, last) by {
        if AllKnown(phases, measured) {
          assert Known(measured, phases[|phases| - 1]);
        }
      }
    }
  }

  lemma {:induction false} NothingUnknown(phases: seq<Phase>, known: seq<Phase>)
    ensures Unknown(phases, known) == [] <==> AllKnown(phases, known)
  {
    if phases == [] {
    } else {
      var init, last := phases[..|phases| - 1], phases[|phases| - 1];
      NothingUnknown(init, known);
      assert AllKnown(phases, known) <==> AllKnown(init, known) && Known(known, last) by {
        if AllKnown(phases, known) {
          assert Known(known, phases[|phases| - 1]);
        }
      }
    }
  }

  /** Nothing is left unchecked exactly when the conditions agree and each side has every phase of the other. */
  lemma UncheckedIsNeverAPass(baseline: Baseline, now: Baseline)
    ensures Compared(baseline, now).unchecked == [] <==>
            && baseline.conditions == now.conditions
            && AllKnown(baseline.phases, now.phases) && AllKnown(now.phases, baseline.phases)
  {
    CheckedAllIsTotal(baseline.thresholds, baseline.phases, now.phases);
    NothingUnknown(now.phases, baseline.phases);
  }

  predicate Ordered(p: Phase) {
    p.p50.low <= p.p50.high && p.p99.low <= p.p99.high
  }

  /** Each phase of each workload once, and every range the right way round. */
  predicate WellFormed(phases: seq<Phase>) {
    && (forall i :: 0 <= i < |phases| ==> Ordered(phases[i]))
    && (forall i, j :: 0 <= i < j < |phases| ==> !SameKey(phases[i], phases[j]))
  }

  lemma FindsItself(phases: seq<Phase>, i: nat)
    requires WellFormed(phases) && i < |phases|
    ensures Find(phases, phases[i]) == Some(phases[i])
  {
    assert SameKey(phases[i], phases[i]);
    var found := Find(phases, phases[i]);
    var k :| 0 <= k < |phases| && phases[k] == found.value;
    assert k == i;
  }

  lemma {:induction false} ItselfIsClean(limits: Thresholds, phases: seq<Phase>, n: nat)
    requires WellFormed(phases) && n <= |phases|
    ensures CheckedAll(limits, phases[..n], phases) == Comparison([], [], n)
  {
    if n == 0 {
    } else {
      assert phases[..n][..n - 1] == phases[..n - 1];
      ItselfIsClean(limits, phases, n - 1);
      FindsItself(phases, n - 1);
      assert Ordered(phases[n - 1]);
    }
  }

  /** A baseline compared with itself has no breach and nothing unchecked. */
  lemma SelfComparisonIsClean(b: Baseline)
    requires WellFormed(b.phases)
    ensures Compared(b, b) == Comparison([], [], |b.phases|)
  {
    assert b.phases[..|b.phases|] == b.phases;
    ItselfIsClean(b.thresholds, b.phases, |b.phases|);
    forall i | 0 <= i < |b.phases| ensures Known(b.phases, b.phases[i]) {
      assert SameKey(b.phases[i], b.phases[i]);
    }
    NothingUnknown(b.phases, b.phases);
  }

  lemma MentionedIsMeasured(timings: seq<Timing>, name: string, which: Percentile)
    requires name in FirstMentions(Mentions(timings))
    ensures Measured(timings, name, which) != []
  {
    MentionsAreAll(Mentions(timings));
    assert Some(name) in Mentions(timings);
    var k :| 0 <= k < |timings| && Mentions(timings)[k] == Some(name);
    MeasuredIsThere(timings, k, which);
  }

  /** What folding makes is well formed, whatever the runs were. */
  lemma FoldedIsWellFormed(workload: string, timings: seq<Timing>)
    ensures WellFormed(FoldedPhases(workload, timings, FirstMentions(Mentions(timings))))
  {
    var names := FirstMentions(Mentions(timings));
    var phases := FoldedPhases(workload, timings, names);
    MentionsAreAll(Mentions(timings));
    forall i | 0 <= i < |phases| ensures Ordered(phases[i]) {
      MentionedIsMeasured(timings, names[i], P50);
      MentionedIsMeasured(timings, names[i], P99);
      SpreadIsTheRange(Measured(timings, names[i], P50));
      SpreadIsTheRange(Measured(timings, names[i], P99));
    }
  }

  /** Every breach was found between a phase of the baseline and the phase of its name measured now. */
  lemma {:induction false} BreachComesFrom(limits: Thresholds, phases: seq<Phase>, measured: seq<Phase>, breach: Breach)
    returns (was: Phase, current: Phase)
    requires breach in CheckedAll(limits, phases, measured).breaches
    ensures was in phases && current in measured && SameKey(current, was)
    ensures breach in BreachIn(limits, was, current, breach.which)
  {
    var init, last := phases[..|phases| - 1], phases[|phases| - 1];
    var before := CheckedAll(limits, init, measured);
    if breach in before.breaches {
      was, current := BreachComesFrom(limits, init, measured, breach);
    } else {
      was, current := last, Find(measured, last).value;
    }
  }

  /** The range of one phase's measurements, and where any one run's lies in it. */
  lemma RunIsInRange(workload: string, timings: seq<Timing>, i: nat, which: Percentile)
    requires i < |timings| && !timings[i].noted
    ensures var p := FoldedPhase(workload, timings, timings[i].phase);
            var s := if which.P50? then p.p50 else p.p99;
            s.low <= Pick(timings[i], which) <= s.high
  {
    var values := Measured(timings, timings[i].phase, which);
    MeasuredIsThere(timings, i, which);
    SpreadIsTheRange(values);
    var k :| 0 <= k < |values| && values[k] == Pick(timings[i], which);
  }

  /**
   * A breach between two sets of folded runs says that every run of that phase
   * measured now was slower than every run of it the baseline saw.
   */
  lemma BreachMeansEveryRunIsSlower(workload: string, limits: Thresholds, before: seq<Timing>, after: seq<Timing>,
                                    breach: Breach, i: nat, j: nat)
    requires breach in CheckedAll(limits, FoldedPhases(workload, before, FirstMentions(Mentions(before))),
                                  FoldedPhases(workload, after, FirstMentions(Mentions(after)))).breaches
    requires i < |before| && !before[i].noted && before[i].phase == breach.phase
    requires j < |after| && !after[j].noted && after[j].phase == breach.phase
    ensures Pick(before[i], breach.which) < Pick(after[j], breach.which)
  {
    var was, current := BreachComesFrom(limits, FoldedPhases(workload, before, FirstMentions(Mentions(before))),
                                        FoldedPhases(workload, after, FirstMentions(Mentions(after))), breach);
    assert was == FoldedPhase(workload, before, breach.phase);
    assert current == FoldedPhase(workload, after, breach.phase);
    RunIsInRange(workload, before, i, breach.which);
    RunIsInRange(workload, after, j, breach.which);
  }
}
