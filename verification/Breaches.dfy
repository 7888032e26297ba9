/** What a spread's median is, and exactly when a comparison reports what. */
module Breaches {
  import opened Wrappers
  import opened Bytes
  import opened Lists
  import opened Baselines
  import opened Comparisons

  // ---------------------------------------------------------------------- medians

  /** How many of the values meet a condition. */
  function Count(values: seq<nat>, meets: nat -> bool): nat {
    if values == [] then 0
    else Count(values[..|values| - 1], meets) + if meets(values[|values| - 1]) then 1 else 0
  }

  lemma CountOneMore(values: seq<nat>, x: nat, meets: nat -> bool)
    ensures Count(values + [x], meets) == Count(values, meets) + if meets(x) then 1 else 0
  {
    assert (values + [x])[..|values|] == values;
  }

  lemma {:induction false} InsertCounts(s: seq<nat>, x: nat, meets: nat -> bool)
    ensures Count(Insert(s, x), meets) == Count(s, meets) + if meets(x) then 1 else 0
  {
    if s == [] || s[|s| - 1] >= x {
      CountOneMore(s, x, meets);
    } else {
      var init, last := s[..|s| - 1], s[|s| - 1];
      InsertCounts(init, x, meets);
      CountOneMore(Insert(init, x), last, meets);
    }
  }

  lemma {:induction false} SortingCounts(s: seq<nat>, meets: nat -> bool)
    ensures Count(SortDown(s), meets) == Count(s, meets)
  {
    if s == [] {
    } else {
      SortingCounts(s[..|s| - 1], meets);
      InsertCounts(SortDown(s[..|s| - 1]), s[|s| - 1], meets);
    }
  }

  /** Only values from `n` on and before `m` can meet it. */
  lemma {:induction false} CountWithin(values: seq<nat>, meets: nat -> bool, n: nat, m: nat)
    requires n <= m <= |values|
    requires forall i :: 0 <= i < |values| && meets(values[i]) ==> n <= i < m
    ensures Count(values, meets) <= m - n
    decreases |values|
  {
    if values == [] {
    } else {
      var init := values[..|values| - 1];
      assert forall i :: 0 <= i < |init| ==> init[i] == values[i];
      if meets(values[|values| - 1]) {
        CountWithin(init, meets, n, m - 1);
      } else if m == |values| && n < m {
        CountWithin(init, meets, n, m - 1);
      } else if m == |values| {
        CountWithin(init, meets, n - 1, m - 1);
      } else {
        CountWithin(init, meets, n, m);
      }
    }
  }

  lemma Halves(n: nat)
    requires n > 0
    ensures n - 1 - (n - 1) / 2 == n / 2 && n / 2 < n && n - (n / 2 + 1) == (n - 1) / 2
  {
  }

  lemma SortedLength(values: seq<nat>)
    ensures |SortDown(values)| == |values| && |SortUp(values)| == |values|
  {
    SortUpSorts(values);
  }

  lemma MedianInOrder(values: seq<nat>, middle: nat)
    requires values != [] && middle == |values| / 2 && |SortDown(values)| == |SortUp(values)| == |values|
    ensures SpreadOf(values).median == SortDown(values)[middle]
  {
    Halves(|values|);
    assert SpreadOf(values).median == SortUp(values)[(|values| - 1) / 2];
  }

  /** In a falling list no more than `k` values exceed the one at `k`, and none before it is below it. */
  lemma AroundPlace(down: seq<nat>, k: nat)
    requires Descending(down) && k < |down|
    ensures Count(down, x => x > down[k]) <= k && Count(down, x => x < down[k]) <= |down| - (k + 1)
  {
    CountWithin(down, x => x < down[k], k + 1, |down|);
    CountWithin(down, x => x > down[k], 0, k);
  }

  /**
   * The median is the lower of the middle values: of `n` values no more than
   * (n - 1) / 2 are below it and no more than n / 2 above it.
   */
  lemma MedianIsInTheMiddle(values: seq<nat>)
    requires values != []
    ensures var m := SpreadOf(values).median;
            && m in values
            && Count(values, x => x < m) <= (|values| - 1) / 2
            && Count(values, x => x > m) <= |values| / 2
  {
    var down, m := SortDown(values), SpreadOf(values).median;
    SpreadIsTheRange(values);
    SortedLength(values);
    Halves(|values|);
    MedianInOrder(values, |values| / 2);
    SortDownSorts(values);
    AroundPlace(down, |values| / 2);
    SortingCounts(values, x => x < m);
    SortingCounts(values, x => x > m);
  }

  // --------------------------------------------------------------------- breaches

  predicate Named(p: Phase, workload: string, phase: string) {
    p.workload == workload && p.phase == phase
  }

  /** The first phase of that name stands at `j`. */
  predicate FirstNamed(phases: seq<Phase>, workload: string, phase: string, j: nat) {
    && j < |phases| && Named(phases[j], workload, phase)
    && forall i :: 0 <= i < j ==> !Named(phases[i], workload, phase)
  }

  predicate NoneNamed(phases: seq<Phase>, workload: string, phase: string) {
    forall i :: 0 <= i < |phases| ==> !Named(phases[i], workload, phase)
  }

  lemma {:induction false} FindsTheFirst(phases: seq<Phase>, p: Phase, j: nat)
    requires FirstNamed(phases, p.workload, p.phase, j)
    ensures Find(phases, p) == Some(phases[j])
  {
    if j > 0 {
      assert !Named(phases[0], p.workload, p.phase);
      FindsTheFirst(phases[1..], p, j - 1);
    }
  }

  lemma {:induction false} FirstIsThere(phases: seq<Phase>, p: Phase) returns (j: nat)
    requires Find(phases, p).Some?
    ensures FirstNamed(phases, p.workload, p.phase, j) && Find(phases, p) == Some(phases[j])
  {
    if SameKey(phases[0], p) {
      j := 0;
    } else {
      var k := FirstIsThere(phases[1..], p);
      j := k + 1;
      assert forall i :: 0 < i < j ==> phases[i] == phases[1..][i - 1];
    }
  }

  lemma KnownIffNamed(phases: seq<Phase>, p: Phase)
    ensures Known(phases, p) <==> !NoneNamed(phases, p.workload, p.phase)
  {
    if !NoneNamed(phases, p.workload, p.phase) {
      var i :| 0 <= i < |phases| && Named(phases[i], p.workload, p.phase);
      assert SameKey(phases[i], p);
    }
    if Known(phases, p) {
      var i :| 0 <= i < |phases| && SameKey(phases[i], p);
      assert Named(phases[i], p.workload, p.phase);
    }
  }

  /**
   * The fastest run now is past the limit, in hundredths of the median before,
   * past the slowest run before, and by no less than the floor.
   */
  predicate TooSlow(before: Spread, fastest: nat, percent: nat, floor: nat) {
    && 100 * fastest > before.median * (if percent + 100 < U64_SPAN then percent + 100 else U64_SPAN - 1)
    && fastest > before.high
    && (floor == 0 || fastest >= before.median + floor)
  }

  lemma PastItsShare(now: nat, product: nat)
    ensures now > product / 100 <==> 100 * now > product
  {
  }

  lemma BreachedBy(before: Spread, fastest: nat, percent: nat, floor: nat, product: nat)
    requires product == before.median * (if percent + 100 < U64_SPAN then percent + 100 else U64_SPAN - 1)
    ensures Breached(before, fastest, percent, floor) <==>
            && fastest > product / 100 && fastest > before.high && (floor == 0 || fastest >= before.median + floor)
    ensures TooSlow(before, fastest, percent, floor) <==>
            && 100 * fastest > product && fastest > before.high && (floor == 0 || fastest >= before.median + floor)
  {
  }

  lemma BreachedIffTooSlow(before: Spread, fastest: nat, percent: nat, floor: nat)
    ensures Breached(before, fastest, percent, floor) <==> TooSlow(before, fastest, percent, floor)
  {
    var product := before.median * (if percent + 100 < U64_SPAN then percent + 100 else U64_SPAN - 1);
    BreachedBy(before, fastest, percent, floor, product);
    PastItsShare(fastest, product);
  }

  /** What a phase of the baseline and the phase of its name measured now make a breach of. */
  predicate Reports(limits: Thresholds, was: Phase, current: Phase, b: Breach) {
    && Named(was, b.workload, b.phase)
    && match b.which {
         case P50 => TooSlow(was.p50, current.p50.low, limits.p50, limits.floor) && b.was == was.p50.median && b.now == current.p50.low
         case P99 => TooSlow(was.p99, current.p99.low, limits.p99, limits.floor) && b.was == was.p99.median && b.now == current.p99.low
       }
  }

  lemma BreachInIff(limits: Thresholds, was: Phase, current: Phase, b: Breach)
    ensures b in BreachIn(limits, was, current, P50) + BreachIn(limits, was, current, P99) <==> Reports(limits, was, current, b)
  {
    BreachedIffTooSlow(was.p50, current.p50.low, limits.p50, limits.floor);
    BreachedIffTooSlow(was.p99, current.p99.low, limits.p99, limits.floor);
  }

  /** One phase of the baseline and the first of its name measured now make the breach. */
  ghost predicate ReportedFrom(limits: Thresholds, phases: seq<Phase>, measured: seq<Phase>, b: Breach, i: nat, j: nat) {
    && i < |phases| && FirstNamed(measured, b.workload, b.phase, j)
    && Reports(limits, phases[i], measured[j], b)
  }

  lemma {:induction false} ReportedIsThere(limits: Thresholds, phases: seq<Phase>, measured: seq<Phase>, b: Breach, i: nat, j: nat)
    requires ReportedFrom(limits, phases, measured, b, i, j)
    ensures b in CheckedAll(limits, phases, measured).breaches
    decreases |phases|
  {
    var last := |phases| - 1;
    if i == last {
      FindsTheFirst(measured, phases[i], j);
      BreachInIff(limits, phases[i], measured[j], b);
    } else {
      assert phases[..last][i] == phases[i];
      ReportedIsThere(limits, phases[..last], measured, b, i, j);
    }
  }

  lemma {:induction false} ReportedIsFound(limits: Thresholds, phases: seq<Phase>, measured: seq<Phase>, b: Breach)
    returns (i: nat, j: nat)
    requires b in CheckedAll(limits, phases, measured).breaches
    ensures ReportedFrom(limits, phases, measured, b, i, j)
    decreases |phases|
  {
    var init, last := phases[..|phases| - 1], phases[|phases| - 1];
    if b in CheckedAll(limits, init, measured).breaches {
      i, j := ReportedIsFound(limits, init, measured, b);
      assert init[i] == phases[i];
    } else {
      j := FirstIsThere(measured, last);
      i := |phases| - 1;
      BreachInIff(limits, last, measured[j], b);
    }
  }

  /**
   * A breach is reported exactly when the conditions agree and, at its
   * percentile and by that percentile's limit, the first phase of its name
   * measured now is too slow for a phase of that name in the baseline.
   */
  lemma BreachIff(baseline: Baseline, now: Baseline, b: Breach)
    ensures b in Compared(baseline, now).breaches <==>
            && baseline.conditions == now.conditions
            && exists i: nat, j: nat :: ReportedFrom(baseline.thresholds, baseline.phases, now.phases, b, i, j)
  {
    if baseline.conditions == now.conditions {
      if b in Compared(baseline, now).breaches {
        var i, j := ReportedIsFound(baseline.thresholds, baseline.phases, now.phases, b);
      }
      if i: nat, j: nat :| ReportedFrom(baseline.thresholds, baseline.phases, now.phases, b, i, j) {
        ReportedIsThere(baseline.thresholds, baseline.phases, now.phases, b, i, j);
      }
    }
  }

  // -------------------------------------------------------------------- unchecked

  lemma {:induction false} NotMeasuredIff(limits: Thresholds, phases: seq<Phase>, measured: seq<Phase>, u: Unchecked)
    ensures u in CheckedAll(limits, phases, measured).unchecked <==>
            u.NotMeasured? && !NoneNamed(phases, u.workload, u.phase) && NoneNamed(measured, u.workload, u.phase)
  {
    if phases == [] {
    } else {
      var init, last := phases[..|phases| - 1], phases[|phases| - 1];
      NotMeasuredIff(limits, init, measured, u);
      KnownIffNamed(measured, last);
      if u.NotMeasured? {
        NamedOneMore(init, last, u.workload, u.phase);
        assert init + [last] == phases;
      }
    }
  }

  lemma NamedOneMore(phases: seq<Phase>, p: Phase, workload: string, phase: string)
    ensures NoneNamed(phases + [p], workload, phase) <==> NoneNamed(phases, workload, phase) && !Named(p, workload, phase)
  {
    var more := phases + [p];
    assert more[|phases|] == p && forall i :: 0 <= i < |phases| ==> more[i] == phases[i];
    if NoneNamed(more, workload, phase) {
      assert !Named(more[|phases|], workload, phase);
      assert forall i :: 0 <= i < |phases| ==> !Named(more[i], workload, phase);
    }
  }

  lemma {:induction false} NotInBaselineIff(phases: seq<Phase>, known: seq<Phase>, u: Unchecked)
    ensures u in Unknown(phases, known) <==>
            u.NotInBaseline? && !NoneNamed(phases, u.workload, u.phase) && NoneNamed(known, u.workload, u.phase)
  {
    if phases == [] {
    } else {
      var init, last := phases[..|phases| - 1], phases[|phases| - 1];
      NotInBaselineIff(init, known, u);
      KnownIffNamed(known, last);
      if u.NotInBaseline? {
        NamedOneMore(init, last, u.workload, u.phase);
        assert init + [last] == phases;
      }
    }
  }

  /** What is said to be unchecked is exactly other conditions, or the phases one side has and the other has not. */
  lemma UncheckedIff(baseline: Baseline, now: Baseline, u: Unchecked)
    ensures u in Compared(baseline, now).unchecked <==>
            if baseline.conditions != now.conditions then u == OtherConditions
            else match u {
              case OtherConditions => false
              case NotMeasured(w, p) => !NoneNamed(baseline.phases, w, p) && NoneNamed(now.phases, w, p)
              case NotInBaseline(w, p) => NoneNamed(baseline.phases, w, p) && !NoneNamed(now.phases, w, p)
            }
  {
    NotMeasuredIff(baseline.thresholds, baseline.phases, now.phases, u);
    NotInBaselineIff(now.phases, baseline.phases, u);
  }

  // ------------------------------------------------------------------- what is folded

  /** Every value folded is what a run that times the phase took, or the largest word if that is more. */
  lemma {:induction false} MeasuredComesFrom(timings: seq<Timing>, phase: string, which: Percentile, value: nat) returns (i: nat)
    requires value in Measured(timings, phase, which)
    ensures i < |timings| && !timings[i].noted && timings[i].phase == phase
    ensures var taken := if which.P50? then timings[i].p50 else timings[i].p99;
            value == if taken < 0x1_0000_0000_0000_0000 then taken else 0xffff_ffff_ffff_ffff
    decreases |timings|
  {
    var init := timings[..|timings| - 1];
    if value in Measured(init, phase, which) {
      i := MeasuredComesFrom(init, phase, which, value);
      assert init[i] == timings[i];
    } else {
      i := |timings| - 1;
    }
  }
}
