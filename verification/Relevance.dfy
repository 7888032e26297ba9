/**
 * How good an answer is: the discounted gain of the pages it reaches, as a
 * share of the best any answer could reach. Arithmetic is over the reals.
 */
module Relevance {
  import opened Wrappers
  import opened Lists

  /** How many pages of an answer count. */
  const DEPTH: nat := 10

  datatype Judgment = Judgment(page: string, grade: nat)

  /** What a rank is worth; only its being positive and falling is used. */
  type Discount = nat -> real

  ghost predicate Falls(discount: Discount) {
    forall r: nat, q: nat :: r < q ==> 0.0 < discount(q) < discount(r)
  }

  /** Each page is judged once. */
  predicate Judgments(judged: seq<Judgment>) {
    forall i, j :: 0 <= i < j < |judged| ==> judged[i].page != judged[j].page
  }

  // ---------------------------------------------------------------- ranked pages

  function Taken<T>(s: seq<T>, depth: nat): seq<T> {
    if |s| <= depth then s else s[..depth]
  }

  /** Each page once, in the order the answer gives them, and no more than `DEPTH`. */
  method RankedPages(rows: seq<Option<string>>) returns (seen: seq<string>)
    ensures seen == Taken(FirstMentions(rows), DEPTH)
    ensures Distinct(seen) && |seen| <= DEPTH
  {
    seen := [];
    var i := 0;
    while i < |rows|
      invariant i <= |rows|
      invariant seen == FirstMentions(rows[..i]) && |seen| < DEPTH
    {
      var row := rows[i];
      assert rows[..i + 1][..i] == rows[..i];
      if row.Some? && row.value !in seen {
        seen := seen + [row.value];
      }
      i := i + 1;
      if |seen| == DEPTH {
        break;
      }
    }
    MentionsGrow(rows, i, |rows|);
    assert rows[..|rows|] == rows;
    MentionsAreAll(rows);
  }

  // ------------------------------------------------------------------------ gains

  function Power(n: nat): (r: nat)
    ensures r >= 1
  {
    if n == 0 then 1 else 2 * Power(n - 1)
  }

  function Gain(grade: nat): (r: real)
    ensures r >= 0.0
  {
    (Power(grade) - 1) as real
  }

  lemma {:induction false} GainRises(a: nat, b: nat)
    requires a <= b
    ensures Gain(a) <= Gain(b)
    ensures a < b ==> Gain(a) < Gain(b)
  {
    if a == b {
    } else {
      GainRises(a, b - 1);
    }
  }

  function GradeOf(judged: seq<Judgment>, page: string): nat {
    if judged == [] then 0
    else if judged[|judged| - 1].page == page then judged[|judged| - 1].grade
    else GradeOf(judged[..|judged| - 1], page)
  }

  /** What each page an answer returned gains, in its order. */
  function Gains(pages: seq<string>, judged: seq<Judgment>): (r: seq<real>)
    ensures |r| == |pages| && forall i :: 0 <= i < |r| ==> r[i] == Gain(GradeOf(judged, pages[i])) >= 0.0
  {
    seq(|pages|, i requires 0 <= i < |pages| => Gain(GradeOf(judged, pages[i])))
  }

  function Grades(judged: seq<Judgment>): (r: seq<nat>)
    ensures |r| == |judged| && forall i :: 0 <= i < |r| ==> r[i] == judged[i].grade
  {
    seq(|judged|, i requires 0 <= i < |judged| => judged[i].grade)
  }

  function GainsOf(grades: seq<nat>): (r: seq<real>)
    ensures |r| == |grades| && forall i :: 0 <= i < |r| ==> r[i] == Gain(grades[i]) >= 0.0
  {
    seq(|grades|, i requires 0 <= i < |grades| => Gain(grades[i]))
  }

  // ------------------------------------------------------------------------- NDCG

  /** A list read past its end is nothing. */
  function At(s: seq<real>, r: nat): real {
    if r < |s| then s[r] else 0.0
  }

  /** The discounted gain of the first `n` ranks. */
  function Discounted(s: seq<real>, discount: Discount, n: nat): real {
    if n == 0 then 0.0 else Discounted(s, discount, n - 1) + At(s, n - 1) * discount(n - 1)
  }

  function Ideal(judged: seq<Judgment>): seq<real> {
    GainsOf(SortDown(Grades(judged)))
  }

  function Ndcg(pages: seq<string>, judged: seq<Judgment>, discount: Discount): real {
    if pages == [] then 0.0
    else
      var found := Discounted(Gains(pages, judged), discount, |pages|);
      var best := Discounted(Ideal(judged), discount, if |judged| < DEPTH then |judged| else DEPTH);
      if best > 0.0 then found / best else 0.0
  }

  // --------------------------------------------------------------- sums and excess

  /** The gain of the first `n` ranks, undiscounted. */
  function Total(s: seq<real>, n: nat): real {
    if n == 0 then 0.0 else Total(s, n - 1) + At(s, n - 1)
  }

  function Excess(x: real, over: real): real {
    if x > over then x - over else 0.0
  }

  /** How far a list's gains stand above a level, in all. */
  function Above(s: seq<real>, level: real): (r: real)
    ensures r >= 0.0
  {
    if s == [] then 0.0 else Above(s[..|s| - 1], level) + Excess(s[|s| - 1], level)
  }

  /** `n` ranks at one level. */
  function Flat(level: real, n: nat): real {
    if n == 0 then 0.0 else Flat(level, n - 1) + level
  }

  lemma OneMoreAbove(s: seq<real>, x: real, level: real)
    ensures Above(s + [x], level) == Above(s, level) + Excess(x, level)
  {
    assert (s + [x])[..|s|] == s;
  }

  predicate NoLess(s: seq<real>, level: real) {
    forall i :: 0 <= i < |s| ==> s[i] >= level
  }

  /** The first `n` of any list stand no higher than `n` times a level and what exceeds it. */
  lemma {:induction false} TotalIsBounded(s: seq<real>, level: real, n: nat)
    requires level >= 0.0
    ensures Total(s, n) <= Above(Taken(s, n), level) + Flat(level, n)
  {
    if n == 0 {
    } else {
      TotalIsBounded(s, level, n - 1);
      if n <= |s| {
        assert Taken(s, n)[..n - 1] == Taken(s, n - 1);
      } else {
        assert Taken(s, n) == Taken(s, n - 1) == s;
      }
    }
  }

  lemma {:induction false} AboveGrows(s: seq<real>, level: real, n: nat)
    requires n <= |s|
    ensures Above(s[..n], level) <= Above(s, level)
  {
    if n < |s| {
      AboveGrows(s[..|s| - 1], level, n);
      assert s[..|s| - 1][..n] == s[..n];
    } else {
      assert s[..n] == s;
    }
  }

  /** A falling list cut at its `n`-th rank: what is above that rank is exactly in the first `n`. */
  lemma CutIsExact(s: seq<real>, n: nat)
    requires n > 0 && NoLess(s, 0.0) && forall i, j :: 0 <= i < j < |s| ==> s[i] >= s[j]
    ensures Total(s, n) == Above(s, At(s, n - 1)) + Flat(At(s, n - 1), n)
  {
    var level := At(s, n - 1);
    FirstAreAbove(s, level, n);
    RestAreNot(s, level, if n < |s| then n else |s|);
  }

  lemma {:induction false} FirstAreAbove(s: seq<real>, level: real, n: nat)
    requires forall i :: 0 <= i < n ==> At(s, i) >= level
    requires level >= 0.0
    ensures Total(s, n) == Above(Taken(s, n), level) + Flat(level, n)
  {
    if n == 0 {
    } else {
      FirstAreAbove(s, level, n - 1);
      assert At(s, n - 1) >= level;
      if n <= |s| {
        assert Taken(s, n)[..n - 1] == Taken(s, n - 1);
      } else {
        assert Taken(s, n) == Taken(s, n - 1) == s;
      }
    }
  }

  lemma {:induction false} RestAreNot(s: seq<real>, level: real, n: nat)
    requires n <= |s| && forall i :: n <= i < |s| ==> s[i] <= level
    ensures Above(s, level) == Above(s[..n], level)
  {
    if n < |s| {
      RestAreNot(s[..|s| - 1], level, n);
      assert s[..|s| - 1][..n] == s[..n];
    } else {
      assert s[..n] == s;
    }
  }

  // --------------------------------------------- an answer against the judgments

  /** What the judgments hold above a level. */
  function Held(judged: seq<Judgment>, level: real): real {
    if judged == [] then 0.0 else Held(judged[..|judged| - 1], level) + Excess(Gain(judged[|judged| - 1].grade), level)
  }

  lemma GradeHolds(s: seq<nat>, x: nat, level: real)
    ensures Above(GainsOf(s + [x]), level) == Above(GainsOf(s), level) + Excess(Gain(x), level)
  {
    assert GainsOf(s + [x]) == GainsOf(s) + [Gain(x)];
    OneMoreAbove(GainsOf(s), Gain(x), level);
  }

  lemma {:induction false} InsertHolds(s: seq<nat>, x: nat, level: real)
    ensures Above(GainsOf(Insert(s, x)), level) == Above(GainsOf(s), level) + Excess(Gain(x), level)
  {
    if s == [] || s[|s| - 1] >= x {
      GradeHolds(s, x, level);
    } else {
      var init, last := s[..|s| - 1], s[|s| - 1];
      InsertHolds(init, x, level);
      GradeHolds(Insert(init, x), last, level);
      GradeHolds(init, last, level);
      assert s == init + [last];
    }
  }

  /** Sorting moves nothing above or below a level. */
  lemma {:induction false} IdealHolds(judged: seq<Judgment>, level: real)
    ensures Above(Ideal(judged), level) == Held(judged, level)
  {
    if judged == [] {
    } else {
      var init, last := judged[..|judged| - 1], judged[|judged| - 1];
      IdealHolds(init, level);
      assert Grades(judged)[..|judged| - 1] == Grades(init);
      InsertHolds(SortDown(Grades(init)), last.grade, level);
    }
  }

  /** The judgments less the one a page is graded by. */
  function Without(judged: seq<Judgment>, page: string): seq<Judgment> {
    if judged == [] then []
    else if judged[|judged| - 1].page == page then judged[..|judged| - 1]
    else Without(judged[..|judged| - 1], page) + [judged[|judged| - 1]]
  }

  lemma {:induction false} WithoutHolds(judged: seq<Judgment>, page: string, level: real)
    requires level >= 0.0
    ensures Held(judged, level) == Held(Without(judged, page), level) + Excess(Gain(GradeOf(judged, page)), level)
  {
    if judged == [] || judged[|judged| - 1].page == page {
    } else {
      var init, last := judged[..|judged| - 1], judged[|judged| - 1];
      WithoutHolds(init, page, level);
      assert (Without(init, page) + [last])[..|Without(init, page)|] == Without(init, page);
    }
  }

  lemma {:induction false} WithoutGradesTheRest(judged: seq<Judgment>, page: string, other: string)
    requires page != other
    ensures GradeOf(Without(judged, page), other) == GradeOf(judged, other)
  {
    if judged == [] || judged[|judged| - 1].page == page {
    } else {
      var init, last := judged[..|judged| - 1], judged[|judged| - 1];
      WithoutGradesTheRest(init, page, other);
      assert (Without(init, page) + [last])[..|Without(init, page)|] == Without(init, page);
    }
  }

  lemma GainsWithout(pages: seq<string>, judged: seq<Judgment>)
    requires pages != [] && Distinct(pages)
    ensures Gains(pages, judged)[..|pages| - 1] == Gains(pages[..|pages| - 1], Without(judged, pages[|pages| - 1]))
  {
    var init, last := pages[..|pages| - 1], pages[|pages| - 1];
    forall i | 0 <= i < |init| ensures Gains(pages, judged)[i] == Gains(init, Without(judged, last))[i] {
      WithoutGradesTheRest(judged, last, pages[i]);
    }
  }

  /** Distinct pages hold no more above a level than the judgments do. */
  lemma {:induction false} AnswerHoldsNoMore(pages: seq<string>, judged: seq<Judgment>, level: real)
    requires Distinct(pages) && level >= 0.0
    ensures Above(Gains(pages, judged), level) <= Held(judged, level)
  {
    if pages == [] {
      HeldIsNatural(judged, level);
    } else {
      var init, last := pages[..|pages| - 1], pages[|pages| - 1];
      AnswerHoldsNoMore(init, Without(judged, last), level);
      GainsWithout(pages, judged);
      WithoutHolds(judged, last, level);
    }
  }

  lemma {:induction false} HeldIsNatural(judged: seq<Judgment>, level: real)
    ensures Held(judged, level) >= 0.0
  {
    if judged == [] {
    } else {
      HeldIsNatural(judged[..|judged| - 1], level);
    }
  }

  /** Nothing judged and left out gains more than a level. */
  predicate LeavesOutBelow(pages: seq<string>, judged: seq<Judgment>, level: real) {
    forall i :: 0 <= i < |judged| && judged[i].page !in pages ==> Gain(judged[i].grade) <= level
  }

  lemma {:induction false} WithoutIsWithout(judged: seq<Judgment>, page: string)
    requires Judgments(judged)
    ensures Judgments(Without(judged, page))
    ensures forall i :: 0 <= i < |Without(judged, page)| ==> Without(judged, page)[i] in judged && Without(judged, page)[i].page != page
  {
    if judged == [] || judged[|judged| - 1].page == page {
    } else {
      var init, last := judged[..|judged| - 1], judged[|judged| - 1];
      WithoutIsWithout(init, page);
      var rest := Without(init, page);
      forall i | 0 <= i < |rest| ensures rest[i].page != last.page {
        var k :| 0 <= k < |init| && init[k] == rest[i];
        assert judged[k].page != judged[|judged| - 1].page;
      }
    }
  }

  /** An answer that leaves nothing out above a level holds all there is above it. */
  lemma {:induction false} AnswerHoldsAll(pages: seq<string>, judged: seq<Judgment>, level: real)
    requires Distinct(pages) && Judgments(judged) && level >= 0.0 && LeavesOutBelow(pages, judged, level)
    ensures Held(judged, level) <= Above(Gains(pages, judged), level)
  {
    if pages == [] {
      NothingIsHeld(judged, level);
    } else {
      var init, last := pages[..|pages| - 1], pages[|pages| - 1];
      var rest := Without(judged, last);
      WithoutIsWithout(judged, last);
      forall i | 0 <= i < |rest| && rest[i].page !in init ensures Gain(rest[i].grade) <= level {
        var k :| 0 <= k < |judged| && judged[k] == rest[i];
        assert pages == init + [last];
        assert judged[k].page !in pages;
      }
      AnswerHoldsAll(init, rest, level);
      GainsWithout(pages, judged);
      WithoutHolds(judged, last, level);
    }
  }

  lemma {:induction false} NothingIsHeld(judged: seq<Judgment>, level: real)
    requires LeavesOutBelow([], judged, level)
    ensures Held(judged, level) == 0.0
  {
    if judged == [] {
    } else {
      NothingIsHeld(judged[..|judged| - 1], level);
    }
  }

  lemma IdealFalls(judged: seq<Judgment>)
    ensures |Ideal(judged)| == |judged| && NoLess(Ideal(judged), 0.0)
    ensures forall i, j :: 0 <= i < j < |Ideal(judged)| ==> Ideal(judged)[i] >= Ideal(judged)[j]
  {
    var sorted := SortDown(Grades(judged));
    SortDownSorts(Grades(judged));
    assert |multiset(sorted)| == |sorted|;
    assert |multiset(Grades(judged))| == |judged|;
    forall i, j | 0 <= i < j < |sorted| ensures Gain(sorted[i]) >= Gain(sorted[j]) {
      GainRises(sorted[j], sorted[i]);
    }
  }

  /** A falling list whose judgments hold no less above each level has beginnings no smaller. */
  lemma CutDominates(xs: seq<real>, ys: seq<real>, n: nat)
    requires n > 0 && NoLess(ys, 0.0) && forall i, j :: 0 <= i < j < |ys| ==> ys[i] >= ys[j]
    requires Above(xs, At(ys, n - 1)) <= Above(ys, At(ys, n - 1))
    ensures Total(xs, n) <= Total(ys, n)
  {
    var level := At(ys, n - 1);
    TotalIsBounded(xs, level, n);
    AboveGrows(xs, level, |Taken(xs, n)|);
    assert xs[..|Taken(xs, n)|] == Taken(xs, n);
    CutIsExact(ys, n);
  }

  /** No answer's first `n` pages gain more than the `n` best grades. */
  lemma IdealDominates(pages: seq<string>, judged: seq<Judgment>, n: nat)
    requires Distinct(pages)
    ensures Total(Gains(pages, judged), n) <= Total(Ideal(judged), n)
  {
    if n > 0 {
      var level := At(Ideal(judged), n - 1);
      IdealFalls(judged);
      AnswerHoldsNoMore(pages, judged, level);
      IdealHolds(judged, level);
      CutDominates(Gains(pages, judged), Ideal(judged), n);
    }
  }

  // ------------------------------------------------- discounting what is dominated

  ghost predicate Dominates(ys: seq<real>, xs: seq<real>, n: nat) {
    forall k: nat :: k <= n ==> Total(xs, k) <= Total(ys, k)
  }

  /** Summation by parts: a list whose every beginning sums to more is worth more under a falling discount. */
  lemma {:induction false} DominatingIsWorthMore(xs: seq<real>, ys: seq<real>, discount: Discount, n: nat)
    requires Falls(discount) && Dominates(ys, xs, n) && n > 0
    ensures Discounted(ys, discount, n) - Discounted(xs, discount, n)
            >= (Total(ys, n) - Total(xs, n)) * discount(n - 1)
  {
    if n == 1 {
      assert Discounted(ys, discount, 0) == Discounted(xs, discount, 0) == 0.0;
      assert Discounted(ys, discount, 1) == At(ys, 0) * discount(0);
      assert Discounted(xs, discount, 1) == At(xs, 0) * discount(0);
    } else {
      DominatingIsWorthMore(xs, ys, discount, n - 1);
      assert Total(xs, n - 1) <= Total(ys, n - 1);
      assert discount(n - 1) < discount(n - 2);
      OneMoreRank(Discounted(ys, discount, n - 1) - Discounted(xs, discount, n - 1), Total(ys, n - 1) - Total(xs, n - 1),
                  At(ys, n - 1), At(xs, n - 1), discount(n - 2), discount(n - 1));
    }
  }

  /** A lead in worth at one rank carries to the next, at its lower discount. */
  lemma OneMoreRank(worth: real, lead: real, y: real, x: real, before: real, after: real)
    requires lead >= 0.0 && after < before && worth >= lead * before
    ensures worth + y * after - x * after >= (lead + y - x) * after
    ensures lead > 0.0 || worth > lead * before ==> worth + y * after - x * after > (lead + y - x) * after
  {
    LeadShrinks(lead, before, after);
    Distributes(lead, y, x, after);
  }

  lemma LeadShrinks(lead: real, before: real, after: real)
    requires lead >= 0.0 && after < before
    ensures lead * before >= lead * after
    ensures lead > 0.0 ==> lead * before > lead * after
  {
  }

  lemma Distributes(lead: real, y: real, x: real, d: real)
    ensures (lead + y - x) * d == lead * d + y * d - x * d
  {
  }

  function Lead(xs: seq<real>, ys: seq<real>, n: nat): real {
    Total(ys, n) - Total(xs, n)
  }

  function Worth(xs: seq<real>, ys: seq<real>, discount: Discount, n: nat): real {
    Discounted(ys, discount, n) - Discounted(xs, discount, n)
  }

  /** Worth more than the lead alone is, at the last rank's discount. */
  predicate StrictlyAhead(xs: seq<real>, ys: seq<real>, discount: Discount, n: nat)
    requires n > 0
  {
    Worth(xs, ys, discount, n) > Lead(xs, ys, n) * discount(n - 1)
  }

  /** Strictly more, once any beginning sums to strictly more. */
  lemma {:induction false} LeadingIsWorthStrictlyMore(xs: seq<real>, ys: seq<real>, discount: Discount, n: nat, k: nat)
    requires Falls(discount) && Dominates(ys, xs, n) && k < n && Total(xs, k) < Total(ys, k)
    ensures StrictlyAhead(xs, ys, discount, n)
  {
    assert Total(xs, 0) == Total(ys, 0) == 0.0;
    assert n > 1;
    if k == n - 1 {
      LeadCarries(xs, ys, discount, n);
    } else {
      LeadingIsWorthStrictlyMore(xs, ys, discount, n - 1, k);
      WorthCarries(xs, ys, discount, n);
    }
  }

  lemma LeadCarries(xs: seq<real>, ys: seq<real>, discount: Discount, n: nat)
    requires Falls(discount) && n > 1 && Dominates(ys, xs, n - 1) && Lead(xs, ys, n - 1) > 0.0
    ensures StrictlyAhead(xs, ys, discount, n)
  {
    DominatingIsWorthMore(xs, ys, discount, n - 1);
    assert discount(n - 1) < discount(n - 2);
    OneMoreRank(Worth(xs, ys, discount, n - 1), Lead(xs, ys, n - 1), At(ys, n - 1), At(xs, n - 1), discount(n - 2), discount(n - 1));
    assert Lead(xs, ys, n) == Lead(xs, ys, n - 1) + At(ys, n - 1) - At(xs, n - 1);
  }

  lemma WorthCarries(xs: seq<real>, ys: seq<real>, discount: Discount, n: nat)
    requires Falls(discount) && n > 1 && Dominates(ys, xs, n - 1) && StrictlyAhead(xs, ys, discount, n - 1)
    ensures StrictlyAhead(xs, ys, discount, n)
  {
    assert discount(n - 1) < discount(n - 2);
    assert Total(xs, n - 1) <= Total(ys, n - 1);
    OneMoreRank(Worth(xs, ys, discount, n - 1), Lead(xs, ys, n - 1), At(ys, n - 1), At(xs, n - 1), discount(n - 2), discount(n - 1));
    assert Lead(xs, ys, n) == Lead(xs, ys, n - 1) + At(ys, n - 1) - At(xs, n - 1);
  }

  lemma {:induction false} NothingPastTheEnd(s: seq<real>, discount: Discount, n: nat)
    requires |s| <= n
    ensures Discounted(s, discount, n) == Discounted(s, discount, |s|)
  {
    if |s| == n {
    } else {
      NothingPastTheEnd(s, discount, n - 1);
    }
  }

  lemma {:induction false} DiscountedIsNatural(s: seq<real>, discount: Discount, n: nat)
    requires NoLess(s, 0.0) && Falls(discount)
    ensures Discounted(s, discount, n) >= 0.0
  {
    if n == 0 {
    } else {
      DiscountedIsNatural(s, discount, n - 1);
      assert 0.0 < discount(n) < discount(n - 1);
    }
  }

  /** Both sides of the ratio, to full depth. */
  lemma Ratio(pages: seq<string>, judged: seq<Judgment>, discount: Discount)
    requires pages != [] && |pages| <= DEPTH
    ensures var found := Discounted(Gains(pages, judged), discount, DEPTH);
            var best := Discounted(Ideal(judged), discount, DEPTH);
            Ndcg(pages, judged, discount) == if best > 0.0 then found / best else 0.0
  {
    NothingPastTheEnd(Gains(pages, judged), discount, DEPTH);
    IdealFalls(judged);
    if |judged| < DEPTH {
      NothingPastTheEnd(Ideal(judged), discount, DEPTH);
    }
  }

  /** An answer is never worth more than the best one. */
  lemma FoundIsNoMoreThanBest(pages: seq<string>, judged: seq<Judgment>, discount: Discount)
    requires Distinct(pages) && Falls(discount)
    ensures 0.0 <= Discounted(Gains(pages, judged), discount, DEPTH) <= Discounted(Ideal(judged), discount, DEPTH)
  {
    var xs, ys := Gains(pages, judged), Ideal(judged);
    forall k: nat ensures Total(xs, k) <= Total(ys, k) {
      IdealDominates(pages, judged, k);
    }
    DominatingIsWorthMore(xs, ys, discount, DEPTH);
    assert discount(DEPTH) > 0.0 && discount(DEPTH - 1) > 0.0;
    assert Total(xs, DEPTH) <= Total(ys, DEPTH);
    NeverNegative(Total(ys, DEPTH) - Total(xs, DEPTH), discount(DEPTH - 1));
    DiscountedIsNatural(xs, discount, DEPTH);
  }

  lemma NeverNegative(x: real, y: real)
    requires y > 0.0
    ensures x * y >= 0.0 <==> x >= 0.0
  {
  }

  lemma Share(found: real, best: real)
    requires 0.0 <= found <= best && best > 0.0
    ensures 0.0 <= found / best <= 1.0
    ensures found / best == 1.0 <==> found == best
  {
    var share := found / best;
    assert share * best == found;
    NeverNegative(share, best);
    NeverNegative(1.0 - share, best);
    assert (1.0 - share) * best == best - found;
  }

  /** NDCG is a share: never negative and never more than one. */
  lemma NdcgIsAShare(pages: seq<string>, judged: seq<Judgment>, discount: Discount)
    requires Distinct(pages) && |pages| <= DEPTH && Falls(discount)
    ensures 0.0 <= Ndcg(pages, judged, discount) <= 1.0
  {
    if pages != [] {
      Ratio(pages, judged, discount);
      FoundIsNoMoreThanBest(pages, judged, discount);
      var found := Discounted(Gains(pages, judged), discount, DEPTH);
      var best := Discounted(Ideal(judged), discount, DEPTH);
      if best > 0.0 {
        Share(found, best);
      }
    }
  }

  // ----------------------------------------------------------------- a perfect answer

  /**
   * Some page is worth finding, the answer's pages come highest grade first, and
   * no judged page left out is graded above the last place there was room for.
   */
  predicate BestFirst(pages: seq<string>, judged: seq<Judgment>) {
    && (exists i :: 0 <= i < |judged| && judged[i].grade > 0)
    && (forall i, j :: 0 <= i < j < |pages| ==> GradeOf(judged, pages[i]) >= GradeOf(judged, pages[j]))
    && (forall i :: 0 <= i < |judged| && judged[i].page !in pages ==>
          judged[i].grade <= if |pages| == DEPTH then GradeOf(judged, pages[DEPTH - 1]) else 0)
  }

  ghost predicate SameAs(xs: seq<real>, ys: seq<real>) {
    forall r: nat :: r < DEPTH ==> At(xs, r) == At(ys, r)
  }

  lemma {:induction false} SameIsWorthTheSame(xs: seq<real>, ys: seq<real>, discount: Discount, n: nat)
    requires SameAs(xs, ys) && n <= DEPTH
    ensures Discounted(xs, discount, n) == Discounted(ys, discount, n) && Total(xs, n) == Total(ys, n)
  {
    if n == 0 {
    } else {
      SameIsWorthTheSame(xs, ys, discount, n - 1);
    }
  }

  lemma SameTotalsAreTheSame(xs: seq<real>, ys: seq<real>)
    requires forall k: nat :: k <= DEPTH ==> Total(xs, k) == Total(ys, k)
    ensures SameAs(xs, ys)
  {
    forall r: nat | r < DEPTH ensures At(xs, r) == At(ys, r) {
      assert Total(xs, r + 1) == Total(xs, r) + At(xs, r);
      assert Total(ys, r + 1) == Total(ys, r) + At(ys, r);
    }
  }

  /** Only what is the same, rank by rank, is worth the same as what dominates it. */
  lemma WorthTheSameIsTheSame(xs: seq<real>, ys: seq<real>, discount: Discount)
    requires Falls(discount) && Dominates(ys, xs, DEPTH)
    requires Discounted(xs, discount, DEPTH) == Discounted(ys, discount, DEPTH)
    ensures SameAs(xs, ys)
  {
    assert discount(DEPTH) > 0.0 && discount(DEPTH - 1) > 0.0;
    DominatingIsWorthMore(xs, ys, discount, DEPTH);
    var lead := Total(ys, DEPTH) - Total(xs, DEPTH);
    assert Total(xs, DEPTH) <= Total(ys, DEPTH);
    NeverNegative(-lead, discount(DEPTH - 1));
    assert (-lead) * discount(DEPTH - 1) == -(lead * discount(DEPTH - 1));
    forall k: nat | k <= DEPTH ensures Total(xs, k) == Total(ys, k) {
      if k < DEPTH && Total(xs, k) < Total(ys, k) {
        LeadingIsWorthStrictlyMore(xs, ys, discount, DEPTH, k);
        assert false;
      }
    }
    SameTotalsAreTheSame(xs, ys);
  }

  lemma {:induction false} JudgedIsGraded(judged: seq<Judgment>, i: nat)
    requires Judgments(judged) && i < |judged|
    ensures GradeOf(judged, judged[i].page) == judged[i].grade
  {
    if i == |judged| - 1 {
    } else {
      assert judged[i].page != judged[|judged| - 1].page;
      JudgedIsGraded(judged[..|judged| - 1], i);
    }
  }

  lemma SomethingToFind(judged: seq<Judgment>)
    ensures At(Ideal(judged), 0) > 0.0 <==> exists i :: 0 <= i < |judged| && judged[i].grade > 0
  {
    var grades := Grades(judged);
    var sorted := SortDown(grades);
    SortDownSorts(grades);
    GainRises(0, 0);
    if i :| 0 <= i < |judged| && judged[i].grade > 0 {
      assert grades[i] in multiset(sorted);
      var k :| 0 <= k < |sorted| && sorted[k] == grades[i];
      GainRises(0, sorted[0]);
    }
    if At(Ideal(judged), 0) > 0.0 {
      assert sorted[0] in multiset(grades);
      var i :| 0 <= i < |grades| && grades[i] == sorted[0];
      assert judged[i].grade > 0;
    }
  }

  lemma BestFirstFalls(pages: seq<string>, judged: seq<Judgment>, n: nat)
    requires Distinct(pages) && |pages| <= DEPTH && BestFirst(pages, judged) && 0 < n <= DEPTH
    ensures forall i, j :: 0 <= i < j < |pages| ==> Gains(pages, judged)[i] >= Gains(pages, judged)[j]
    ensures LeavesOutBelow(pages, judged, At(Gains(pages, judged), n - 1))
  {
    forall i, j | 0 <= i < j < |pages| ensures Gains(pages, judged)[i] >= Gains(pages, judged)[j] {
      GainRises(GradeOf(judged, pages[j]), GradeOf(judged, pages[i]));
    }
    var level := At(Gains(pages, judged), n - 1);
    forall i | 0 <= i < |judged| && judged[i].page !in pages ensures Gain(judged[i].grade) <= level {
      if |pages| == DEPTH {
        assert Gains(pages, judged)[DEPTH - 1] <= Gains(pages, judged)[n - 1];
        GainRises(judged[i].grade, GradeOf(judged, pages[DEPTH - 1]));
      }
    }
  }

  /** Pages in the best order gain, rank by rank, what the ideal does. */
  lemma BestFirstIsIdeal(pages: seq<string>, judged: seq<Judgment>)
    requires Distinct(pages) && |pages| <= DEPTH && Judgments(judged) && BestFirst(pages, judged)
    ensures SameAs(Gains(pages, judged), Ideal(judged))
  {
    var found, ideal := Gains(pages, judged), Ideal(judged);
    forall n: nat | n <= DEPTH ensures Total(found, n) == Total(ideal, n) {
      IdealDominates(pages, judged, n);
      if n > 0 {
        var level := At(found, n - 1);
        BestFirstFalls(pages, judged, n);
        AnswerHoldsAll(pages, judged, level);
        IdealHolds(judged, level);
        CutDominates(ideal, found, n);
      }
    }
    SameTotalsAreTheSame(found, ideal);
  }

  /** What gains the ideal's gains holds all the judgments do above its last place. */
  lemma IdealLeavesNothingAbove(pages: seq<string>, judged: seq<Judgment>)
    requires |pages| <= DEPTH && SameAs(Gains(pages, judged), Ideal(judged))
    ensures var level := At(Ideal(judged), DEPTH - 1); level >= 0.0 && Held(judged, level) <= Above(Gains(pages, judged), level)
  {
    var found, ideal := Gains(pages, judged), Ideal(judged);
    var level := At(ideal, DEPTH - 1);
    IdealFalls(judged);
    CutIsExact(ideal, DEPTH);
    TotalIsBounded(found, level, DEPTH);
    assert Taken(found, DEPTH) == found;
    SameIsWorthTheSame(found, ideal, r => 0.0, DEPTH);
    IdealHolds(judged, level);
  }

  lemma LeftOutIsBelow(pages: seq<string>, judged: seq<Judgment>, i: nat)
    requires Distinct(pages) && |pages| <= DEPTH && Judgments(judged) && SameAs(Gains(pages, judged), Ideal(judged))
    requires i < |judged| && judged[i].page !in pages
    ensures Gain(judged[i].grade) <= At(Ideal(judged), DEPTH - 1)
  {
    var level := At(Ideal(judged), DEPTH - 1);
    var more := pages + [judged[i].page];
    JudgedIsGraded(judged, i);
    IdealLeavesNothingAbove(pages, judged);
    AnswerHoldsNoMore(more, judged, level);
    assert Gains(more, judged) == Gains(pages, judged) + [Gain(judged[i].grade)];
    OneMoreAbove(Gains(pages, judged), Gain(judged[i].grade), level);
  }

  lemma IdealIsBestFirst(pages: seq<string>, judged: seq<Judgment>)
    requires Distinct(pages) && |pages| <= DEPTH && Judgments(judged)
    requires SameAs(Gains(pages, judged), Ideal(judged)) && At(Ideal(judged), 0) > 0.0
    ensures BestFirst(pages, judged)
  {
    var found, ideal := Gains(pages, judged), Ideal(judged);
    SomethingToFind(judged);
    IdealFalls(judged);
    forall i, j | 0 <= i < j < |pages| ensures GradeOf(judged, pages[i]) >= GradeOf(judged, pages[j]) {
      assert At(found, i) == At(ideal, i) && At(found, j) == At(ideal, j);
      FallsAt(ideal, i, j);
      GainDecides(GradeOf(judged, pages[j]), GradeOf(judged, pages[i]));
    }
    forall i | 0 <= i < |judged| && judged[i].page !in pages
      ensures judged[i].grade <= if |pages| == DEPTH then GradeOf(judged, pages[DEPTH - 1]) else 0
    {
      assert At(found, DEPTH - 1) == At(ideal, DEPTH - 1);
      LeftOutIsBelow(pages, judged, i);
      GainDecides(judged[i].grade, if |pages| == DEPTH then GradeOf(judged, pages[DEPTH - 1]) else 0);
    }
  }

  lemma FallsAt(s: seq<real>, i: nat, j: nat)
    requires NoLess(s, 0.0) && (forall i, j :: 0 <= i < j < |s| ==> s[i] >= s[j]) && i < j
    ensures At(s, i) >= At(s, j)
  {
  }

  lemma GainDecides(a: nat, b: nat)
    requires Gain(a) <= Gain(b)
    ensures a <= b
  {
    if b < a {
      GainRises(b, a);
    }
  }

  lemma FirstRank(s: seq<real>, discount: Discount)
    requires discount(0) > 0.0
    ensures Discounted(s, discount, 1) > 0.0 <==> At(s, 0) > 0.0
  {
    var first, worth := At(s, 0), discount(0);
    assert Discounted(s, discount, 1) == Discounted(s, discount, 0) + first * worth;
    NeverNegative(first, worth);
    NeverNegative(-first, worth);
    assert (-first) * worth == -(first * worth);
  }

  /** One rank more, of no more than the first's gain, leaves it as it was. */
  lemma RankLeavesIt(before: real, first: real, gain: real, worth: real)
    requires worth > 0.0 && 0.0 <= gain <= first && (before > 0.0 <==> first > 0.0) && before >= 0.0
    ensures before + gain * worth > 0.0 <==> first > 0.0
    ensures before + gain * worth >= 0.0
  {
    NeverNegative(gain, worth);
  }

  /** Something to find is worth something. */
  lemma {:induction false} BestIsPositive(judged: seq<Judgment>, discount: Discount, n: nat)
    requires Falls(discount) && n > 0
    ensures Discounted(Ideal(judged), discount, n) > 0.0 <==> At(Ideal(judged), 0) > 0.0
  {
    var ideal := Ideal(judged);
    IdealFalls(judged);
    if n == 1 {
      assert 0.0 < discount(1) < discount(0);
      FirstRank(ideal, discount);
    } else {
      assert 0.0 < discount(n) < discount(n - 1);
      BestIsPositive(judged, discount, n - 1);
      DiscountedIsNatural(ideal, discount, n - 1);
      FallsAt(ideal, 0, n - 1);
      RankLeavesIt(Discounted(ideal, discount, n - 1), At(ideal, 0), At(ideal, n - 1), discount(n - 1));
    }
  }

  /**
   * NDCG is one exactly when there is something to find and the answer is the
   * best there is: highest grade first, and nothing better left out.
   */
  lemma NdcgIsOneIffBestFirst(pages: seq<string>, judged: seq<Judgment>, discount: Discount)
    requires Distinct(pages) && |pages| <= DEPTH && Judgments(judged) && Falls(discount)
    ensures Ndcg(pages, judged, discount) == 1.0 <==> BestFirst(pages, judged)
  {
    var xs, ys := Gains(pages, judged), Ideal(judged);
    var found, best := Discounted(xs, discount, DEPTH), Discounted(ys, discount, DEPTH);
    BestIsPositive(judged, discount, DEPTH);
    SomethingToFind(judged);
    FoundIsNoMoreThanBest(pages, judged, discount);
    if BestFirst(pages, judged) {
      BestFirstIsIdeal(pages, judged);
      SameIsWorthTheSame(xs, ys, discount, DEPTH);
      assert At(xs, 0) == At(ys, 0);
      assert pages != [];
      Ratio(pages, judged, discount);
      Share(found, best);
    }
    if Ndcg(pages, judged, discount) == 1.0 {
      Ratio(pages, judged, discount);
      Share(found, best);
      forall k: nat | k <= DEPTH ensures Total(xs, k) <= Total(ys, k) {
        IdealDominates(pages, judged, k);
      }
      WorthTheSameIsTheSame(xs, ys, discount);
      IdealIsBestFirst(pages, judged);
    }
  }
}
