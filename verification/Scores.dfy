/** What a score comes to: a single page worth finding, and when nothing was found. */
module Scores {
  import opened Lists
  import opened Relevance

  /** A page of grade zero gains nothing, and each grade doubles what the one below it gains and one more. */
  lemma GainDoubles(grade: nat)
    ensures Gain(0) == 0.0 && Gain(grade + 1) == 2.0 * Gain(grade) + 1.0
  {
  }

  /** Only the rank at `k` gains anything. */
  predicate OnlyAt(s: seq<real>, k: nat) {
    k < |s| && forall i :: 0 <= i < |s| && i != k ==> s[i] == 0.0
  }

  lemma {:induction false} OnlyThatRankCounts(s: seq<real>, discount: Discount, k: nat, gain: real, n: nat)
    requires OnlyAt(s, k) && s[k] == gain
    ensures Discounted(s, discount, n) == if k < n then gain * discount(k) else 0.0
  {
    if n == 0 {
    } else {
      OnlyThatRankCounts(s, discount, k, gain, n - 1);
    }
  }

  lemma OnePageGains(pages: seq<string>, judgment: Judgment, k: nat)
    requires Distinct(pages) && k < |pages| && pages[k] == judgment.page
    ensures OnlyAt(Gains(pages, [judgment]), k) && Gains(pages, [judgment])[k] == Gain(judgment.grade)
  {
    GainDoubles(0);
    forall i | 0 <= i < |pages|
      ensures GradeOf([judgment], pages[i]) == if i == k then judgment.grade else 0
    {
      assert GradeOf([], pages[i]) == 0;
    }
  }

  lemma OnePageIsIdeal(judgment: Judgment)
    ensures OnlyAt(Ideal([judgment]), 0) && Ideal([judgment])[0] == Gain(judgment.grade)
  {
    var grades := Grades([judgment]);
    assert grades == [judgment.grade];
    assert SortDown(grades) == Insert(SortDown([]), judgment.grade) == [judgment.grade];
  }

  lemma RatioOfDiscounts(gain: real, at: real, first: real, found: real, best: real)
    requires gain > 0.0 && first > 0.0 && found == gain * at && best == gain * first
    ensures best > 0.0 && found / best == at / first
  {
    var share := at / first;
    assert share * first == at;
    assert (share * first) * gain == share * (gain * first);
  }

  lemma OneRankRatio(found: seq<real>, ideal: seq<real>, discount: Discount, k: nat, n: nat, gain: real)
    requires OnlyAt(found, k) && found[k] == gain && OnlyAt(ideal, 0) && ideal[0] == gain
    requires gain > 0.0 && discount(0) > 0.0 && k < n
    ensures var best := Discounted(ideal, discount, 1);
            best > 0.0 && Discounted(found, discount, n) / best == discount(k) / discount(0)
  {
    var sum, best := OneRankSums(found, ideal, discount, k, n, gain);
    RatioOfDiscounts(gain, discount(k), discount(0), sum, best);
  }

  lemma OneRankSums(found: seq<real>, ideal: seq<real>, discount: Discount, k: nat, n: nat, gain: real)
    returns (sum: real, best: real)
    requires OnlyAt(found, k) && found[k] == gain && OnlyAt(ideal, 0) && ideal[0] == gain && k < n
    ensures sum == Discounted(found, discount, n) == gain * discount(k)
    ensures best == Discounted(ideal, discount, 1) == gain * discount(0)
  {
    sum, best := Discounted(found, discount, n), Discounted(ideal, discount, 1);
    OnlyThatRankCounts(found, discount, k, gain, n);
    OnlyThatRankCounts(ideal, discount, 0, gain, 1);
  }

  /** The score is the ratio of the two sums, the best one over as many ranks as there are judgments, `DEPTH` at most. */
  lemma ScoreIsTheRatio(pages: seq<string>, judged: seq<Judgment>, discount: Discount, n: nat, found: real, best: real)
    requires pages != [] && n == if |judged| < 10 then |judged| else 10
    requires found == Discounted(Gains(pages, judged), discount, |pages|)
    requires best == Discounted(Ideal(judged), discount, n) && best > 0.0
    ensures Ndcg(pages, judged, discount) == found / best
  {
  }

  /** Where one page is worth finding, an answer scores the discount of the rank it is found at, over the first's. */
  lemma OnePageScoresItsRank(pages: seq<string>, judgment: Judgment, discount: Discount, k: nat)
    requires Distinct(pages) && Falls(discount)
    requires k < |pages| && pages[k] == judgment.page && judgment.grade > 0
    ensures discount(0) > 0.0 && Ndcg(pages, [judgment], discount) == discount(k) / discount(0)
  {
    var found, ideal := Gains(pages, [judgment]), Ideal([judgment]);
    GainDoubles(0);
    GainRises(0, judgment.grade);
    assert 0.0 < discount(1) < discount(0);
    OnePageGains(pages, judgment, k);
    OnePageIsIdeal(judgment);
    OneRankRatio(found, ideal, discount, k, |pages|, found[k]);
    ScoreIsTheRatio(pages, [judgment], discount, 1, Discounted(found, discount, |pages|), Discounted(ideal, discount, 1));
  }

  /** A sum of gains is more than nothing exactly when some rank of it gains. */
  lemma {:induction false} SumIsPositiveIff(s: seq<real>, discount: Discount, n: nat)
    requires Falls(discount) && NoLess(s, 0.0) && n <= |s|
    ensures Discounted(s, discount, n) > 0.0 <==> exists i :: 0 <= i < n && s[i] > 0.0
    ensures Discounted(s, discount, n) >= 0.0
  {
    if n == 0 {
    } else {
      SumIsPositiveIff(s, discount, n - 1);
      assert 0.0 < discount(n) < discount(n - 1);
      NeverNegative(s[n - 1], discount(n - 1));
      NeverNegative(0.0 - s[n - 1], discount(n - 1));
      assert (0.0 - s[n - 1]) * discount(n - 1) == 0.0 - s[n - 1] * discount(n - 1);
    }
  }

  lemma GainsIff(pages: seq<string>, judged: seq<Judgment>, i: nat)
    requires i < |pages|
    ensures Gains(pages, judged)[i] > 0.0 <==> GradeOf(judged, pages[i]) > 0
  {
    GainDoubles(0);
    GainRises(0, GradeOf(judged, pages[i]));
  }

  lemma {:induction false} GradedIsJudged(judged: seq<Judgment>, page: string) returns (i: nat)
    requires GradeOf(judged, page) > 0
    ensures i < |judged| && judged[i].page == page && judged[i].grade == GradeOf(judged, page)
  {
    if judged[|judged| - 1].page == page {
      i := |judged| - 1;
    } else {
      i := GradedIsJudged(judged[..|judged| - 1], page);
    }
  }

  lemma FoundMeansBest(judged: seq<Judgment>, discount: Discount, page: string)
    requires Falls(discount) && GradeOf(judged, page) > 0
    ensures Discounted(Ideal(judged), discount, if |judged| < DEPTH then |judged| else DEPTH) > 0.0
  {
    var i := GradedIsJudged(judged, page);
    SomethingToFind(judged);
    IdealFalls(judged);
    SumIsPositiveIff(Ideal(judged), discount, if |judged| < DEPTH then |judged| else DEPTH);
  }

  lemma Quotient(found: real, best: real)
    requires found >= 0.0 && best > 0.0
    ensures found / best == 0.0 <==> found == 0.0
  {
    assert (found / best) * best == found;
  }

  /** An answer scores nothing exactly when no page of it is worth finding. */
  lemma ScoresNothingIff(pages: seq<string>, judged: seq<Judgment>, discount: Discount)
    requires Falls(discount)
    ensures Ndcg(pages, judged, discount) == 0.0 <==> forall i :: 0 <= i < |pages| ==> GradeOf(judged, pages[i]) == 0
  {
    if pages != [] {
      var gains := Gains(pages, judged);
      var found := Discounted(gains, discount, |pages|);
      var best := Discounted(Ideal(judged), discount, if |judged| < DEPTH then |judged| else DEPTH);
      SumIsPositiveIff(gains, discount, |pages|);
      forall i | 0 <= i < |pages|
        ensures gains[i] > 0.0 <==> GradeOf(judged, pages[i]) > 0
      {
        GainsIff(pages, judged, i);
      }
      if i :| 0 <= i < |pages| && GradeOf(judged, pages[i]) > 0 {
        FoundMeansBest(judged, discount, pages[i]);
      }
      if best > 0.0 {
        Quotient(found, best);
      }
    }
  }
}
