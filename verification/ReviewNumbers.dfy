/** What the numbers of a review score say: F1 as a share of all findings and labels, and what
    a full blocker recall stands for. */
module ReviewNumbers {
  import opened Optional
  import opened Ordering
  import opened ReviewMatching
  import opened ReviewScoring

  /** A heavier severity weighs more, and blocking ones weigh more than the rest. */
  lemma {:induction false} SeveritiesWeighInOrder(s: Severity, t: Severity)
    ensures Weight(s) == Weight(t) <==> s == t
    ensures IsBlocking(s) <==> Weight(s) > Weight(Medium)
    ensures Weight(Critical) > Weight(High) > Weight(Medium) > Weight(Low) > 0.0
  {
  }

  lemma {:induction false} CancelProduct(k: real, x: real, y: real)
    requires k != 0.0 && k * x == k * y
    ensures x == y
  {
  }

  lemma {:induction false} QuotientIs(f: real, x: real, y: real)
    requires y > 0.0 && f * y == x
    ensures Ratio(x, y) == Some(f)
  {
    RatioTimes(x, y);
    CancelProduct(y, f, Ratio(x, y).value);
  }

  lemma {:induction false} HarmonicOfQuotients(m: real, x: real, y: real, p: real, r: real, f: real)
    requires m > 0.0 && x > 0.0 && y > 0.0 && p * x == m && r * y == m && f * (p + r) == 2.0 * (p * r)
    ensures f * (x + y) == 2.0 * m
  {
    assert (p * r) * (x * y) == (p * x) * (r * y) == m * m;
    assert (p + r) * (x * y) == (p * x) * y + (r * y) * x == m * (x + y);
    assert f * (p + r) * (x * y) == f * ((p + r) * (x * y)) == f * (m * (x + y)) == m * (f * (x + y));
    assert 2.0 * (p * r) * (x * y) == 2.0 * ((p * r) * (x * y)) == m * (2.0 * m);
    CancelProduct(m, f * (x + y), 2.0 * m);
  }

  /** The harmonic mean of m/x and m/y is 2m/(x + y), also where one of them is missing. */
  lemma {:induction false} FScoreOfShares(m: real, x: real, y: real)
    requires 0.0 <= m <= x && m <= y && y > 0.0
    ensures FScore(Ratio(m, x), Ratio(m, y), true) == Ratio(2.0 * m, x + y)
  {
    if m == 0.0 {
      RatioTimes(m, y);
      if x > 0.0 { RatioTimes(m, x); }
      RatioTimes(2.0 * m, x + y);
      assert Ratio(m, y) == Some(0.0) && Ratio(2.0 * m, x + y) == Some(0.0) && (x > 0.0 ==> Ratio(m, x) == Some(0.0));
    } else {
      RatioTimes(m, x);
      RatioTimes(m, y);
      var p, r := Ratio(m, x), Ratio(m, y);
      assert p.value > 0.0 && r.value > 0.0;
      HarmonicRatio(p, r);
      var f := FScore(p, r, true).value;
      HarmonicOfQuotients(m, x, y, p.value, r.value, f);
      QuotientIs(f, 2.0 * m, x + y);
    }
  }

  lemma {:induction false} HarmonicRatio(p: Option<real>, r: Option<real>)
    requires p.Some? && r.Some? && p.value + r.value != 0.0
    ensures FScore(p, r, true).Some? && FScore(p, r, true).value * (p.value + r.value) == 2.0 * (p.value * r.value)
  {
    RatioTimes(2.0 * (p.value * r.value), p.value + r.value);
  }

  lemma {:induction false} RatioTimes(x: real, y: real)
    requires y != 0.0
    ensures Ratio(x, y).Some? && Ratio(x, y).value * y == x
  {
  }

  ghost predicate PairsFit(pairs: seq<(nat, nat)>, actuals: nat, expecteds: nat) {
    DistinctPairs(pairs) && forall i :: 0 <= i < |pairs| ==> pairs[i].0 < actuals && pairs[i].1 < expecteds
  }

  /** The sorted lists and the pairs that a score is made of. */
  lemma {:induction false} ScoreParts(verdict: Verdict, actual: seq<Finding>, expected: seq<Label>)
    ensures var sa, se := Sort(actual, FindingKey), Sort(expected, LabelKey);
      && |sa| == |actual| && |se| == |expected| && PairsFit(Pairs(sa, se), |sa|, |se|)
      && ScoreOf(verdict, actual, expected) == ScorePairs(verdict, sa, se, Pairs(sa, se))
  {
    var sa, se := Sort(actual, FindingKey), Sort(expected, LabelKey);
    assert |sa| == |multiset(sa)| == |actual| && |se| == |multiset(se)| == |expected|;
    PairsAreMaximum(sa, se, {});
    var pairs := Pairs(sa, se);
    forall i, j | 0 <= i < j < |pairs| ensures pairs[i].0 != pairs[j].0 && pairs[i].1 != pairs[j].1 {}
  }

  /** Twice the pairs among all findings and labels, if there are labels. */
  function F1Share(pairs: int, actuals: nat, expecteds: nat): Option<real> {
    if expecteds == 0 then None else Ratio(2.0 * pairs as real, (actuals + expecteds) as real)
  }

  lemma {:induction false} F1OfCounts(pairs: nat, actuals: nat, expecteds: nat)
    requires pairs <= actuals && pairs <= expecteds
    ensures FScore(Ratio(pairs as real, actuals as real), Ratio(pairs as real, expecteds as real), expecteds > 0)
            == F1Share(pairs, actuals, expecteds)
  {
    if expecteds > 0 {
      FScoreOfShares(pairs as real, actuals as real, expecteds as real);
      assert actuals as real + expecteds as real == (actuals + expecteds) as real;
    }
  }

  lemma {:induction false} F1Field(verdict: Verdict, actual: seq<Finding>, expected: seq<Label>, pairs: seq<(nat, nat)>)
    requires PairsFit(pairs, |actual|, |expected|)
    ensures ScorePairs(verdict, actual, expected, pairs).f1 ==
              FScore(Ratio(|pairs| as real, |actual| as real), Ratio(|pairs| as real, |expected| as real), |expected| > 0)
    ensures var s := ScorePairs(verdict, actual, expected, pairs);
      s.truePositives == |pairs| && s.falsePositives == |actual| - |pairs| && s.falseNegatives == |expected| - |pairs|
  {
    var tp := |pairs|;
    assert tp + (|actual| - tp) == |actual| && tp + (|expected| - tp) == |expected|;
  }

  lemma {:induction false} F1OfPairs(verdict: Verdict, actual: seq<Finding>, expected: seq<Label>, pairs: seq<(nat, nat)>)
    requires PairsFit(pairs, |actual|, |expected|)
    ensures var s := ScorePairs(verdict, actual, expected, pairs);
      && s.truePositives + s.falsePositives == |actual| && s.truePositives + s.falseNegatives == |expected|
      && s.truePositives >= 0 && s.falsePositives >= 0 && s.falseNegatives >= 0
      && s.f1 == F1Share(s.truePositives, |actual|, |expected|)
  {
    F1Field(verdict, actual, expected, pairs);
    PairsFitBoth(pairs, |actual|, |expected|);
    F1OfCounts(|pairs|, |actual|, |expected|);
  }

  /** With labels, F1 is twice the pairs among all findings and labels; without, it is missing. */
  lemma {:induction false} F1IsShareOfAll(verdict: Verdict, actual: seq<Finding>, expected: seq<Label>)
    ensures var s := ScoreOf(verdict, actual, expected);
      && s.truePositives + s.falsePositives == |actual| && s.truePositives + s.falseNegatives == |expected|
      && s.truePositives >= 0 && s.falsePositives >= 0 && s.falseNegatives >= 0
      && s.f1 == F1Share(s.truePositives, |actual|, |expected|)
  {
    var sa, se := Sort(actual, FindingKey), Sort(expected, LabelKey);
    ScoreParts(verdict, actual, expected);
    F1OfPairs(verdict, sa, se, Pairs(sa, se));
    assert se == [] <==> expected == [];
  }

  /** The weighted F1 is the same share of the weights: earned twice, over what the unmatched
      findings weigh, what was earned and what the labels weigh. */
  lemma {:induction false} WeightedF1IsShareOfWeight(pairs: seq<(nat, nat)>, a: seq<Severity>, e: seq<Severity>)
    requires PairsFit(pairs, |a|, |e|) && e != []
    ensures ExtraWeight(pairs, a) >= 0.0 && LabelWeight(e) > 0.0 && MatchedWeight(pairs, a, e) >= 0.0
    ensures WeightedF1(pairs, a, e) ==
              WeightShare(MatchedWeight(pairs, a, e), ExtraWeight(pairs, a), LabelWeight(e))
  {
    EarnedWeight(pairs, a, e);
    SharesOfWeight(MatchedWeight(pairs, a, e), ExtraWeight(pairs, a), LabelWeight(e));
  }

  function WeightShare(earned: real, extra: real, total: real): Option<real> {
    Ratio(2.0 * earned, earned + extra + total)
  }

  lemma {:induction false} SharesOfWeight(earned: real, extra: real, total: real)
    requires 0.0 <= earned <= total && extra >= 0.0 && total > 0.0
    ensures FScore(Ratio(earned, earned + extra), Ratio(earned, total), true) == WeightShare(earned, extra, total)
  {
    FScoreOfShares(earned, earned + extra, total);
  }

  /** What the unmatched findings weigh, and what all labels weigh. */
  function ExtraWeight(pairs: seq<(nat, nat)>, a: seq<Severity>): real {
    WeightOf(a, Range(|a|) - UsedActual(pairs))
  }

  function LabelWeight(e: seq<Severity>): real {
    WeightOf(e, Range(|e|))
  }

  /** A share that is missing of nothing, and gives the part back when multiplied. */
  ghost predicate IsShare(share: Option<real>, part: real, whole: real) {
    (share.None? <==> whole == 0.0) && (share.Some? ==> share.value * whole == part)
  }

  lemma {:induction false} RatioIsShare(part: real, whole: real)
    ensures IsShare(Ratio(part, whole), part, whole)
  {
    if whole != 0.0 { RatioTimes(part, whole); }
  }

  lemma {:induction false} RatioFields(verdict: Verdict, actual: seq<Finding>, expected: seq<Label>, pairs: seq<(nat, nat)>)
    requires PairsFit(pairs, |actual|, |expected|)
    ensures var s := ScorePairs(verdict, actual, expected, pairs);
      s.precision == Ratio(|pairs| as real, |actual| as real) && s.recall == Ratio(|pairs| as real, |expected| as real)
    ensures var s, a, e := ScorePairs(verdict, actual, expected, pairs), ActualSeverities(actual), LabelSeverities(expected);
      var earned := MatchedWeight(pairs, a, e);
      s.weightedPrecision == Ratio(earned, earned + ExtraWeight(pairs, a)) && s.weightedRecall == Ratio(earned, LabelWeight(e))
  {
    var tp := |pairs|;
    assert tp + (|actual| - tp) == |actual| && tp + (|expected| - tp) == |expected|;
  }

  /** Precision is the share of the findings that are paired, recall that of the labels. */
  lemma {:induction false} PrecisionAndRecall(verdict: Verdict, actual: seq<Finding>, expected: seq<Label>)
    ensures var s := ScoreOf(verdict, actual, expected);
      IsShare(s.precision, s.truePositives as real, |actual| as real) && IsShare(s.recall, s.truePositives as real, |expected| as real)
  {
    var sa, se := Sort(actual, FindingKey), Sort(expected, LabelKey);
    ScoreParts(verdict, actual, expected);
    RatioFields(verdict, sa, se, Pairs(sa, se));
    F1Field(verdict, sa, se, Pairs(sa, se));
    RatioIsShare(|Pairs(sa, se)| as real, |sa| as real);
    RatioIsShare(|Pairs(sa, se)| as real, |se| as real);
  }

  lemma {:induction false} BothAreShares(s: Score, earned: real, claimed: real, total: real)
    requires s.weightedPrecision == Ratio(earned, claimed) && s.weightedRecall == Ratio(earned, total)
    ensures WeightedShares(s, earned, claimed, total)
  {
    RatioIsShare(earned, claimed);
    RatioIsShare(earned, total);
  }

  ghost predicate WeightedShares(s: Score, earned: real, claimed: real, total: real) {
    IsShare(s.weightedPrecision, earned, claimed) && IsShare(s.weightedRecall, earned, total)
  }

  /** The weighted forms are the shares of what the pairs earned in what was earned or
      invented, and in what all labels weigh. */
  lemma {:induction false} WeightedPrecisionAndRecall(verdict: Verdict, actual: seq<Finding>, expected: seq<Label>, pairs: seq<(nat, nat)>)
    requires PairsFit(pairs, |actual|, |expected|)
    ensures var a, e := ActualSeverities(actual), LabelSeverities(expected);
      WeightedShares(ScorePairs(verdict, actual, expected, pairs), MatchedWeight(pairs, a, e),
                     MatchedWeight(pairs, a, e) + ExtraWeight(pairs, a), LabelWeight(e))
  {
    var a, e, s := ActualSeverities(actual), LabelSeverities(expected), ScorePairs(verdict, actual, expected, pairs);
    var earned, extra, total := MatchedWeight(pairs, a, e), ExtraWeight(pairs, a), LabelWeight(e);
    assert s.weightedPrecision == Ratio(earned, earned + extra) && s.weightedRecall == Ratio(earned, total) by {
      RatioFields(verdict, actual, expected, pairs);
    }
    BothAreShares(s, earned, earned + extra, total);
  }

  /** Every blocking label is paired with a blocking finding. */
  ghost predicate BlockersFound(actual: seq<Finding>, expected: seq<Label>, pairs: seq<(nat, nat)>) {
    forall e: nat :: e < |expected| && IsBlocking(expected[e].severity) ==> FoundByBlocking(actual, pairs, e)
  }

  ghost predicate FoundByBlocking(actual: seq<Finding>, pairs: seq<(nat, nat)>, e: nat) {
    exists i :: 0 <= i < |pairs| && pairs[i].1 == e && pairs[i].0 < |actual| && IsBlocking(actual[pairs[i].0].severity)
  }

  lemma {:induction false} FullPart(part: set<nat>, all: set<nat>)
    requires part <= all
    ensures |part| <= |all| && (|part| == |all| <==> part == all)
  {
    assert all == part + (all - part);
    if |part| == |all| { assert all - part == {}; }
  }

  lemma {:induction false} FullBlockerRecallOfPairs(verdict: Verdict, actual: seq<Finding>, expected: seq<Label>, pairs: seq<(nat, nat)>)
    requires PairsFit(pairs, |actual|, |expected|)
    ensures var s := ScorePairs(verdict, actual, expected, pairs);
      && (s.blockerRecall == None <==> forall e :: 0 <= e < |expected| ==> !IsBlocking(expected[e].severity))
      && (s.blockerRecall == Some(1.0) <==> s.blockerRecall != None && BlockersFound(actual, expected, pairs))
  {
    var blockers, found := Blockers(expected), MatchedByBlocking(pairs, actual);
    FullPart(blockers * found, blockers);
    RatioBounds(|blockers * found| as real, |blockers| as real);
    forall e: nat ensures e in found <==> FoundByBlocking(actual, pairs, e) {}
    assert blockers * found == blockers <==> blockers <= found;
    assert blockers == {} <==> forall e :: 0 <= e < |expected| ==> !IsBlocking(expected[e].severity) by {
      forall e | 0 <= e < |expected| ensures e in blockers <==> IsBlocking(expected[e].severity) {}
    }
  }

  /** Blocker recall is missing exactly without blocking labels, and 1 exactly when each of
      them is found by a finding that is blocking itself. */
  lemma {:induction false} FullBlockerRecall(verdict: Verdict, actual: seq<Finding>, expected: seq<Label>)
    ensures var sa, se, s := Sort(actual, FindingKey), Sort(expected, LabelKey), ScoreOf(verdict, actual, expected);
      && (s.blockerRecall == None <==> forall e :: 0 <= e < |se| ==> !IsBlocking(se[e].severity))
      && (s.blockerRecall == Some(1.0) <==> s.blockerRecall != None && BlockersFound(sa, se, Pairs(sa, se)))
  {
    var sa, se := Sort(actual, FindingKey), Sort(expected, LabelKey);
    ScoreParts(verdict, actual, expected);
    FullBlockerRecallOfPairs(verdict, sa, se, Pairs(sa, se));
  }

  /** A review is judged right exactly when it approves a clean change, asks for changes where
      a label is blocking, and comments otherwise; a clean pass is the approval of a clean
      change without a finding. */
  lemma {:induction false} VerdictIsRight(verdict: Verdict, actual: seq<Finding>, expected: seq<Label>)
    ensures var s := ScoreOf(verdict, actual, expected);
      && (s.verdictCorrect <==>
            if AnyBlocking(expected) then verdict == RequestChanges
            else verdict == (if expected == [] then Approve else Comment))
      && (s.cleanPass <==> s.verdictCorrect && expected == [] && s.falsePositives == 0)
  {
    var sa, se := Sort(actual, FindingKey), Sort(expected, LabelKey);
    ScoreParts(verdict, actual, expected);
    VerdictOfPairs(verdict, sa, se, Pairs(sa, se));
    SortedSeverities(expected);
    assert se == [] <==> expected == [];
  }

  lemma {:induction false} VerdictOfPairs(verdict: Verdict, actual: seq<Finding>, expected: seq<Label>, pairs: seq<(nat, nat)>)
    requires PairsFit(pairs, |actual|, |expected|)
    ensures var s := ScorePairs(verdict, actual, expected, pairs);
      && (s.verdictCorrect <==>
            if AnyBlocking(expected) then verdict == RequestChanges
            else verdict == (if expected == [] then Approve else Comment))
      && (s.cleanPass <==> s.verdictCorrect && expected == [] && s.falsePositives == 0)
  {
    F1Field(verdict, actual, expected, pairs);
    PairsFitBoth(pairs, |actual|, |expected|);
  }

  predicate AnyBlocking(labels: seq<Label>) {
    exists i :: 0 <= i < |labels| && IsBlocking(labels[i].severity)
  }

  lemma {:induction false} SameLabelsBlock(labels: seq<Label>, others: seq<Label>)
    requires multiset(labels) == multiset(others) && AnyBlocking(labels)
    ensures AnyBlocking(others)
  {
    var i :| 0 <= i < |labels| && IsBlocking(labels[i].severity);
    assert labels[i] in multiset(others);
    var j :| 0 <= j < |others| && others[j] == labels[i];
  }

  lemma {:induction false} SortedSeverities(expected: seq<Label>)
    ensures AnyBlocking(Sort(expected, LabelKey)) <==> AnyBlocking(expected)
  {
    if AnyBlocking(expected) { SameLabelsBlock(expected, Sort(expected, LabelKey)); }
    if AnyBlocking(Sort(expected, LabelKey)) { SameLabelsBlock(Sort(expected, LabelKey), expected); }
  }
}
