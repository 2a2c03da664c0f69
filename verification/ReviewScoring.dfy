/** `score_review`: findings against hidden labels, matched by `ReviewMatching` and scored
    by severity weight. Scores are exact rationals before the final rounding to six digits. */
module ReviewScoring {
  import opened Optional
  import opened Ordering
  import opened ReviewMatching

  datatype Severity = Critical | High | Medium | Low

  datatype Verdict = Approve | Comment | RequestChanges

  /** Strings are columns of code points. */
  datatype Finding = Finding(
    id: Column, severity: Severity, path: Column, line: int, endLine: int, category: Column,
    scenario: Column, evidence: Column, recommendation: Column, blocking: bool)

  datatype Label = Label(
    id: Column, severity: Severity, path: Column, lineStart: int, lineEnd: int, category: Column)

  function Weight(s: Severity): (w: real)
    ensures w > 0.0
  {
    match s
    case Critical => 8.0
    case High => 5.0
    case Medium => 2.0
    case Low => 1.0
  }

  predicate IsBlocking(s: Severity) {
    s.Critical? || s.High?
  }

  /** Severity names sort alphabetically: critical, high, low, medium. */
  function SeverityColumn(s: Severity): Column {
    match s
    case Critical => [0]
    case High => [1]
    case Low => [2]
    case Medium => [3]
  }

  /** `astuple(finding)`. */
  function FindingKey(f: Finding): Key {
    [f.id, SeverityColumn(f.severity), f.path, [f.line], [f.endLine], f.category,
     f.scenario, f.evidence, f.recommendation, [if f.blocking then 1 else 0]]
  }

  function LabelKey(l: Label): Key {
    [l.id, SeverityColumn(l.severity), l.path, [l.lineStart], [l.lineEnd], l.category]
  }

  predicate Overlaps(actual: Finding, expected: Label) {
    actual.line <= expected.lineEnd && actual.endLine >= expected.lineStart
  }

  predicate Compatible(actual: Finding, expected: Label) {
    actual.path == expected.path && Overlaps(actual, expected)
  }

  function Abs(x: int): int {
    if x < 0 then -x else x
  }

  /** `_match_score`: category agreement, severity agreement, closeness of the first lines. */
  function MatchScore(actual: Finding, expected: Label): Option<(int, int, int)> {
    if !Compatible(actual, expected) then None
    else Some((if actual.category == expected.category then 1 else 0,
               if actual.severity == expected.severity then 1 else 0,
               -Abs(actual.line - expected.lineStart)))
  }

  /** At most one candidate for a pair of indices. */
  function Entry(actual: seq<Finding>, expected: seq<Label>, i: nat, j: nat): seq<Candidate>
    requires i < |actual| && j < |expected|
  {
    match MatchScore(actual[i], expected[j])
    case None => []
    case Some((category, severity, closeness)) =>
      [Candidate([[category], [severity], [closeness], [-(expected[j].lineEnd - expected[j].lineStart)],
                  actual[i].path, actual[i].category, [actual[i].line]], i, j)]
  }

  /** The candidates of every actual before i, and of actual i against the first j labels. */
  function CandidatesUpTo(actual: seq<Finding>, expected: seq<Label>, i: nat, j: nat): seq<Candidate>
    requires i <= |actual| && j <= |expected| && (j > 0 ==> i < |actual|)
    decreases i, j
  {
    if j > 0 then CandidatesUpTo(actual, expected, i, j - 1) + Entry(actual, expected, i, j - 1)
    else if i > 0 then CandidatesUpTo(actual, expected, i - 1, |expected|)
    else []
  }

  function CandidateKey(c: Candidate): Key {
    c.score + [[c.actual], [c.expected]]
  }

  function Reverse<T>(s: seq<T>): (r: seq<T>)
    ensures multiset(r) == multiset(s)
  {
    if s == [] then []
    else
      assert s == [s[0]] + s[1..];
      Reverse(s[1..]) + [s[0]]
  }

  /** `candidates.sort(reverse=True)`; ties cannot occur, the two indices are in the key. */
  function Ranked(actual: seq<Finding>, expected: seq<Label>): seq<Candidate> {
    Reverse(Sort(CandidatesUpTo(actual, expected, |actual|, 0), CandidateKey))
  }

  /** The matching `score_review` works with, for lists already sorted. */
  function Pairs(actual: seq<Finding>, expected: seq<Label>): seq<(nat, nat)> {
    Assigned(Ranked(actual, expected))
  }

  ghost predicate PairsInRange(pairs: seq<(nat, nat)>, actual: seq<Finding>, expected: seq<Label>) {
    forall i :: 0 <= i < |pairs| ==> pairs[i].0 < |actual| && pairs[i].1 < |expected|
  }

  lemma {:induction false} CandidatesAreCompatiblePairs(actual: seq<Finding>, expected: seq<Label>, i: nat, j: nat, c: Candidate)
    requires i <= |actual| && j <= |expected| && (j > 0 ==> i < |actual|)
    requires c in CandidatesUpTo(actual, expected, i, j)
    ensures c.actual < |actual| && c.expected < |expected| && Compatible(actual[c.actual], expected[c.expected])
    decreases i, j
  {
    if j > 0 {
      if c !in Entry(actual, expected, i, j - 1) {
        CandidatesAreCompatiblePairs(actual, expected, i, j - 1, c);
      }
    } else if i > 0 {
      CandidatesAreCompatiblePairs(actual, expected, i - 1, |expected|, c);
    }
  }

  lemma {:induction false} CompatiblePairsAreCandidates(actual: seq<Finding>, expected: seq<Label>, i: nat, j: nat, a: nat, e: nat)
    requires i <= |actual| && j <= |expected| && (j > 0 ==> i < |actual|)
    requires a < |actual| && e < |expected| && Compatible(actual[a], expected[e])
    requires a < i || (a == i && e < j)
    ensures exists c :: c in CandidatesUpTo(actual, expected, i, j) && c.actual == a && c.expected == e
    decreases i, j
  {
    if j > 0 {
      if a == i && e == j - 1 {
        var entry := Entry(actual, expected, i, j - 1);
        assert entry[0] in CandidatesUpTo(actual, expected, i, j);
      } else {
        CompatiblePairsAreCandidates(actual, expected, i, j - 1, a, e);
      }
    } else {
      CompatiblePairsAreCandidates(actual, expected, i - 1, |expected|, a, e);
    }
  }

  /** The edges handed to the matcher are exactly the compatible index pairs. */
  lemma EdgesAreCompatiblePairs(actual: seq<Finding>, expected: seq<Label>, a: nat, e: nat)
    ensures Edge(EdgesOf(Ranked(actual, expected)), a, e)
       <==> a < |actual| && e < |expected| && Compatible(actual[a], expected[e])
  {
    var all := CandidatesUpTo(actual, expected, |actual|, 0);
    var ranked := Ranked(actual, expected);
    EdgesAreCandidates(ranked, a, e);
    assert multiset(ranked) == multiset(all);
    if Edge(EdgesOf(ranked), a, e) {
      var k :| 0 <= k < |ranked| && ranked[k].actual == a && ranked[k].expected == e;
      assert ranked[k] in multiset(all);
      CandidatesAreCompatiblePairs(actual, expected, |actual|, 0, ranked[k]);
    }
    if a < |actual| && e < |expected| && Compatible(actual[a], expected[e]) {
      CompatiblePairsAreCandidates(actual, expected, |actual|, 0, a, e);
      var c :| c in all && c.actual == a && c.expected == e;
      assert c in multiset(ranked);
      var k :| 0 <= k < |ranked| && ranked[k] == c;
    }
  }

  /** A set of index pairs that match by path and lines and use no finding or label twice. */
  ghost predicate IsReviewMatching(actual: seq<Finding>, expected: seq<Label>, n: set<(nat, nat)>) {
    && (forall p :: p in n ==> p.0 < |actual| && p.1 < |expected| && Compatible(actual[p.0], expected[p.1]))
    && (forall p, q :: p in n && q in n && (p.0 == q.0 || p.1 == q.1) ==> p == q)
  }

  /** The scored pairs are compatible, use nothing twice, and no other matching of the same
      findings against the same labels has more of them. */
  lemma PairsAreMaximum(actual: seq<Finding>, expected: seq<Label>, n: set<(nat, nat)>)
    requires IsReviewMatching(actual, expected, n)
    ensures PairsInRange(Pairs(actual, expected), actual, expected)
    ensures forall i {:trigger Pairs(actual, expected)[i]} :: 0 <= i < |Pairs(actual, expected)| ==>
              Compatible(actual[Pairs(actual, expected)[i].0], expected[Pairs(actual, expected)[i].1])
    ensures forall i, j :: 0 <= i < j < |Pairs(actual, expected)| ==>
              Pairs(actual, expected)[i].0 != Pairs(actual, expected)[j].0 && Pairs(actual, expected)[i].1 != Pairs(actual, expected)[j].1
    ensures |n| <= |Pairs(actual, expected)|
  {
    var edges := EdgesOf(Ranked(actual, expected));
    forall p | p in n ensures Edge(edges, p.0, p.1) {
      EdgesAreCompatiblePairs(actual, expected, p.0, p.1);
    }
    AssignPairsIsMaximumMatching(Ranked(actual, expected), n);
    var pairs := Pairs(actual, expected);
    forall i | 0 <= i < |pairs|
      ensures pairs[i].0 < |actual| && pairs[i].1 < |expected| && Compatible(actual[pairs[i].0], expected[pairs[i].1])
    {
      EdgesAreCompatiblePairs(actual, expected, pairs[i].0, pairs[i].1);
    }
  }

  // ---- sums -----------------------------------------------------------------------------

  /** Total weight of the positions in `keep`. */
  function WeightOf(severities: seq<Severity>, keep: set<nat>): (w: real)
    ensures w >= 0.0
  {
    if severities == [] then 0.0
    else
      var n := |severities| - 1;
      WeightOf(severities[..n], keep) + if n in keep then Weight(severities[n]) else 0.0
  }

  function ActualSeverities(actual: seq<Finding>): (r: seq<Severity>)
    ensures |r| == |actual| && forall i :: 0 <= i < |r| ==> r[i] == actual[i].severity
  {
    seq(|actual|, i requires 0 <= i < |actual| => actual[i].severity)
  }

  function LabelSeverities(expected: seq<Label>): (r: seq<Severity>)
    ensures |r| == |expected| && forall i :: 0 <= i < |r| ==> r[i] == expected[i].severity
  {
    seq(|expected|, i requires 0 <= i < |expected| => expected[i].severity)
  }

  function Range(n: nat): (r: set<nat>)
    ensures |r| == n && forall i: nat :: i in r <==> i < n
  {
    if n == 0 then {} else Range(n - 1) + {n - 1}
  }

  function Min(x: real, y: real): real {
    if x <= y then x else y
  }

  /** Each matched pair earns the smaller of its two weights. */
  function MatchedWeight(pairs: seq<(nat, nat)>, a: seq<Severity>, e: seq<Severity>): real
    requires forall i :: 0 <= i < |pairs| ==> pairs[i].0 < |a| && pairs[i].1 < |e|
  {
    if pairs == [] then 0.0
    else
      var p := pairs[|pairs| - 1];
      MatchedWeight(pairs[..|pairs| - 1], a, e) + Min(Weight(a[p.0]), Weight(e[p.1]))
  }

  function UsedActual(pairs: seq<(nat, nat)>): set<nat> {
    set i | 0 <= i < |pairs| :: pairs[i].0
  }

  function UsedExpected(pairs: seq<(nat, nat)>): set<nat> {
    set i | 0 <= i < |pairs| :: pairs[i].1
  }

  lemma {:induction false} WeightOfAdd(s: seq<Severity>, keep: set<nat>, k: nat)
    requires k < |s| && k !in keep
    ensures WeightOf(s, keep + {k}) == WeightOf(s, keep) + Weight(s[k])
  {
    var n := |s| - 1;
    if k == n {
      WeightOfSame(s[..n], keep, keep + {k});
    } else {
      WeightOfAdd(s[..n], keep, k);
    }
  }

  lemma {:induction false} WeightOfSame(s: seq<Severity>, k1: set<nat>, k2: set<nat>)
    requires forall i :: 0 <= i < |s| ==> (i in k1 <==> i in k2)
    ensures WeightOf(s, k1) == WeightOf(s, k2)
  {
    if s != [] { WeightOfSame(s[..|s| - 1], k1, k2); }
  }

  /** Weight splits over a set of positions and its complement, and vanishes only on no position. */
  lemma {:induction false} WeightOfSplit(s: seq<Severity>, keep: set<nat>)
    ensures WeightOf(s, keep) + WeightOf(s, Range(|s|) - keep) == WeightOf(s, Range(|s|))
    ensures WeightOf(s, keep) == 0.0 <==> forall i :: 0 <= i < |s| ==> i !in keep
  {
    if s != [] {
      var n := |s| - 1;
      WeightOfSplit(s[..n], keep);
      WeightOfSame(s[..n], Range(|s|) - keep, Range(n) - keep);
      WeightOfSame(s[..n], Range(|s|), Range(n));
    }
  }

  ghost predicate DistinctPairs(pairs: seq<(nat, nat)>) {
    forall i, j :: 0 <= i < j < |pairs| ==> pairs[i].0 != pairs[j].0 && pairs[i].1 != pairs[j].1
  }

  ghost predicate NoLowerSeverity(pairs: seq<(nat, nat)>, a: seq<Severity>, e: seq<Severity>)
    requires forall i :: 0 <= i < |pairs| ==> pairs[i].0 < |a| && pairs[i].1 < |e|
  {
    forall i :: 0 <= i < |pairs| ==> Weight(a[pairs[i].0]) >= Weight(e[pairs[i].1])
  }

  lemma {:induction false} UsedCounts(pairs: seq<(nat, nat)>)
    requires DistinctPairs(pairs)
    ensures |UsedExpected(pairs)| == |UsedActual(pairs)| == |pairs|
  {
    if pairs == [] {
      assert UsedExpected(pairs) == {} && UsedActual(pairs) == {};
    } else {
      UsedCounts(pairs[..|pairs| - 1]);
      UsedLast(pairs);
    }
  }

  lemma UsedLast(pairs: seq<(nat, nat)>)
    requires pairs != [] && DistinctPairs(pairs)
    ensures var n := |pairs| - 1; var front := pairs[..n];
      && UsedExpected(pairs) == UsedExpected(front) + {pairs[n].1} && pairs[n].1 !in UsedExpected(front)
      && UsedActual(pairs) == UsedActual(front) + {pairs[n].0} && pairs[n].0 !in UsedActual(front)
  {
    var n := |pairs| - 1;
    var front := pairs[..n];
    assert forall i :: 0 <= i < n ==> pairs[i] == front[i];
    forall e | e in UsedExpected(pairs) ensures e in UsedExpected(front) + {pairs[n].1} {
      var i :| 0 <= i < |pairs| && pairs[i].1 == e;
      if i < n { assert front[i].1 == e; }
    }
    forall e | e in UsedActual(pairs) ensures e in UsedActual(front) + {pairs[n].0} {
      var i :| 0 <= i < |pairs| && pairs[i].0 == e;
      if i < n { assert front[i].0 == e; }
    }
  }

  /** What the pairs earn never exceeds the weight of the labels they use, and reaches it
      exactly when no pair reports a lower severity than its label. */
  lemma {:induction false} MatchedWithinUsed(pairs: seq<(nat, nat)>, a: seq<Severity>, e: seq<Severity>)
    requires DistinctPairs(pairs)
    requires forall i :: 0 <= i < |pairs| ==> pairs[i].0 < |a| && pairs[i].1 < |e|
    ensures 0.0 <= MatchedWeight(pairs, a, e) <= WeightOf(e, UsedExpected(pairs))
    ensures MatchedWeight(pairs, a, e) == WeightOf(e, UsedExpected(pairs)) <==> NoLowerSeverity(pairs, a, e)
  {
    if pairs != [] {
      var n := |pairs| - 1;
      var front := pairs[..n];
      MatchedWithinUsed(front, a, e);
      UsedLast(pairs);
      WeightOfAdd(e, UsedExpected(front), pairs[n].1);
      assert NoLowerSeverity(pairs, a, e) <==>
             NoLowerSeverity(front, a, e) && Weight(a[pairs[n].0]) >= Weight(e[pairs[n].1]) by {
        assert forall i :: 0 <= i < n ==> pairs[i] == front[i];
      }
    } else {
      WeightOfSplit(e, {});
      assert UsedExpected(pairs) == {};
    }
  }

  // ---- the score ------------------------------------------------------------------------

  datatype Score = Score(
    truePositives: int, falsePositives: int, falseNegatives: int,
    precision: Option<real>, recall: Option<real>, f1: Option<real>,
    weightedPrecision: Option<real>, weightedRecall: Option<real>, weightedF1: Option<real>,
    blockerRecall: Option<real>, verdictCorrect: bool, cleanPass: bool)

  function Ratio(x: real, y: real): Option<real> {
    if y == 0.0 then None else Some(x / y)
  }

  /** The harmonic mean, 0 when it degenerates on a non-empty label set. */
  function FScore(p: Option<real>, r: Option<real>, anyLabel: bool): Option<real> {
    if p.Some? && r.Some? && p.value + r.value != 0.0 then Ratio(2.0 * (p.value * r.value), p.value + r.value)
    else if anyLabel then Some(0.0) else None
  }

  function ExpectedVerdict(expected: seq<Label>): Verdict {
    if expected == [] then Approve
    else if exists i :: 0 <= i < |expected| && IsBlocking(expected[i].severity) then RequestChanges
    else Comment
  }

  function Blockers(expected: seq<Label>): set<nat> {
    set i | 0 <= i < |expected| && IsBlocking(expected[i].severity)
  }

  /** Labels matched by a finding that is itself blocking. */
  function MatchedByBlocking(pairs: seq<(nat, nat)>, actual: seq<Finding>): set<nat>
    requires forall i :: 0 <= i < |pairs| ==> pairs[i].0 < |actual|
  {
    set i | 0 <= i < |pairs| && IsBlocking(actual[pairs[i].0].severity) :: pairs[i].1
  }

  function WeightedF1(pairs: seq<(nat, nat)>, a: seq<Severity>, e: seq<Severity>): Option<real>
    requires forall i :: 0 <= i < |pairs| ==> pairs[i].0 < |a| && pairs[i].1 < |e|
  {
    var matched := MatchedWeight(pairs, a, e);
    FScore(Ratio(matched, matched + WeightOf(a, Range(|a|) - UsedActual(pairs))),
           Ratio(matched, WeightOf(e, Range(|e|))), e != [])
  }

  /** The numbers `score_review` derives from one set of pairs. */
  function ScorePairs(verdict: Verdict, actual: seq<Finding>, expected: seq<Label>, pairs: seq<(nat, nat)>): Score
    requires forall i :: 0 <= i < |pairs| ==> pairs[i].0 < |actual| && pairs[i].1 < |expected|
  {
    var a, e := ActualSeverities(actual), LabelSeverities(expected);
    var tp := |pairs|;
    var fp, fn := |actual| - tp, |expected| - tp;
    var precision := Ratio(tp as real, (tp + fp) as real);
    var recall := Ratio(tp as real, (tp + fn) as real);
    var matched := MatchedWeight(pairs, a, e);
    var fpWeight := WeightOf(a, Range(|actual|) - UsedActual(pairs));
    var weightedPrecision := Ratio(matched, matched + fpWeight);
    var weightedRecall := Ratio(matched, WeightOf(e, Range(|expected|)));
    var blockers := Blockers(expected);
    Score(tp, fp, fn, precision, recall, FScore(precision, recall, expected != []),
          weightedPrecision, weightedRecall, WeightedF1(pairs, a, e),
          Ratio(|blockers * MatchedByBlocking(pairs, actual)| as real, |blockers| as real),
          verdict == ExpectedVerdict(expected),
          expected == [] && actual == [] && verdict == Approve)
  }

  function ScoreOf(verdict: Verdict, actual: seq<Finding>, expected: seq<Label>): Score {
    var sortedActual, sortedExpected := Sort(actual, FindingKey), Sort(expected, LabelKey);
    var pairs := Pairs(sortedActual, sortedExpected);
    PairsAreMaximum(sortedActual, sortedExpected, {});
    ScorePairs(verdict, sortedActual, sortedExpected, pairs)
  }

  /** Reordering the findings, the labels or both leaves every number unchanged. */
  lemma ScoreIgnoresOrder(verdict: Verdict, a1: seq<Finding>, a2: seq<Finding>, e1: seq<Label>, e2: seq<Label>)
    requires multiset(a1) == multiset(a2) && multiset(e1) == multiset(e2)
    ensures ScoreOf(verdict, a1, e1) == ScoreOf(verdict, a2, e2)
  {
    assert InjectiveKey(FindingKey) by {
      forall x, y | FindingKey(x) == FindingKey(y) ensures x == y {
        var k, m := FindingKey(x), FindingKey(y);
        assert k[0] == m[0] && k[1] == m[1] && k[2] == m[2] && k[3][0] == m[3][0] && k[4][0] == m[4][0];
        assert k[5] == m[5] && k[6] == m[6] && k[7] == m[7] && k[8] == m[8] && k[9][0] == m[9][0];
        assert SeverityColumn(x.severity)[0] == SeverityColumn(y.severity)[0];
      }
    }
    assert InjectiveKey(LabelKey) by {
      forall x, y | LabelKey(x) == LabelKey(y) ensures x == y {
        var k, m := LabelKey(x), LabelKey(y);
        assert k[0] == m[0] && k[1] == m[1] && k[2] == m[2] && k[3][0] == m[3][0] && k[4][0] == m[4][0] && k[5] == m[5];
        assert SeverityColumn(x.severity)[0] == SeverityColumn(y.severity)[0];
      }
    }
    SortIgnoresOrder(a1, a2, FindingKey);
    SortIgnoresOrder(e1, e2, LabelKey);
  }

  lemma RatioBounds(x: real, y: real)
    requires 0.0 <= x <= y
    ensures Ratio(x, y).Some? <==> y > 0.0
    ensures Ratio(x, y).Some? ==> 0.0 <= Ratio(x, y).value <= 1.0
    ensures Ratio(x, y) == Some(1.0) <==> y > 0.0 && x == y
    ensures Ratio(x, y) == Some(0.0) <==> y > 0.0 && x == 0.0
  {
    if y > 0.0 {
      var q := x / y;
      assert q * y == x;
      assert q > 1.0 ==> q * y > y;
      assert q < 0.0 ==> q * y < 0.0;
      if x == y { assert q == 1.0; }
    }
  }

  lemma NonNegativeProduct(x: real, y: real)
    requires x >= 0.0 && y >= 0.0
    ensures x * y >= 0.0
    ensures x * y == 0.0 ==> x == 0.0 || y == 0.0
  {
  }

  lemma HarmonicBounds(p: real, r: real)
    requires 0.0 <= p <= 1.0 && 0.0 <= r <= 1.0
    ensures 0.0 <= 2.0 * (p * r) <= p + r
    ensures 2.0 * (p * r) == p + r <==> (p == 0.0 && r == 0.0) || (p == 1.0 && r == 1.0)
  {
    var u, v, x := p * (1.0 - r), r * (1.0 - p), p * r;
    NonNegativeProduct(p, r);
    NonNegativeProduct(p, 1.0 - r);
    NonNegativeProduct(r, 1.0 - p);
    assert u == p - x && v == r - x;
  }

  lemma FScoreBounds(p: real, r: real)
    requires 0.0 <= p <= 1.0 && 0.0 <= r <= 1.0
    ensures FScore(Some(p), Some(r), true).Some?
    ensures 0.0 <= FScore(Some(p), Some(r), true).value <= 1.0
    ensures FScore(Some(p), Some(r), true).value == 1.0 <==> p == 1.0 && r == 1.0
  {
    HarmonicBounds(p, r);
    RatioBounds(2.0 * (p * r), p + r);
  }

  lemma UsedCoversAll(used: set<nat>, n: nat)
    requires forall k :: k in used ==> k < n
    ensures |used| == n <==> forall i :: 0 <= i < n ==> i in used
    ensures |used| <= n
  {
    var all := Range(n);
    assert used <= all;
    if |used| == n {
      assert |all - used| == |all| - |used|;
      assert used == all;
    }
    if forall i :: 0 <= i < n ==> i in used {
      assert used == all;
    }
  }

  /** On a non-empty label set the weighted F1 lies in [0, 1] and is 1 exactly when nothing
      is missed, nothing is invented and nothing is reported below its labelled severity. */
  lemma PerfectWeightedF1(verdict: Verdict, actual: seq<Finding>, expected: seq<Label>)
    requires expected != []
    ensures var sa, se := Sort(actual, FindingKey), Sort(expected, LabelKey);
      PairsInRange(Pairs(sa, se), sa, se)
    ensures var sa, se := Sort(actual, FindingKey), Sort(expected, LabelKey);
      var s := ScoreOf(verdict, actual, expected);
      && s.weightedF1.Some? && 0.0 <= s.weightedF1.value <= 1.0
      && (s.weightedF1.value == 1.0 <==>
            s.falsePositives == 0 && s.falseNegatives == 0
            && NoLowerSeverity(Pairs(sa, se), ActualSeverities(sa), LabelSeverities(se)))
  {
    var sa, se := Sort(actual, FindingKey), Sort(expected, LabelKey);
    assert |sa| == |multiset(sa)| == |actual| && |se| == |multiset(se)| == |expected|;
    PairsAreMaximum(sa, se, {});
    PerfectWeights(Pairs(sa, se), ActualSeverities(sa), LabelSeverities(se));
  }

  lemma FalsePositiveWeight(pairs: seq<(nat, nat)>, a: seq<Severity>)
    requires DistinctPairs(pairs) && forall i :: 0 <= i < |pairs| ==> pairs[i].0 < |a|
    ensures WeightOf(a, Range(|a|) - UsedActual(pairs)) == 0.0 <==> |pairs| == |a|
  {
    var used := UsedActual(pairs);
    UsedCounts(pairs);
    UsedCoversAll(used, |a|);
    WeightOfSplit(a, Range(|a|) - used);
    if forall i :: 0 <= i < |a| ==> i !in Range(|a|) - used {
      forall i | 0 <= i < |a| ensures i in used {
        assert i in Range(|a|) && i !in Range(|a|) - used;
      }
    }
  }

  lemma HarmonicOfShares(matched: real, extra: real, total: real)
    requires 0.0 <= matched <= total && extra >= 0.0 && total > 0.0
    ensures var f := FScore(Ratio(matched, matched + extra), Ratio(matched, total), true);
      f.Some? && 0.0 <= f.value <= 1.0 && (f.value == 1.0 <==> extra == 0.0 && matched == total)
  {
    var p, r := Ratio(matched, matched + extra), Ratio(matched, total);
    RatioBounds(matched, matched + extra);
    RatioBounds(matched, total);
    if p.Some? {
      FScoreBounds(p.value, r.value);
    }
  }

  lemma UsedWeight(used: set<nat>, e: seq<Severity>)
    requires e != [] && forall k :: k in used ==> k < |e|
    ensures 0.0 <= WeightOf(e, used) <= WeightOf(e, Range(|e|)) && WeightOf(e, Range(|e|)) > 0.0
    ensures WeightOf(e, used) == WeightOf(e, Range(|e|)) <==> |used| == |e|
  {
    UsedCoversAll(used, |e|);
    WeightOfSplit(e, used);
    WeightOfSplit(e, Range(|e|) - used);
    WeightOfSplit(e, Range(|e|));
    assert 0 in Range(|e|);
    if forall i :: 0 <= i < |e| ==> i !in Range(|e|) - used {
      forall i | 0 <= i < |e| ensures i in used {
        assert i in Range(|e|) && i !in Range(|e|) - used;
      }
    }
  }

  lemma EarnedWeight(pairs: seq<(nat, nat)>, a: seq<Severity>, e: seq<Severity>)
    requires DistinctPairs(pairs) && e != []
    requires forall i :: 0 <= i < |pairs| ==> pairs[i].0 < |a| && pairs[i].1 < |e|
    ensures 0.0 <= MatchedWeight(pairs, a, e) <= WeightOf(e, Range(|e|))
    ensures WeightOf(e, Range(|e|)) > 0.0
    ensures MatchedWeight(pairs, a, e) == WeightOf(e, Range(|e|)) <==> |pairs| == |e| && NoLowerSeverity(pairs, a, e)
  {
    MatchedWithinUsed(pairs, a, e);
    UsedCounts(pairs);
    UsedWeight(UsedExpected(pairs), e);
  }

  lemma PerfectWeights(pairs: seq<(nat, nat)>, a: seq<Severity>, e: seq<Severity>)
    requires e != [] && DistinctPairs(pairs)
    requires forall i :: 0 <= i < |pairs| ==> pairs[i].0 < |a| && pairs[i].1 < |e|
    ensures var f := WeightedF1(pairs, a, e);
      && f.Some? && 0.0 <= f.value <= 1.0
      && (f.value == 1.0 <==> |pairs| == |a| && |pairs| == |e| && NoLowerSeverity(pairs, a, e))
  {
    EarnedWeight(pairs, a, e);
    FalsePositiveWeight(pairs, a);
    HarmonicOfShares(MatchedWeight(pairs, a, e), WeightOf(a, Range(|a|) - UsedActual(pairs)), WeightOf(e, Range(|e|)));
  }

  predicate InUnit(x: Option<real>) {
    x.Some? ==> 0.0 <= x.value <= 1.0
  }

  lemma ShareInUnit(x: real, y: real)
    requires 0.0 <= x <= y
    ensures InUnit(Ratio(x, y))
  {
    RatioBounds(x, y);
  }

  lemma HarmonicInUnit(p: real, r: real, anyLabel: bool)
    requires 0.0 <= p <= 1.0 && 0.0 <= r <= 1.0
    ensures InUnit(FScore(Some(p), Some(r), anyLabel))
  {
    HarmonicBounds(p, r);
    RatioBounds(2.0 * (p * r), p + r);
  }

  lemma FScoreInUnit(p: Option<real>, r: Option<real>, anyLabel: bool)
    requires InUnit(p) && InUnit(r)
    ensures InUnit(FScore(p, r, anyLabel))
  {
    match (p, r)
    case (Some(x), Some(y)) => HarmonicInUnit(x, y, anyLabel);
    case _ =>
  }

  lemma WeightedF1InUnit(pairs: seq<(nat, nat)>, a: seq<Severity>, e: seq<Severity>)
    requires DistinctPairs(pairs) && forall i :: 0 <= i < |pairs| ==> pairs[i].0 < |a| && pairs[i].1 < |e|
    ensures InUnit(WeightedF1(pairs, a, e))
  {
    var matched, extra, total := MatchedWeight(pairs, a, e), WeightOf(a, Range(|a|) - UsedActual(pairs)), WeightOf(e, Range(|e|));
    MatchedIsShare(pairs, a, e);
    ShareInUnit(matched, matched + extra);
    ShareInUnit(matched, total);
    FScoreInUnit(Ratio(matched, matched + extra), Ratio(matched, total), e != []);
  }

  lemma MatchedIsShare(pairs: seq<(nat, nat)>, a: seq<Severity>, e: seq<Severity>)
    requires DistinctPairs(pairs) && forall i :: 0 <= i < |pairs| ==> pairs[i].0 < |a| && pairs[i].1 < |e|
    ensures 0.0 <= MatchedWeight(pairs, a, e) <= WeightOf(e, Range(|e|))
  {
    if e != [] {
      EarnedWeight(pairs, a, e);
    } else {
      PairsFitBoth(pairs, |a|, |e|);
    }
  }

  lemma PairsFitBoth(pairs: seq<(nat, nat)>, actuals: nat, expecteds: nat)
    requires DistinctPairs(pairs) && forall i :: 0 <= i < |pairs| ==> pairs[i].0 < actuals && pairs[i].1 < expecteds
    ensures |pairs| <= actuals && |pairs| <= expecteds
  {
    UsedCounts(pairs);
    UsedCoversAll(UsedActual(pairs), actuals);
    UsedCoversAll(UsedExpected(pairs), expecteds);
  }

  lemma CountScoresInUnit(verdict: Verdict, actual: seq<Finding>, expected: seq<Label>, pairs: seq<(nat, nat)>)
    requires DistinctPairs(pairs) && forall i :: 0 <= i < |pairs| ==> pairs[i].0 < |actual| && pairs[i].1 < |expected|
    ensures var s := ScorePairs(verdict, actual, expected, pairs);
      InUnit(s.precision) && InUnit(s.recall) && InUnit(s.f1) && InUnit(s.blockerRecall)
  {
    var precision, recall := Ratio(|pairs| as real, |actual| as real), Ratio(|pairs| as real, |expected| as real);
    PairsFitBoth(pairs, |actual|, |expected|);
    ShareInUnit(|pairs| as real, |actual| as real);
    ShareInUnit(|pairs| as real, |expected| as real);
    FScoreInUnit(precision, recall, expected != []);
    var blockers := Blockers(expected);
    var hit := blockers * MatchedByBlocking(pairs, actual);
    assert hit <= blockers && blockers == hit + (blockers - hit);
    ShareInUnit(|hit| as real, |blockers| as real);
  }

  lemma WeightScoresInUnit(verdict: Verdict, actual: seq<Finding>, expected: seq<Label>, pairs: seq<(nat, nat)>)
    requires DistinctPairs(pairs) && forall i :: 0 <= i < |pairs| ==> pairs[i].0 < |actual| && pairs[i].1 < |expected|
    ensures var s := ScorePairs(verdict, actual, expected, pairs);
      InUnit(s.weightedPrecision) && InUnit(s.weightedRecall) && InUnit(s.weightedF1)
  {
    var a, e := ActualSeverities(actual), LabelSeverities(expected);
    var matched, extra := MatchedWeight(pairs, a, e), WeightOf(a, Range(|actual|) - UsedActual(pairs));
    var total := WeightOf(e, Range(|expected|));
    MatchedIsShare(pairs, a, e);
    ShareInUnit(matched, matched + extra);
    ShareInUnit(matched, total);
    WeightedF1InUnit(pairs, a, e);
  }

  /** For every input, whatever its findings and labels, each ratio of the score is missing or
      lies in [0, 1]; without labels there is no weighted recall and no weighted F1. */
  lemma ScoresInUnit(verdict: Verdict, actual: seq<Finding>, expected: seq<Label>)
    ensures var s := ScoreOf(verdict, actual, expected);
      && InUnit(s.precision) && InUnit(s.recall) && InUnit(s.f1) && InUnit(s.blockerRecall)
      && InUnit(s.weightedPrecision) && InUnit(s.weightedRecall) && InUnit(s.weightedF1)
      && (expected == [] ==> s.weightedRecall == None && s.weightedF1 == None)
  {
    var sa, se := Sort(actual, FindingKey), Sort(expected, LabelKey);
    PairsAreMaximum(sa, se, {});
    CountScoresInUnit(verdict, sa, se, Pairs(sa, se));
    WeightScoresInUnit(verdict, sa, se, Pairs(sa, se));
    if expected == [] { assert se == []; }
  }

  // ---- the loops of `score_review` --------------------------------------------------------

  method ScoreReview(verdict: Verdict, actual: seq<Finding>, expected: seq<Label>) returns (score: Score)
    ensures score == ScoreOf(verdict, actual, expected)
  {
    var sa, se := Sort(actual, FindingKey), Sort(expected, LabelKey);
    var candidates: seq<Candidate> := [];
    for i := 0 to |sa|
      invariant candidates == CandidatesUpTo(sa, se, i, 0)
    {
      for j := 0 to |se|
        invariant candidates == CandidatesUpTo(sa, se, i, j)
      {
        candidates := candidates + Entry(sa, se, i, j);
      }
    }
    var pairs := AssignPairs(Reverse(Sort(candidates, CandidateKey)));
    PairsAreMaximum(sa, se, {});
    score := ScorePairs(verdict, sa, se, pairs);
  }
}
