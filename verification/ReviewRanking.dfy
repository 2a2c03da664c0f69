/** Which of the maximum matchings `score_review` scores: the order in which a finding tries
    its labels, and the order in which findings come to it. */
module ReviewRanking {
  import opened Ordering
  import opened ReviewMatching
  import opened ReviewScoring

  /** A label agrees better than another: by category first, then severity, then by how near
      the first lines are. */
  predicate AgreesBetter(f: Finding, l: Label, m: Label) {
    if (f.category == l.category) != (f.category == m.category) then f.category == l.category
    else if (f.severity == l.severity) != (f.severity == m.severity) then f.severity == l.severity
    else Abs(f.line - l.lineStart) < Abs(f.line - m.lineStart)
  }

  /** It is tried before the other: of labels that agree equally well the narrower, then the later. */
  predicate TriedBefore(f: Finding, expected: seq<Label>, e: nat, m: nat)
    requires e < |expected| && m < |expected|
  {
    var l, k := expected[e], expected[m];
    AgreesBetter(f, l, k)
    || (!AgreesBetter(f, k, l)
        && (l.lineEnd - l.lineStart < k.lineEnd - k.lineStart
            || (l.lineEnd - l.lineStart == k.lineEnd - k.lineStart && e > m)))
  }

  predicate OnBoth(f: Finding, l: Label, line: int) {
    f.line <= line <= f.endLine && l.lineStart <= line <= l.lineEnd
  }

  /** A finding and a label are compatible exactly when they are in one file and have a line in
      common. */
  lemma CompatibleIsCommonLine(f: Finding, l: Label)
    requires f.line <= f.endLine && l.lineStart <= l.lineEnd
    ensures Compatible(f, l) <==> f.path == l.path && exists line :: OnBoth(f, l, line)
  {
    if Compatible(f, l) { assert OnBoth(f, l, if f.line <= l.lineStart then l.lineStart else f.line); }
  }

  // ---- the order of a finding's edges -------------------------------------------------------

  lemma {:induction false} EdgeAt(candidates: seq<Candidate>, a: nat, i: nat) returns (x: nat)
    requires a in EdgesOf(candidates) && i < |EdgesOf(candidates)[a]|
    ensures x < |candidates| && candidates[x].actual == a && candidates[x].expected == EdgesOf(candidates)[a][i]
  {
    var n := |candidates| - 1;
    var edges := EdgesOf(candidates[..n]);
    if a in edges && i < |edges[a]| { x := EdgeAt(candidates[..n], a, i); } else { x := n; }
  }

  /** Edges are in the order of their candidates. */
  lemma {:induction false} EdgesInOrder(candidates: seq<Candidate>, a: nat, i: nat, j: nat) returns (x: nat, y: nat)
    requires a in EdgesOf(candidates) && i < j < |EdgesOf(candidates)[a]|
    ensures x < y < |candidates| && candidates[x].actual == candidates[y].actual == a
    ensures candidates[x].expected == EdgesOf(candidates)[a][i] && candidates[y].expected == EdgesOf(candidates)[a][j]
  {
    var n := |candidates| - 1;
    var edges := EdgesOf(candidates[..n]);
    if a in edges && j < |edges[a]| {
      x, y := EdgesInOrder(candidates[..n], a, i, j);
    } else {
      x := EdgeAt(candidates[..n], a, i);
      y := n;
    }
  }

  lemma {:induction false} ReverseAt<T>(s: seq<T>, k: nat)
    requires k < |s|
    ensures |Reverse(s)| == |s| && Reverse(s)[k] == s[|s| - 1 - k]
  {
    if |s| > 1 { ReverseAt(s[1..], if k < |s| - 1 then k else 0); }
  }

  lemma {:induction false} CandidateIsEntry(actual: seq<Finding>, expected: seq<Label>, i: nat, j: nat, c: Candidate)
    requires i <= |actual| && j <= |expected| && (j > 0 ==> i < |actual|)
    requires c in CandidatesUpTo(actual, expected, i, j)
    ensures c.actual < |actual| && c.expected < |expected| && Entry(actual, expected, c.actual, c.expected) == [c]
    decreases i, j
  {
    if j > 0 {
      if c !in Entry(actual, expected, i, j - 1) { CandidateIsEntry(actual, expected, i, j - 1, c); }
    } else if i > 0 {
      CandidateIsEntry(actual, expected, i - 1, |expected|, c);
    }
  }

  lemma NumberDecides(x: int, y: int, a: Key, b: Key)
    requires KeyLe([[x]] + a, [[y]] + b)
    ensures x < y || (x == y && KeyLe(a, b))
  {
    assert ([[x]] + a)[1..] == a && ([[y]] + b)[1..] == b;
    if x != y { assert ColumnLe([x], [y]); }
  }

  lemma SameColumnSkips(c: Column, a: Key, b: Key)
    requires KeyLe([c] + a, [c] + b)
    ensures KeyLe(a, b)
  {
    assert ([c] + a)[1..] == a && ([c] + b)[1..] == b;
  }

  /** What the rank of one candidate of a finding is made of. */
  function RankOf(f: Finding, a: nat, l: Label, e: nat): Key {
    [[if f.category == l.category then 1 else 0]] +
    ([[if f.severity == l.severity then 1 else 0]] +
     ([[-Abs(f.line - l.lineStart)]] +
      ([[-(l.lineEnd - l.lineStart)]] + ([f.path] + ([f.category] + ([[f.line]] + ([[a]] + ([[e]] + []))))))))
  }

  lemma TailDecides(f: Finding, a: nat, e: nat, m: nat)
    requires KeyLe([f.path] + ([f.category] + ([[f.line]] + ([[a]] + ([[m]] + [])))), [f.path] + ([f.category] + ([[f.line]] + ([[a]] + ([[e]] + [])))))
    ensures m <= e
  {
    SameColumnSkips(f.path, [f.category] + ([[f.line]] + ([[a]] + ([[m]] + []))), [f.category] + ([[f.line]] + ([[a]] + ([[e]] + []))));
    SameColumnSkips(f.category, [[f.line]] + ([[a]] + ([[m]] + [])), [[f.line]] + ([[a]] + ([[e]] + [])));
    SameColumnSkips([f.line], [[a]] + ([[m]] + []), [[a]] + ([[e]] + []));
    SameColumnSkips([a], [[m]] + [], [[e]] + []);
    NumberDecides(m, e, [], []);
  }

  lemma RankDecides(f: Finding, a: nat, expected: seq<Label>, e: nat, m: nat)
    requires e < |expected| && m < |expected| && KeyLe(RankOf(f, a, expected[m], m), RankOf(f, a, expected[e], e))
    ensures !TriedBefore(f, expected, m, e)
  {
    var l, k := expected[e], expected[m];
    var tail := (x: nat) => [f.path] + ([f.category] + ([[f.line]] + ([[a]] + ([[x]] + []))));
    var span := (x: Label) => x.lineEnd - x.lineStart;
    var third := (x: Label, n: nat) => [[-Abs(f.line - x.lineStart)]] + ([[-span(x)]] + tail(n));
    var severity := (x: Label) => if f.severity == x.severity then 1 else 0;
    var category := (x: Label) => if f.category == x.category then 1 else 0;
    NumberDecides(category(k), category(l), [[severity(k)]] + third(k, m), [[severity(l)]] + third(l, e));
    if category(k) == category(l) {
      NumberDecides(severity(k), severity(l), third(k, m), third(l, e));
      if severity(k) == severity(l) {
        NumberDecides(-Abs(f.line - k.lineStart), -Abs(f.line - l.lineStart), [[-span(k)]] + tail(m), [[-span(l)]] + tail(e));
        if Abs(f.line - k.lineStart) == Abs(f.line - l.lineStart) {
          NumberDecides(-span(k), -span(l), tail(m), tail(e));
          if span(k) == span(l) { TailDecides(f, a, e, m); }
        }
      }
    }
  }

  lemma EntryRank(actual: seq<Finding>, expected: seq<Label>, c: Candidate)
    requires c.actual < |actual| && c.expected < |expected| && Entry(actual, expected, c.actual, c.expected) == [c]
    ensures Compatible(actual[c.actual], expected[c.expected])
    ensures CandidateKey(c) == RankOf(actual[c.actual], c.actual, expected[c.expected], c.expected)
  {
    var f, l := actual[c.actual], expected[c.expected];
    var key, rank := CandidateKey(c), RankOf(f, c.actual, l, c.expected);
    assert Entry(actual, expected, c.actual, c.expected)[0] == c;
    assert |c.score| == 7 && |key| == 9 == |rank|;
    assert forall k :: 0 <= k < 7 ==> key[k] == c.score[k];
    assert rank[0] == c.score[0] && rank[1] == c.score[1] && rank[2] == c.score[2] && rank[3] == c.score[3];
    assert rank[4] == c.score[4] && rank[5] == c.score[5] && rank[6] == c.score[6];
    assert rank[7] == [c.actual] == key[7] && rank[8] == [c.expected] == key[8];
  }

  lemma RankedEntry(actual: seq<Finding>, expected: seq<Label>, k: nat)
    requires k < |Ranked(actual, expected)|
    ensures var c := Ranked(actual, expected)[k];
      && c.actual < |actual| && c.expected < |expected| && Compatible(actual[c.actual], expected[c.expected])
      && CandidateKey(c) == RankOf(actual[c.actual], c.actual, expected[c.expected], c.expected)
  {
    var all, ranked := CandidatesUpTo(actual, expected, |actual|, 0), Ranked(actual, expected);
    assert multiset(ranked) == multiset(all);
    var c := ranked[k];
    assert c in multiset(ranked) && c in all;
    CandidateIsEntry(actual, expected, |actual|, 0, c);
    EntryRank(actual, expected, c);
  }

  lemma RankedDescends(actual: seq<Finding>, expected: seq<Label>, x: nat, y: nat)
    requires x < y < |Ranked(actual, expected)|
    ensures KeyLe(CandidateKey(Ranked(actual, expected)[y]), CandidateKey(Ranked(actual, expected)[x]))
  {
    var all := CandidatesUpTo(actual, expected, |actual|, 0);
    var sorted := Sort(all, CandidateKey);
    assert |Ranked(actual, expected)| == |multiset(Ranked(actual, expected))| == |multiset(sorted)| == |sorted|;
    SortSorts(all, CandidateKey);
    ReverseAt(sorted, x);
    ReverseAt(sorted, y);
  }

  /** A finding tries its labels in the order of their agreement. */
  lemma LabelsInOrderOfAgreement(actual: seq<Finding>, expected: seq<Label>, a: nat, i: nat, j: nat)
    requires var edges := EdgesOf(Ranked(actual, expected)); a in edges && i < j < |edges[a]|
    ensures var tried := EdgesOf(Ranked(actual, expected))[a];
      a < |actual| && tried[i] < |expected| && tried[j] < |expected| && !TriedBefore(actual[a], expected, tried[j], tried[i])
  {
    var ranked := Ranked(actual, expected);
    var x, y := EdgesInOrder(ranked, a, i, j);
    RankedEntry(actual, expected, x);
    RankedEntry(actual, expected, y);
    RankedDescends(actual, expected, x, y);
    RankDecides(actual[a], a, expected, ranked[x].expected, ranked[y].expected);
  }

  // ---- whose pairs are scored ---------------------------------------------------------------

  /** A compatible label that agrees better with the finding than its other compatible labels. */
  ghost predicate IsBestLabel(actual: seq<Finding>, expected: seq<Label>, a: nat, e: nat) {
    && a < |actual| && e < |expected| && Compatible(actual[a], expected[e])
    && forall m :: 0 <= m < |expected| && m != e && Compatible(actual[a], expected[m]) ==>
         AgreesBetter(actual[a], expected[e], expected[m])
  }

  lemma BestComesFirst(actual: seq<Finding>, expected: seq<Label>, a: nat, e: nat, tried: seq<nat>, j: nat)
    requires IsBestLabel(actual, expected, a, e) && 0 < j < |tried| && tried[j] == e && tried[0] < |expected|
    requires Compatible(actual[a], expected[tried[0]]) && !TriedBefore(actual[a], expected, e, tried[0])
    ensures tried[0] == e
  {
  }

  lemma BestLabelIsFirst(actual: seq<Finding>, expected: seq<Label>, a: nat, e: nat)
    requires IsBestLabel(actual, expected, a, e)
    ensures var edges := EdgesOf(Ranked(actual, expected)); a in edges && edges[a] != [] && edges[a][0] == e
  {
    var edges := EdgesOf(Ranked(actual, expected));
    EdgesAreCompatiblePairs(actual, expected, a, e);
    var tried := edges[a];
    var j :| 0 <= j < |tried| && tried[j] == e;
    if j > 0 {
      assert Edge(edges, a, tried[0]);
      EdgesAreCompatiblePairs(actual, expected, a, tried[0]);
      LabelsInOrderOfAgreement(actual, expected, a, 0, j);
      BestComesFirst(actual, expected, a, e, tried, j);
    }
  }

  /** A finding that agrees best with a label no other finding is compatible with is scored
      with that label. */
  lemma BestLabelIsScored(actual: seq<Finding>, expected: seq<Label>, a: nat, e: nat)
    requires IsBestLabel(actual, expected, a, e)
    requires forall b :: 0 <= b < |actual| && b != a ==> !Compatible(actual[b], expected[e])
    ensures (a, e) in Pairs(actual, expected)
  {
    var edges := EdgesOf(Ranked(actual, expected));
    BestLabelIsFirst(actual, expected, a, e);
    forall b | Edge(edges, b, e) ensures b == a {
      EdgesAreCompatiblePairs(actual, expected, b, e);
    }
    FirstLabelIsAssigned(Ranked(actual, expected), a, e);
  }

  /** `best` gives every finding that has a compatible label its best one. */
  ghost predicate AllBest(actual: seq<Finding>, expected: seq<Label>, best: map<nat, nat>) {
    && (forall a :: a in best ==> IsBestLabel(actual, expected, a, best[a]))
    && (forall a, e :: 0 <= a < |actual| && 0 <= e < |expected| && Compatible(actual[a], expected[e]) ==> a in best)
  }

  /** If the findings' best labels are all different, they are exactly what is scored. */
  lemma DifferentBestLabelsAreScored(actual: seq<Finding>, expected: seq<Label>, best: map<nat, nat>, a: nat, e: nat)
    requires AllBest(actual, expected, best)
    requires forall b, c :: b in best && c in best && b != c ==> best[b] != best[c]
    ensures (a, e) in Pairs(actual, expected) <==> a in best && best[a] == e
  {
    var edges := EdgesOf(Ranked(actual, expected));
    forall b: nat ensures b in best <==> b in edges && edges[b] != [] {
      if b in edges && edges[b] != [] {
        assert Edge(edges, b, edges[b][0]);
        EdgesAreCompatiblePairs(actual, expected, b, edges[b][0]);
      } else if b in best {
        BestLabelIsFirst(actual, expected, b, best[b]);
      }
    }
    forall b | b in best ensures b in edges && edges[b] != [] && edges[b][0] == best[b] {
      BestLabelIsFirst(actual, expected, b, best[b]);
    }
    DifferentFirstLabelsAreAssigned(Ranked(actual, expected), a, e);
  }

  /** Findings come in order: one is left without a label only if no matching can give labels
      to it and to all the findings before it that have one. */
  lemma EarlierFindingsFirst(actual: seq<Finding>, expected: seq<Label>, a: nat, n: set<(nat, nat)>)
    requires IsReviewMatching(actual, expected, n) && forall e :: (a, e) !in Pairs(actual, expected)
    requires forall b: nat, e: nat :: b < a && (b, e) in Pairs(actual, expected) ==> Covers(n, b)
    ensures !Covers(n, a)
  {
    var edges := EdgesOf(Ranked(actual, expected));
    forall p | p in n ensures Edge(edges, p.0, p.1) {
      EdgesAreCompatiblePairs(actual, expected, p.0, p.1);
    }
    UnassignedIsBlocked(Ranked(actual, expected), a, n);
  }
}
