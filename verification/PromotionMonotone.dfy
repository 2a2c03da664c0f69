/** How the promotion gate answers to changes in its results: exactly when lowering the
    candidate's cost keeps a promotion, and exactly when resolving more runs does. */
module PromotionMonotone {
  import opened Optional
  import opened Ordering
  import opened PromotionGate

  // ---- rounding and the median ----------------------------------------------------------------

  lemma {:induction false} RoundEvenMonotone(x: real, y: real)
    requires x <= y
    ensures RoundEven(x) <= RoundEven(y)
  {
  }

  lemma {:induction false} Round1Monotone(x: real, y: real)
    requires x <= y
    ensures Round1(x) <= Round1(y)
  {
    RoundEvenMonotone(10.0 * x, 10.0 * y);
  }

  lemma {:induction false} DivideMonotone(x: real, y: real, d: real)
    requires x <= y && d > 0.0
    ensures x / d <= y / d
  {
  }

  lemma {:induction false} ImprovementMonotone(incumbent: Option<real>, dearer: Option<real>, cheaper: Option<real>)
    requires incumbent.Some? ==> incumbent.value >= 0.0
    requires dearer.Some? <==> cheaper.Some?
    requires dearer.Some? ==> cheaper.value <= dearer.value
    ensures AtLeast(Improvement(incumbent, cheaper), Improvement(incumbent, dearer))
  {
    if incumbent.Some? && dearer.Some? && incumbent.value != 0.0 {
      var i := incumbent.value;
      var x, y := 100.0 * (i - dearer.value), 100.0 * (i - cheaper.value);
      DivideMonotone(x, y, i);
      Round1Monotone(x / i, y / i);
    }
  }

  /** Both missing, or both there and no smaller. */
  predicate AtLeast(high: Option<real>, low: Option<real>) {
    (high.None? && low.None?) || (high.Some? && low.Some? && high.value >= low.value)
  }

  predicate Sorted(s: seq<real>) {
    forall i, j :: 0 <= i < j < |s| ==> s[i] <= s[j]
  }

  predicate Pointwise(low: seq<real>, high: seq<real>) {
    |low| == |high| && forall k :: 0 <= k < |low| ==> low[k] <= high[k]
  }

  /** What insertion leaves at each place. */
  function Inserted(x: real, s: seq<real>, k: nat): real
    requires k <= |s|
  {
    if k < |s| && s[k] < x then s[k]
    else if k > 0 && x < s[k - 1] then s[k - 1]
    else x
  }

  lemma {:induction false} InsertedAt(x: real, s: seq<real>, k: nat)
    requires Sorted(s) && k <= |s|
    ensures InsertReal(x, s)[k] == Inserted(x, s, k)
  {
    if s != [] && x > s[0] && k > 0 {
      InsertedAt(x, s[1..], k - 1);
    }
  }

  lemma {:induction false} InsertSorted(x: real, s: seq<real>)
    requires Sorted(s)
    ensures Sorted(InsertReal(x, s))
  {
    var r := InsertReal(x, s);
    forall i, j | 0 <= i < j < |r| ensures r[i] <= r[j] {
      InsertedAt(x, s, i);
      InsertedAt(x, s, j);
    }
  }

  lemma {:induction false} InsertKeeps(x: real, s: seq<real>)
    ensures multiset(InsertReal(x, s)) == multiset(s) + multiset{x}
  {
    if s != [] && x > s[0] {
      InsertKeeps(x, s[1..]);
      assert s == [s[0]] + s[1..];
    }
  }

  /** Sorting sorts, and keeps every number as often as it occurs. */
  lemma {:induction false} SortRealsSorts(s: seq<real>)
    ensures Sorted(SortReals(s)) && multiset(SortReals(s)) == multiset(s)
  {
    if s != [] {
      SortRealsSorts(s[..|s| - 1]);
      InsertSorted(s[|s| - 1], SortReals(s[..|s| - 1]));
      InsertKeeps(s[|s| - 1], SortReals(s[..|s| - 1]));
      assert s == s[..|s| - 1] + [s[|s| - 1]];
    }
  }

  /** Every sorted arrangement of the numbers has their median in its middle: the middle one,
      or the mean of the middle two. */
  lemma {:induction false} MedianIsMiddle(s: seq<real>, sorted: seq<real>)
    requires s != [] && Sorted(sorted) && multiset(sorted) == multiset(s)
    ensures |sorted| == |s|
    ensures Median(s) == Some(Round1((sorted[(|s| - 1) / 2] + sorted[|s| / 2]) / 2.0))
  {
    assert |sorted| == |multiset(sorted)| == |multiset(s)| == |s|;
    SortRealsSorts(s);
    OneSortedArrangement(SortReals(s), sorted);
    MiddleOf(sorted, |s|);
  }

  lemma {:induction false} MiddleOf(sorted: seq<real>, n: nat)
    requires |sorted| == n > 0
    ensures (sorted[(n - 1) / 2] + sorted[n / 2]) / 2.0
            == if n % 2 == 1 then sorted[n / 2] else (sorted[n / 2 - 1] + sorted[n / 2]) / 2.0
  {
    assert n % 2 == 1 ==> (n - 1) / 2 == n / 2;
    assert n % 2 == 0 ==> (n - 1) / 2 == n / 2 - 1;
  }

  lemma {:induction false} SameLeast(s: seq<real>, t: seq<real>)
    requires s != [] && t != [] && Sorted(s) && Sorted(t) && multiset(s) == multiset(t)
    ensures s[0] == t[0]
  {
    assert s[0] in multiset(t) && t[0] in multiset(s);
    var i :| 0 <= i < |t| && t[i] == s[0];
    var j :| 0 <= j < |s| && s[j] == t[0];
    assert t[0] <= t[i] && s[0] <= s[j];
  }

  lemma {:induction false} OneSortedArrangement(s: seq<real>, t: seq<real>)
    requires Sorted(s) && Sorted(t) && multiset(s) == multiset(t)
    ensures s == t
  {
    assert |s| == |multiset(s)| == |multiset(t)| == |t|;
    if s != [] {
      SameLeast(s, t);
      TailBag(s);
      TailBag(t);
      OneSortedArrangement(s[1..], t[1..]);
      assert s == [s[0]] + s[1..] && t == [t[0]] + t[1..];
    }
  }

  /** The improvements of the tasks in the gate, as a bag. */
  function GatedImprovements(rows: seq<Row>): multiset<real> {
    if rows == [] then multiset{}
    else
      var last := rows[|rows| - 1];
      GatedImprovements(rows[..|rows| - 1]) + if last.gated && last.improvement.Some? then multiset{last.improvement.value} else multiset{}
  }

  lemma {:induction false} ImprovementsAreGated(rows: seq<Row>)
    ensures multiset(Improvements(rows)) == GatedImprovements(rows)
  {
    if rows != [] { ImprovementsAreGated(rows[..|rows| - 1]); }
  }

  lemma {:induction false} MedianOfBag(s: seq<real>, t: seq<real>)
    requires multiset(s) == multiset(t)
    ensures Median(s) == Median(t)
  {
    SortRealsSorts(s);
    SortRealsSorts(t);
    SameBagSameSize(s, t);
    OneSortedArrangement(SortReals(s), SortReals(t));
    SameSortedSameMedian(s, t);
  }

  lemma {:induction false} SameSortedSameMedian(s: seq<real>, t: seq<real>)
    requires SortReals(s) == SortReals(t) && |s| == |t|
    ensures Median(s) == Median(t)
  {
  }

  lemma {:induction false} SameBagSameSize(s: seq<real>, t: seq<real>)
    requires multiset(s) == multiset(t)
    ensures |s| == |t|
  {
    assert |s| == |multiset(s)| == |multiset(t)| == |t|;
  }

  /** The median is that of the improvements of the tasks in the gate, in any order. */
  lemma {:induction false} MedianIsOfTheGate(results: seq<TaskResult>, named: bool, policy: Policy, improvements: seq<real>)
    requires multiset(improvements) == GatedImprovements(Gate(results, named, policy).rows)
    ensures Gate(results, named, policy).median == Median(improvements)
  {
    ImprovementsAreGated(Gate(results, named, policy).rows);
    MedianOfBag(Improvements(Gate(results, named, policy).rows), improvements);
  }

  lemma {:induction false} InsertMonotone(x: real, y: real, low: seq<real>, high: seq<real>)
    requires x <= y && Pointwise(low, high) && Sorted(low) && Sorted(high)
    ensures Pointwise(InsertReal(x, low), InsertReal(y, high))
  {
    forall k | 0 <= k <= |low| ensures InsertReal(x, low)[k] <= InsertReal(y, high)[k] {
      InsertedAt(x, low, k);
      InsertedAt(y, high, k);
    }
  }

  lemma {:induction false} SortMonotone(low: seq<real>, high: seq<real>)
    requires Pointwise(low, high)
    ensures Pointwise(SortReals(low), SortReals(high))
  {
    if low != [] {
      var n := |low| - 1;
      SortMonotone(low[..n], high[..n]);
      SortRealsSorts(low[..n]);
      SortRealsSorts(high[..n]);
      InsertMonotone(low[n], high[n], SortReals(low[..n]), SortReals(high[..n]));
    }
  }

  lemma {:induction false} MedianMonotone(low: seq<real>, high: seq<real>)
    requires Pointwise(low, high)
    ensures AtLeast(Median(high), Median(low))
  {
    SortMonotone(low, high);
    var n, a, b := |low|, SortReals(low), SortReals(high);
    if n % 2 == 1 {
      Round1Monotone(a[n / 2], b[n / 2]);
    } else if n > 0 {
      Round1Monotone((a[n / 2 - 1] + a[n / 2]) / 2.0, (b[n / 2 - 1] + b[n / 2]) / 2.0);
    }
  }

  // ---- results related task by task ------------------------------------------------------------

  ghost predicate Related(after: seq<TaskResult>, before: seq<TaskResult>, rel: (TaskResult, TaskResult) -> bool) {
    |after| == |before| && forall k :: 0 <= k < |before| ==> after[k].task == before[k].task && rel(after[k], before[k])
  }

  lemma {:induction false} TailsRelated(after: seq<TaskResult>, before: seq<TaskResult>, rel: (TaskResult, TaskResult) -> bool)
    requires Related(after, before, rel) && before != []
    ensures Related(after[1..], before[1..], rel)
  {
  }

  lemma {:induction false} HeadsRelated(x: TaskResult, y: TaskResult, after: seq<TaskResult>, before: seq<TaskResult>,
                     rel: (TaskResult, TaskResult) -> bool)
    requires Related(after, before, rel) && x.task == y.task && rel(x, y)
    ensures Related([x] + after, [y] + before, rel)
  {
  }

  lemma {:induction false} InsertKeepsRelated(x: TaskResult, y: TaskResult, after: seq<TaskResult>, before: seq<TaskResult>,
                                              rel: (TaskResult, TaskResult) -> bool)
    requires Related(after, before, rel) && x.task == y.task && rel(x, y)
    ensures Related(Insert(x, after, TaskKey), Insert(y, before, TaskKey), rel)
  {
    if after != [] {
      assert TaskKey(x) == TaskKey(y) && TaskKey(after[0]) == TaskKey(before[0]);
      if !KeyLe(TaskKey(x), TaskKey(after[0])) {
        TailsRelated(after, before, rel);
        InsertKeepsRelated(x, y, after[1..], before[1..], rel);
        HeadsRelated(after[0], before[0], Insert(x, after[1..], TaskKey), Insert(y, before[1..], TaskKey), rel);
        return;
      }
    }
    HeadsRelated(x, y, after, before, rel);
  }

  /** The gate sorts both sides alike. */
  lemma {:induction false} SortKeepsRelated(after: seq<TaskResult>, before: seq<TaskResult>, rel: (TaskResult, TaskResult) -> bool)
    requires Related(after, before, rel)
    ensures Related(ByTask(after), ByTask(before), rel)
  {
    if before != [] {
      SortKeepsRelated(after[1..], before[1..], rel);
      InsertKeepsRelated(after[0], before[0], ByTask(after[1..]), ByTask(before[1..]), rel);
    }
  }

  // ---- lower cost ----------------------------------------------------------------------------------

  /** The same results, except that the candidate's measured values may be lower. */
  predicate Cheaper(after: TaskResult, before: TaskResult) {
    && after.task == before.task && after.incumbent == before.incumbent
    && (after.candidate.Some? <==> before.candidate.Some?)
    && (before.candidate.Some? ==>
          after.candidate.value == before.candidate.value.(metric := after.candidate.value.metric)
          && AtLeast(before.candidate.value.metric, after.candidate.value.metric))
  }

  predicate AllCheaper(after: seq<TaskResult>, before: seq<TaskResult>) {
    |after| == |before| && forall k :: 0 <= k < |before| ==> Cheaper(after[k], before[k])
  }

  /** What the validator demands of a metric. */
  predicate IncumbentsNonNegative(results: seq<TaskResult>) {
    forall k :: 0 <= k < |results| && results[k].incumbent.Some? && results[k].incumbent.value.metric.Some? ==>
      results[k].incumbent.value.metric.value >= 0.0
  }

  /** Rows that differ in the candidate's measured value only, for the better. */
  predicate NoWorse(after: Row, before: Row) {
    && after == before.(candidate := before.candidate.(metric := after.candidate.metric), improvement := after.improvement)
    && AtLeast(after.improvement, before.improvement)
  }

  predicate AllNoWorse(after: seq<Row>, before: seq<Row>) {
    |after| == |before| && forall k :: 0 <= k < |before| ==> NoWorse(after[k], before[k])
  }

  lemma {:induction false} RowNoWorse(after: TaskResult, before: TaskResult, policy: Policy)
    requires Cheaper(after, before) && Paired(before)
    requires before.incumbent.value.metric.Some? ==> before.incumbent.value.metric.value >= 0.0
    ensures NoWorse(RowOf(after.task, after.incumbent.value, after.candidate.value, policy),
                    RowOf(before.task, before.incumbent.value, before.candidate.value, policy))
  {
    ImprovementMonotone(before.incumbent.value.metric, before.candidate.value.metric, after.candidate.value.metric);
  }

  lemma {:induction false} RowsNoWorse(after: seq<TaskResult>, before: seq<TaskResult>, policy: Policy)
    requires AllCheaper(after, before) && IncumbentsNonNegative(before)
    ensures AllNoWorse(Rows(after, policy), Rows(before, policy)) && (AllPaired(after) <==> AllPaired(before))
  {
    if before != [] {
      var n := |before| - 1;
      RowsNoWorse(after[..n], before[..n], policy);
      assert Cheaper(after[n], before[n]);
      if Paired(before[n]) { RowNoWorse(after[n], before[n], policy); }
      forall k | 0 <= k < |before| ensures Paired(after[k]) <==> Paired(before[k]) { assert Cheaper(after[k], before[k]); }
    }
  }

  lemma {:induction false} NoWorseTotals(after: seq<Row>, before: seq<Row>)
    requires AllNoWorse(after, before)
    ensures Pointwise(Improvements(before), Improvements(after))
    ensures Names(after, true) == Names(before, true) && Margin(after) == Margin(before)
  {
    if before != [] {
      var n := |before| - 1;
      NoWorseTotals(after[..n], before[..n]);
      assert NoWorse(after[n], before[n]);
    }
  }

  lemma {:induction false} NoWorseFlags(after: Row, before: Row, policy: Policy)
    requires NoWorse(after, before)
    ensures Thin(after, policy) ==> Thin(before, policy)
    ensures Worse(after, policy) ==> Worse(before, policy)
  {
  }

  lemma {:induction false} SortKeepsCheaper(after: seq<TaskResult>, before: seq<TaskResult>)
    requires AllCheaper(after, before)
    ensures AllCheaper(ByTask(after), ByTask(before))
  {
    assert Related(after, before, Cheaper) by {
      forall k | 0 <= k < |before| ensures after[k].task == before[k].task && Cheaper(after[k], before[k]) {}
    }
    SortKeepsRelated(after, before, Cheaper);
  }

  lemma {:induction false} SortKeepsSigns(results: seq<TaskResult>)
    requires IncumbentsNonNegative(results)
    ensures IncumbentsNonNegative(ByTask(results))
  {
    ByTaskKeeps(results);
    var sorted := ByTask(results);
    forall k | 0 <= k < |sorted| && sorted[k].incumbent.Some? && sorted[k].incumbent.value.metric.Some?
      ensures sorted[k].incumbent.value.metric.value >= 0.0
    {
      assert sorted[k] in results;
    }
  }

  /** Lowering the candidate's measured values on any tasks, with everything else as it was,
      never loses a promotion if no incumbent value is negative. */
  lemma {:induction false} LowerCostKeepsPromotion(before: seq<TaskResult>, after: seq<TaskResult>, named: bool, policy: Policy)
    requires AllCheaper(after, before) && IncumbentsNonNegative(before)
    requires Gate(before, named, policy).verdict == Promote
    ensures Gate(after, named, policy).verdict == Promote
  {
    var a, b := Rows(ByTask(after), policy), Rows(ByTask(before), policy);
    SortKeepsCheaper(after, before);
    SortKeepsSigns(before);
    RowsNoWorse(ByTask(after), ByTask(before), policy);
    NoWorseTotals(a, b);
    MedianMonotone(Improvements(b), Improvements(a));
    forall k | 0 <= k < |a| ensures !Thin(a[k], policy) && !Worse(a[k], policy) {
      assert NoWorse(a[k], b[k]);
      NoWorseFlags(a[k], b[k], policy);
    }
  }

  lemma {:induction false} RoundingIsClose(x: real)
    ensures Round1(x) <= x + 0.05
  {
  }

  /** A candidate value so low that a negative incumbent value reads it as a regression. */
  function FarBelow(incumbent: real, cap: real): real {
    incumbent + incumbent * ((cap + 1.0) / 100.0)
  }

  lemma {:induction false} NegativeQuotient(incumbent: real, x: real, t: real)
    requires incumbent < 0.0 && x + t * incumbent >= 0.0
    ensures x / incumbent <= -t
  {
    var q := x / incumbent;
    assert q * incumbent == x;
    assert (q + t) * incumbent >= 0.0;
  }

  lemma {:induction false} NegativeTurnsAround(incumbent: real, candidate: real, cap: real)
    requires incumbent < 0.0 && candidate <= FarBelow(incumbent, cap)
    ensures Improvement(Some(incumbent), Some(candidate)).value < -cap
  {
    var x, t := 100.0 * (incumbent - candidate), (cap + 1.0) / 100.0;
    assert (cap + 1.0) * incumbent == 100.0 * (incumbent * t);
    NegativeQuotient(incumbent, x, cap + 1.0);
    RoundingIsClose(x / incumbent);
  }

  /** A promoted set has a row for every task, with a comparable metric and within its cap. */
  lemma {:induction false} PromotedRow(results: seq<TaskResult>, named: bool, policy: Policy, r: TaskResult)
    requires Gate(results, named, policy).verdict == Promote && r in results
    ensures Paired(r)
    ensures var row := RowOf(r.task, r.incumbent.value, r.candidate.value, policy);
      row.improvement.Some? && !TooExpensive(row, policy)
  {
    var sorted := ByTask(results);
    ByTaskKeeps(results);
    var k :| 0 <= k < |sorted| && sorted[k] == r;
    RowOfEach(sorted, policy, k);
    var row := Rows(sorted, policy)[k];
    assert !Thin(row, policy) && !Worse(row, policy);
  }

  lemma {:induction false} RowOfEach(results: seq<TaskResult>, policy: Policy, k: nat)
    requires AllPaired(results) && k < |results|
    ensures |Rows(results, policy)| == |results|
    ensures Rows(results, policy)[k] == RowOf(results[k].task, results[k].incumbent.value, results[k].candidate.value, policy)
  {
    var n := |results| - 1;
    if k < n { RowOfEach(results[..n], policy, k); } else if n > 0 { RowOfEach(results[..n], policy, 0); }
  }

  /** The candidate with its value lowered at least as far as `FarBelow`. */
  function LoweredFar(r: TaskResult, policy: Policy): (low: Arm)
    requires Paired(r) && r.incumbent.value.metric.Some? && r.candidate.value.metric.Some?
    ensures low.metric.Some? && low.metric.value <= r.candidate.value.metric.value
  {
    var i, c := r.incumbent.value, r.candidate.value;
    var cap := if RowOf(r.task, i, c, policy).gated then policy.taskCap else policy.failedTaskCap;
    var far := FarBelow(i.metric.value, cap);
    c.(metric := Some(if far <= c.metric.value then far else c.metric.value))
  }

  lemma {:induction false} LoweredFarIsTooExpensive(r: TaskResult, policy: Policy)
    requires Paired(r) && r.incumbent.value.metric.Some? && r.incumbent.value.metric.value < 0.0 && r.candidate.value.metric.Some?
    ensures TooExpensive(RowOf(r.task, r.incumbent.value, LoweredFar(r, policy), policy), policy)
  {
    var i, c, low := r.incumbent.value, r.candidate.value, LoweredFar(r, policy);
    var row := RowOf(r.task, i, c, policy);
    assert RowOf(r.task, i, low, policy).gated == row.gated;
    NegativeTurnsAround(i.metric.value, low.metric.value, if row.gated then policy.taskCap else policy.failedTaskCap);
  }

  /** One candidate value lowered far below a negative incumbent value loses the promotion. */
  lemma {:induction false} NegativeIncumbentLosesPromotion(before: seq<TaskResult>, named: bool, policy: Policy, k: nat) returns (after: seq<TaskResult>)
    requires k < |before| && Gate(before, named, policy).verdict == Promote
    requires before[k].incumbent.Some? && before[k].incumbent.value.metric.Some? && before[k].incumbent.value.metric.value < 0.0
    ensures AllCheaper(after, before) && Gate(after, named, policy).verdict != Promote
  {
    PromotedRow(before, named, policy, before[k]);
    var lowered := before[k].(candidate := Some(LoweredFar(before[k], policy)));
    LoweredFarIsTooExpensive(before[k], policy);
    after := before[k := lowered];
    OneCheaper(before, k, lowered);
    assert after[k] == lowered;
    DearTaskBlocks(after, named, policy, lowered);
  }

  lemma {:induction false} OneCheaper(before: seq<TaskResult>, k: nat, lowered: TaskResult)
    requires k < |before| && Cheaper(lowered, before[k])
    ensures AllCheaper(before[k := lowered], before)
  {
    forall j | 0 <= j < |before| ensures Cheaper(before[k := lowered][j], before[j]) {
      var r := before[j];
      assert AtLeast(if r.candidate.Some? then r.candidate.value.metric else None, if r.candidate.Some? then r.candidate.value.metric else None);
    }
  }

  lemma {:induction false} DearTaskBlocks(results: seq<TaskResult>, named: bool, policy: Policy, r: TaskResult)
    requires r in results && Paired(r)
    requires TooExpensive(RowOf(r.task, r.incumbent.value, r.candidate.value, policy), policy)
    ensures Gate(results, named, policy).verdict != Promote
  {
    if Gate(results, named, policy).verdict == Promote { PromotedRow(results, named, policy, r); }
  }

  /** Exactly when no incumbent value is negative, lowering the candidate's values on any tasks
      is sure to keep the promotion. */
  lemma {:induction false} LowerCostKeepsPromotionExactly(before: seq<TaskResult>, named: bool, policy: Policy)
    requires Gate(before, named, policy).verdict == Promote
    ensures IncumbentsNonNegative(before) <==>
      forall after :: AllCheaper(after, before) ==> Gate(after, named, policy).verdict == Promote
  {
    if IncumbentsNonNegative(before) {
      forall after | AllCheaper(after, before) ensures Gate(after, named, policy).verdict == Promote {
        LowerCostKeepsPromotion(before, after, named, policy);
      }
    } else {
      var k :| 0 <= k < |before| && before[k].incumbent.Some? && before[k].incumbent.value.metric.Some?
        && before[k].incumbent.value.metric.value < 0.0;
      var after := NegativeIncumbentLosesPromotion(before, named, policy, k);
    }
  }

  // ---- more resolved runs ----------------------------------------------------------------------------

  /** The same results, except that the candidate may have resolved more of its valid runs. */
  predicate MoreResolved(after: TaskResult, before: TaskResult) {
    && after.task == before.task && after.incumbent == before.incumbent
    && (after.candidate.Some? <==> before.candidate.Some?)
    && (before.candidate.Some? ==>
          && after.candidate.value == before.candidate.value.(resolved := after.candidate.value.resolved)
          && (after == before
              || 0 <= before.candidate.value.resolved <= after.candidate.value.resolved <= Valid(before.candidate.value)))
  }

  predicate AllMoreResolved(after: seq<TaskResult>, before: seq<TaskResult>) {
    |after| == |before| && forall k :: 0 <= k < |before| ==> MoreResolved(after[k], before[k])
  }

  lemma {:induction false} SortKeepsMoreResolved(after: seq<TaskResult>, before: seq<TaskResult>)
    requires AllMoreResolved(after, before)
    ensures AllMoreResolved(ByTask(after), ByTask(before))
  {
    assert Related(after, before, MoreResolved) by {
      forall k | 0 <= k < |before| ensures after[k].task == before[k].task && MoreResolved(after[k], before[k]) {}
    }
    SortKeepsRelated(after, before, MoreResolved);
  }

  /** What more resolved runs do to one row: only its place in the gate can change, and only
      into the gate. */
  predicate Risen(after: Row, before: Row, policy: Policy) {
    && after.task == before.task && after.improvement == before.improvement
    && after.incumbent == before.incumbent && after.candidate.resolved >= before.candidate.resolved
    && (before.gated ==> after.gated)
    && (!Thin(before, policy) ==> !Thin(after, policy))
    && (!Thin(before, policy) && !Worse(before, policy) ==> !Regressed(after) && !BelowFloor(after))
  }

  lemma {:induction false} RowRises(after: TaskResult, before: TaskResult, policy: Policy)
    requires MoreResolved(after, before) && Paired(before) && policy.minRuns >= 1
    ensures Risen(RowOf(after.task, after.incumbent.value, after.candidate.value, policy),
                  RowOf(before.task, before.incumbent.value, before.candidate.value, policy), policy)
  {
    var i, c, d := before.incumbent.value, before.candidate.value, after.candidate.value;
    var q, r := RowOf(after.task, i, d, policy), RowOf(before.task, i, c, policy);
    if Valid(c) >= 1 {
      RateRises(c, d);
      assert i.resolved == 0 ==> Rate(i) == 0.0;
    }
    assert !Thin(r, policy) ==> FullyMeasured(i, c, policy.minRuns);
    assert !r.gated ==> i.resolved == 0 && c.resolved == 0 && !q.floorEnforced;
  }

  lemma {:induction false} RateRises(c: Arm, d: Arm)
    requires Valid(c) == Valid(d) && Valid(c) >= 1 && c.resolved <= d.resolved
    ensures Rate(c) <= Rate(d)
    ensures d.resolved >= 0 ==> Rate(d) >= 0.0
  {
  }

  ghost predicate AllRisen(after: seq<Row>, before: seq<Row>, policy: Policy) {
    |after| == |before| && forall k :: 0 <= k < |before| ==> Risen(after[k], before[k], policy)
  }

  lemma {:induction false} RowsRise(after: seq<TaskResult>, before: seq<TaskResult>, policy: Policy)
    requires AllMoreResolved(after, before) && policy.minRuns >= 1
    ensures AllRisen(Rows(after, policy), Rows(before, policy), policy) && (AllPaired(after) <==> AllPaired(before))
  {
    if before != [] {
      var n := |before| - 1;
      RowsRise(after[..n], before[..n], policy);
      assert MoreResolved(after[n], before[n]);
      if Paired(before[n]) { RowRises(after[n], before[n], policy); }
      forall k | 0 <= k < |before| ensures Paired(after[k]) <==> Paired(before[k]) { assert MoreResolved(after[k], before[k]); }
    }
  }

  ghost predicate SameGates(after: seq<Row>, before: seq<Row>) {
    |after| == |before| && forall k :: 0 <= k < |before| ==> after[k].gated == before[k].gated
  }

  lemma {:induction false} RisenTotals(after: seq<Row>, before: seq<Row>, policy: Policy)
    requires AllRisen(after, before, policy)
    ensures |Names(after, true)| >= |Names(before, true)| && Margin(after) >= Margin(before)
    ensures SameGates(after, before) ==> Improvements(after) == Improvements(before)
  {
    if before != [] {
      var n := |before| - 1;
      RisenTotals(after[..n], before[..n], policy);
      assert Risen(after[n], before[n], policy);
      assert SameGates(after, before) ==> SameGates(after[..n], before[..n]);
    }
  }

  /** The tasks that came into the gate are held to its cap. */
  ghost predicate NewcomersWithinCap(after: seq<Row>, before: seq<Row>, policy: Policy)
    requires |after| == |before|
  {
    forall k :: 0 <= k < |after| && after[k].gated && !before[k].gated ==> !TooExpensive(after[k], policy)
  }

  predicate GainsEnough(d: Decision, policy: Policy) {
    Margin(d.rows) >= 2 || (d.median.Some? && d.median.value >= policy.minImprovement)
  }

  lemma {:induction false} JudgedMoreResolved(before: seq<TaskResult>, after: seq<TaskResult>, named: bool, policy: Policy)
    requires AllMoreResolved(after, before) && policy.minRuns >= 1
    requires Judge(before, named, policy).verdict == Promote
    ensures var d, e := Judge(before, named, policy), Judge(after, named, policy);
      && |e.rows| == |d.rows|
      && (e.verdict == Promote <==> NewcomersWithinCap(e.rows, d.rows, policy) && GainsEnough(e, policy))
  {
    var a, b := Rows(after, policy), Rows(before, policy);
    RowsRise(after, before, policy);
    RisenTotals(a, b, policy);
    RisenFlags(a, b, policy);
  }

  /** When the candidate resolves more runs, anywhere, its promotion is kept exactly when every
      task that this brings into the gate stays within the gate's cap, and the margin or the
      median over the gated tasks still suffices. */
  lemma {:induction false} ResolvingMoreKeepsPromotionExactly(before: seq<TaskResult>, after: seq<TaskResult>, named: bool, policy: Policy)
    requires AllMoreResolved(after, before) && policy.minRuns >= 1
    requires Gate(before, named, policy).verdict == Promote
    ensures var d, e := Gate(before, named, policy), Gate(after, named, policy);
      && |e.rows| == |d.rows|
      && (e.verdict == Promote <==> NewcomersWithinCap(e.rows, d.rows, policy) && GainsEnough(e, policy))
  {
    SortKeepsMoreResolved(after, before);
    JudgedMoreResolved(ByTask(before), ByTask(after), named, policy);
  }

  lemma {:induction false} RisenFlags(after: seq<Row>, before: seq<Row>, policy: Policy)
    requires AllRisen(after, before, policy) && !AnyThin(before, policy) && !AnyWorse(before, policy)
    ensures !AnyThin(after, policy)
    ensures AnyWorse(after, policy) <==> !NewcomersWithinCap(after, before, policy)
  {
    forall k | 0 <= k < |before|
      ensures !Thin(after[k], policy)
      ensures Worse(after[k], policy) <==> after[k].gated && !before[k].gated && TooExpensive(after[k], policy)
    {
      assert Risen(after[k], before[k], policy);
      assert !Thin(before[k], policy) && !Worse(before[k], policy);
    }
  }

  lemma {:induction false} JudgedInsideTheGate(before: seq<TaskResult>, after: seq<TaskResult>, named: bool, policy: Policy)
    requires AllMoreResolved(after, before) && policy.minRuns >= 1
    requires Judge(before, named, policy).verdict == Promote
    requires SameGates(Judge(after, named, policy).rows, Judge(before, named, policy).rows)
    ensures Judge(after, named, policy).verdict == Promote
  {
    RowsRise(after, before, policy);
    RisenTotals(Rows(after, policy), Rows(before, policy), policy);
    JudgedMoreResolved(before, after, named, policy);
  }

  /** With no task coming into the gate it is always kept. */
  lemma {:induction false} ResolvingMoreInsideTheGate(before: seq<TaskResult>, after: seq<TaskResult>, named: bool, policy: Policy)
    requires AllMoreResolved(after, before) && policy.minRuns >= 1
    requires Gate(before, named, policy).verdict == Promote
    requires SameGates(Gate(after, named, policy).rows, Gate(before, named, policy).rows)
    ensures Gate(after, named, policy).verdict == Promote
  {
    SortKeepsMoreResolved(after, before);
    JudgedInsideTheGate(ByTask(before), ByTask(after), named, policy);
  }

  /** Whenever a promotion has a task outside the gate whose cost rose beyond the gate's cap,
      resolving a single run of that task loses the promotion. */
  lemma {:induction false} ResolvingOneRunLosesPromotion(before: seq<TaskResult>, named: bool, policy: Policy, k: nat) returns (after: seq<TaskResult>)
    requires k < |before| && Gate(before, named, policy).verdict == Promote && policy.minRuns >= 1 && Paired(before[k])
    requires var row := RowOf(before[k].task, before[k].incumbent.value, before[k].candidate.value, policy);
      !row.gated && row.improvement.value < -policy.taskCap
    ensures AllMoreResolved(after, before) && after == before[k := after[k]]
    ensures after[k] == before[k].(candidate := Some(before[k].candidate.value.(resolved := 1)))
    ensures before[k].candidate.value.resolved == 0 && Gate(after, named, policy).verdict != Promote
  {
    var better := before[k].(candidate := Some(before[k].candidate.value.(resolved := 1)));
    after := before[k := better];
    OneMoreResolved(before, k, better);
    assert after[k] == better;
    DearTaskBlocks(after, named, policy, better);
  }

  lemma {:induction false} OneMoreResolved(before: seq<TaskResult>, k: nat, better: TaskResult)
    requires k < |before| && MoreResolved(better, before[k])
    ensures AllMoreResolved(before[k := better], before)
  {
    forall j | 0 <= j < |before| ensures MoreResolved(before[k := better][j], before[j]) {}
  }
}
