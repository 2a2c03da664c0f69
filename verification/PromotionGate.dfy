/** The promotion gate `evaluate_candidate` over exact numbers, without the texts of its
    reasons, and what its promotions mean. */
module PromotionGate {
  import opened Optional
  import opened Ordering

  /** A task's name, by its code points. */
  type TaskId = Column

  /** What one arm measured on one task; the skipped keys are the ones read with a default. */
  datatype Arm = Arm(runs: int, validRuns: Option<int>, excludedRuns: Option<int>, resolved: int,
                     skillErrors: bool, metric: Option<real>)

  datatype TaskResult = TaskResult(task: TaskId, incumbent: Option<Arm>, candidate: Option<Arm>)

  datatype Policy = Policy(minRuns: int, minImprovement: real, taskCap: real, failedTaskCap: real)

  datatype Row = Row(task: TaskId, incumbent: Arm, candidate: Arm, floorMet: bool, floorEnforced: bool,
                     improvement: Option<real>, gated: bool, skillAttributable: bool)

  datatype Verdict = Insufficient | KeepIncumbent | Promote

  datatype Decision = Decision(verdict: Verdict, median: Option<real>, ungated: seq<TaskId>, gated: seq<TaskId>, rows: seq<Row>)

  const MIN_GATED_TASK_RATIO := 0.5

  function Valid(a: Arm): int {
    if a.validRuns.Some? then a.validRuns.value else a.runs
  }

  function Excluded(a: Arm): int {
    if a.excludedRuns.Some? then a.excludedRuns.value else 0
  }

  function Rate(a: Arm): real {
    if Valid(a) == 0 then 0.0 else a.resolved as real / Valid(a) as real
  }

  /** Rounding to one decimal, ties to even. */
  function Round1(x: real): real {
    RoundEven(10.0 * x) as real / 10.0
  }

  function RoundEven(x: real): int {
    var n := x.Floor;
    var rest := x - n as real;
    if rest < 0.5 || (rest == 0.5 && n % 2 == 0) then n else n + 1
  }

  function Improvement(incumbent: Option<real>, candidate: Option<real>): Option<real> {
    if incumbent.Some? && candidate.Some? && incumbent.value != 0.0
    then Some(Round1(100.0 * (incumbent.value - candidate.value) / incumbent.value))
    else None
  }

  predicate FullyMeasured(i: Arm, c: Arm, minRuns: int) {
    Valid(i) >= minRuns && Valid(c) >= minRuns && Valid(i) == Valid(c) && Excluded(i) == 0 && Excluded(c) == 0
  }

  function RowOf(task: TaskId, i: Arm, c: Arm, policy: Policy): Row {
    var improvement := Improvement(i.metric, c.metric);
    var skill := i.skillErrors || c.skillErrors;
    var unresolved := FullyMeasured(i, c, policy.minRuns) && i.resolved == 0 && c.resolved == 0;
    Row(task, i, c, Valid(c) > 0 && c.resolved == Valid(c), i.resolved != 0 || skill, improvement,
        !(unresolved && !skill && improvement.Some?), skill)
  }

  // ---- what one row raises ------------------------------------------------------------------

  predicate Thin(row: Row, policy: Policy) {
    row.gated && (!FullyMeasured(row.incumbent, row.candidate, policy.minRuns) || row.improvement.None?)
  }

  predicate Regressed(row: Row) {
    row.gated && Rate(row.candidate) < Rate(row.incumbent)
  }

  predicate BelowFloor(row: Row) {
    row.gated && row.floorEnforced && Valid(row.candidate) > 0 && row.candidate.resolved != Valid(row.candidate)
  }

  predicate TooExpensive(row: Row, policy: Policy) {
    row.improvement.Some? && row.improvement.value < -(if row.gated then policy.taskCap else policy.failedTaskCap)
  }

  // ---- the whole set ------------------------------------------------------------------------

  predicate Paired(r: TaskResult) {
    r.incumbent.Some? && r.candidate.Some?
  }

  predicate AllPaired(results: seq<TaskResult>) {
    forall k :: 0 <= k < |results| ==> Paired(results[k])
  }

  function Rows(results: seq<TaskResult>, policy: Policy): seq<Row> {
    if results == [] then []
    else
      var front, last := Rows(results[..|results| - 1], policy), results[|results| - 1];
      if Paired(last) then front + [RowOf(last.task, last.incumbent.value, last.candidate.value, policy)] else front
  }

  function Names(rows: seq<Row>, gated: bool): seq<TaskId> {
    if rows == [] then []
    else
      var front, last := Names(rows[..|rows| - 1], gated), rows[|rows| - 1];
      if last.gated == gated then front + [last.task] else front
  }

  function Improvements(rows: seq<Row>): seq<real> {
    if rows == [] then []
    else
      var front, last := Improvements(rows[..|rows| - 1]), rows[|rows| - 1];
      if last.gated && last.improvement.Some? then front + [last.improvement.value] else front
  }

  /** How many more runs the candidate resolved. */
  function Margin(rows: seq<Row>): int {
    if rows == [] then 0
    else Margin(rows[..|rows| - 1]) + rows[|rows| - 1].candidate.resolved - rows[|rows| - 1].incumbent.resolved
  }

  function InsertReal(x: real, s: seq<real>): (r: seq<real>)
    ensures |r| == |s| + 1
  {
    if s == [] || x <= s[0] then [x] + s else [s[0]] + InsertReal(x, s[1..])
  }

  function SortReals(s: seq<real>): (r: seq<real>)
    ensures |r| == |s|
  {
    if s == [] then [] else InsertReal(s[|s| - 1], SortReals(s[..|s| - 1]))
  }

  function Median(s: seq<real>): Option<real> {
    var sorted, n := SortReals(s), |s|;
    if n == 0 then None
    else if n % 2 == 1 then Some(Round1(sorted[n / 2]))
    else Some(Round1((sorted[n / 2 - 1] + sorted[n / 2]) / 2.0))
  }

  predicate EnoughGated(rows: seq<Row>) {
    var gated := |Names(rows, true)|;
    gated > 0 && gated as real >= MIN_GATED_TASK_RATIO * |rows| as real
  }

  predicate AnyThin(rows: seq<Row>, policy: Policy) {
    exists k :: 0 <= k < |rows| && Thin(rows[k], policy)
  }

  predicate AnyWorse(rows: seq<Row>, policy: Policy) {
    exists k :: 0 <= k < |rows| && Worse(rows[k], policy)
  }

  predicate Worse(row: Row, policy: Policy) {
    Regressed(row) || BelowFloor(row) || TooExpensive(row, policy)
  }

  function VerdictOn(named: bool, complete: bool, rows: seq<Row>, policy: Policy): Verdict {
    var median := Median(Improvements(rows));
    if !named || !complete || !EnoughGated(rows) || AnyThin(rows, policy) then Insufficient
    else if AnyWorse(rows, policy) then KeepIncumbent
    else if Margin(rows) >= 2 || (median.Some? && median.value >= policy.minImprovement) then Promote
    else KeepIncumbent
  }

  function TaskKey(r: TaskResult): Key {
    [r.task]
  }

  /** `sorted(results.items())`. */
  function ByTask(results: seq<TaskResult>): seq<TaskResult> {
    Sort(results, TaskKey)
  }

  /** The decision on results already in the order of their task names. */
  function Judge(results: seq<TaskResult>, named: bool, policy: Policy): Decision {
    var rows := Rows(results, policy);
    Decision(VerdictOn(named, AllPaired(results), rows, policy), Median(Improvements(rows)), Names(rows, false), Names(rows, true), rows)
  }

  /** The decision on a set of results; `named` says that a model was named. */
  function Gate(results: seq<TaskResult>, named: bool, policy: Policy): Decision {
    Judge(ByTask(results), named, policy)
  }

  // ---- the loop over the tasks -----------------------------------------------------------------

  /** The loop of `evaluate_candidate`, and the verdict from its flags. */
  method EvaluateInOrder(results: seq<TaskResult>, named: bool, policy: Policy) returns (d: Decision)
    ensures d == Judge(results, named, policy)
  {
    var rows: seq<Row> := [];
    var insufficient, qualityRegression, floorFailed, efficiencyRegression := !named, false, false, false;
    for k := 0 to |results|
      invariant rows == Rows(results[..k], policy)
      invariant insufficient <==> !named || !AllPaired(results[..k]) || AnyThin(rows, policy)
      invariant qualityRegression || floorFailed || efficiencyRegression <==> AnyWorse(rows, policy)
    {
      var r := results[k];
      assert results[..k + 1][..k] == results[..k];
      assert results[..k + 1] == results[..k] + [r];
      if !Paired(r) {
        insufficient := true;
        assert !Paired(results[..k + 1][k]);
        continue;
      }
      var row := RowOf(r.task, r.incumbent.value, r.candidate.value, policy);
      AnyAppend(rows, row, policy);
      rows := rows + [row];
      if !row.gated {
        if row.improvement.value < -policy.failedTaskCap { efficiencyRegression := true; }
        continue;
      }
      if !FullyMeasured(row.incumbent, row.candidate, policy.minRuns) { insufficient := true; }
      if Rate(row.candidate) < Rate(row.incumbent) { qualityRegression := true; }
      if row.floorEnforced && Valid(row.candidate) > 0 && row.candidate.resolved != Valid(row.candidate) { floorFailed := true; }
      if row.improvement.None? { insufficient := true; }
      else if row.improvement.value < -policy.taskCap { efficiencyRegression := true; }
    }
    assert results[..|results|] == results;
    var gated, ungated := Names(rows, true), Names(rows, false);
    if rows == [] || gated == [] || |gated| as real < MIN_GATED_TASK_RATIO * |rows| as real { insufficient := true; }
    var median := Median(Improvements(rows));
    var margin := Margin(rows);
    var verdict := KeepIncumbent;
    if insufficient { verdict := Insufficient; }
    else if qualityRegression || floorFailed || efficiencyRegression { verdict := KeepIncumbent; }
    else if margin >= 2 || (median.Some? && median.value >= policy.minImprovement) { verdict := Promote; }
    d := Decision(verdict, median, ungated, gated, rows);
  }

  /** `evaluate_candidate`. */
  method EvaluateCandidate(results: seq<TaskResult>, named: bool, policy: Policy) returns (d: Decision)
    ensures d == Gate(results, named, policy)
  {
    d := EvaluateInOrder(ByTask(results), named, policy);
  }

  lemma AnyAppend(rows: seq<Row>, row: Row, policy: Policy)
    ensures AnyThin(rows + [row], policy) <==> AnyThin(rows, policy) || Thin(row, policy)
    ensures AnyWorse(rows + [row], policy) <==> AnyWorse(rows, policy) || Worse(row, policy)
  {
    var all := rows + [row];
    assert all[|rows|] == row;
    forall k | 0 <= k < |rows| ensures all[k] == rows[k] {}
  }

  // ---- the order of the results does not matter --------------------------------------------

  predicate DistinctTasks(results: seq<TaskResult>) {
    forall i, j :: 0 <= i < j < |results| ==> results[i].task != results[j].task
  }

  lemma TasksTell(results: seq<TaskResult>)
    requires DistinctTasks(results)
    ensures TellsApart(multiset(results), TaskKey)
  {
    forall x, y | x in multiset(results) && y in multiset(results) && TaskKey(x) == TaskKey(y) ensures x == y {
      var i :| 0 <= i < |results| && results[i] == x;
      var j :| 0 <= j < |results| && results[j] == y;
      assert results[i].task == TaskKey(x)[0] == TaskKey(y)[0] == results[j].task;
    }
  }

  /** The decision depends on the bag of results only. */
  lemma DecisionIgnoresOrder(results: seq<TaskResult>, others: seq<TaskResult>, named: bool, policy: Policy)
    requires DistinctTasks(results) && multiset(results) == multiset(others)
    ensures Gate(results, named, policy) == Gate(others, named, policy)
  {
    TasksTell(results);
    SortIgnoresOrder(results, others, TaskKey);
  }

  lemma ByTaskKeeps(results: seq<TaskResult>)
    ensures |ByTask(results)| == |results|
    ensures forall r :: r in ByTask(results) <==> r in results
    ensures AllPaired(ByTask(results)) <==> AllPaired(results)
  {
    var sorted := ByTask(results);
    assert multiset(sorted) == multiset(results);
    assert |sorted| == |multiset(sorted)| == |results|;
    assert forall r :: r in sorted <==> r in multiset(sorted);
    assert forall r :: r in results <==> r in multiset(results);
    assert AllPaired(sorted) <==> forall r :: r in sorted ==> Paired(r);
    assert AllPaired(results) <==> forall r :: r in results ==> Paired(r);
  }

  lemma {:induction false} InsertKeepsDistinct(x: TaskResult, results: seq<TaskResult>)
    requires DistinctTasks(results) && forall r :: r in results ==> r.task != x.task
    ensures DistinctTasks(Insert(x, results, TaskKey))
  {
    if results != [] && !KeyLe(TaskKey(x), TaskKey(results[0])) {
      var rest := Insert(x, results[1..], TaskKey);
      InsertKeepsDistinct(x, results[1..]);
      forall j | 0 <= j < |rest| ensures rest[j].task != results[0].task {
        assert rest[j] in multiset(rest);
        assert rest[j] == x || rest[j] in results[1..];
      }
    }
  }

  lemma {:induction false} ByTaskKeepsDistinct(results: seq<TaskResult>)
    requires DistinctTasks(results)
    ensures DistinctTasks(ByTask(results))
  {
    if results != [] {
      ByTaskKeepsDistinct(results[1..]);
      ByTaskKeeps(results[1..]);
      InsertKeepsDistinct(results[0], ByTask(results[1..]));
    }
  }

  // ---- what a promotion means ---------------------------------------------------------------------------

  lemma RateTells(i: Arm, c: Arm, n: int)
    requires Valid(i) == n && Valid(c) == n && n >= 1 && Rate(c) >= Rate(i)
    ensures c.resolved >= i.resolved
  {
    assert Rate(c) * n as real == c.resolved as real && Rate(i) * n as real == i.resolved as real;
  }

  /** A row of a promoted set. */
  predicate Sound(row: Row, policy: Policy) {
    && FullyMeasured(row.incumbent, row.candidate, policy.minRuns)
    && row.candidate.resolved >= row.incumbent.resolved
    && (row.gated && row.floorEnforced ==> row.candidate.resolved == Valid(row.candidate))
    && (!row.gated ==> row.candidate.resolved == 0 && row.incumbent.resolved == 0)
    && row.improvement.Some? && row.improvement.value >= -(if row.gated then policy.taskCap else policy.failedTaskCap)
  }

  lemma {:induction false} RowsComeFromResults(results: seq<TaskResult>, policy: Policy, k: nat)
    requires k < |Rows(results, policy)|
    ensures var row := Rows(results, policy)[k]; row == RowOf(row.task, row.incumbent, row.candidate, policy)
  {
    var n := |results| - 1;
    if k < |Rows(results[..n], policy)| { RowsComeFromResults(results[..n], policy, k); }
  }

  /** Every promotion: no task left out, every task measured on equally many valid runs on both
      sides and on at least the minimum, none resolved less often than before, none dearer
      than its cap, at least half of the tasks gated, and a gain worth having. */
  lemma PromotionMeans(results: seq<TaskResult>, named: bool, policy: Policy)
    requires policy.minRuns >= 1 && Gate(results, named, policy).verdict == Promote
    ensures named && AllPaired(results) && results != []
    ensures var d := Gate(results, named, policy);
      && (forall k :: 0 <= k < |d.rows| ==> Sound(d.rows[k], policy))
      && 2 * |d.gated| >= |d.rows| && |d.gated| >= 1
      && (Margin(d.rows) >= 2 || (d.median.Some? && d.median.value >= policy.minImprovement))
  {
    var sorted := ByTask(results);
    var rows := Rows(sorted, policy);
    ByTaskKeeps(results);
    forall k | 0 <= k < |rows| ensures Sound(rows[k], policy) {
      var row := rows[k];
      RowsComeFromResults(sorted, policy, k);
      assert !Thin(rows[k], policy) && !Worse(rows[k], policy);
      if row.gated { RateTells(row.incumbent, row.candidate, Valid(row.candidate)); }
    }
  }

  lemma {:induction false} RowsMatchResults(results: seq<TaskResult>, policy: Policy)
    requires AllPaired(results)
    ensures var rows := Rows(results, policy);
      |rows| == |results| && forall k :: 0 <= k < |rows| ==>
        rows[k].task == results[k].task && rows[k].incumbent == results[k].incumbent.value && rows[k].candidate == results[k].candidate.value
  {
    if results != [] { RowsMatchResults(results[..|results| - 1], policy); }
  }

  // ---- when the gate decides what ------------------------------------------------------------

  /** Both arms are there, measured on equally many valid runs, at least the minimum, with none
      excluded, and with metrics that can be compared. */
  predicate Measured(r: TaskResult, policy: Policy) {
    && r.incumbent.Some? && r.candidate.Some?
    && var i, c := r.incumbent.value, r.candidate.value;
       && policy.minRuns <= Valid(i) == Valid(c) && Excluded(i) == 0 && Excluded(c) == 0
       && i.metric.Some? && c.metric.Some? && i.metric.value != 0.0
  }

  lemma RowIsThin(r: TaskResult, policy: Policy)
    requires Paired(r)
    ensures Thin(RowOf(r.task, r.incumbent.value, r.candidate.value, policy), policy) <==> !Measured(r, policy)
  {
  }

  lemma ThinExactly(results: seq<TaskResult>, policy: Policy)
    requires AllPaired(results)
    ensures AnyThin(Rows(results, policy), policy) <==> exists r :: r in results && !Measured(r, policy)
  {
    var rows := Rows(results, policy);
    RowsMatchResults(results, policy);
    forall k | 0 <= k < |rows| ensures Thin(rows[k], policy) <==> !Measured(results[k], policy) {
      RowsComeFromResults(results, policy, k);
      RowIsThin(results[k], policy);
    }
    if r :| r in results && !Measured(r, policy) {
      var k :| 0 <= k < |results| && results[k] == r;
      assert Thin(rows[k], policy);
    }
  }

  ghost predicate AllMeasured(results: seq<TaskResult>, policy: Policy) {
    forall r :: r in results ==> Measured(r, policy)
  }

  lemma EnoughGatedCounts(rows: seq<Row>)
    ensures EnoughGated(rows) <==> |Names(rows, true)| > 0 && 2 * |Names(rows, true)| >= |rows|
  {
  }

  lemma UnpairedOrThin(results: seq<TaskResult>, policy: Policy)
    ensures !AllPaired(results) || AnyThin(Rows(results, policy), policy) <==> !AllMeasured(results, policy)
  {
    if AllPaired(results) {
      ThinExactly(results, policy);
    } else {
      var k :| 0 <= k < |results| && !Paired(results[k]);
      assert !Measured(results[k], policy);
    }
  }

  lemma JudgedInsufficient(results: seq<TaskResult>, named: bool, policy: Policy)
    ensures Judge(results, named, policy).verdict == Insufficient
            <==> !(named && results != [] && AllMeasured(results, policy) && 2 * |Names(Rows(results, policy), true)| >= |results|)
  {
    UnpairedOrThin(results, policy);
    EnoughGatedCounts(Rows(results, policy));
    if AllPaired(results) { RowsMatchResults(results, policy); }
  }

  /** The gate finds its evidence insufficient exactly when no model is named, there are no
      results, some task is not measured on both sides, or less than half of the tasks are
      gated. */
  lemma InsufficientExactly(results: seq<TaskResult>, named: bool, policy: Policy)
    ensures var d := Gate(results, named, policy);
      d.verdict == Insufficient
      <==> !(named && results != [] && AllMeasured(results, policy) && 2 * |d.gated| >= |results|)
  {
    ByTaskKeeps(results);
    JudgedInsufficient(ByTask(results), named, policy);
    assert AllMeasured(ByTask(results), policy) <==> AllMeasured(results, policy);
    assert ByTask(results) == [] <==> results == [];
  }

  /** With sufficient evidence it promotes exactly when no task is resolved less often, none
      misses its floor, none is dearer than its cap, and there is a gain; and a task is out of
      the gate exactly when neither arm resolved a run of it and no skill failed to load. */
  lemma PromotesExactly(results: seq<TaskResult>, named: bool, policy: Policy)
    requires policy.minRuns >= 1 && Gate(results, named, policy).verdict != Insufficient
    ensures var d := Gate(results, named, policy);
      d.verdict == Promote
      <==> (forall k :: 0 <= k < |d.rows| ==> Sound(d.rows[k], policy))
           && (Margin(d.rows) >= 2 || (d.median.Some? && d.median.value >= policy.minImprovement))
    ensures forall row :: row in Gate(results, named, policy).rows ==>
      var skill := row.incumbent.skillErrors || row.candidate.skillErrors;
      && (row.gated <==> row.incumbent.resolved != 0 || row.candidate.resolved != 0 || skill)
      && (row.floorEnforced <==> row.incumbent.resolved != 0 || skill) && (row.skillAttributable <==> skill)
      && (row.floorMet <==> row.candidate.resolved == Valid(row.candidate))
  {
    var sorted := ByTask(results);
    var rows := Rows(sorted, policy);
    forall k | 0 <= k < |rows|
      ensures Sound(rows[k], policy) <==> !Worse(rows[k], policy)
      ensures var row := rows[k];
        var skill := row.incumbent.skillErrors || row.candidate.skillErrors;
        && (row.gated <==> row.incumbent.resolved != 0 || row.candidate.resolved != 0 || skill)
        && (row.floorEnforced <==> row.incumbent.resolved != 0 || skill) && (row.skillAttributable <==> skill)
        && (row.floorMet <==> row.candidate.resolved == Valid(row.candidate))
    {
      var row := rows[k];
      RowsComeFromResults(sorted, policy, k);
      assert !Thin(rows[k], policy);
      RatesCompare(row.incumbent, row.candidate, Valid(row.candidate));
    }
  }

  lemma RatesCompare(i: Arm, c: Arm, n: int)
    requires Valid(i) == n && Valid(c) == n && n >= 1
    ensures Rate(c) >= Rate(i) <==> c.resolved >= i.resolved
  {
    assert Rate(c) * n as real == c.resolved as real && Rate(i) * n as real == i.resolved as real;
    assert Rate(c) < Rate(i) ==> Rate(c) * n as real < Rate(i) * n as real;
  }

  /** An arm with its counts of valid and excluded runs written out. */
  function FilledArm(a: Arm): Arm {
    a.(validRuns := Some(if a.validRuns == None then a.runs else a.validRuns.value),
       excludedRuns := Some(if a.excludedRuns == None then 0 else a.excludedRuns.value))
  }

  function Filled(r: TaskResult): TaskResult {
    r.(incumbent := if r.incumbent.Some? then Some(FilledArm(r.incumbent.value)) else None,
       candidate := if r.candidate.Some? then Some(FilledArm(r.candidate.value)) else None)
  }

  function AllFilled(results: seq<TaskResult>): (filled: seq<TaskResult>)
    ensures |filled| == |results| && forall k :: 0 <= k < |results| ==> filled[k] == Filled(results[k])
  {
    seq(|results|, k requires 0 <= k < |results| => Filled(results[k]))
  }

  /** Two rows that differ in written-out counts only. */
  ghost predicate SameRow(row: Row, other: Row) {
    other == row.(incumbent := FilledArm(row.incumbent), candidate := FilledArm(row.candidate))
  }

  ghost predicate SameRows(rows: seq<Row>, others: seq<Row>) {
    |rows| == |others| && forall k :: 0 <= k < |rows| ==> SameRow(rows[k], others[k])
  }

  lemma {:induction false} FilledRows(results: seq<TaskResult>, policy: Policy)
    ensures SameRows(Rows(results, policy), Rows(AllFilled(results), policy))
  {
    if results != [] {
      var n := |results| - 1;
      assert AllFilled(results)[..n] == AllFilled(results[..n]);
      FilledRows(results[..n], policy);
    }
  }

  lemma {:induction false} FilledPairs(results: seq<TaskResult>)
    ensures AllPaired(AllFilled(results)) <==> AllPaired(results)
  {
    forall k | 0 <= k < |results| ensures Paired(AllFilled(results)[k]) <==> Paired(results[k]) {}
  }

  lemma {:induction false} SameRowsAgree(rows: seq<Row>, others: seq<Row>)
    requires SameRows(rows, others)
    ensures Names(others, true) == Names(rows, true) && Names(others, false) == Names(rows, false)
    ensures Improvements(others) == Improvements(rows) && Margin(others) == Margin(rows)
  {
    if rows != [] {
      var n := |rows| - 1;
      assert SameRow(rows[n], others[n]);
      SameRowsAgree(rows[..n], others[..n]);
    }
  }

  lemma {:induction false} SameRowsJudged(rows: seq<Row>, others: seq<Row>, policy: Policy)
    requires SameRows(rows, others)
    ensures AnyThin(others, policy) <==> AnyThin(rows, policy)
    ensures AnyWorse(others, policy) <==> AnyWorse(rows, policy)
  {
    forall k | 0 <= k < |rows| ensures Thin(others[k], policy) <==> Thin(rows[k], policy) {
      assert SameRow(rows[k], others[k]);
    }
    forall k | 0 <= k < |rows| ensures Worse(others[k], policy) <==> Worse(rows[k], policy) {
      assert SameRow(rows[k], others[k]);
    }
  }

  /** Counts that are left out mean that all runs were valid and none excluded. */
  lemma {:induction false} MissingCountsMeanAllValid(results: seq<TaskResult>, named: bool, policy: Policy)
    ensures var d, f := Judge(results, named, policy), Judge(AllFilled(results), named, policy);
      f.verdict == d.verdict && f.median == d.median && f.ungated == d.ungated && f.gated == d.gated
  {
    var rows, others := Rows(results, policy), Rows(AllFilled(results), policy);
    FilledRows(results, policy);
    FilledPairs(results);
    SameRowsAgree(rows, others);
    SameRowsJudged(rows, others, policy);
  }

  lemma RoundsToTenth(x: real)
    ensures -0.05 <= x - Round1(x) <= 0.05
  {
    RoundsToNearest(10.0 * x);
    RoundsToNearest(x);
  }

  lemma ScaledRest(exact: real, rounded: real, i: real, x: real)
    requires i > 0.0 && exact * i == x && -0.05 <= exact - rounded <= 0.05
    ensures -0.05 * i <= x - rounded * i <= 0.05 * i
  {
    var rest := exact - rounded;
    assert rest * i == exact * i - rounded * i;
    NonNegative(0.05 - rest, i);
    NonNegative(rest + 0.05, i);
    assert (0.05 - rest) * i == 0.05 * i - rest * i && (rest + 0.05) * i == rest * i + 0.05 * i;
  }

  lemma NonNegative(x: real, y: real)
    requires x >= 0.0 && y >= 0.0
    ensures x * y >= 0.0
  {
  }

  /** An improvement of p percent: the candidate's value is the incumbent's less p percent, up
      to a twentieth of a percent. */
  lemma ImprovementMeans(incumbent: real, candidate: real)
    requires incumbent > 0.0
    ensures var p := Improvement(Some(incumbent), Some(candidate));
      p.Some? && -0.05 * incumbent <= 100.0 * (incumbent - candidate) - p.value * incumbent <= 0.05 * incumbent
  {
    var x := 100.0 * (incumbent - candidate);
    RoundsToTenth(x / incumbent);
    ScaledRest(x / incumbent, Round1(x / incumbent), incumbent, x);
  }

  /** All runs that one side of the results resolved. */
  function Resolved(results: seq<TaskResult>, candidate: bool): int
    requires AllPaired(results)
  {
    if results == [] then 0
    else
      var last := results[|results| - 1];
      Resolved(results[..|results| - 1], candidate) + (if candidate then last.candidate.value.resolved else last.incumbent.value.resolved)
  }

  /** The margin is what the candidate resolved of all tasks, in the gate or not, less what the
      incumbent did. */
  lemma {:induction false} MarginIsDifference(results: seq<TaskResult>, policy: Policy)
    requires AllPaired(results)
    ensures Margin(Rows(results, policy)) == Resolved(results, true) - Resolved(results, false)
  {
    if results != [] {
      var n := |results| - 1;
      MarginIsDifference(results[..n], policy);
      assert Rows(results, policy)[..|Rows(results, policy)| - 1] == Rows(results[..n], policy);
    }
  }

  /** Rounding goes to a nearest integer, and to the even one of two. */
  lemma RoundsToNearest(x: real)
    ensures var rest := x - RoundEven(x) as real; -0.5 <= rest <= 0.5 && (rest == 0.5 || rest == -0.5 ==> RoundEven(x) % 2 == 0)
    ensures 10.0 * Round1(x) == RoundEven(10.0 * x) as real
  {
  }

  /** The results a decision's own rows record. */
  function Recorded(rows: seq<Row>): seq<TaskResult> {
    if rows == [] then []
    else
      var last := rows[|rows| - 1];
      Recorded(rows[..|rows| - 1]) + [TaskResult(last.task, Some(last.incumbent), Some(last.candidate))]
  }

  lemma {:induction false} RecordedReproduces(results: seq<TaskResult>, policy: Policy)
    ensures Rows(Recorded(Rows(results, policy)), policy) == Rows(results, policy)
    ensures AllPaired(Recorded(Rows(results, policy)))
  {
    if results != [] {
      var front, last := results[..|results| - 1], results[|results| - 1];
      RecordedReproduces(front, policy);
      if Paired(last) {
        var rows := Rows(results, policy);
        assert rows[..|rows| - 1] == Rows(front, policy);
        var again := Recorded(rows);
        assert again[..|again| - 1] == Recorded(Rows(front, policy));
      }
    }
  }

  /** Rows are in the order of the results, so by task name. */
  ghost predicate InTaskOrder(rows: seq<Row>) {
    forall i, j :: 0 <= i < j < |rows| ==> ColumnLe(rows[i].task, rows[j].task)
  }

  lemma {:induction false} RowTasksAreResultTasks(results: seq<TaskResult>, policy: Policy, i: nat, j: nat)
    returns (a: nat, b: nat)
    requires i < j < |Rows(results, policy)|
    ensures a < b < |results|
    ensures results[a].task == Rows(results, policy)[i].task && results[b].task == Rows(results, policy)[j].task
  {
    var n := |results| - 1;
    var front := Rows(results[..n], policy);
    if j < |front| {
      a, b := RowTasksAreResultTasks(results[..n], policy, i, j);
    } else {
      a := RowTask(results[..n], policy, i);
      b := n;
    }
  }

  lemma {:induction false} RowTask(results: seq<TaskResult>, policy: Policy, i: nat) returns (a: nat)
    requires i < |Rows(results, policy)|
    ensures a < |results| && results[a].task == Rows(results, policy)[i].task
  {
    var n := |results| - 1;
    if i < |Rows(results[..n], policy)| { a := RowTask(results[..n], policy, i); } else { a := n; }
  }

  /** A decision's rows are in the order of their task names. */
  lemma RowsAreInTaskOrder(results: seq<TaskResult>, named: bool, policy: Policy)
    ensures InTaskOrder(Gate(results, named, policy).rows)
  {
    var sorted := ByTask(results);
    var rows := Rows(sorted, policy);
    SortSorts(results, TaskKey);
    forall i, j | 0 <= i < j < |rows| ensures ColumnLe(rows[i].task, rows[j].task) {
      var a, b := RowTasksAreResultTasks(sorted, policy, i, j);
      assert KeyLe(TaskKey(sorted[a]), TaskKey(sorted[b]));
      ColumnLeTotalOrder(rows[i].task, rows[i].task, rows[i].task);
    }
  }

  lemma {:induction false} RecordedAt(rows: seq<Row>)
    ensures var results := Recorded(rows);
      |results| == |rows| && forall k :: 0 <= k < |rows| ==>
        results[k] == TaskResult(rows[k].task, Some(rows[k].incumbent), Some(rows[k].candidate))
  {
    if rows != [] { RecordedAt(rows[..|rows| - 1]); }
  }

  /** What rows in task order record is in task order. */
  lemma RecordedIsByTask(rows: seq<Row>)
    requires InTaskOrder(rows)
    ensures ByTask(Recorded(rows)) == Recorded(rows)
  {
    var results := Recorded(rows);
    RecordedAt(rows);
    forall i, j | 0 <= i < j < |results| ensures KeyLe(TaskKey(results[i]), TaskKey(results[j])) {
      assert ColumnLe(rows[i].task, rows[j].task);
    }
    SortOfSorted(results, TaskKey);
  }

  /** Rerunning the gate on what a promotion recorded gives the same decision. */
  lemma PromotionIsReproduced(results: seq<TaskResult>, named: bool, policy: Policy)
    requires Gate(results, named, policy).verdict == Promote
    ensures Gate(Recorded(Gate(results, named, policy).rows), named, policy) == Gate(results, named, policy)
  {
    RowsAreInTaskOrder(results, named, policy);
    RecordedIsByTask(Gate(results, named, policy).rows);
    RecordedReproduces(ByTask(results), policy);
  }
}
