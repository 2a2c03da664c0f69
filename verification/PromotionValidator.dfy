/** `_require_gate_evidence`: it checks a claimed decision's bindings and recomputes it from the
    metrics in its own rows. */
module PromotionValidator {
  import opened Optional
  import opened PromotionGate

  datatype Refusal =
    | NoRows
    | RepeatedTask
    | WrongTasks
    | UngatedListDisagrees
    | NothingGated
    | ThinEvidence
    | InvalidMetrics
    | NotReproduced

  function TaskSet(rows: seq<Row>): set<TaskId> {
    set k | 0 <= k < |rows| :: rows[k].task
  }

  predicate DistinctRows(rows: seq<Row>) {
    forall i, j :: 0 <= i < j < |rows| ==> rows[i].task != rows[j].task
  }

  /** The counts and the metric of one side of a row. */
  predicate ValidArm(a: Arm) {
    && a.validRuns.Some? && a.excludedRuns.Some?
    && a.runs >= 0 && a.validRuns.value >= 0 && a.excludedRuns.value >= 0 && a.resolved >= 0
    && a.runs == a.validRuns.value + a.excludedRuns.value
    && a.resolved <= a.validRuns.value
    && (a.metric.Some? ==> a.metric.value >= 0.0)
  }

  /** Valid and excluded runs make up all runs, and what was resolved was resolved in valid ones. */
  lemma ValidArmCounts(a: Arm)
    ensures ValidArm(a) <==>
      && a.validRuns.Some? && a.excludedRuns.Some?
      && 0 <= a.resolved <= Valid(a) <= a.runs && Excluded(a) == a.runs - Valid(a)
      && (a.metric == None || a.metric.value >= 0.0)
    ensures ValidArm(a) ==> 0.0 <= Rate(a) <= 1.0
  {
    if ValidArm(a) && Valid(a) > 0 {
      var rate := Rate(a);
      assert rate * Valid(a) as real == a.resolved as real;
      assert rate < 0.0 ==> rate * Valid(a) as real < 0.0;
      assert rate > 1.0 ==> rate * Valid(a) as real > Valid(a) as real;
    }
  }

  predicate ValidRow(row: Row) {
    ValidArm(row.incumbent) && ValidArm(row.candidate)
  }

  ghost predicate Acceptable(d: Decision, selected: set<TaskId>, named: bool, policy: Policy) {
    && d.rows != [] && DistinctRows(d.rows) && TaskSet(d.rows) == selected
    && multiset(d.ungated) == multiset(Names(d.rows, false))
    && EnoughGated(d.rows)
    && (forall k :: 0 <= k < |d.rows| ==> ValidRow(d.rows[k]))
    && d.verdict == Promote && Gate(Recorded(d.rows), named, policy) == d
  }

  lemma LastTask(rows: seq<Row>)
    requires rows != []
    ensures var front, x := rows[..|rows| - 1], rows[|rows| - 1].task;
      && TaskSet(rows) == TaskSet(front) + {x}
      && (DistinctRows(rows) <==> DistinctRows(front) && x !in TaskSet(front))
  {
    var n := |rows| - 1;
    var front := rows[..n];
    assert forall k :: 0 <= k < n ==> front[k] == rows[k];
    assert TaskSet(rows) == TaskSet(front) + {rows[n].task};
    assert rows[n].task in TaskSet(front) <==> exists k :: 0 <= k < n && front[k].task == rows[n].task;
  }

  /** The names in `rows` with and without a place in the gate are all its names. */
  lemma {:induction false} NamesAreTasks(rows: seq<Row>)
    ensures (set x | x in Names(rows, true) + Names(rows, false)) == TaskSet(rows)
  {
    var n := |rows| - 1;
    if rows != [] {
      NamesAreTasks(rows[..n]);
      LastTask(rows);
    }
  }

  /** Counting the different names finds out whether one is repeated. */
  lemma {:induction false} CountTells(rows: seq<Row>)
    ensures |TaskSet(rows)| <= |rows|
    ensures |TaskSet(rows)| == |rows| <==> DistinctRows(rows)
  {
    if rows != [] {
      var front, x := rows[..|rows| - 1], rows[|rows| - 1].task;
      CountTells(front);
      LastTask(rows);
      assert |TaskSet(front) + {x}| == if x in TaskSet(front) then |TaskSet(front)| else |TaskSet(front)| + 1 by {
        if x in TaskSet(front) { assert TaskSet(front) + {x} == TaskSet(front); }
      }
    }
  }

  /** The arms' metrics of each row, unless some are invalid. */
  method CollectResults(rows: seq<Row>) returns (results: Option<seq<TaskResult>>)
    ensures results.Some? ==> results.value == Recorded(rows) && forall k :: 0 <= k < |rows| ==> ValidRow(rows[k])
    ensures results.None? ==> exists k :: 0 <= k < |rows| && !ValidRow(rows[k])
  {
    var collected: seq<TaskResult> := [];
    for k := 0 to |rows|
      invariant collected == Recorded(rows[..k])
      invariant forall j :: 0 <= j < k ==> ValidRow(rows[j])
    {
      if !ValidRow(rows[k]) { return None; }
      assert rows[..k + 1][..k] == rows[..k];
      collected := collected + [TaskResult(rows[k].task, Some(rows[k].incumbent), Some(rows[k].candidate))];
    }
    assert rows[..|rows|] == rows;
    return Some(collected);
  }

  /** `_require_gate_evidence`, returning the reason it raises. */
  method RequireGateEvidence(d: Decision, selected: set<TaskId>, named: bool, policy: Policy) returns (refusal: Option<Refusal>)
    ensures refusal.None? <==> Acceptable(d, selected, named, policy)
    ensures refusal == Some(RepeatedTask) ==> !DistinctRows(d.rows)
    ensures refusal == Some(WrongTasks) ==> DistinctRows(d.rows) && TaskSet(d.rows) != selected
    ensures refusal == Some(ThinEvidence) ==> |Names(d.rows, true)| > 0 && !EnoughGated(d.rows)
    ensures refusal == Some(InvalidMetrics) ==> exists k :: 0 <= k < |d.rows| && !ValidRow(d.rows[k])
  {
    var rows := d.rows;
    if rows == [] { return Some(NoRows); }
    var gated: seq<TaskId>, ungated: seq<TaskId> := [], [];
    for k := 0 to |rows|
      invariant gated == Names(rows[..k], true) && ungated == Names(rows[..k], false)
    {
      assert rows[..k + 1][..k] == rows[..k];
      if rows[k].gated { gated := gated + [rows[k].task]; } else { ungated := ungated + [rows[k].task]; }
    }
    assert rows[..|rows|] == rows;
    var all := set x | x in gated + ungated;
    NamesAreTasks(rows);
    CountTells(rows);
    if |all| != |rows| { return Some(RepeatedTask); }
    if all != selected { return Some(WrongTasks); }
    if multiset(d.ungated) != multiset(ungated) { return Some(UngatedListDisagrees); }
    if gated == [] { return Some(NothingGated); }
    if |gated| as real < MIN_GATED_TASK_RATIO * |rows| as real { return Some(ThinEvidence); }
    var results := CollectResults(rows);
    if results.None? { return Some(InvalidMetrics); }
    var recomputed := EvaluateCandidate(results.value, named, policy);
    if recomputed.verdict != Promote || recomputed != d { return Some(NotReproduced); }
    return None;
  }

  /** Results with sound counts on distinct tasks, all of them selected. */
  ghost predicate ValidResults(results: seq<TaskResult>, selected: set<TaskId>) {
    && AllPaired(results)
    && (forall k :: 0 <= k < |results| ==> ValidArm(results[k].incumbent.value) && ValidArm(results[k].candidate.value))
    && DistinctTasks(results)
    && selected == set k | 0 <= k < |results| :: results[k].task
  }

  lemma SortKeepsValid(results: seq<TaskResult>, selected: set<TaskId>)
    requires ValidResults(results, selected)
    ensures ValidResults(ByTask(results), selected)
  {
    var sorted := ByTask(results);
    ByTaskKeeps(results);
    ByTaskKeepsDistinct(results);
    forall k | 0 <= k < |sorted| ensures ValidArm(sorted[k].incumbent.value) && ValidArm(sorted[k].candidate.value) {
      assert sorted[k] in results;
    }
    forall x ensures x in selected <==> exists k :: 0 <= k < |sorted| && sorted[k].task == x {
      if x in selected {
        var k :| 0 <= k < |results| && results[k].task == x;
        assert results[k] in sorted;
      }
      if k :| 0 <= k < |sorted| && sorted[k].task == x { assert sorted[k] in results; }
    }
  }

  lemma GateIsAccepted(results: seq<TaskResult>, selected: set<TaskId>, named: bool, policy: Policy)
    requires ValidResults(results, selected) && Gate(results, named, policy).verdict == Promote
    ensures Acceptable(Gate(results, named, policy), selected, named, policy)
  {
    var sorted := ByTask(results);
    SortKeepsValid(results, selected);
    RowsMatchResults(sorted, policy);
    PromotionIsReproduced(results, named, policy);
    ResultsNameRows(sorted, Rows(sorted, policy), selected);
  }

  lemma ResultsNameRows(results: seq<TaskResult>, rows: seq<Row>, selected: set<TaskId>)
    requires ValidResults(results, selected) && |rows| == |results|
    requires forall k :: 0 <= k < |rows| ==> rows[k].task == results[k].task
    ensures TaskSet(rows) == selected && DistinctRows(rows)
  {
    forall x ensures x in TaskSet(rows) <==> x in selected {
      if x in selected {
        var k :| 0 <= k < |results| && results[k].task == x;
        assert rows[k].task == x;
      }
    }
  }

  /** `d` is what the gate makes of these valid results, and a promotion. */
  ghost predicate Promotes(results: seq<TaskResult>, d: Decision, selected: set<TaskId>, named: bool, policy: Policy) {
    ValidResults(results, selected) && Gate(results, named, policy) == d && d.verdict == Promote
  }

  lemma AcceptedRecordsValidResults(d: Decision, selected: set<TaskId>, named: bool, policy: Policy)
    requires Acceptable(d, selected, named, policy)
    ensures Promotes(Recorded(d.rows), d, selected, named, policy)
  {
    RecordedIsValid(d.rows, selected);
  }

  lemma {:induction false} RecordedIsValid(rows: seq<Row>, selected: set<TaskId>)
    requires DistinctRows(rows) && TaskSet(rows) == selected && forall k :: 0 <= k < |rows| ==> ValidRow(rows[k])
    ensures ValidResults(Recorded(rows), selected)
  {
    var results := Recorded(rows);
    RecordedAt(rows);
    forall k | 0 <= k < |results|
      ensures Paired(results[k]) && ValidArm(results[k].incumbent.value) && ValidArm(results[k].candidate.value)
    {
      assert ValidRow(rows[k]);
    }
    forall x ensures x in TaskSet(rows) <==> exists k :: 0 <= k < |results| && results[k].task == x {
      if x in TaskSet(rows) {
        var k :| 0 <= k < |rows| && rows[k].task == x;
        assert results[k].task == x;
      }
    }
  }

  /** The validator accepts exactly the promotions the gate gives on valid results for the
      selected tasks: none it gives is refused, and nothing else is accepted, not even its
      rows in another order. */
  lemma AcceptsExactlyTheGatesPromotions(d: Decision, selected: set<TaskId>, named: bool, policy: Policy)
    ensures Acceptable(d, selected, named, policy) <==> exists results :: Promotes(results, d, selected, named, policy)
  {
    if Acceptable(d, selected, named, policy) {
      AcceptedRecordsValidResults(d, selected, named, policy);
    }
    forall results | Promotes(results, d, selected, named, policy) ensures Acceptable(d, selected, named, policy) {
      GateIsAccepted(results, selected, named, policy);
    }
  }

  /** So whatever produced an accepted decision, it has what a promotion promises. */
  lemma AcceptedMeansPromotion(d: Decision, selected: set<TaskId>, named: bool, policy: Policy)
    requires Acceptable(d, selected, named, policy) && policy.minRuns >= 1
    ensures named && forall k :: 0 <= k < |d.rows| ==> Sound(d.rows[k], policy)
    ensures 2 * |d.gated| >= |d.rows| == |selected| && InTaskOrder(d.rows)
  {
    RowsAreInTaskOrder(Recorded(d.rows), named, policy);
    PromotionMeans(Recorded(d.rows), named, policy);
    CountTells(d.rows);
  }
}
