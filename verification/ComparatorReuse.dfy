/** Which rows of an earlier sweep are carried into this one, and for how long a measurement
    can be carried from sweep to sweep. The field-by-field comparison of a row with what the
    sweep expects is one function, `agrees`. */
module ComparatorReuse {
  import opened Optional

  /** A time stamp in a row: absent or empty, or a text and the time it parses to, if any. */
  datatype Stamp = Missing | Text(text: string, time: Option<int>)

  type CellKey = (string, string, nat)

  /** `facts` is every bound field; `scores` the digests and the score in the row's identity. */
  datatype Row<Facts(==), Scores(==)> = Row(
    task: string, arm: string, run: Option<nat>, facts: Facts, scores: Scores, recordedAt: Stamp, reusedFrom: Stamp)

  const REUSABLE_ARMS: set<string> := {
    "review", "ce_review", "workflow", "workflow_direct", "ce_workflow", "ce_workflow_direct", "baseline", "baseline_nomcp"
  }

  /** When the row was first measured, through any number of copies. */
  function FirstStamp<F, S>(row: Row<F, S>): Stamp {
    if row.reusedFrom == Missing then row.recordedAt else row.reusedFrom
  }

  function FirstTime<F, S>(row: Row<F, S>): Option<int> {
    match FirstStamp(row)
    case Missing => None
    case Text(_, time) => time
  }

  /** `row_is_reusable_comparator` at a given time. */
  predicate Usable<F, S>(row: Row<F, S>, sweep: Sweep<F>) {
    && row.arm in REUSABLE_ARMS && sweep.agrees(row.facts)
    && FirstTime(row).Some? && 0 <= sweep.now - FirstTime(row).value <= sweep.maxAge
  }

  function Key<F, S>(row: Row<F, S>): Option<CellKey> {
    if row.run.Some? then Some((row.task, row.arm, row.run.value)) else None
  }

  function Identity<F, S>(row: Row<F, S>): (S, Stamp) {
    (row.scores, row.recordedAt)
  }

  /** The time of a selection and the rules it applies. */
  datatype Sweep<!F> = Sweep(agrees: F -> bool, now: int, maxAge: nat)

  predicate Offers<F, S>(row: Row<F, S>, key: CellKey, sweep: Sweep<F>) {
    Usable(row, sweep) && Key(row) == Some(key)
  }

  ghost predicate Offered<F, S>(rows: seq<Row<F, S>>, key: CellKey, sweep: Sweep<F>) {
    exists row :: row in rows && Offers(row, key, sweep)
  }

  /** All rows that could fill a cell are the same measurement. */
  ghost predicate Undisputed<F, S>(rows: seq<Row<F, S>>, key: CellKey, sweep: Sweep<F>) {
    forall row, other :: row in rows && other in rows && Offers(row, key, sweep) && Offers(other, key, sweep) ==>
      Identity(row) == Identity(other)
  }

  /** What a cell's place in the selection has come to. */
  datatype Slot<F(==), S(==)> = Nothing | Chosen(row: Row<F, S>) | Blocked

  function SlotOf<F(==), S(==)>(rows: seq<Row<F, S>>, key: CellKey, sweep: Sweep<F>): Slot<F, S> {
    if rows == [] then Nothing
    else
      var before, row := SlotOf(rows[..|rows| - 1], key, sweep), rows[|rows| - 1];
      if !Offers(row, key, sweep) then before
      else
        match before
        case Nothing => Chosen(row)
        case Chosen(first) => if Identity(first) == Identity(row) then before else Blocked
        case Blocked => Blocked
  }

  lemma {:induction false} SlotTells<F, S>(rows: seq<Row<F, S>>, key: CellKey, sweep: Sweep<F>)
    ensures match SlotOf(rows, key, sweep)
      case Nothing => !Offered(rows, key, sweep)
      case Chosen(row) => row in rows && Offers(row, key, sweep) && Undisputed(rows, key, sweep)
      case Blocked => !Undisputed(rows, key, sweep)
  {
    if rows != [] {
      var front, last := rows[..|rows| - 1], rows[|rows| - 1];
      SlotTells(front, key, sweep);
      assert rows == front + [last];
      assert forall row :: row in rows <==> row in front || row == last;
      if SlotOf(front, key, sweep).Blocked? {
        assert forall row :: row in front ==> row in rows;
      }
    }
  }

  /** `select_reusable_comparator_rows`: a key is kept exactly when some usable row has it and
      all usable rows that have it share one identity. */
  method Select<F(==), S(==)>(rows: seq<Row<F, S>>, sweep: Sweep<F>) returns (chosen: map<CellKey, Row<F, S>>)
    ensures forall key :: key in chosen <==> Offered(rows, key, sweep) && Undisputed(rows, key, sweep)
    ensures forall key :: key in chosen ==> chosen[key] in rows && Offers(chosen[key], key, sweep)
  {
    chosen := map[];
    var blocked: set<CellKey> := {};
    for n := 0 to |rows|
      invariant forall key :: key in chosen ==> SlotOf(rows[..n], key, sweep) == Chosen(chosen[key])
      invariant forall key :: key in blocked <==> SlotOf(rows[..n], key, sweep).Blocked?
      invariant forall key :: key !in chosen && key !in blocked ==> SlotOf(rows[..n], key, sweep).Nothing?
    {
      var row := rows[n];
      assert rows[..n + 1][..n] == rows[..n];
      if !Usable(row, sweep) || row.run.None? { continue; }
      var key := (row.task, row.arm, row.run.value);
      if key in blocked { continue; }
      if key !in chosen {
        chosen := chosen[key := row];
        continue;
      }
      if Identity(chosen[key]) != Identity(row) {
        blocked := blocked + {key};
        chosen := chosen - {key};
      }
    }
    assert rows[..|rows|] == rows;
    forall key {
      SlotTells(rows, key, sweep);
    }
  }

  /** The keys kept, and the identity kept for each, do not depend on the order of the rows. */
  lemma SelectionIgnoresOrder<F, S>(rows: seq<Row<F, S>>, others: seq<Row<F, S>>, key: CellKey, sweep: Sweep<F>)
    requires multiset(rows) == multiset(others)
    ensures SlotOf(rows, key, sweep).Chosen? <==> SlotOf(others, key, sweep).Chosen?
    ensures SlotOf(rows, key, sweep).Chosen? ==>
      Identity(SlotOf(rows, key, sweep).row) == Identity(SlotOf(others, key, sweep).row)
  {
    SlotTells(rows, key, sweep);
    SlotTells(others, key, sweep);
    assert forall row :: row in rows <==> row in multiset(rows);
    assert forall row :: row in others <==> row in multiset(others);
  }

  /** A usable row of one run of one task under one arm. */
  predicate Fills<F, S>(row: Row<F, S>, task: string, arm: string, run: nat, sweep: Sweep<F>) {
    Usable(row, sweep) && row.task == task && row.arm == arm && row.run == Some(run)
  }

  /** A run of a task under an arm is reused exactly when some usable row measured it and all
      that did have the same scores and the same time stamp; other runs, tasks and arms have
      no say in it. */
  lemma ReusedExactly<F, S>(rows: seq<Row<F, S>>, task: string, arm: string, run: nat, sweep: Sweep<F>)
    ensures SlotOf(rows, (task, arm, run), sweep).Chosen?
            <==> (exists row :: row in rows && Fills(row, task, arm, run, sweep))
                 && forall row, other :: row in rows && other in rows && Fills(row, task, arm, run, sweep) && Fills(other, task, arm, run, sweep) ==>
                      row.scores == other.scores && row.recordedAt == other.recordedAt
  {
    var key := (task, arm, run);
    SlotTells(rows, key, sweep);
    assert forall row: Row<F, S> :: Fills(row, task, arm, run, sweep) <==> Offers(row, key, sweep);
  }

  // ---- generations ----------------------------------------------------------------------------

  /** `materialize_reused_row` at a time whose text and value are given. */
  function Materialize<F, S>(row: Row<F, S>, stamp: Stamp): Row<F, S> {
    row.(reusedFrom := FirstStamp(row), recordedAt := stamp)
  }

  datatype Generation<!F> = Generation(sweep: Sweep<F>, stamp: Stamp)

  /** Each sweep reuses what the one before it recorded. */
  ghost predicate IsChain<F, S>(rows: seq<Row<F, S>>, generations: seq<Generation<F>>) {
    && |rows| == |generations| + 1
    && forall k :: 0 <= k < |generations| ==>
         Usable(rows[k], generations[k].sweep) && rows[k + 1] == Materialize(rows[k], generations[k].stamp)
  }

  lemma {:induction false} ChainKeepsMeasurement<F, S>(rows: seq<Row<F, S>>, generations: seq<Generation<F>>, k: nat)
    requires IsChain(rows, generations) && k < |rows|
    ensures FirstStamp(rows[k]) == FirstStamp(rows[0]) && rows[k].facts == rows[0].facts && rows[k].scores == rows[0].scores
    ensures rows[k].arm == rows[0].arm
  {
    if k > 0 {
      ChainKeepsMeasurement(rows, generations, k - 1);
      assert Usable(rows[k - 1], generations[k - 1].sweep) && rows[k - 1 + 1] == Materialize(rows[k - 1], generations[k - 1].stamp);
    }
  }

  /** However long the chain, a row is reused only while its first measurement is within the
      age limit and agrees with what the reusing sweep expects. */
  lemma ReuseNeverOutlivesMeasurement<F, S>(rows: seq<Row<F, S>>, generations: seq<Generation<F>>, k: nat)
    requires IsChain(rows, generations) && k < |generations|
    ensures FirstTime(rows[0]).Some? && generations[k].sweep.agrees(rows[0].facts)
    ensures var age := generations[k].sweep.now - FirstTime(rows[0]).value; 0 <= age <= generations[k].sweep.maxAge
  {
    ChainKeepsMeasurement(rows, generations, k);
    assert Usable(rows[k], generations[k].sweep);
  }

  /** And as long as that holds it can be reused again, whatever the copies' own stamps. */
  lemma ReusableExactly<F, S>(rows: seq<Row<F, S>>, generations: seq<Generation<F>>, sweep: Sweep<F>)
    requires IsChain(rows, generations)
    ensures var first := FirstTime(rows[0]);
      Usable(rows[|rows| - 1], sweep)
      <==> rows[0].arm in REUSABLE_ARMS && sweep.agrees(rows[0].facts) && first.Some? && first.value <= sweep.now <= first.value + sweep.maxAge
  {
    ChainKeepsMeasurement(rows, generations, |rows| - 1);
  }

  /** A copy and what it was copied from are two identities: offered together, with stamps that
      differ, they cost each other the cell. */
  lemma CopyDisputesOriginal<F, S>(rows: seq<Row<F, S>>, row: Row<F, S>, stamp: Stamp, key: CellKey, sweep: Sweep<F>)
    requires row in rows && Materialize(row, stamp) in rows && stamp != row.recordedAt && Offers(row, key, sweep)
    ensures !SlotOf(rows, key, sweep).Chosen?
  {
    var copy := Materialize(row, stamp);
    assert FirstStamp(copy) == FirstStamp(row);
    assert Offers(copy, key, sweep);
    SlotTells(rows, key, sweep);
  }
}
