/** `sweep_task_cells`: fixed waves of `workers` cells with a barrier between them, folded in
    submission order after each wave, and the sweep that runs it task after task. No outside
    cancel and no cell exception: a cell's row is what `run` returns for it. */
module WaveSweep {
  import opened OutageBreaker
  import PackedSweep

  datatype Result = WorkersNotPositive | Swept(streak: int, tripped: bool, recorded: seq<nat>)

  /** Every cell of a wave sweep is runnable: a task reaches it with its assets in place. */
  function AsCells(records: seq<Record>): (cells: seq<Cell>)
    ensures |cells| == |records| && forall i :: 0 <= i < |cells| ==> cells[i] == Cell(true, records[i])
  {
    seq(|records|, i requires 0 <= i < |records| => Cell(true, records[i]))
  }

  function UpTo(n: nat): (s: seq<nat>)
    ensures |s| == n && forall i :: 0 <= i < n ==> s[i] == i
  {
    seq(n, i => i)
  }

  function Min(a: int, b: int): int {
    if a <= b then a else b
  }

  /** The end of the wave that holds cell t. */
  ghost function WaveEnd(t: nat, workers: int, n: nat): int
    requires workers >= 1
  {
    Min((t / workers + 1) * workers, n)
  }

  lemma ProductsOrdered(a: int, b: int, w: nat)
    ensures a <= b ==> a * w <= b * w
  {
    if a <= b { assert (b - a) * w >= 0; }
  }

  lemma WaveEndIs(t: nat, workers: int, n: nat, wave: nat)
    requires workers >= 1 && wave * workers <= t < wave * workers + workers
    ensures WaveEnd(t, workers, n) == Min(wave * workers + workers, n)
  {
    var q := t / workers;
    assert q * workers <= t < q * workers + workers;
    ProductsOrdered(q + 1, wave, workers);
    ProductsOrdered(wave + 1, q, workers);
    assert (q + 1) * workers == q * workers + workers && (wave + 1) * workers == wave * workers + workers;
    assert q == wave;
  }

  method SweepTaskCells(records: seq<Record>, workers: int, streak: int, limit: int) returns (r: Result)
    ensures workers < 1 <==> r.WorkersNotPositive?
    // the serial fold's verdict ...
    ensures r.Swept? ==> var f := Serial(AsCells(records), streak, limit, |records|);
      r.streak == f.streak && r.tripped == f.tripped
    // ... with every cell recorded, or every wave through the tripping one
    ensures r.Swept? && !r.tripped ==> r.recorded == UpTo(|records|)
    ensures r.Swept? && r.tripped ==> var f := Serial(AsCells(records), streak, limit, |records|);
      && f.log != [] && TripsAt(AsCells(records), streak, limit, f.log[|f.log| - 1])
      && r.recorded == UpTo(WaveEnd(f.log[|f.log| - 1], workers, |records|))
  {
    if workers < 1 {
      return WorkersNotPositive;
    }
    ghost var cells := AsCells(records);
    var current := streak;
    var recorded: seq<nat> := [];
    var start := 0;
    ghost var wave: nat := 0;
    while start < |records|
      invariant 0 <= start <= |records| && (start < |records| ==> start == wave * workers)
      invariant recorded == UpTo(start)
      invariant !Serial(cells, streak, limit, start).tripped && current == Serial(cells, streak, limit, start).streak
    {
      var end := Min(start + workers, |records|);
      for i := start to end
        invariant recorded == UpTo(i)
      {
        recorded := recorded + [i];
      }
      for i := start to end
        invariant !Serial(cells, streak, limit, i).tripped && current == Serial(cells, streak, limit, i).streak
      {
        current := Streak(RowKind(records[i]), current);
        if Trips(current, limit) {
          TripIsFinal(cells, streak, limit, i + 1, |records|);
          WaveEndIs(i, workers, |records|, wave);
          return Swept(current, true, recorded);
        }
      }
      assert (wave + 1) * workers == wave * workers + workers;
      start, wave := end, wave + 1;
    }
    return Swept(current, false, recorded);
  }

  /** A tripping wave sweep overruns the tripping cell by at most workers - 1 cells. */
  lemma WaveOverrun(t: nat, workers: int, n: nat)
    requires workers >= 1 && t < n
    ensures t < WaveEnd(t, workers, n) <= t + workers
  {
    var q := t / workers;
    assert q * workers <= t < q * workers + workers;
    assert (q + 1) * workers == q * workers + workers;
  }

  /** One task of a sweep: rows carried over from an earlier sweep, and cells to pay for. */
  datatype Task = Task(reused: seq<Record>, paid: seq<Record>)

  /** Reused rows count for the streak, by their error kind alone, and never trip. */
  function Reused(rows: seq<Record>, streak: int): int {
    if rows == [] then streak else Streak(rows[|rows| - 1].error, Reused(rows[..|rows| - 1], streak))
  }

  datatype Verdict = Verdict(streak: int, tripped: bool)

  /** The first k tasks of a sweep: the streak carried from task to task, up to a trip. */
  function VerdictOf(tasks: seq<Task>, k: nat, streak: int, limit: int): Verdict
    requires k <= |tasks|
  {
    if k == 0 then Verdict(streak, false)
    else
      var before := VerdictOf(tasks, k - 1, streak, limit);
      if before.tripped then before
      else
        var task := tasks[k - 1];
        var fold := Serial(AsCells(task.paid), Reused(task.reused, before.streak), limit, |task.paid|);
        Verdict(fold.streak, fold.tripped)
  }

  lemma {:induction false} TrippedTaskDecides(tasks: seq<Task>, k: nat, streak: int, limit: int)
    requires k <= |tasks| && VerdictOf(tasks, k, streak, limit).tripped
    ensures VerdictOf(tasks, |tasks|, streak, limit) == VerdictOf(tasks, k, streak, limit)
    decreases |tasks| - k
  {
    if k < |tasks| { TrippedTaskDecides(tasks, k + 1, streak, limit); }
  }

  /** The sweep's task loop: each task's reused rows, then its paid cells in waves, stopping
      at a trip. */
  method SweepTasks(tasks: seq<Task>, workers: int, streak: int, limit: int) returns (final: int, tripped: bool)
    requires workers >= 1
    ensures Verdict(final, tripped) == VerdictOf(tasks, |tasks|, streak, limit)
  {
    final, tripped := streak, false;
    for k := 0 to |tasks|
      invariant !tripped && Verdict(final, tripped) == VerdictOf(tasks, k, streak, limit)
    {
      var rows, carried := tasks[k].reused, final;
      for i := 0 to |rows|
        invariant final == Reused(rows[..i], carried)
      {
        assert rows[..i + 1][..i] == rows[..i];
        final := Streak(rows[i].error, final);
      }
      assert rows[..|rows|] == rows;
      var task := SweepTaskCells(tasks[k].paid, workers, final, limit);
      final, tripped := task.streak, task.tripped;
      if tripped {
        TrippedTaskDecides(tasks, k + 1, streak, limit);
        return;
      }
    }
  }

  /** Every row of the first k tasks, reused and paid, in the order they are folded. */
  function AllRows(tasks: seq<Task>, k: nat): seq<Record>
    requires k <= |tasks|
  {
    if k == 0 then [] else AllRows(tasks, k - 1) + (tasks[k - 1].reused + tasks[k - 1].paid)
  }

  /** What a row must be to be carried over: a success with its evidence in order. */
  predicate IsClean(row: Record) {
    row.error == NoError && row.evidence != Invalid
  }

  ghost predicate ReusesClean(tasks: seq<Task>) {
    forall k :: 0 <= k < |tasks| ==> AllClean(tasks[k].reused)
  }

  ghost predicate NothingReused(tasks: seq<Task>) {
    forall k :: 0 <= k < |tasks| ==> tasks[k].reused == []
  }

  predicate AllClean(rows: seq<Record>) {
    forall i :: 0 <= i < |rows| ==> IsClean(rows[i])
  }

  /** Clean rows only reset the streak, and the serial fold of them never trips. */
  lemma {:induction false} CleanRowsReset(rows: seq<Record>, streak: int, limit: int, n: nat)
    requires limit >= 0 || rows == []
    requires n <= |rows| && AllClean(rows)
    ensures Reused(rows[..n], streak) == if n == 0 then streak else 0
    ensures !Serial(AsCells(rows), streak, limit, n).tripped
    ensures Serial(AsCells(rows), streak, limit, n).streak == Reused(rows[..n], streak)
  {
    if n > 0 {
      CleanRowsReset(rows, streak, limit, n - 1);
      assert rows[..n][..n - 1] == rows[..n - 1];
    }
  }

  function SerialOver(rows: seq<Record>, streak: int, limit: int): Verdict {
    var fold := Serial(AsCells(rows), streak, limit, |rows|);
    Verdict(fold.streak, fold.tripped)
  }

  lemma SerialOverSplits(a: seq<Record>, b: seq<Record>, streak: int, limit: int)
    ensures var first := SerialOver(a, streak, limit);
      SerialOver(a + b, streak, limit) == if first.tripped then first else SerialOver(b, first.streak, limit)
  {
    var f, g := AsCells(a), AsCells(b);
    assert AsCells(a + b) == f + g;
    if SerialOver(a, streak, limit).tripped {
      SerialPrefix(f, g, streak, limit, |f|);
      TripIsFinal(f + g, streak, limit, |f|, |f + g|);
    } else {
      SerialSplits(f, g, streak, limit, |g|);
    }
  }

  /** With what reuse admits, the sweep reaches the verdict of one serial fold over all its
      rows, reused and paid: a trip is never lost or moved by carrying rows over. */
  lemma {:induction false} SweepIsOneSerialFold(tasks: seq<Task>, k: nat, streak: int, limit: int)
    requires k <= |tasks| && ReusesClean(tasks) && (limit >= 0 || NothingReused(tasks))
    ensures VerdictOf(tasks, k, streak, limit) == SerialOver(AllRows(tasks, k), streak, limit)
  {
    if k > 0 {
      var before, task := VerdictOf(tasks, k - 1, streak, limit), tasks[k - 1];
      SweepIsOneSerialFold(tasks, k - 1, streak, limit);
      SerialOverSplits(AllRows(tasks, k - 1), task.reused + task.paid, streak, limit);
      SerialOverSplits(task.reused, task.paid, before.streak, limit);
      CleanRowsReset(task.reused, before.streak, limit, |task.reused|);
      assert task.reused[..|task.reused|] == task.reused;
    }
  }

  /** A negative limit trips the serial fold on any row, but no reused row trips the sweep:
      exactly for the other limits is the sweep one serial fold, whatever is reused. */
  lemma SweepIsOneSerialFoldExactly(streak: int, limit: int)
    ensures (forall tasks :: ReusesClean(tasks) ==> VerdictOf(tasks, |tasks|, streak, limit) == SerialOver(AllRows(tasks, |tasks|), streak, limit))
            <==> limit >= 0
  {
    if limit >= 0 {
      forall tasks | ReusesClean(tasks)
        ensures VerdictOf(tasks, |tasks|, streak, limit) == SerialOver(AllRows(tasks, |tasks|), streak, limit)
      {
        SweepIsOneSerialFold(tasks, |tasks|, streak, limit);
      }
    } else {
      OneReusedRow(Record(NoError, NotAReview), streak, limit);
    }
  }

  /** One clean row, reused: the sweep goes on, the serial fold trips. */
  lemma OneReusedRow(row: Record, streak: int, limit: int)
    requires limit < 0 && IsClean(row)
    ensures var tasks := [Task([row], [])];
      ReusesClean(tasks) && VerdictOf(tasks, |tasks|, streak, limit) == Verdict(0, false) && SerialOver(AllRows(tasks, |tasks|), streak, limit) == Verdict(0, true)
  {
    var tasks := [Task([row], [])];
    assert AllRows(tasks, 1) == [row];
    assert VerdictOf(tasks, 0, streak, limit) == Verdict(streak, false);
    assert Reused([row], streak) == 0;
    assert Serial(AsCells([row]), streak, limit, 0) == Fold(streak, false, []);
  }

  /** Packing changes how the cells are fed, not the verdict: any packed run over the cells of
      a sweep that reuses nothing returns what its task-by-task waves return, whatever the two
      worker counts. */
  lemma {:induction false} PackedAgreesWithWaves(tasks: seq<Task>, c: PackedSweep.Config, run: seq<PackedSweep.State>)
    requires c.cells == AsCells(AllRows(tasks, |tasks|)) && PackedSweep.ValidConfig(c) && PackedSweep.IsRun(c, run)
    requires NothingReused(tasks)
    requires run[|run| - 1].folder.Returned? && !run[|run| - 1].external
    ensures var last := run[|run| - 1];
      Verdict(last.streak, last.tripped) == VerdictOf(tasks, |tasks|, c.streak, c.limit)
  {
    SweepIsOneSerialFold(tasks, |tasks|, c.streak, c.limit);
    PackedSweep.PackedRefinesSerial(c, run);
  }
}
