/** `task_cells` and `expected_task_seconds`: the makespan of one task, averaged over every
    alignment of the measured samples. */
module CostEstimate {
  import opened Makespan

  /** One arm's measured durations. */
  type Sample = s: seq<Duration> | s != [] witness [0.0]

  /** The entry a cycled sample yields at a position. */
  function Read(sample: Sample, position: nat): (d: Duration)
    ensures position < |sample| ==> d == sample[position]
  {
    sample[position % |sample|]
  }

  /** One run's cells, arm by arm, for the samples read at position offset + run. */
  function RunCells(samples: seq<Sample>, position: nat): (cells: seq<Duration>)
    ensures |cells| == |samples|
    ensures forall k :: 0 <= k < |samples| ==> cells[k] == Read(samples[k], position)
  {
    seq(|samples|, k requires 0 <= k < |samples| => Read(samples[k], position))
  }

  /** `task_cells`: run-major, arm-minor. */
  function TaskCellsFrom(runs: nat, samples: seq<Sample>, offset: nat): seq<Duration> {
    if runs == 0 then [] else TaskCellsFrom(runs - 1, samples, offset) + RunCells(samples, offset + (runs - 1))
  }

  method TaskCells(runs: nat, samples: seq<Sample>, offset: nat) returns (cells: seq<Duration>)
    ensures cells == TaskCellsFrom(runs, samples, offset)
  {
    cells := [];
    for run := 0 to runs
      invariant cells == TaskCellsFrom(run, samples, offset)
    {
      ghost var before := cells;
      for arm := 0 to |samples|
        invariant cells == before + RunCells(samples, offset + run)[..arm]
      {
        var sample := samples[arm];
        cells := cells + [sample[(offset + run) % |sample|]];
      }
    }
  }

  function Total(runs: nat, samples: seq<Sample>, workers: nat, fed: bool, offset: nat): real
    requires workers >= 1
  {
    var cells := TaskCellsFrom(runs, samples, offset);
    if fed then FedFinish(cells, workers) else WaveMakespan(cells, workers)
  }

  /** f(0) + ... + f(n - 1). */
  function SumTo(f: nat -> real, n: nat): real {
    if n == 0 then 0.0 else SumTo(f, n - 1) + f(n - 1)
  }

  lemma {:induction false} SumToAdds(f: nat -> real, g: nat -> real, h: nat -> real, n: nat)
    requires forall i: nat :: i < n ==> f(i) == g(i) + h(i)
    ensures SumTo(f, n) == SumTo(g, n) + SumTo(h, n)
  {
    if n > 0 { SumToAdds(f, g, h, n - 1); }
  }

  lemma {:induction false} SumToZero(f: nat -> real, n: nat)
    requires forall i: nat :: i < n ==> f(i) == 0.0
    ensures SumTo(f, n) == 0.0
  {
    if n > 0 { SumToZero(f, n - 1); }
  }

  /** The makespans of the first n alignments, added up. */
  function SumOverAlignments(runs: nat, samples: seq<Sample>, workers: nat, fed: bool, n: nat): real
    requires workers >= 1
  {
    SumTo((offset: nat) => Total(runs, samples, workers, fed, offset), n)
  }

  /** The numbers of alignments after which every sample has been read whole times over. */
  ghost predicate CoversAllSamples(alignments: nat, samples: seq<Sample>) {
    alignments >= 1 && forall sample :: sample in samples ==> WholeWrapsOf(alignments, sample)
  }

  ghost predicate WholeWrapsOf(alignments: nat, sample: Sample) {
    exists times: nat :: Wraps(alignments, times, |sample|)
  }

  ghost predicate Wraps(alignments: nat, times: nat, length: nat) {
    alignments == Laps(times, length)
  }

  /** `expected_task_seconds`, with `alignments` the lcm of the sample lengths. */
  function ExpectedTaskSeconds(runs: nat, samples: seq<Sample>, workers: nat, fed: bool, alignments: nat): real
    requires workers >= 1 && alignments >= 1
  {
    if runs < 1 || samples == [] then 0.0
    else SumOverAlignments(runs, samples, workers, fed, alignments) / alignments as real
  }

  function Mean(sample: Sample): (m: real)
    ensures Times(|sample|, m) == Sum(sample)
  {
    TimesIsProduct(|sample|, Sum(sample) / |sample| as real);
    Sum(sample) / |sample| as real
  }

  function SumOfMeans(samples: seq<Sample>): real {
    if samples == [] then 0.0
    else SumOfMeans(samples[..|samples| - 1]) + Mean(samples[|samples| - 1])
  }

  // One worker: both schedulers just add the durations up.

  lemma {:induction false} SumAppend(a: seq<real>, b: seq<real>)
    ensures Sum(a + b) == Sum(a) + Sum(b)
  {
    if b == [] {
      assert a + b == a;
    } else {
      assert (a + b)[..|a + b| - 1] == a + b[..|b| - 1];
      SumAppend(a, b[..|b| - 1]);
    }
  }

  lemma {:induction false} OneWorkerWaves(durations: seq<Duration>)
    ensures WaveMakespan(durations, 1) == Sum(durations)
    decreases |durations|
  {
    if durations != [] {
      assert durations[..1][..0] == [];
      assert durations == durations[..1] + durations[1..];
      SumAppend(durations[..1], durations[1..]);
      if |durations| > 1 {
        OneWorkerWaves(durations[1..]);
      } else {
        assert durations[..1] == durations;
      }
    }
  }

  lemma OneWorkerAdds(durations: seq<Duration>)
    ensures FedFinish(durations, 1) == WaveMakespan(durations, 1) == Sum(durations)
  {
    OneWorkerWaves(durations);
    FeedConservesWork(Idle(1), durations);
    SumIdle(1);
    var busy := Feed(Idle(1), durations);
    assert busy[..0] == [];
    assert Sum(busy) == busy[0];
  }

  // One arm: over whole wraps of its sample, every entry is read equally often.

  function SumRead(sample: Sample, start: nat, n: nat): real {
    if n == 0 then 0.0 else SumRead(sample, start, n - 1) + Read(sample, start + n - 1)
  }

  /** How often n reads from `start` on read the entry at `index` of a sample of that length. */
  function ReadCount(length: nat, start: nat, n: nat, index: nat): nat
    requires length >= 1
  {
    if n == 0 then 0
    else ReadCount(length, start, n - 1, index) + if (start + n - 1) % length == index then 1 else 0
  }

  lemma {:induction false} ReadCountSplit(length: nat, start: nat, m: nat, n: nat, index: nat)
    requires length >= 1
    ensures ReadCount(length, start, m + n, index) == ReadCount(length, start, m, index) + ReadCount(length, start + m, n, index)
  {
    if n > 0 { ReadCountSplit(length, start, m, n - 1, index); }
  }

  lemma {:induction false} FirstWrap(length: nat, n: nat, index: nat)
    requires n <= length && index < length
    ensures ReadCount(length, 0, n, index) == if index < n then 1 else 0
  {
    if n > 0 {
      FirstWrap(length, n - 1, index);
      WithinFirstWrap(n - 1, length);
    }
  }

  lemma WithinFirstWrap(k: nat, length: nat)
    requires k < length
    ensures k % length == k
  {
  }

  /** One wrap reads every entry once, wherever it starts. */
  lemma {:induction false} OneWrap(length: nat, start: nat, index: nat)
    requires index < length
    ensures ReadCount(length, start, length, index) == 1
  {
    if start == 0 {
      FirstWrap(length, length, index);
    } else {
      OneWrap(length, start - 1, index);
      ReadCountSplit(length, start - 1, 1, length, index);
      ReadCountSplit(length, start - 1, length, 1, index);
      SameEntry(start - 1, length);
      OneRead(length, start - 1, index);
      OneRead(length, start - 1 + length, index);
    }
  }

  lemma OneRead(length: nat, start: nat, index: nat)
    requires length >= 1
    ensures ReadCount(length, start, 1, index) == if start % length == index then 1 else 0
  {
    assert ReadCount(length, start, 0, index) == 0;
  }

  /** Over a whole number of wraps every entry of a sample is read equally often, whatever run
      it is read for. */
  lemma {:induction false} EveryEntryEquallyOften(length: nat, run: nat, times: nat, index: nat)
    requires index < length
    ensures ReadCount(length, run, Laps(times, length), index) == times
    decreases times
  {
    if times > 0 {
      var read := Laps(times - 1, length);
      EveryEntryEquallyOften(length, run, times - 1, index);
      ReadCountSplit(length, run, read, length, index);
      OneWrap(length, run + read, index);
    }
  }

  /** What n reads add up to, entry by entry, for the first k entries. */
  function SumByEntry(sample: Sample, start: nat, n: nat, k: nat): real
    requires k <= |sample|
  {
    if k == 0 then 0.0
    else SumByEntry(sample, start, n, k - 1) + Times(ReadCount(|sample|, start, n, k - 1), sample[k - 1])
  }

  lemma {:induction false} NothingReadYet(sample: Sample, start: nat, k: nat)
    requires k <= |sample|
    ensures SumByEntry(sample, start, 0, k) == 0.0
  {
    if k > 0 { NothingReadYet(sample, start, k - 1); }
  }

  lemma {:induction false} OneMoreRead(sample: Sample, start: nat, n: nat, k: nat)
    requires k <= |sample|
    ensures var index := (start + n) % |sample|;
      SumByEntry(sample, start, n + 1, k) == SumByEntry(sample, start, n, k) + if index < k then sample[index] else 0.0
  {
    if k > 0 { OneMoreRead(sample, start, n, k - 1); }
  }

  lemma {:induction false} SumReadByEntry(sample: Sample, start: nat, n: nat)
    ensures SumRead(sample, start, n) == SumByEntry(sample, start, n, |sample|)
  {
    if n == 0 {
      NothingReadYet(sample, start, |sample|);
    } else {
      SumReadByEntry(sample, start, n - 1);
      OneMoreRead(sample, start, n - 1, |sample|);
    }
  }

  lemma {:induction false} EqualCounts(sample: Sample, start: nat, n: nat, times: nat, k: nat)
    requires k <= |sample| && forall j :: 0 <= j < k ==> ReadCount(|sample|, start, n, j) == times
    ensures SumByEntry(sample, start, n, k) == Times(times, Sum(sample[..k]))
  {
    if k == 0 {
      TimesZero(times);
    } else {
      EqualCounts(sample, start, n, times, k - 1);
      assert sample[..k][..k - 1] == sample[..k - 1];
      TimesLinear(times, Sum(sample[..k - 1]), sample[k - 1]);
    }
  }

  lemma WholeWraps(sample: Sample, start: nat, times: nat)
    ensures SumRead(sample, start, Laps(times, |sample|)) == Times(times, Sum(sample))
  {
    var n := Laps(times, |sample|);
    forall j | 0 <= j < |sample| ensures ReadCount(|sample|, start, n, j) == times {
      EveryEntryEquallyOften(|sample|, start, times, j);
    }
    SumReadByEntry(sample, start, n);
    EqualCounts(sample, start, n, times, |sample|);
    assert sample[..|sample|] == sample;
  }

  /** What one run reads at each alignment, all arms together. */
  function RunTotal(samples: seq<Sample>, run: nat, offset: nat): real {
    Sum(RunCells(samples, offset + run))
  }

  function SumOfRun(samples: seq<Sample>, run: nat, n: nat): real {
    SumTo((offset: nat) => RunTotal(samples, run, offset), n)
  }

  lemma LastArm(samples: seq<Sample>, run: nat, offset: nat)
    requires samples != []
    ensures RunTotal(samples, run, offset) ==
              RunTotal(samples[..|samples| - 1], run, offset) + Read(samples[|samples| - 1], run + offset)
  {
    var cells := RunCells(samples, offset + run);
    assert cells[..|samples| - 1] == RunCells(samples[..|samples| - 1], offset + run);
  }

  lemma RunByArm(samples: seq<Sample>, run: nat, n: nat)
    requires samples != []
    ensures SumOfRun(samples, run, n) ==
              SumOfRun(samples[..|samples| - 1], run, n) + SumRead(samples[|samples| - 1], run, n)
  {
    var f := (offset: nat) => RunTotal(samples, run, offset);
    var g := (offset: nat) => RunTotal(samples[..|samples| - 1], run, offset);
    var h := (offset: nat) => Read(samples[|samples| - 1], run + offset);
    forall offset: nat ensures f(offset) == g(offset) + h(offset) {
      LastArm(samples, run, offset);
    }
    SumToAdds(f, g, h, n);
    SumReadIsSumTo(samples[|samples| - 1], run, n);
  }

  lemma {:induction false} SumReadIsSumTo(sample: Sample, start: nat, n: nat)
    ensures SumRead(sample, start, n) == SumTo((i: nat) => Read(sample, start + i), n)
  {
    if n > 0 { SumReadIsSumTo(sample, start, n - 1); }
  }

  lemma {:induction false} TimesLaps(p: nat, q: nat, x: real)
    ensures Times(Laps(p, q), x) == Times(p, Times(q, x))
  {
    if p > 0 {
      TimesLaps(p - 1, q, x);
      TimesAdds(Laps(p - 1, q), q, x);
    }
  }

  lemma {:induction false} RunAverages(samples: seq<Sample>, run: nat, alignments: nat)
    requires CoversAllSamples(alignments, samples)
    ensures SumOfRun(samples, run, alignments) == Times(alignments, SumOfMeans(samples))
  {
    if samples == [] {
      SumToZero((offset: nat) => RunTotal([], run, offset), alignments);
      TimesZero(alignments);
    } else {
      var n := |samples| - 1;
      var last := samples[n];
      assert last in samples && samples == samples[..n] + [last];
      assert WholeWrapsOf(alignments, last);
      RunAverages(samples[..n], run, alignments);
      RunByArm(samples, run, alignments);
      var times: nat :| Wraps(alignments, times, |last|);
      WholeWraps(last, run, times);
      TimesLaps(times, |last|, Mean(last));
      TimesLinear(alignments, SumOfMeans(samples[..n]), Mean(last));
    }
  }

  /** With one worker, adding a run adds what that run reads. */
  lemma OneWorkerTotal(samples: seq<Sample>, fed: bool, offset: nat, run: nat)
    ensures Total(run + 1, samples, 1, fed, offset) == Total(run, samples, 1, fed, offset) + RunTotal(samples, run, offset)
  {
    var front := TaskCellsFrom(run, samples, offset);
    SumAppend(front, RunCells(samples, offset + run));
    var all := TaskCellsFrom(run + 1, samples, offset);
    assert all == front + RunCells(samples, offset + run);
    OneWorkerAdds(front);
    OneWorkerAdds(all);
  }

  lemma AlignmentsByRun(samples: seq<Sample>, fed: bool, n: nat, run: nat)
    ensures SumOverAlignments(run + 1, samples, 1, fed, n) ==
              SumOverAlignments(run, samples, 1, fed, n) + SumOfRun(samples, run, n)
  {
    var f := (offset: nat) => Total(run + 1, samples, 1, fed, offset);
    var g := (offset: nat) => Total(run, samples, 1, fed, offset);
    var h := (offset: nat) => RunTotal(samples, run, offset);
    forall offset: nat ensures f(offset) == g(offset) + h(offset) {
      OneWorkerTotal(samples, fed, offset, run);
    }
    SumToAdds(f, g, h, n);
  }

  /** Whatever the run, it reads this much on average. */
  ghost predicate EveryRunReads(samples: seq<Sample>, n: nat, mean: real) {
    forall run: nat :: SumOfRun(samples, run, n) == Times(n, mean)
  }

  lemma {:induction false} OneRunMore(total: real, before: real, n: nat, k: nat, x: real)
    requires total == before + Times(n, x) && before == Times(n, Times(k, x))
    ensures total == Times(n, Times(k + 1, x))
  {
    TimesLinear(n, Times(k, x), x);
  }

  lemma {:induction false} RunsTotal(runs: nat, samples: seq<Sample>, fed: bool, n: nat, mean: real)
    requires EveryRunReads(samples, n, mean)
    ensures SumOverAlignments(runs, samples, 1, fed, n) == Times(n, Times(runs, mean))
  {
    if runs == 0 {
      NoRuns(samples, fed, n);
      TimesZero(n);
    } else {
      var before: nat := runs - 1;
      RunsTotal(before, samples, fed, n, mean);
      AlignmentsByRun(samples, fed, n, before);
      OneRunMore(SumOverAlignments(runs, samples, 1, fed, n), SumOverAlignments(before, samples, 1, fed, n), n, before, mean);
    }
  }

  lemma {:induction false} AlignmentsTotal(runs: nat, samples: seq<Sample>, fed: bool, alignments: nat)
    requires CoversAllSamples(alignments, samples)
    ensures SumOverAlignments(runs, samples, 1, fed, alignments) == Times(alignments, Times(runs, SumOfMeans(samples)))
  {
    forall run: nat ensures SumOfRun(samples, run, alignments) == Times(alignments, SumOfMeans(samples)) {
      RunAverages(samples, run, alignments);
    }
    RunsTotal(runs, samples, fed, alignments, SumOfMeans(samples));
  }

  lemma {:induction false} NoRuns(samples: seq<Sample>, fed: bool, n: nat)
    ensures SumOverAlignments(0, samples, 1, fed, n) == 0.0
  {
    OneWorkerAdds([]);
    SumToZero((offset: nat) => Total(0, samples, 1, fed, offset), n);
  }

  /** Averaged over the lcm of the sample lengths (or any other whole number of wraps), one
      worker needs exactly runs times the sum of the arms' mean durations under either
      scheduler: no alignment counts an entry more often than another. */
  lemma OneWorkerExpectation(runs: nat, samples: seq<Sample>, fed: bool, alignments: nat)
    requires CoversAllSamples(alignments, samples)
    ensures ExpectedTaskSeconds(runs, samples, 1, fed, alignments) == Times(runs, SumOfMeans(samples))
  {
    if runs >= 1 && samples != [] {
      AlignmentsTotal(runs, samples, fed, alignments);
      CancelFactor(alignments, Times(runs, SumOfMeans(samples)));
    } else {
      TimesZero(runs);
    }
  }

  lemma CancelFactor(n: nat, x: real)
    requires n >= 1
    ensures Times(n, x) / n as real == x
  {
    TimesIsProduct(n, x);
  }

  // ---- more workers: the estimate itself ----------------------------------------------------

  lemma {:induction false} SumToMonotone(f: nat -> real, g: nat -> real, n: nat)
    requires forall i: nat :: i < n ==> f(i) <= g(i)
    ensures SumTo(f, n) <= SumTo(g, n)
  {
    if n > 0 { SumToMonotone(f, g, n - 1); }
  }

  lemma AveragesOrdered(x: real, y: real, n: nat)
    requires n >= 1 && x <= y
    ensures x / n as real <= y / n as real
  {
  }

  /** For every number of workers the wave estimate is at least the fed estimate. */
  lemma WaveEstimateAtLeastFed(runs: nat, samples: seq<Sample>, workers: nat, alignments: nat)
    requires workers >= 1 && alignments >= 1
    ensures ExpectedTaskSeconds(runs, samples, workers, true, alignments) <= ExpectedTaskSeconds(runs, samples, workers, false, alignments)
  {
    var fed, waves := (k: nat) => Total(runs, samples, workers, true, k), (k: nat) => Total(runs, samples, workers, false, k);
    forall k: nat ensures fed(k) <= waves(k) { FedWithinWaves(TaskCellsFrom(runs, samples, k), workers); }
    SumToMonotone(fed, waves, alignments);
    AveragesOrdered(SumOverAlignments(runs, samples, workers, true, alignments), SumOverAlignments(runs, samples, workers, false, alignments), alignments);
  }

  /** More workers never lengthen the fed estimate of a task. */
  lemma MoreWorkersNeverLengthenTask(runs: nat, samples: seq<Sample>, few: nat, many: nat, alignments: nat)
    requires 1 <= few <= many && alignments >= 1
    ensures ExpectedTaskSeconds(runs, samples, many, true, alignments) <= ExpectedTaskSeconds(runs, samples, few, true, alignments)
  {
    var more, fewer := (k: nat) => Total(runs, samples, many, true, k), (k: nat) => Total(runs, samples, few, true, k);
    forall k: nat ensures more(k) <= fewer(k) { MoreWorkersNeverLengthen(TaskCellsFrom(runs, samples, k), few, many); }
    SumToMonotone(more, fewer, alignments);
    AveragesOrdered(SumOverAlignments(runs, samples, many, true, alignments), SumOverAlignments(runs, samples, few, true, alignments), alignments);
  }

  // ---- the estimate between its bounds ------------------------------------------------------

  /** Cell by cell: run `run` of arm `arm` reads that arm's sample at offset + run, cycled. */
  lemma {:induction false} TaskCellAt(runs: nat, samples: seq<Sample>, offset: nat, run: nat, arm: nat)
    requires run < runs && arm < |samples|
    ensures var cells := TaskCellsFrom(runs, samples, offset);
      && Laps(run, |samples|) + arm < |cells| == Laps(runs, |samples|)
      && cells[Laps(run, |samples|) + arm] == samples[arm][(offset + run) % |samples[arm]|]
  {
    TaskCellsCount(runs - 1, samples, offset);
    if run < runs - 1 { TaskCellAt(runs - 1, samples, offset, run, arm); }
  }

  lemma {:induction false} TaskCellsCount(runs: nat, samples: seq<Sample>, offset: nat)
    ensures |TaskCellsFrom(runs, samples, offset)| == Laps(runs, |samples|)
  {
    if runs > 0 { TaskCellsCount(runs - 1, samples, offset); }
  }

  /** The largest entry read at one alignment. */
  function LongestRead(runs: nat, samples: seq<Sample>, offset: nat): real {
    var cells := TaskCellsFrom(runs, samples, offset);
    if cells == [] then 0.0 else Max(cells)
  }

  function AverageLongest(runs: nat, samples: seq<Sample>, alignments: nat): real
    requires alignments >= 1
  {
    SumOfLongest(runs, samples, alignments) / alignments as real
  }

  function SumOfLongest(runs: nat, samples: seq<Sample>, n: nat): real {
    SumTo((offset: nat) => LongestRead(runs, samples, offset), n)
  }

  lemma {:induction false} FeedGrows(workers: nat, durations: seq<Duration>)
    requires workers >= 1
    ensures forall w :: 0 <= w < workers ==> Feed(Idle(workers), durations)[w] >= 0.0
  {
    if durations != [] { FeedGrows(workers, durations[..|durations| - 1]); }
  }

  /** The fed pool finishes no earlier than any of its cells takes. */
  lemma {:induction false} FedCovers(durations: seq<Duration>, workers: nat, i: nat)
    requires workers >= 1 && i < |durations|
    ensures exists w :: 0 <= w < workers && Feed(Idle(workers), durations)[w] >= durations[i]
  {
    var n := |durations| - 1;
    var before := Feed(Idle(workers), durations[..n]);
    FeedGrows(workers, durations[..n]);
    if i == n {
      assert Feed(Idle(workers), durations)[LeastBusy(before)] >= durations[i];
    } else {
      FedCovers(durations[..n], workers, i);
      var w :| 0 <= w < workers && before[w] >= durations[i];
      assert Feed(Idle(workers), durations)[w] >= durations[i];
    }
  }

  lemma LongestWithinFed(durations: seq<Duration>, workers: nat)
    requires workers >= 1 && durations != []
    ensures Max(durations) <= FedFinish(durations, workers)
  {
    var i :| 0 <= i < |durations| && durations[i] == Max(durations);
    FedCovers(durations, workers, i);
  }

  /** With a worker for every cell, both schedulers take as long as the longest cell. */
  lemma EnoughWorkers(durations: seq<Duration>, workers: nat, fed: bool)
    requires workers >= 1 && |durations| <= workers
    ensures (if fed then FedFinish(durations, workers) else WaveMakespan(durations, workers))
            == if durations == [] then 0.0 else Max(durations)
  {
    FedWithinWaves(durations, workers);
    FeedGrows(workers, durations);
    if durations != [] { LongestWithinFed(durations, workers); }
  }

  lemma {:induction false} SumToSame(f: nat -> real, g: nat -> real, n: nat)
    requires forall i: nat :: i < n ==> f(i) == g(i)
    ensures SumTo(f, n) == SumTo(g, n)
  {
    if n > 0 { SumToSame(f, g, n - 1); }
  }

  /** With a worker for every cell of a task, both estimates are the average over the
      alignments of the largest entry read. */
  lemma EnoughWorkersEstimate(runs: nat, samples: seq<Sample>, workers: nat, fed: bool, alignments: nat)
    requires workers >= 1 && alignments >= 1 && Laps(runs, |samples|) <= workers
    ensures ExpectedTaskSeconds(runs, samples, workers, fed, alignments) == AverageLongest(runs, samples, alignments)
  {
    var total, longest := (k: nat) => Total(runs, samples, workers, fed, k), (k: nat) => LongestRead(runs, samples, k);
    forall k: nat ensures total(k) == longest(k) {
      TaskCellsCount(runs, samples, k);
      EnoughWorkers(TaskCellsFrom(runs, samples, k), workers, fed);
    }
    SumToSame(total, longest, alignments);
    if runs < 1 || samples == [] { NothingToDo(runs, samples, alignments); }
  }

  lemma {:induction false} NoCells(runs: nat, samples: seq<Sample>, offset: nat)
    requires runs < 1 || samples == []
    ensures TaskCellsFrom(runs, samples, offset) == []
  {
    if runs > 0 { NoCells(runs - 1, samples, offset); }
  }

  lemma NothingToDo(runs: nat, samples: seq<Sample>, alignments: nat)
    requires alignments >= 1 && (runs < 1 || samples == [])
    ensures AverageLongest(runs, samples, alignments) == 0.0
  {
    var longest := (k: nat) => LongestRead(runs, samples, k);
    forall k: nat ensures longest(k) == 0.0 { NoCells(runs, samples, k); }
    SumToZero(longest, alignments);
  }

  ghost predicate Balanced(workers: nat, finish: real, work: real, longest: real)
    requires workers >= 1
  {
    work <= Times(workers, finish) && longest <= finish && Reasonable(finish, work, workers, longest)
  }

  /** One schedule: no shorter than the work shared out evenly or than its longest cell, and
      longer than the shared work by less than the longest cell. */
  lemma {:induction false} FedIsBalanced(durations: seq<Duration>, workers: nat)
    requires workers >= 1
    ensures Balanced(workers, FedFinish(durations, workers), Sum(durations), if durations == [] then 0.0 else Max(durations))
  {
    var longest := if durations == [] then 0.0 else Max(durations);
    var busy := Feed(Idle(workers), durations);
    FeedConservesWork(Idle(workers), durations);
    SumIdle(workers);
    FeedGrows(workers, durations);
    SumBounds(busy, 0.0, Max(busy));
    FinishBound(durations, workers, longest);
    if durations != [] { LongestWithinFed(durations, workers); }
  }

  /** Bounds that hold at every alignment hold of the totals. */
  lemma {:induction false} TotalsAreBalanced(workers: nat, finish: nat -> real, work: nat -> real, longest: nat -> real, n: nat)
    requires workers >= 1 && forall k: nat :: k < n ==> Balanced(workers, finish(k), work(k), longest(k))
    ensures Balanced(workers, SumTo(finish, n), SumTo(work, n), SumTo(longest, n))
  {
    if n == 0 {
      TimesZero(workers);
      TimesZero(workers - 1);
    } else {
      var before: nat := n - 1;
      TotalsAreBalanced(workers, finish, work, longest, before);
      TimesLinear(workers, SumTo(finish, before), finish(before));
      TimesLinear(workers - 1, SumTo(longest, before), longest(before));
      assert Balanced(workers, finish(before), work(before), longest(before));
    }
  }

  lemma {:induction false} TimesSwap(m: nat, n: nat, x: real)
    ensures Times(m, Times(n, x)) == Times(n, Times(m, x))
  {
    if m == 0 {
      TimesZero(n);
    } else {
      TimesSwap(m - 1, n, x);
      TimesLinear(n, Times(m - 1, x), x);
    }
  }

  lemma CancelFactorLe(c: real, x: real, y: real)
    requires c > 0.0 && c * x <= c * y
    ensures x <= y
  {
  }

  lemma {:induction false} TimesCancel(n: nat, x: real, y: real)
    requires n >= 1 && Times(n, x) <= Times(n, y)
    ensures x <= y
  {
    TimesIsProduct(n, x);
    TimesIsProduct(n, y);
    CancelFactorLe(n as real, x, y);
  }

  lemma {:induction false} DivideShare(workers: nat, finish: real, work: real, n: nat)
    requires n >= 1 && Times(n, work) <= Times(workers, Times(n, finish))
    ensures work <= Times(workers, finish)
  {
    TimesSwap(workers, n, finish);
    TimesCancel(n, work, Times(workers, finish));
  }

  lemma {:induction false} CancelExcess(n: nat, x: real, work: real, y: real, nx: real, ny: real)
    requires n >= 1 && nx == Times(n, x) && ny == Times(n, y) && nx <= Times(n, work) + ny
    ensures x <= work + y
  {
    TimesLinear(n, work, y);
    TimesCancel(n, x, work + y);
  }

  lemma {:induction false} DivideExcess(workers: nat, others: nat, finish: real, work: real, longest: real, n: nat)
    requires n >= 1 && Times(workers, Times(n, finish)) <= Times(n, work) + Times(others, Times(n, longest))
    ensures Times(workers, finish) <= work + Times(others, longest)
  {
    TimesSwap(workers, n, finish);
    TimesSwap(others, n, longest);
    CancelExcess(n, Times(workers, finish), work, Times(others, longest), Times(workers, Times(n, finish)), Times(others, Times(n, longest)));
  }

  lemma {:induction false} DivideBalanced(workers: nat, finish: real, work: real, longest: real, n: nat)
    requires workers >= 1 && n >= 1 && Balanced(workers, Times(n, finish), Times(n, work), Times(n, longest))
    ensures Balanced(workers, finish, work, longest)
  {
    DivideShare(workers, finish, work, n);
    DivideExcess(workers, workers - 1, finish, work, longest, n);
    TimesCancel(n, longest, finish);
  }

  lemma {:induction false} AverageTimes(n: nat, x: real)
    requires n >= 1
    ensures Times(n, x / n as real) == x
  {
    TimesIsProduct(n, x / n as real);
  }

  /** For every number of workers the fed estimate is at least the mean work shared out evenly
      and at least the average largest entry, and at most the shared work plus what the
      largest entry can add. */
  lemma {:induction false} FedEstimateIsBalanced(runs: nat, samples: seq<Sample>, workers: nat, alignments: nat)
    requires workers >= 1 && CoversAllSamples(alignments, samples)
    ensures Balanced(workers, ExpectedTaskSeconds(runs, samples, workers, true, alignments),
                     Times(runs, SumOfMeans(samples)), AverageLongest(runs, samples, alignments))
  {
    if runs < 1 || samples == [] {
      NothingToDo(runs, samples, alignments);
      TimesZero(workers);
      TimesZero(workers - 1);
      TimesZero(runs);
    } else {
      TotalEstimateIsBalanced(runs, samples, workers, alignments);
      AlignmentsTotal(runs, samples, true, alignments);
      EstimateTimes(runs, samples, workers, alignments);
      DivideBalanced(workers, ExpectedTaskSeconds(runs, samples, workers, true, alignments), Times(runs, SumOfMeans(samples)),
                     AverageLongest(runs, samples, alignments), alignments);
    }
  }

  lemma {:induction false} EstimateTimes(runs: nat, samples: seq<Sample>, workers: nat, alignments: nat)
    requires workers >= 1 && alignments >= 1 && runs >= 1 && samples != []
    ensures Times(alignments, ExpectedTaskSeconds(runs, samples, workers, true, alignments)) == SumOverAlignments(runs, samples, workers, true, alignments)
    ensures Times(alignments, AverageLongest(runs, samples, alignments)) == SumOfLongest(runs, samples, alignments)
  {
    AverageTimes(alignments, SumOverAlignments(runs, samples, workers, true, alignments));
    AverageTimes(alignments, SumOfLongest(runs, samples, alignments));
  }

  lemma {:induction false} TotalEstimateIsBalanced(runs: nat, samples: seq<Sample>, workers: nat, n: nat)
    requires workers >= 1
    ensures Balanced(workers, SumOverAlignments(runs, samples, workers, true, n),
                     SumOverAlignments(runs, samples, 1, true, n), SumOfLongest(runs, samples, n))
  {
    var finish, work := (k: nat) => Total(runs, samples, workers, true, k), (k: nat) => Total(runs, samples, 1, true, k);
    var longest := (k: nat) => LongestRead(runs, samples, k);
    forall k: nat ensures Balanced(workers, finish(k), work(k), longest(k)) {
      OneWorkerAdds(TaskCellsFrom(runs, samples, k));
      FedIsBalanced(TaskCellsFrom(runs, samples, k), workers);
    }
    TotalsAreBalanced(workers, finish, work, longest, n);
  }

  /** The bounds in numbers. */
  ghost predicate BoundedBy(w: real, finish: real, work: real, longest: real) {
    work <= w * finish && longest <= finish && w * finish <= work + (w - 1.0) * longest
  }

  lemma {:induction false} BalancedInNumbers(workers: nat, finish: real, work: real, longest: real)
    requires workers >= 1
    ensures Balanced(workers, finish, work, longest) <==> BoundedBy(workers as real, finish, work, longest)
  {
    TimesIsProduct(workers, finish);
    TimesIsProduct(workers - 1, longest);
    assert (workers - 1) as real == workers as real - 1.0;
    assert Times(workers - 1, longest) == (workers as real - 1.0) * longest;
  }

  /** At least the shared work, and above it by less than the longest. */
  ghost predicate Within(w: real, finish: real, work: real, longest: real)
    requires w >= 1.0
  {
    work / w <= finish <= work / w + (1.0 - 1.0 / w) * longest
  }

  lemma ScaleBounds(w: real, finish: real, work: real, longest: real)
    requires w >= 1.0 && BoundedBy(w, finish, work, longest)
    ensures Within(w, finish, work, longest)
  {
    var share, part := work / w, 1.0 / w;
    var rest := (1.0 - part) * longest;
    assert share * w == work && part * w == 1.0;
    assert w * rest == (w - part * w) * longest;
    CancelFactorLe(w, share, finish);
    CancelFactorLe(w, finish, share + rest);
  }

  /** The same with the numbers divided out. */
  lemma {:induction false} FedEstimateBounds(runs: nat, samples: seq<Sample>, workers: nat, alignments: nat)
    requires workers >= 1 && CoversAllSamples(alignments, samples)
    ensures var estimate, longest := ExpectedTaskSeconds(runs, samples, workers, true, alignments), AverageLongest(runs, samples, alignments);
      longest <= estimate && Within(workers as real, estimate, Times(runs, SumOfMeans(samples)), longest)
  {
    var estimate, longest := ExpectedTaskSeconds(runs, samples, workers, true, alignments), AverageLongest(runs, samples, alignments);
    FedEstimateIsBalanced(runs, samples, workers, alignments);
    BalancedInNumbers(workers, estimate, Times(runs, SumOfMeans(samples)), longest);
    ScaleBounds(workers as real, estimate, Times(runs, SumOfMeans(samples)), longest);
  }
}
