/** The two schedule models of the cost estimator. Durations are non-negative reals. */
module Makespan {
  type Duration = r: real | r >= 0.0

  /** The first worker with the least load, `min(range(workers), key=busy.__getitem__)`. */
  function LeastBusy(busy: seq<real>): (k: nat)
    requires busy != []
    ensures k < |busy| && forall i :: 0 <= i < |busy| ==> busy[k] <= busy[i]
    ensures forall i :: 0 <= i < k ==> busy[k] < busy[i]
  {
    if |busy| == 1 then 0
    else
      var k := LeastBusy(busy[..|busy| - 1]);
      if busy[|busy| - 1] < busy[k] then |busy| - 1 else k
  }

  function Idle(workers: nat): (busy: seq<real>)
    ensures |busy| == workers && forall i :: 0 <= i < workers ==> busy[i] == 0.0
  {
    seq(workers, _ => 0.0)
  }

  function Place(busy: seq<real>, d: real): (r: seq<real>)
    requires busy != []
    ensures |r| == |busy|
  {
    busy[LeastBusy(busy) := busy[LeastBusy(busy)] + d]
  }

  /** The loads after list-scheduling the durations on pools that start at `busy`. */
  function Feed(busy: seq<real>, durations: seq<Duration>): (r: seq<real>)
    requires busy != []
    ensures |r| == |busy|
  {
    if durations == [] then busy
    else Place(Feed(busy, durations[..|durations| - 1]), durations[|durations| - 1])
  }

  /** `max` of a non-empty list. */
  function Max(s: seq<real>): (m: real)
    requires s != []
    ensures m in s && forall i :: 0 <= i < |s| ==> s[i] <= m
  {
    if |s| == 1 then s[0]
    else
      var m := Max(s[..|s| - 1]);
      if s[|s| - 1] > m then s[|s| - 1] else m
  }

  function FedFinish(durations: seq<Duration>, workers: nat): real
    requires workers >= 1
  {
    Max(Feed(Idle(workers), durations))
  }

  /** Waves of `workers` durations, each as long as its longest. */
  function WaveMakespan(durations: seq<Duration>, workers: nat): real
    requires workers >= 1
    decreases |durations|
  {
    if durations == [] then 0.0
    else if |durations| <= workers then Max(durations)
    else Max(durations[..workers]) + WaveMakespan(durations[workers..], workers)
  }

  function Sum(s: seq<real>): real {
    if s == [] then 0.0 else Sum(s[..|s| - 1]) + s[|s| - 1]
  }

  method FedMakespan(durations: seq<Duration>, workers: nat) returns (m: real)
    requires workers >= 1
    ensures m == FedFinish(durations, workers)
  {
    var busy := Idle(workers);
    for i := 0 to |durations|
      invariant |busy| == workers && busy == Feed(Idle(workers), durations[..i])
    {
      assert durations[..i + 1][..i] == durations[..i];
      var first := LeastBusy(busy);
      busy := busy[first := busy[first] + durations[i]];
    }
    assert durations[..|durations|] == durations;
    m := Max(busy);
  }

  lemma {:induction false} FeedSplits(busy: seq<real>, a: seq<Duration>, b: seq<Duration>)
    requires busy != []
    ensures Feed(busy, a + b) == Feed(Feed(busy, a), b)
  {
    if b == [] {
      assert a + b == a;
    } else {
      assert (a + b)[..|a + b| - 1] == a + b[..|b| - 1];
      FeedSplits(busy, a, b[..|b| - 1]);
    }
  }

  // ---- counting workers -----------------------------------------------------------------

  /** How many loads are at most x. */
  function AtMost(busy: seq<real>, x: real): (n: nat)
    ensures n <= |busy|
  {
    if busy == [] then 0 else AtMost(busy[..|busy| - 1], x) + if busy[|busy| - 1] <= x then 1 else 0
  }

  lemma {:induction false} AtMostUpdate(busy: seq<real>, k: nat, v: real, x: real)
    requires k < |busy|
    ensures AtMost(busy[k := v], x) ==
              AtMost(busy, x) - (if busy[k] <= x then 1 else 0) + (if v <= x then 1 else 0)
  {
    var n := |busy| - 1;
    if k == n {
      assert busy[k := v][..n] == busy[..n];
    } else {
      AtMostUpdate(busy[..n], k, v, x);
      assert busy[k := v][..n] == busy[..n][k := v];
    }
  }

  lemma {:induction false} AtMostAll(busy: seq<real>, x: real)
    ensures AtMost(busy, x) == |busy| <==> forall i :: 0 <= i < |busy| ==> busy[i] <= x
    ensures AtMost(busy, x) == 0 <==> forall i :: 0 <= i < |busy| ==> busy[i] > x
  {
    if busy != [] {
      var n := |busy| - 1;
      AtMostAll(busy[..n], x);
      assert forall i :: 0 <= i < n ==> busy[i] == busy[..n][i];
    }
  }

  // ---- fed never finishes later than waves -------------------------------------------------

  /** Feeding at most one cell per worker, each no longer than `longest`, to workers all done
      by `barrier` ends by barrier + longest: while a worker is still free at the barrier, the
      next cell goes to one that is. */
  lemma {:induction false} OneWave(busy: seq<real>, wave: seq<Duration>, barrier: real, longest: real)
    requires busy != [] && |wave| <= |busy| && longest >= 0.0
    requires forall i :: 0 <= i < |busy| ==> busy[i] <= barrier
    requires forall i :: 0 <= i < |wave| ==> wave[i] <= longest
    ensures forall i :: 0 <= i < |busy| ==> Feed(busy, wave)[i] <= barrier + longest
    ensures AtMost(Feed(busy, wave), barrier) >= |busy| - |wave|
  {
    if wave == [] {
      AtMostAll(busy, barrier);
    } else {
      var n := |wave| - 1;
      OneWave(busy, wave[..n], barrier, longest);
      OneCell(Feed(busy, wave[..n]), wave[n], barrier, longest);
    }
  }

  lemma OneCell(before: seq<real>, d: real, barrier: real, longest: real)
    requires before != [] && 0.0 <= d <= longest && AtMost(before, barrier) >= 1
    requires forall i :: 0 <= i < |before| ==> before[i] <= barrier + longest
    ensures forall i :: 0 <= i < |before| ==> Place(before, d)[i] <= barrier + longest
    ensures AtMost(Place(before, d), barrier) >= AtMost(before, barrier) - 1
  {
    var k := LeastBusy(before);
    AtMostAll(before, barrier);
    assert before[k] <= barrier;
    AtMostUpdate(before, k, before[k] + d, barrier);
  }

  lemma {:induction false} WavesFromBarrier(busy: seq<real>, durations: seq<Duration>, barrier: real)
    requires busy != [] && forall i :: 0 <= i < |busy| ==> busy[i] <= barrier
    ensures forall i :: 0 <= i < |busy| ==> Feed(busy, durations)[i] <= barrier + WaveMakespan(durations, |busy|)
    decreases |durations|
  {
    var workers := |busy|;
    if durations == [] {
    } else if |durations| <= workers {
      OneWave(busy, durations, barrier, Max(durations));
    } else {
      var wave, rest := durations[..workers], durations[workers..];
      OneWave(busy, wave, barrier, Max(wave));
      assert durations == wave + rest;
      FeedSplits(busy, wave, rest);
      WavesFromBarrier(Feed(busy, wave), rest, barrier + Max(wave));
    }
  }

  /** The barrier can only cost time: the continuously fed pool is never slower. */
  lemma FedWithinWaves(durations: seq<Duration>, workers: nat)
    requires workers >= 1
    ensures FedFinish(durations, workers) <= WaveMakespan(durations, workers)
  {
    WavesFromBarrier(Idle(workers), durations, 0.0);
  }

  // ---- more workers -------------------------------------------------------------------------

  /** A bigger pool is ahead: whenever the smaller one has j >= 1 workers done by time x, the
      bigger one has at least j + 1. */
  ghost predicate Ahead(small: seq<real>, big: seq<real>) {
    forall x :: AtMost(small, x) >= 1 ==> AtMost(big, x) >= AtMost(small, x) + 1
  }

  lemma PlaceKeepsAhead(small: seq<real>, big: seq<real>, d: real)
    requires small != [] && big != [] && d >= 0.0 && Ahead(small, big)
    ensures Ahead(Place(small, d), Place(big, d))
  {
    var a, b := LeastBusy(small), LeastBusy(big);
    AtMostAll(small, small[a]);
    AtMostAll(big, small[a]);
    assert big[b] <= small[a];
    forall x | AtMost(Place(small, d), x) >= 1 ensures AtMost(Place(big, d), x) >= AtMost(Place(small, d), x) + 1 {
      AtMostAll(Place(small, d), x);
      assert exists i :: 0 <= i < |small| && Place(small, d)[i] <= x;
      assert small[a] <= x;
      AtMostAll(small, x);
      AtMostUpdate(small, a, small[a] + d, x);
      AtMostUpdate(big, b, big[b] + d, x);
    }
  }

  lemma {:induction false} FeedKeepsAhead(small: seq<real>, big: seq<real>, durations: seq<Duration>)
    requires small != [] && big != [] && Ahead(small, big)
    ensures Ahead(Feed(small, durations), Feed(big, durations))
  {
    if durations != [] {
      var front := durations[..|durations| - 1];
      FeedKeepsAhead(small, big, front);
      PlaceKeepsAhead(Feed(small, front), Feed(big, front), durations[|durations| - 1]);
    }
  }

  lemma IdleAhead(workers: nat)
    requires workers >= 1
    ensures Ahead(Idle(workers), Idle(workers + 1))
  {
    forall x | AtMost(Idle(workers), x) >= 1 ensures AtMost(Idle(workers + 1), x) >= AtMost(Idle(workers), x) + 1 {
      AtMostAll(Idle(workers), x);
      AtMostAll(Idle(workers + 1), x);
    }
  }

  /** Adding a worker never lengthens the fed schedule. */
  lemma OneMoreWorker(durations: seq<Duration>, workers: nat)
    requires workers >= 1
    ensures FedFinish(durations, workers + 1) <= FedFinish(durations, workers)
  {
    IdleAhead(workers);
    FeedKeepsAhead(Idle(workers), Idle(workers + 1), durations);
    var small, big := Feed(Idle(workers), durations), Feed(Idle(workers + 1), durations);
    AtMostAll(small, Max(small));
    AtMostAll(big, Max(small));
  }

  lemma {:induction false} MoreWorkersNeverLengthen(durations: seq<Duration>, few: nat, many: nat)
    requires 1 <= few <= many
    ensures FedFinish(durations, many) <= FedFinish(durations, few)
    decreases many
  {
    if few < many {
      var fewer: nat := many - 1;
      MoreWorkersNeverLengthen(durations, few, fewer);
      OneMoreWorker(durations, fewer);
    }
  }

  /** times * length. */
  function Laps(times: nat, length: nat): (n: nat)
    ensures n == times * length
  {
    if times == 0 then 0 else Laps(times - 1, length) + length
  }

  lemma SameEntry(k: nat, n: nat)
    requires n >= 1
    ensures (k + n) % n == k % n
  {
    var q, p := k / n, (k + n) / n;
    assert k == q * n + k % n && k + n == p * n + (k + n) % n;
    assert (p - q - 1) * n == k % n - (k + n) % n;
    SmallMultiple(p - q - 1, n, k % n - (k + n) % n);
  }

  lemma ProductIsFar(d: int, n: nat)
    ensures d >= 1 ==> d * n >= n
    ensures d <= -1 ==> d * n + n <= 0
  {
    if d >= 1 { assert (d - 1) * n >= 0; }
    if d <= -1 { assert (-1 - d) * n >= 0; }
  }

  lemma SmallMultiple(d: int, n: nat, r: int)
    requires n >= 1 && d * n == r && r < n && -r < n
    ensures r == 0
  {
    ProductIsFar(d, n);
  }

  // ---- more workers for the waves --------------------------------------------------------------

  /** A wave schedule is no shorter than any of its cells. */
  lemma {:induction false} WavesCover(durations: seq<Duration>, workers: nat, i: nat)
    requires workers >= 1 && i < |durations|
    ensures durations[i] <= WaveMakespan(durations, workers)
    decreases |durations|
  {
    if |durations| > workers {
      var rest := durations[workers..];
      if i >= workers { WavesCover(rest, workers, i - workers); } else { WavesCover(rest, workers, 0); }
      var front := durations[..workers];
      assert i < workers ==> front[i] == durations[i];
      assert Max(front) in front;
    }
  }

  lemma WavesCoverMax(durations: seq<Duration>, workers: nat)
    requires workers >= 1 && durations != []
    ensures Max(durations) <= WaveMakespan(durations, workers)
  {
    var i :| 0 <= i < |durations| && durations[i] == Max(durations);
    WavesCover(durations, workers, i);
  }

  lemma CutFront(a: seq<Duration>, b: seq<Duration>, k: nat)
    requires k <= |a|
    ensures (a + b)[..k] == a[..k] && (a + b)[k..] == a[k..] + b
  {
  }

  /** Whole waves come off the front. */
  lemma {:induction false} WavesAppend(a: seq<Duration>, b: seq<Duration>, workers: nat, waves: nat)
    requires workers >= 1 && |a| == Laps(waves, workers)
    ensures WaveMakespan(a + b, workers) == WaveMakespan(a, workers) + WaveMakespan(b, workers)
    decreases waves
  {
    if waves == 0 {
      assert a + b == b;
    } else {
      LapsAtLeast(waves, workers);
      OneWaveOff(a + b, workers);
      OneWaveOff(a, workers);
      CutFront(a, b, workers);
      WavesAppend(a[workers..], b, workers, waves - 1);
    }
  }

  lemma OneWaveOff(durations: seq<Duration>, workers: nat)
    requires 1 <= workers <= |durations|
    ensures WaveMakespan(durations, workers) == Max(durations[..workers]) + WaveMakespan(durations[workers..], workers)
  {
    if |durations| == workers {
      assert durations[..workers] == durations && durations[workers..] == [];
    }
  }

  /** Waves of a multiple of the workers merge waves, and merging cannot lengthen. */
  lemma {:induction false} MergedWaves(durations: seq<Duration>, few: nat, factor: nat)
    requires few >= 1 && factor >= 1
    ensures Laps(factor, few) >= 1 && WaveMakespan(durations, Laps(factor, few)) <= WaveMakespan(durations, few)
    decreases |durations|
  {
    var many := Laps(factor, few);
    LapsAtLeast(factor, few);
    if durations == [] {
    } else if |durations| <= many {
      WavesCoverMax(durations, few);
    } else {
      var front, rest := durations[..many], durations[many..];
      assert front + rest == durations;
      WavesAppend(front, rest, few, factor);
      WavesCoverMax(front, few);
      MergedWaves(rest, few, factor);
    }
  }

  lemma LapsAtLeast(times: nat, length: nat)
    requires times >= 1
    ensures Laps(times, length) >= length
  {
  }

  /** Two cells of length one after n of length zero. */
  function LatePair(n: nat): (d: seq<Duration>)
    ensures |d| == n + 2 && d[n] == 1.0 && d[n + 1] == 1.0 && forall i :: 0 <= i < n ==> d[i] == 0.0
  {
    seq(n + 2, i => if i < n then 0.0 else 1.0)
  }

  /** In one wave they count once, ... */
  lemma {:induction false} PairInOneWave(n: nat, workers: nat)
    requires workers >= 1 && (n + 1) % workers != 0
    ensures WaveMakespan(LatePair(n), workers) == 1.0
    decreases n
  {
    var d := LatePair(n);
    if n + 2 > workers {
      WholeWave(workers);
      SameEntry(n + 1 - workers, workers);
      assert d[..workers][0] == 0.0 && Max(d[..workers]) == 0.0;
      assert d[workers..] == LatePair(n - workers);
      PairInOneWave(n - workers, workers);
    }
  }

  lemma WholeWave(n: nat)
    requires n >= 1
    ensures n % n == 0
  {
  }

  /** ... and across a wave boundary twice. */
  lemma PairAcrossWaves(workers: nat)
    requires workers >= 1
    ensures WaveMakespan(LatePair(workers - 1), workers) == 2.0
  {
    var d := LatePair(workers - 1);
    assert d[..workers][workers - 1] == 1.0 && Max(d[..workers]) == 1.0;
    assert d[workers..] == [1.0];
  }

  /** More workers are sure not to lengthen the waves exactly when they are a multiple. */
  lemma MoreWorkersNeverLengthenWavesExactly(few: nat, many: nat)
    requires 1 <= few <= many
    ensures (forall durations: seq<Duration> :: WaveMakespan(durations, many) <= WaveMakespan(durations, few)) <==> many % few == 0
  {
    if many % few == 0 {
      assert many == Laps(many / few, few);
      forall durations: seq<Duration> ensures WaveMakespan(durations, many) <= WaveMakespan(durations, few) {
        MergedWaves(durations, few, many / few);
      }
    } else {
      PairInOneWave(many - 1, few);
      PairAcrossWaves(many);
    }
  }

  lemma {:induction false} TimesZero(n: nat)
    ensures Times(n, 0.0) == 0.0
  {
    if n > 0 { TimesZero(n - 1); }
  }

  // ---- conserved work and the distance from the best assignment ------------------------------

  lemma {:induction false} SumUpdate(s: seq<real>, k: nat, v: real)
    requires k < |s|
    ensures Sum(s[k := v]) == Sum(s) - s[k] + v
  {
    var n := |s| - 1;
    if k == n {
      assert s[k := v][..n] == s[..n];
    } else {
      SumUpdate(s[..n], k, v);
      assert s[k := v][..n] == s[..n][k := v];
    }
  }

  lemma {:induction false} SumIdle(workers: nat)
    ensures Sum(Idle(workers)) == 0.0
  {
    if workers > 0 {
      assert Idle(workers)[..workers - 1] == Idle(workers - 1);
      SumIdle(workers - 1);
    }
  }

  /** List scheduling neither loses nor invents work. */
  lemma {:induction false} FeedConservesWork(busy: seq<real>, durations: seq<Duration>)
    requires busy != []
    ensures Sum(Feed(busy, durations)) == Sum(busy) + Sum(durations)
  {
    if durations != [] {
      var front := durations[..|durations| - 1];
      FeedConservesWork(busy, front);
      var before := Feed(busy, front);
      var k := LeastBusy(before);
      SumUpdate(before, k, before[k] + durations[|durations| - 1]);
    }
  }

  /** The loads when cell i goes to worker assignment[i]. */
  function Loads(durations: seq<Duration>, assignment: seq<nat>, workers: nat): (r: seq<real>)
    requires |assignment| == |durations| && forall i :: 0 <= i < |assignment| ==> assignment[i] < workers
    ensures |r| == workers && forall i :: 0 <= i < workers ==> r[i] >= 0.0
  {
    if durations == [] then Idle(workers)
    else
      var n := |durations| - 1;
      var r := Loads(durations[..n], assignment[..n], workers);
      r[assignment[n] := r[assignment[n]] + durations[n]]
  }

  lemma {:induction false} LoadsConserveWork(durations: seq<Duration>, assignment: seq<nat>, workers: nat)
    requires |assignment| == |durations| && forall i :: 0 <= i < |assignment| ==> assignment[i] < workers
    ensures Sum(Loads(durations, assignment, workers)) == Sum(durations)
  {
    if durations == [] {
      SumIdle(workers);
    } else {
      var n := |durations| - 1;
      LoadsConserveWork(durations[..n], assignment[..n], workers);
      var r := Loads(durations[..n], assignment[..n], workers);
      SumUpdate(r, assignment[n], r[assignment[n]] + durations[n]);
    }
  }

  lemma {:induction false} LoadHoldsCell(durations: seq<Duration>, assignment: seq<nat>, workers: nat, i: nat)
    requires |assignment| == |durations| && forall j :: 0 <= j < |assignment| ==> assignment[j] < workers
    requires i < |durations|
    ensures durations[i] <= Loads(durations, assignment, workers)[assignment[i]]
  {
    var n := |durations| - 1;
    if i < n {
      LoadHoldsCell(durations[..n], assignment[..n], workers, i);
    }
  }

  /** n times x. */
  function Times(n: nat, x: real): real {
    if n == 0 then 0.0 else Times(n - 1, x) + x
  }

  lemma {:induction false} TimesIsProduct(n: nat, x: real)
    ensures Times(n, x) == n as real * x
  {
    if n > 0 { TimesIsProduct(n - 1, x); }
  }

  lemma {:induction false} TimesLinear(n: nat, x: real, y: real)
    ensures Times(n, x + y) == Times(n, x) + Times(n, y)
    ensures x <= y ==> Times(n, x) <= Times(n, y)
    ensures 0.0 <= x ==> 0.0 <= Times(n, x)
  {
    if n > 0 { TimesLinear(n - 1, x, y); }
  }

  lemma {:induction false} SumBounds(s: seq<real>, low: real, high: real)
    requires forall i :: 0 <= i < |s| ==> low <= s[i] <= high
    ensures Times(|s|, low) <= Sum(s) <= Times(|s|, high)
  {
    if s != [] { SumBounds(s[..|s| - 1], low, high); }
  }

  /** A finish time within the average load plus what one worst cell can add. */
  ghost predicate Reasonable(finish: real, total: real, workers: nat, longest: real)
    requires workers >= 1
  {
    Times(workers, finish) <= total + Times(workers - 1, longest)
  }

  /** When a cell starts, its worker is no busier than the average. */
  lemma PlacedCellIsReasonable(busy: seq<real>, d: real, longest: real)
    requires busy != [] && 0.0 <= d <= longest
    ensures Reasonable(busy[LeastBusy(busy)] + d, Sum(busy) + d, |busy|, longest)
  {
    var start := busy[LeastBusy(busy)];
    SumBounds(busy, start, Max(busy));
    TimesLinear(|busy|, start, d);
    TimesLinear(|busy| - 1, d, longest);
  }

  ghost predicate AllReasonable(busy: seq<real>, total: real, longest: real)
    requires busy != []
  {
    forall i :: 0 <= i < |busy| ==> Reasonable(busy[i], total, |busy|, longest)
  }

  lemma PlaceKeepsReasonable(busy: seq<real>, d: real, longest: real)
    requires busy != [] && 0.0 <= d <= longest && AllReasonable(busy, Sum(busy), longest)
    ensures AllReasonable(Place(busy, d), Sum(busy) + d, longest)
  {
    PlacedCellIsReasonable(busy, d, longest);
  }

  lemma IdleIsReasonable(workers: nat, longest: real)
    requires workers >= 1 && longest >= 0.0
    ensures AllReasonable(Idle(workers), 0.0, longest)
  {
    TimesLinear(workers, 0.0, 0.0);
    TimesLinear(workers - 1, longest, longest);
  }

  lemma {:induction false} FinishBound(durations: seq<Duration>, workers: nat, longest: real)
    requires workers >= 1 && longest >= 0.0
    requires forall i :: 0 <= i < |durations| ==> durations[i] <= longest
    ensures AllReasonable(Feed(Idle(workers), durations), Sum(durations), longest)
  {
    if durations == [] {
      IdleIsReasonable(workers, longest);
    } else {
      var front := durations[..|durations| - 1];
      FinishBound(front, workers, longest);
      FeedConservesWork(Idle(workers), front);
      SumIdle(workers);
      PlaceKeepsReasonable(Feed(Idle(workers), front), durations[|durations| - 1], longest);
    }
  }

  lemma FedWithinLoads(durations: seq<Duration>, assignment: seq<nat>, workers: nat)
    requires workers >= 1
    requires |assignment| == |durations| && forall i :: 0 <= i < |assignment| ==> assignment[i] < workers
    ensures var best := Max(Loads(durations, assignment, workers));
      Times(workers, FedFinish(durations, workers)) <= Times(workers, best) + Times(workers - 1, best)
  {
    var loads := Loads(durations, assignment, workers);
    var best := Max(loads);
    forall i | 0 <= i < |durations| ensures durations[i] <= best {
      LoadHoldsCell(durations, assignment, workers, i);
    }
    FinishBound(durations, workers, best);
    assert Reasonable(FedFinish(durations, workers), Sum(durations), workers, best);
    LoadsConserveWork(durations, assignment, workers);
    SumBounds(loads, 0.0, best);
  }

  lemma CombineTimes(workers: nat, x: real)
    requires workers >= 1
    ensures Times(workers, x) + Times(workers - 1, x) == Times(2 * workers - 1, x)
  {
    TimesAdds(workers, workers - 1, x);
    assert workers + (workers - 1) == 2 * workers - 1;
  }

  lemma {:induction false} TimesAdds(m: nat, n: nat, x: real)
    ensures Times(m + n, x) == Times(m, x) + Times(n, x)
  {
    if n > 0 { TimesAdds(m, n - 1, x); }
  }

  /** 2 - 1/workers times the largest load. */
  function GrahamBound(workers: nat, x: real): real
    requires workers >= 1
  {
    (2.0 - 1.0 / workers as real) * x
  }

  lemma AsRatio(fed: real, best: real, workers: nat)
    requires workers >= 1 && Times(workers, fed) <= Times(2 * workers - 1, best)
    ensures fed <= GrahamBound(workers, best)
  {
    TimesIsProduct(workers, fed);
    TimesIsProduct(2 * workers - 1, best);
    ScaleDown(fed, best, workers as real);
  }

  lemma ScaleDown(fed: real, best: real, w: real)
    requires w >= 1.0 && w * fed <= (2.0 * w - 1.0) * best
    ensures fed <= (2.0 - 1.0 / w) * best
  {
    var inverse := 1.0 / w;
    assert inverse * w == 1.0;
    assert inverse * (w * fed) == fed;
    assert inverse * ((2.0 * w - 1.0) * best) == (2.0 - inverse) * best;
    assert inverse * ((2.0 * w - 1.0) * best - w * fed) >= 0.0;
  }

  /** The greedy schedule is within 2 - 1/workers of any assignment of the same cells to the
      same workers. */
  lemma FedWithinTwiceBest(durations: seq<Duration>, assignment: seq<nat>, workers: nat)
    requires workers >= 1
    requires |assignment| == |durations| && forall i :: 0 <= i < |assignment| ==> assignment[i] < workers
    ensures FedFinish(durations, workers) <= GrahamBound(workers, Max(Loads(durations, assignment, workers)))
  {
    var best := Max(Loads(durations, assignment, workers));
    FedWithinLoads(durations, assignment, workers);
    CombineTimes(workers, best);
    AsRatio(FedFinish(durations, workers), best, workers);
  }
}
