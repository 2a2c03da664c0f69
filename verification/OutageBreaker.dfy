/** The systemic-outage breaker and the serial fold both schedulers are meant to reproduce:
    take the cells in submission order, count consecutive systemic failures, stop at the
    cell that reaches the limit. */
module OutageBreaker {
  datatype ErrorKind = NoError | SessionError | InfraError | CleanupFailure | ReviewEvidenceInvalid | TaskFailure(kind: string)

  /** What `run` returns for a cell; `evidence` is the row's `review_evidence_valid`, if any. */
  datatype Record = Record(error: ErrorKind, evidence: Evidence)
  datatype Evidence = NotAReview | Valid | Invalid

  /** A cell in the total submission order. `ready` is the memoised answer of `await_ready`
      for its task and `record` is what `run` would return for it. */
  datatype Cell = Cell(ready: bool, record: Record)

  /** A row with invalid review evidence counts as that failure whatever its error kind. */
  function RowKind(r: Record): ErrorKind {
    if r.evidence == Invalid then ReviewEvidenceInvalid else r.error
  }

  predicate IsSystemic(k: ErrorKind) {
    k in {SessionError, InfraError, CleanupFailure, ReviewEvidenceInvalid}
  }

  /** `systemic_outage_streak`. */
  function Streak(k: ErrorKind, prior: int): int {
    if IsSystemic(k) then prior + 1 else 0
  }

  predicate Trips(streak: int, limit: int) {
    limit != 0 && streak >= limit
  }

  datatype Fold = Fold(streak: int, tripped: bool, log: seq<nat>)

  /** The serial fold over the first n cells: unready cells are skipped, and once the
      breaker trips nothing more is folded. */
  function Serial(cells: seq<Cell>, streak: int, limit: int, n: nat): Fold
    requires n <= |cells|
  {
    if n == 0 then Fold(streak, false, [])
    else
      var before := Serial(cells, streak, limit, n - 1);
      if before.tripped || !cells[n - 1].ready then before
      else
        var next := Streak(RowKind(cells[n - 1].record), before.streak);
        Fold(next, Trips(next, limit), before.log + [n - 1])
  }

  lemma {:induction false} TripIsFinal(cells: seq<Cell>, streak: int, limit: int, m: nat, n: nat)
    requires m <= n <= |cells| && Serial(cells, streak, limit, m).tripped
    ensures Serial(cells, streak, limit, n) == Serial(cells, streak, limit, m)
  {
    if m < n { TripIsFinal(cells, streak, limit, m, n - 1); }
  }

  /** The fold trips on cell t, and not before. */
  ghost predicate TripsAt(cells: seq<Cell>, streak: int, limit: int, t: nat) {
    t < |cells| && !Serial(cells, streak, limit, t).tripped && Serial(cells, streak, limit, t + 1).tripped
  }

  /** What the fold records: ready cells in strictly increasing order, every ready cell up to
      its stopping point, and a trip exactly on its last entry. */
  lemma {:induction false} SerialLog(cells: seq<Cell>, streak: int, limit: int, n: nat)
    requires n <= |cells|
    ensures var f := Serial(cells, streak, limit, n);
      && (forall i, j :: 0 <= i < j < |f.log| ==> f.log[i] < f.log[j])
      && (forall k :: k in f.log ==> k < n && cells[k].ready)
      && (forall k :: 0 <= k < n && cells[k].ready && (!f.tripped || (f.log != [] && k <= f.log[|f.log| - 1])) ==> k in f.log)
      && (f.tripped ==> f.log != [] && TripsAt(cells, streak, limit, f.log[|f.log| - 1]))
  {
    if n > 0 {
      SerialLog(cells, streak, limit, n - 1);
      var before := Serial(cells, streak, limit, n - 1);
      forall k | 0 <= k < |before.log| ensures before.log[k] < n - 1 {
        assert before.log[k] in before.log;
      }
    }
  }

  /** Folding one batch and then the next from the streak it left is folding both at once. */
  lemma {:induction false} SerialSplits(a: seq<Cell>, b: seq<Cell>, streak: int, limit: int, n: nat)
    requires n <= |b| && !Serial(a, streak, limit, |a|).tripped
    ensures var first := Serial(a, streak, limit, |a|);
      var rest := Serial(b, first.streak, limit, n);
      var whole := Serial(a + b, streak, limit, |a| + n);
      whole.streak == rest.streak && whole.tripped == rest.tripped
  {
    SerialPrefix(a, b, streak, limit, |a|);
    if n > 0 {
      SerialSplits(a, b, streak, limit, n - 1);
      assert (a + b)[|a| + n - 1] == b[n - 1];
    }
  }

  lemma {:induction false} SerialPrefix(a: seq<Cell>, b: seq<Cell>, streak: int, limit: int, n: nat)
    requires n <= |a|
    ensures Serial(a + b, streak, limit, n) == Serial(a, streak, limit, n)
  {
    if n > 0 { SerialPrefix(a, b, streak, limit, n - 1); }
  }
  // ---- when it trips ------------------------------------------------------------------------

  /** The four failures that point at the system, not at the task. */
  predicate Fails(c: Cell) {
    || c.record.evidence == Invalid
    || c.record.error == SessionError || c.record.error == InfraError
    || c.record.error == CleanupFailure || c.record.error == ReviewEvidenceInvalid
  }

  /** How many of the cells from k up to n are ready. */
  function ReadyIn(cells: seq<Cell>, k: nat, n: nat): nat
    requires k <= n <= |cells|
  {
    if n == k then 0 else ReadyIn(cells, k, n - 1) + if cells[n - 1].ready then 1 else 0
  }

  /** Nothing ready comes before cell k. */
  predicate StartsAll(cells: seq<Cell>, k: nat)
    requires k <= |cells|
  {
    forall i :: 0 <= i < k ==> !cells[i].ready
  }

  /** A run of failures from k up to n: what is ready there fails, and what is ready before k,
      if anything, ended with a cell that does not. It counts the initial streak if nothing
      ready comes before it. */
  predicate FailingRun(cells: seq<Cell>, streak: int, k: nat, n: nat, length: int)
    requires k <= n <= |cells|
  {
    && (forall i :: k <= i < n && cells[i].ready ==> Fails(cells[i]))
    && (StartsAll(cells, k) || (cells[k - 1].ready && !Fails(cells[k - 1])))
    && ReadyIn(cells, k, n) + (if StartsAll(cells, k) then streak else 0) >= length
  }

  ghost predicate HasRun(cells: seq<Cell>, streak: int, n: nat, length: int)
    requires n <= |cells|
  {
    exists k :: 0 <= k <= n && FailingRun(cells, streak, k, n, length)
  }

  lemma NoRowYet(cells: seq<Cell>, streak: int, length: int)
    ensures HasRun(cells, streak, 0, length) <==> streak >= length
  {
    if streak >= length { assert FailingRun(cells, streak, 0, 0, length); }
  }

  lemma UnreadyKeepsRun(cells: seq<Cell>, streak: int, n: nat, length: int)
    requires 0 < n <= |cells| && !cells[n - 1].ready
    ensures HasRun(cells, streak, n, length) <==> HasRun(cells, streak, n - 1, length)
  {
    var before: nat := n - 1;
    if k :| 0 <= k <= n && FailingRun(cells, streak, k, n, length) {
      assert FailingRun(cells, streak, if k == n then before else k, before, length);
    }
    if k :| 0 <= k <= before && FailingRun(cells, streak, k, before, length) {
      assert FailingRun(cells, streak, k, n, length);
    }
  }

  lemma FailureLengthensRun(cells: seq<Cell>, streak: int, n: nat, length: int)
    requires 0 < n <= |cells| && cells[n - 1].ready && Fails(cells[n - 1])
    ensures HasRun(cells, streak, n, length) <==> HasRun(cells, streak, n - 1, length - 1)
  {
    var before: nat, shorter := n - 1, length - 1;
    if k :| 0 <= k <= n && FailingRun(cells, streak, k, n, length) {
      assert k < n;
      assert FailingRun(cells, streak, k, before, shorter);
    }
    if k :| 0 <= k <= before && FailingRun(cells, streak, k, before, shorter) {
      assert FailingRun(cells, streak, k, n, length);
    }
  }

  lemma SuccessEndsRun(cells: seq<Cell>, streak: int, n: nat, length: int)
    requires 0 < n <= |cells| && cells[n - 1].ready && !Fails(cells[n - 1])
    ensures HasRun(cells, streak, n, length) <==> length <= 0
  {
    if length <= 0 { assert FailingRun(cells, streak, n, n, length); }
    if k :| 0 <= k <= n && FailingRun(cells, streak, k, n, length) { assert k == n; }
  }

  /** Until it trips, the fold's streak is the length of the run of failures it stands in. */
  lemma {:induction false} StreakIsRun(cells: seq<Cell>, streak: int, limit: int, n: nat, length: int)
    requires n <= |cells| && !Serial(cells, streak, limit, n).tripped
    ensures HasRun(cells, streak, n, length) <==> Serial(cells, streak, limit, n).streak >= length
    decreases n
  {
    if n == 0 {
      NoRowYet(cells, streak, length);
    } else {
      FoldedStreakIsRun(cells, streak, limit, n, length);
    }
  }

  /** One cell more, tripping or not. */
  lemma {:induction false} FoldedStreakIsRun(cells: seq<Cell>, streak: int, limit: int, n: nat, length: int)
    requires 0 < n <= |cells| && !Serial(cells, streak, limit, n - 1).tripped
    ensures HasRun(cells, streak, n, length) <==> Serial(cells, streak, limit, n).streak >= length
    decreases n, 0
  {
    var last := cells[n - 1];
    if !last.ready {
      UnreadyKeepsRun(cells, streak, n, length);
      StreakIsRun(cells, streak, limit, n - 1, length);
    } else if Fails(last) {
      FailureLengthensRun(cells, streak, n, length);
      StreakIsRun(cells, streak, limit, n - 1, length - 1);
    } else {
      SuccessEndsRun(cells, streak, n, length);
    }
  }

  /** The breaker has tripped exactly when some ready cell before n has ended a run of as many
      failures as the limit says; without a limit it never trips. */
  lemma {:induction false} TripsExactly(cells: seq<Cell>, streak: int, limit: int, n: nat)
    requires n <= |cells|
    ensures Serial(cells, streak, limit, n).tripped
            <==> limit != 0 && exists t :: 0 <= t < n && cells[t].ready && HasRun(cells, streak, t + 1, limit)
  {
    if n > 0 {
      TripsExactly(cells, streak, limit, n - 1);
      if !Serial(cells, streak, limit, n - 1).tripped {
        FoldedStreakIsRun(cells, streak, limit, n, limit);
        assert cells[n - 1].ready && HasRun(cells, streak, n - 1 + 1, limit) ==> Serial(cells, streak, limit, n).tripped || limit == 0;
      }
    }
  }

  /** And it trips on the first such cell. */
  lemma TripsOnFirstRun(cells: seq<Cell>, streak: int, limit: int, t: nat)
    requires t < |cells| && limit != 0
    ensures TripsAt(cells, streak, limit, t)
            <==> cells[t].ready && HasRun(cells, streak, t + 1, limit)
                 && forall s :: 0 <= s < t && cells[s].ready ==> !HasRun(cells, streak, s + 1, limit)
  {
    TripsExactly(cells, streak, limit, t);
    TripsExactly(cells, streak, limit, t + 1);
  }
}
