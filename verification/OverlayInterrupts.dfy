/** The limit of the other guarantees of `apply_promoted_overlay`. Its inspections inside the
    rollback and after a raised exchange catch OSError and ValueError only; any other
    exception there, such as an interrupt, goes straight to the cleanup, which unlinks what
    the rollback had not looked at yet. */
module OverlayInterrupts {
  import opened OverlayTransaction
  import opened OverlaySafety
  import opened OverlayOutcome
  import opened OverlayTemporaries

  /** A step of the transaction itself. */
  ghost predicate OwnStep(plan: Plan, s: State, t: State) {
    exists step :: Enabled(plan, s, step) && !step.Write? && !step.Remove? && t == Apply(plan, s, step)
  }

  /** Consecutive states of a run, from anywhere, while nobody else writes. */
  ghost predicate Steps(plan: Plan, states: seq<State>) {
    states != [] && forall i :: 0 <= i < |states| - 1 ==> OwnStep(plan, states[i], states[i + 1])
  }

  lemma StepsAfter(plan: Plan, s: State, step: Step, rest: seq<State>)
    requires Enabled(plan, s, step) && !step.Write? && !step.Remove? && Steps(plan, rest) && rest[0] == Apply(plan, s, step)
    ensures Steps(plan, [s] + rest)
  {
    var states := [s] + rest;
    forall i | 0 <= i < |states| - 1 ensures OwnStep(plan, states[i], states[i + 1]) {
      if i > 0 { assert OwnStep(plan, rest[i - 1], rest[i - 1 + 1]); }
    }
  }

  lemma Extended(plan: Plan, run: seq<State>, more: seq<State>)
    requires IsRun(plan, run) && Steps(plan, more) && more[0] == run[|run| - 1]
    ensures IsRun(plan, run + more[1..])
  {
    var states := run + more[1..];
    forall i | 0 <= i < |states| - 1 ensures Next(plan, states[i], states[i + 1]) {
      if i < |run| - 1 {
        assert Next(plan, run[i], run[i + 1]);
      } else {
        assert OwnStep(plan, more[i - (|run| - 1)], more[i - (|run| - 1) + 1]);
      }
    }
  }

  /** The temporaries of the replacements from the i-th on are gone; destinations stay. */
  ghost predicate Cleaned(before: Directory, after: Directory, b: Book, i: nat, listed: nat) {
    && (forall j {:trigger Dest(j)} :: (Dest(j) in after <==> Dest(j) in before) && (Dest(j) in after ==> after[Dest(j)] == before[Dest(j)]))
    && (forall j :: i <= j < listed ==> Candidate(j) !in after)
    && (forall j :: i <= j < listed && j in b.backups ==> Backup(j) !in after)
    && (forall name :: name in after ==> name in before)
  }

  /** From any state that enters the cleanup there is a way through it on which no unlink fails. */
  lemma {:induction false} CleanupRuns(plan: Plan, w: World, b: Book, i: nat) returns (states: seq<State>)
    requires i <= w.listed
    ensures Steps(plan, states) && states[0] == CleanFrom(w, b, i)
    ensures var last := states[|states| - 1]; last == State(Done(FinalReport(b)), w.(dir := last.w.dir), b) && Cleaned(w.dir, last.w.dir, b, i, w.listed)
    ensures forall m :: 0 <= m < |states| ==> states[m].pc.Clean? || states[m].pc.Done?
    decreases w.listed - i
  {
    var s := CleanFrom(w, b, i);
    if i == w.listed {
      states := [s];
    } else {
      var gone := w.(dir := w.dir - {Candidate(i)});
      if i in b.backups {
        var second := State(Clean(i, true), gone, b);
        var rest := CleanupRuns(plan, gone.(dir := gone.dir - {Backup(i)}), b, i + 1);
        StepsAfter(plan, second, Unlink(Unlinked), rest);
        StepsAfter(plan, s, Unlink(Unlinked), [second] + rest);
        states := [s] + ([second] + rest);
      } else {
        var rest := CleanupRuns(plan, gone, b, i + 1);
        StepsAfter(plan, s, Unlink(Unlinked), rest);
        states := [s] + rest;
      }
    }
  }

  /** The inspections of the rollback that catch only OSError and ValueError. */
  predicate Interruptible(pc: Pc) {
    pc.Roll? && !pc.phase.InspectDest? && !pc.phase.InspectTemp? && !pc.phase.SwapBack?
  }

  /** A file of an item is still on disk under a name that belongs to the item. */
  ghost predicate Survives(w: World, item: nat, node: Node) {
    || (Dest(item) in w.dir && w.dir[Dest(item)] == node)
    || (Candidate(item) in w.dir && w.dir[Candidate(item)] == node)
  }

  /** Without a recovery record, and with exactly the files left that were at destinations. */
  ghost predicate EndsUnrecovered(w: World, last: State) {
    && last.pc.Done? && !last.pc.report.RollbackIncomplete? && !last.pc.report.CleanupIncomplete?
    && forall item: nat, node :: item < w.listed ==>
         (Survives(last.w, item, node) <==> Dest(item) in w.dir && w.dir[Dest(item)] == node)
  }

  /** The run is interrupted in its last state, and goes on to its end without other writers. */
  ghost predicate Interrupted(plan: Plan, run: seq<State>, whole: seq<State>) {
    && IsRun(plan, whole) && 0 < |run| < |whole| && whole[..|run|] == run
    && Enabled(plan, run[|run| - 1], Do(Hard)) && whole[|run|] == Apply(plan, run[|run| - 1], Do(Hard))
    && Steps(plan, whole[|run|..]) && whole[|whole| - 1].pc.Done?
  }

  /** An interrupt at any such inspection of any run can end it with no recovery record, after
      which exactly the files then at destinations survive: whatever was displaced to a
      temporary name, the original or somebody else's, is lost. */
  lemma InterruptKeepsOnlyDestinations(plan: Plan, run: seq<State>) returns (whole: seq<State>)
    requires IsRun(plan, run) && Interruptible(run[|run| - 1].pc)
    ensures Interrupted(plan, run, whole) && EndsUnrecovered(run[|run| - 1].w, whole[|whole| - 1])
  {
    var s := run[|run| - 1];
    EveryStateInv(plan, run, |run| - 1);
    assert Item(s.w, s.pc.k) in s.w.completed;
    var b := Faulted(s.b, false);
    assert Apply(plan, s, Do(Hard)) == Escape(s.w, b);
    var rest := CleanupRuns(plan, s.w, b.(escapes := true), 0);
    StepsAfter(plan, s, Do(Hard), rest);
    Extended(plan, run, [s] + rest);
    whole := run + rest;
    assert ([s] + rest)[1..] == rest && whole[|run|..] == rest;
  }

  // ---- an interrupt in the classification ---------------------------------------------------

  /** The rollback can still be broken off at a recorded item whose destination exists. */
  ghost predicate CanBreakOff(w: World, k: nat) {
    exists j :: 0 <= j < k && j < |w.completed| && Dest(w.completed[j]) in w.dir
  }

  ghost predicate RecordsOk(plan: Plan, w: World) {
    forall i :: i in w.completed ==> i in w.cand && i < |plan| && Candidate(i) in w.dir
  }

  /** Ends without a recovery record, with just the destinations left. */
  ghost predicate EndsBare(w: World, last: State) {
    && last.pc.Done? && !last.pc.report.RollbackIncomplete? && !last.pc.report.CleanupIncomplete?
    && (forall j {:trigger Dest(j)} :: (Dest(j) in last.w.dir <==> Dest(j) in w.dir) && (Dest(j) in last.w.dir ==> last.w.dir[Dest(j)] == w.dir[Dest(j)]))
    && (forall j :: 0 <= j < w.listed ==> Candidate(j) !in last.w.dir)
  }

  lemma BreakOffRuns(plan: Plan, w: World, b: Book, k: nat, i: nat) returns (states: seq<State>)
    requires 0 < k <= |w.completed| && i == Item(w, k) && RecordsOk(plan, w) && Dest(i) in w.dir
    ensures Steps(plan, states) && states[0] == State(Roll(k, InspectDest), w, b) && EndsBare(w, states[|states| - 1])
    ensures var last, c := states[|states| - 1], b.(faults := b.faults + 1, escapes := true);
      last == State(Done(FinalReport(c)), w.(dir := last.w.dir), c) && Cleaned(w.dir, last.w.dir, b, 0, w.listed)
  {
    assert i in w.completed;
    var t := IdentityOf(w.dir[Candidate(i)]);
    var s0, s1, s2 := State(Roll(k, InspectDest), w, b), State(Roll(k, InspectTemp), w, b), State(Roll(k, TempIdentity(t)), w, b);
    var c := Faulted(b, false).(escapes := true);
    var rest := CleanupRuns(plan, w, c, 0);
    assert s1 == Apply(plan, s0, Do(Ok)) && s2 == Apply(plan, s1, Do(Ok)) && rest[0] == Apply(plan, s2, Do(Hard));
    StepsAfter(plan, s2, Do(Hard), rest);
    StepsAfter(plan, s1, Do(Ok), [s2] + rest);
    StepsAfter(plan, s0, Do(Ok), [s1] + ([s2] + rest));
    states := [s0] + ([s1] + ([s2] + rest));
  }

  lemma {:induction false} BrokenOffRuns(plan: Plan, w: World, b: Book, k: nat) returns (states: seq<State>)
    requires 0 < k <= |w.completed| && RecordsOk(plan, w) && CanBreakOff(w, k)
    ensures Steps(plan, states) && states[0] == State(Roll(k, InspectDest), w, b) && EndsBare(w, states[|states| - 1])
    decreases k
  {
    var i := Item(w, k);
    assert i in w.completed;
    if Dest(i) in w.dir {
      states := BreakOffRuns(plan, w, b, k, i);
    } else {
      var before: nat := k - 1;
      var s := State(Roll(k, InspectDest), w, b);
      assert CanBreakOff(w, before);
      var rest := BrokenOffRuns(plan, w, b.(failed := true), before);
      assert rest[0] == Apply(plan, s, Do(Ok));
      StepsAfter(plan, s, Do(Ok), rest);
      states := [s] + rest;
    }
  }

  lemma RaiseRuns(plan: Plan, w: World, b: Book) returns (states: seq<State>)
    requires RecordsOk(plan, w) && !b.failed && (w.completed == [] || CanBreakOff(w, |w.completed|))
    ensures Steps(plan, states) && states[0] == Raise(w, b) && EndsBare(w, states[|states| - 1])
  {
    if w.completed == [] {
      states := CleanupRuns(plan, w, b.(rollbackComplete := true), 0);
    } else {
      states := BrokenOffRuns(plan, w, b, |w.completed|);
    }
  }

  lemma BareKeepsOnlyDestinations(w: World, last: State)
    requires EndsBare(w, last)
    ensures EndsUnrecovered(w, last)
  {
  }

  /** The same of an interrupt that hits the classification of a raised exchange, if nothing is
      recorded yet or the destination of a recorded exchange exists, as without other writers
      it always does. */
  lemma ClassifyInterruptKeepsOnlyDestinations(plan: Plan, run: seq<State>) returns (whole: seq<State>)
    requires IsRun(plan, run) && (run[|run| - 1].pc.ClassifyDest? || run[|run| - 1].pc.ClassifyTemp?)
    requires var w := run[|run| - 1].w; w.completed == [] || CanBreakOff(w, |w.completed|)
    ensures Interrupted(plan, run, whole) && EndsUnrecovered(run[|run| - 1].w, whole[|whole| - 1])
  {
    var s := run[|run| - 1];
    EveryStateInv(plan, run, |run| - 1);
    EveryStateTidy(plan, run, |run| - 1);
    var c := Faulted(s.b, false).(escapes := true);
    assert Apply(plan, s, Do(Hard)) == Raise(s.w, c);
    var rest := RaiseRuns(plan, s.w, c);
    StepsAfter(plan, s, Do(Hard), rest);
    Extended(plan, run, [s] + rest);
    whole := run + rest;
    assert ([s] + rest)[1..] == rest && whole[|run|..] == rest;
    BareKeepsOnlyDestinations(s.w, rest[|rest| - 1]);
  }

  /** The rollback on its way from record to record, with nothing to exchange back. */
  ghost predicate GivingUp(w: World, s: State) {
    && s.w == w
    && match s.pc
       case Roll(k, phase) => phase.InspectDest? && 0 < k <= |w.completed| && (s.b.failed || k == |w.completed|)
       case WriteRecovery => true
       case Done(report) => report.RollbackIncomplete?
       case _ => false
  }

  lemma GivesUp(plan: Plan, w: World, s: State, t: State)
    requires RecordsOk(plan, w) && !CanBreakOff(w, |w.completed|) && GivingUp(w, s) && OwnStep(plan, s, t)
    ensures GivingUp(w, t)
  {
    var step :| Enabled(plan, s, step) && !step.Write? && !step.Remove? && t == Apply(plan, s, step);
    if s.pc.Roll? {
      var i := Item(w, s.pc.k);
      assert i == w.completed[s.pc.k - 1] && i in w.completed;
      assert t == RollFailed(w, Faulted(s.b, step.outcome.Ok?), s.pc.k);
    }
  }

  lemma {:induction false} GivesUpThroughout(plan: Plan, w: World, states: seq<State>, i: nat)
    requires RecordsOk(plan, w) && !CanBreakOff(w, |w.completed|)
    requires Steps(plan, states) && GivingUp(w, states[0]) && i < |states|
    ensures GivingUp(w, states[i])
  {
    if i > 0 {
      GivesUpThroughout(plan, w, states, i - 1);
      assert OwnStep(plan, states[i - 1], states[i - 1 + 1]);
      GivesUp(plan, w, states[i - 1], states[i]);
    }
  }

  /** In the other case, once nobody else writes, the rollback fails at every record, and
      whatever else fails the call ends with a recovery record tried and every file kept. */
  lemma NothingToBreakOffKeepsFiles(plan: Plan, run: seq<State>, whole: seq<State>)
    requires IsRun(plan, run) && (run[|run| - 1].pc.ClassifyDest? || run[|run| - 1].pc.ClassifyTemp?)
    requires var w := run[|run| - 1].w; w.completed != [] && !CanBreakOff(w, |w.completed|)
    requires Interrupted(plan, run, whole)
    ensures var last := whole[|whole| - 1]; last.pc.report.RollbackIncomplete? && last.w == run[|run| - 1].w
  {
    var s := run[|run| - 1];
    EveryStateInv(plan, run, |run| - 1);
    EveryStateTidy(plan, run, |run| - 1);
    assert whole[|run|] == Raise(s.w, Faulted(s.b, false).(escapes := true));
    GivesUpThroughout(plan, s.w, whole[|run|..], |whole| - |run| - 1);
  }

  /** So an interrupt in a classification can lose what is not at a destination exactly when
      nothing is recorded yet or the destination of a recorded exchange exists. */
  lemma ClassifyInterruptLosesExactly(plan: Plan, run: seq<State>)
    requires IsRun(plan, run) && (run[|run| - 1].pc.ClassifyDest? || run[|run| - 1].pc.ClassifyTemp?)
    ensures var w := run[|run| - 1].w;
      (exists whole :: Interrupted(plan, run, whole) && EndsUnrecovered(w, whole[|whole| - 1]))
      <==> w.completed == [] || CanBreakOff(w, |w.completed|)
  {
    var w := run[|run| - 1].w;
    if w.completed == [] || CanBreakOff(w, |w.completed|) {
      var whole := ClassifyInterruptKeepsOnlyDestinations(plan, run);
    } else {
      forall whole | Interrupted(plan, run, whole) ensures !EndsUnrecovered(w, whole[|whole| - 1]) {
        NothingToBreakOffKeepsFiles(plan, run, whole);
      }
    }
  }

  // ---- the smallest case ---------------------------------------------------------------------

  lemma Joined(plan: Plan, a: seq<State>, b: seq<State>)
    requires Steps(plan, a) && Steps(plan, b) && OwnStep(plan, a[|a| - 1], b[0])
    ensures Steps(plan, a + b)
  {
    var states := a + b;
    forall i | 0 <= i < |states| - 1 ensures OwnStep(plan, states[i], states[i + 1]) {
      if i < |a| - 1 { assert OwnStep(plan, a[i], a[i + 1]); }
      else if i >= |a| { assert OwnStep(plan, b[i - |a|], b[i - |a| + 1]); }
    }
  }

  /** A one-item transaction before its first step, and after its staging. */
  function Before(base: Node): State {
    var dir := map[Dest(0) := base];
    State(StageCandidate(0), World(dir, 0, map[], [], {}, {}, {}), Book(map[], {}, false, false, false, false, 0, false))
  }

  function StagedWorld(item: Prepared, base: Node, mtime: int): World {
    var candidate := Node(base.ino + 1, item.content, item.mode, mtime);
    var backup := Node(base.ino + 2, item.original, item.mode, mtime);
    World(map[Dest(0) := base, Candidate(0) := candidate, Backup(0) := backup], 1, map[0 := candidate], [], {}, {}, {})
  }

  function StagedBook(): Book {
    Book(map[], {0}, false, false, false, false, 0, false)
  }

  lemma StagingRuns(item: Prepared, base: Node, mtime: int) returns (states: seq<State>)
    ensures Steps([item], states) && states[0] == Before(base)
    ensures states[|states| - 1] == State(ValidateStaged, StagedWorld(item, base, mtime), StagedBook())
    ensures forall m :: 0 <= m < |states| ==> !states[m].pc.Verify?
  {
    var plan, s := [item], Before(base);
    var s1 := Apply(plan, s, Stage(Staged(base.ino + 1, mtime)));
    var s2 := Apply(plan, s1, Do(Ok));
    var s3 := Apply(plan, s2, Stage(Staged(base.ino + 2, mtime)));
    assert s3.w.dir == StagedWorld(item, base, mtime).dir;
    assert s3.w.cand == StagedWorld(item, base, mtime).cand;
    assert OwnStep(plan, s, s1) && OwnStep(plan, s1, s2) && OwnStep(plan, s2, s3);
    states := [s, s1, s2, s3];
  }

  lemma ChecksRun(item: Prepared, w: World, b: Book) returns (states: seq<State>)
    requires ContentIs(w, Dest(0), BaseContent(item))
    ensures Steps([item], states) && states[0] == State(ValidateStaged, w, b)
    ensures states[|states| - 1] == State(Publish(0), w, b.(previous := b.previous[0 := IdentityOf(w.dir[Dest(0)])]))
    ensures forall m :: 0 <= m < |states| ==> !states[m].pc.Verify?
  {
    var plan := [item];
    var s0, s1, s2 := State(ValidateStaged, w, b), State(CheckBase(0), w, b), State(PublishPaths(0), w, b);
    var s3, s4 := State(PublishCheck(0), w, b), State(PublishIdentity(0), w, b);
    var s5 := State(Publish(0), w, b.(previous := b.previous[0 := IdentityOf(w.dir[Dest(0)])]));
    assert s1 == Apply(plan, s0, Do(Ok));
    assert s2 == Apply(plan, s1, Do(Ok));
    assert s3 == Apply(plan, s2, Do(Ok));
    assert s4 == Apply(plan, s3, Do(Ok));
    assert s5 == Apply(plan, s4, Do(Ok));
    assert OwnStep(plan, s0, s1) && OwnStep(plan, s1, s2) && OwnStep(plan, s2, s3) && OwnStep(plan, s3, s4) && OwnStep(plan, s4, s5);
    states := [s0, s1, s2, s3, s4, s5];
  }

  /** An exchange that lands and raises, an interrupt in its classification, and the cleanup. */
  lemma UnrecordedRuns(plan: Plan, w: World, b: Book) returns (states: seq<State>)
    requires BothExist(w.dir, 0) && w.completed == [] && !b.failed
    ensures Steps(plan, states) && states[0] == State(Publish(0), w, b)
    ensures var last, c := states[|states| - 1], b.(faults := b.faults + 2, escapes := true, rollbackComplete := true);
      && last == State(Done(FinalReport(c)), last.w, c)
      && Cleaned(Landed(w, 0).dir, last.w.dir, b, 0, w.listed)
      && last.w.touched == w.touched + {0} && last.w.completed == []
  {
    var c := b.(faults := b.faults + 2, escapes := true, rollbackComplete := true);
    var v := Landed(w, 0);
    var s, t := State(Publish(0), w, b), State(ClassifyDest(0), v, Faulted(b, false));
    var rest := CleanupRuns(plan, v, c, 0);
    assert t == Apply(plan, s, Swap(RaisedAfter));
    assert rest[0] == Apply(plan, t, Do(Hard));
    StepsAfter(plan, t, Do(Hard), rest);
    StepsAfter(plan, s, Swap(RaisedAfter), [t] + rest);
    states := [s] + ([t] + rest);
  }

  lemma StepsAreRun(plan: Plan, states: seq<State>)
    requires Steps(plan, states) && Initial(plan, states[0])
    ensures IsRun(plan, states)
  {
    forall i | 0 <= i < |states| - 1 ensures Next(plan, states[i], states[i + 1]) {
      assert OwnStep(plan, states[i], states[i + 1]);
    }
  }

  /** A one-item transaction up to its exchange. */
  lemma RunsToPublish(item: Prepared, base: Node, mtime: int) returns (run: seq<State>)
    requires ContentOf(base) == BaseContent(item)
    ensures IsRun([item], run) && run[0] == Before(base) && Bound([item], run[0].w.dir)
    ensures run[|run| - 1] == State(Publish(0), StagedWorld(item, base, mtime), StagedBook().(previous := map[0 := IdentityOf(base)]))
    ensures forall m :: 0 <= m < |run| ==> !run[m].pc.Verify?
  {
    var plan, w := [item], StagedWorld(item, base, mtime);
    var staging := StagingRuns(item, base, mtime);
    var checks := ChecksRun(item, w, StagedBook());
    var after := checks[1..];
    assert Steps(plan, after) by {
      forall i | 0 <= i < |after| - 1 ensures OwnStep(plan, after[i], after[i + 1]) { assert OwnStep(plan, checks[i + 1], checks[i + 1 + 1]); }
    }
    assert OwnStep(plan, checks[0], checks[0 + 1]);
    Joined(plan, staging, after);
    run := staging + after;
    StepsAreRun(plan, run);
  }

  /** One item, its exchange landing and then raising, and an interrupt in the classification:
      the call reports that everything was rolled back, the new file is at the destination,
      and the original is nowhere. */
  lemma UnrecordedExchange(item: Prepared, base: Node, mtime: int) returns (run: seq<State>)
    requires ContentOf(base) == BaseContent(item)
    ensures IsRun([item], run) && run[0] == Before(base) && Bound([item], run[0].w.dir)
    ensures var last := run[|run| - 1];
      && last.pc == Done(RolledBack) && !last.b.disturbed && last.b.faults == 2
      && last.w.dir.Keys == {Dest(0)} && ContentOf(last.w.dir[Dest(0)]) == CandidateContent(item)
      && last.w.dir[Dest(0)].ino != base.ino
  {
    var start := RunsToPublish(item, base, mtime);
    var last := start[|start| - 1];
    var ending := UnrecordedRuns([item], last.w, last.b);
    Extended([item], start, ending);
    run := start + ending[1..];
    assert run[|run| - 1] == ending[|ending| - 1];
  }

  // ---- one interrupt and another writer ---------------------------------------------------------

  /** The exchange moves the other writer's file away, the parity check sees it, and an
      interrupt breaks the rollback off. */
  lemma ParityRuns(item: Prepared, w: World, b: Book) returns (states: seq<State>)
    requires w.dir.Keys == {Dest(0), Candidate(0), Backup(0)} && w.listed == 1 && b.backups == {0}
    requires w.completed == [] && !b.failed
    requires !b.publishedAll && !b.rollbackComplete && 0 in w.cand
    requires w.dir[Candidate(0)] == w.cand[0] && ContentOf(w.cand[0]) == CandidateContent(item)
    requires ContentOf(w.dir[Dest(0)]) != BaseContent(item)
    ensures Steps([item], states) && states[0] == State(Publish(0), w, b)
    ensures var last := states[|states| - 1];
      && last.pc == Done(Escaped) && last.b == b.(faults := b.faults + 1, escapes := true) && last.w.kept == w.kept
      && last.w.dir == map[Dest(0) := w.cand[0]]
  {
    var plan, v := [item], Recorded(Landed(w, 0), 0);
    var s0, s1, s2 := State(Publish(0), w, b), State(Verify(false, 0, 0), v, b), State(Verify(false, 0, 1), v, b);
    var back := BreakOffRuns(plan, v, b, 1, 0);
    assert s1 == Apply(plan, s0, Swap(Exchanged));
    assert s2 == Apply(plan, s1, Do(Ok));
    assert back[0] == Apply(plan, s2, Do(Ok));
    StepsAfter(plan, s2, Do(Ok), back);
    StepsAfter(plan, s1, Do(Ok), [s2] + back);
    StepsAfter(plan, s0, Swap(Exchanged), [s1] + ([s2] + back));
    states := [s0] + ([s1] + ([s2] + back));
    OnlyDestinationLeft(v, back[|back| - 1].w.dir, b);
  }

  lemma OnlyDestinationLeft(w: World, after: Directory, b: Book)
    requires w.dir.Keys == {Dest(0), Candidate(0), Backup(0)} && b.backups == {0} && Cleaned(w.dir, after, b, 0, 1)
    ensures after == map[Dest(0) := w.dir[Dest(0)]]
  {
    assert Dest(0) in w.dir && Dest(0) in after;
  }

  /** Whatever file another writer puts at the destination just before the exchange, other
      than one with the bound bytes and mode: one interrupt is enough to lose it, with no
      other fault and no recovery record. */
  lemma OneInterruptLosesAnothersFile(item: Prepared, base: Node, mtime: int, other: Node) returns (run: seq<State>)
    requires ContentOf(base) == BaseContent(item) && ContentOf(other) != BaseContent(item)
    requires LegalWrite(StagedWorld(item, base, mtime).dir, 0, other)
    ensures IsRun([item], run) && run[0] == Before(base) && Bound([item], run[0].w.dir)
    ensures var last := run[|run| - 1];
      && last.pc == Done(Escaped) && last.b.faults == 1
      && last.w.kept == {(0, other)} && !Survives(last.w, 0, other) && last.w.dir.Keys == {Dest(0)}
  {
    var plan := [item];
    var start := RunsToPublish(item, base, mtime);
    var s := start[|start| - 1];
    var t := Apply(plan, s, Write(0, other));
    assert Next(plan, s, t);
    var written := start + [t];
    assert IsRun(plan, written) by {
      forall i | 0 <= i < |written| - 1 ensures Next(plan, written[i], written[i + 1]) {
        if i < |start| - 1 { assert Next(plan, start[i], start[i + 1]); }
      }
    }
    var ending := ParityRuns(item, t.w, t.b);
    Extended(plan, written, ending);
    run := written + ending[1..];
    assert run[|run| - 1] == ending[|ending| - 1];
  }
}
