/** The temporaries of `apply_promoted_overlay`, whoever else writes: the backups a rollback
    failure is recovered from, and the clean directory a published transaction leaves. */
module OverlayTemporaries {
  import opened OverlayTransaction
  import opened OverlaySafety

  /** Every temporary in the directory is one the cleanup knows about. */
  ghost predicate Tracked(w: World, b: Book) {
    forall name :: name in w.dir ==>
      match name
      case Dest(_) => true
      case Candidate(j) => j < w.listed
      case Backup(j) => j < w.listed && j in b.backups
  }

  ghost predicate GoneBelow(w: World, n: nat) {
    forall name :: name in w.dir && !name.Dest? ==> name.item >= n
  }

  /** The backups of the first n items hold the bound bytes and mode. */
  ghost predicate BackedUp(plan: Plan, w: World, n: nat) {
    forall j :: 0 <= j < n && j < |plan| ==> ContentIs(w, Backup(j), BaseContent(plan[j]))
  }

  /** No exchange was even tried, or everything has its backup. */
  ghost predicate Recoverable(plan: Plan, w: World) {
    (w.touched == {} && w.completed == []) || BackedUp(plan, w, |plan|)
  }

  /** How many backups must be there before the transaction raises or publishes. */
  function BackedUpSoFar(plan: Plan, pc: Pc): nat {
    if pc.StageCandidate? || pc.RecordIdentity? || pc.StageBackup? then pc.i else |plan|
  }

  predicate Ended(pc: Pc) {
    pc.Roll? || pc.WriteRecovery? || pc.Clean? || pc.Done?
  }

  ghost predicate Kept(plan: Plan, pc: Pc, w: World, b: Book) {
    match pc
    case Roll(_, _) => !b.publishedAll && Recoverable(plan, w)
    case WriteRecovery => !b.publishedAll && Recoverable(plan, w)
    case Clean(i, backup) => b.publishedAll ==> Tracked(w, b) && GoneBelow(w, i) && (backup ==> Candidate(i) !in w.dir)
    case Done(report) =>
      && (report.Published? ==> Tracked(w, b) && GoneBelow(w, w.listed))
      && (report.RollbackIncomplete? ==> Recoverable(plan, w))
    case _ => !b.publishedAll && !b.failed && Tracked(w, b) && BackedUp(plan, w, BackedUpSoFar(plan, pc))
  }

  ghost predicate Tidy(plan: Plan, s: State) {
    Kept(plan, s.pc, s.w, s.b)
  }

  lemma RollFromTidy(plan: Plan, w: World, b: Book, k: nat)
    requires !b.publishedAll && Recoverable(plan, w)
    ensures Tidy(plan, RollFrom(w, b, k))
  {
  }

  lemma RaiseTidy(plan: Plan, w: World, b: Book)
    requires !b.publishedAll && Recoverable(plan, w)
    ensures Tidy(plan, Raise(w, b))
  {
    RollFromTidy(plan, w, b, |w.completed|);
  }

  /** A step outside the rollback touches no file; it goes on, raises, or is published. */
  ghost predicate Moves(plan: Plan, pc: Pc, w: World, b: Book, t: State) {
    || (&& !Ended(t.pc) && BackedUpSoFar(plan, t.pc) == BackedUpSoFar(plan, pc) && t.w.dir == w.dir && t.w.listed == w.listed
        && t.b.backups == b.backups && !t.b.publishedAll && !t.b.failed && t.b.rollbackComplete == b.rollbackComplete)
    || t == Raise(w, b) || t == Unrecorded(w, b)
    || ((pc.ClassifyDest? || pc.ClassifyTemp?) && t == Raise(Recorded(w, pc.i), b))
    || (pc.ValidatePublished? && t == CleanFrom(w, b.(publishedAll := true), 0))
  }

  lemma DoMoves(plan: Plan, pc: Pc, w: World, b: Book, o: Outcome)
    requires !Ended(pc) && !Stages(pc) && !Exchanges(pc) && !b.publishedAll && !b.failed
    ensures Moves(plan, pc, w, b, ApplyDo(plan, pc, w, b, o))
  {
  }

  lemma MovedTidy(plan: Plan, pc: Pc, w: World, b: Book, t: State)
    requires !Ended(pc) && Kept(plan, pc, w, b) && Recoverable(plan, w) && Moves(plan, pc, w, b, t)
    requires pc.ClassifyDest? || pc.ClassifyTemp? ==> BackedUp(plan, w, |plan|)
    ensures Tidy(plan, t)
  {
    if !Ended(t.pc) {
      assert Kept(plan, t.pc, t.w, t.b);
    } else if t == Raise(w, b) || t == Unrecorded(w, b) {
      RaiseTidy(plan, w, b);
      RaiseTidy(plan, w, b.(escapes := true));
    } else if (pc.ClassifyDest? || pc.ClassifyTemp?) && t == Raise(Recorded(w, pc.i), b) {
      RaiseTidy(plan, Recorded(w, pc.i), b);
    }
  }

  lemma DoTidy(plan: Plan, pc: Pc, w: World, b: Book, o: Outcome)
    requires PcOk(plan, pc, w, b) && Kept(plan, pc, w, b)
    requires !Ended(pc) && !Stages(pc) && !Exchanges(pc)
    ensures Tidy(plan, ApplyDo(plan, pc, w, Faulted(b, o.Ok?), o))
  {
    var c := Faulted(b, o.Ok?);
    DoMoves(plan, pc, w, c, o);
    MovedTidy(plan, pc, w, c, ApplyDo(plan, pc, w, c, o));
  }

  lemma NotStagedTidy(plan: Plan, s: State, node: Node, recorded: bool)
    requires Inv(plan, s) && Tidy(plan, s) && Enabled(plan, s, Stage(Left(node, recorded)))
    ensures Tidy(plan, Apply(plan, s, Stage(Left(node, recorded))))
  {
    var i, w, b := s.pc.i, s.w, s.b;
    if s.pc.StageCandidate? {
      RaiseTidy(plan, w.(dir := w.dir[Candidate(i) := node], listed := if recorded then i + 1 else w.listed), Faulted(b, false));
    } else {
      var kept := if recorded then b.(backups := b.backups + {i}) else b;
      RaiseTidy(plan, w.(dir := w.dir[Backup(i) := node]), Faulted(kept, false));
    }
  }

  lemma StagedTidy(plan: Plan, s: State, ino: nat, mtime: int)
    requires Inv(plan, s) && Tidy(plan, s) && Enabled(plan, s, Stage(Staged(ino, mtime)))
    ensures Tidy(plan, Apply(plan, s, Stage(Staged(ino, mtime))))
  {
    var t := Apply(plan, s, Stage(Staged(ino, mtime)));
    assert BackedUp(plan, t.w, BackedUpSoFar(plan, t.pc));
  }

  lemma StageTidy(plan: Plan, s: State, o: StageOutcome)
    requires Inv(plan, s) && Tidy(plan, s) && Enabled(plan, s, Stage(o))
    ensures Tidy(plan, Apply(plan, s, Stage(o)))
  {
    match o
    case NotStaged => RaiseTidy(plan, s.w, Faulted(s.b, false));
    case Left(node, recorded) => NotStagedTidy(plan, s, node, recorded);
    case Staged(ino, mtime) => StagedTidy(plan, s, ino, mtime);
  }

  lemma LandedTidy(plan: Plan, w: World, b: Book, i: nat)
    requires BothExist(w.dir, i)
    ensures Tracked(w, b) ==> Tracked(Landed(w, i), b)
    ensures BackedUp(plan, w, |plan|) ==> BackedUp(plan, Landed(w, i), |plan|)
  {
    assert Landed(w, i).dir.Keys == w.dir.Keys;
  }

  lemma SwapTidy(plan: Plan, s: State, o: SwapOutcome)
    requires Inv(plan, s) && Tidy(plan, s) && Enabled(plan, s, Swap(o))
    ensures Tidy(plan, Apply(plan, s, Swap(o)))
  {
    var i := ExchangedItem(s);
    if !o.RaisedBefore? { LandedTidy(plan, s.w, s.b, i); }
    if s.pc.Roll? { assert i in s.w.completed; }
  }

  lemma RollTidy(plan: Plan, s: State, o: Outcome)
    requires Inv(plan, s) && Tidy(plan, s) && Enabled(plan, s, Do(o)) && s.pc.Roll?
    ensures Tidy(plan, ApplyRoll(plan, s.w, Faulted(s.b, o.Ok?), s.pc.k, s.pc.phase, o))
  {
    var w, b, k := s.w, Faulted(s.b, o.Ok?), s.pc.k;
    assert Item(w, k) in w.completed;
    ReadRollsOn(plan, w, b, k, s.pc.phase, o);
    RollFromTidy(plan, w, b, k - 1);
    RollFromTidy(plan, w, b.(failed := true), k - 1);
  }

  lemma UnlinkTidy(plan: Plan, s: State, o: UnlinkOutcome)
    requires Inv(plan, s) && Tidy(plan, s) && Enabled(plan, s, Unlink(o))
    ensures Tidy(plan, Apply(plan, s, Unlink(o)))
  {
    if s.b.publishedAll && o.Unlinked? {
      var i, gone := s.pc.i, Apply(plan, s, Unlink(o)).w;
      forall name | name in gone.dir && !name.Dest? && (s.pc.backup || i !in s.b.backups) ensures name.item >= i + 1 {
        assert name in s.w.dir;
      }
    }
  }

  /** Only destinations differ. */
  ghost predicate SameOutside(v: World, w: World) {
    && w.listed == v.listed && w.touched == v.touched && w.completed == v.completed
    && forall name: Name :: !name.Dest? ==>
         (name in w.dir <==> name in v.dir) && (name in w.dir ==> w.dir[name] == v.dir[name])
  }

  lemma OutsideFrame(plan: Plan, v: World, w: World, b: Book, n: nat)
    requires SameOutside(v, w)
    ensures Tracked(v, b) ==> Tracked(w, b)
    ensures GoneBelow(v, n) ==> GoneBelow(w, n)
    ensures BackedUp(plan, v, n) ==> BackedUp(plan, w, n)
  {
  }

  lemma OthersTidy(plan: Plan, pc: Pc, v: World, w: World, b: Book)
    requires Kept(plan, pc, v, b) && SameOutside(v, w)
    ensures Kept(plan, pc, w, b.(disturbed := true))
  {
    OutsideFrame(plan, v, w, b, |plan|);
    OutsideFrame(plan, v, w, b, BackedUpSoFar(plan, pc));
    if pc.Clean? { OutsideFrame(plan, v, w, b, pc.i); }
    if pc.Done? { OutsideFrame(plan, v, w, b, v.listed); }
  }

  lemma StepTidy(plan: Plan, s: State, step: Step)
    requires Inv(plan, s) && Tidy(plan, s) && Enabled(plan, s, step)
    ensures Tidy(plan, Apply(plan, s, step))
  {
    match step
    case Write(_, _) => OthersTidy(plan, s.pc, s.w, Apply(plan, s, step).w, s.b);
    case Remove(_) => OthersTidy(plan, s.pc, s.w, Apply(plan, s, step).w, s.b);
    case Stage(o) => StageTidy(plan, s, o);
    case Swap(o) => SwapTidy(plan, s, o);
    case Unlink(o) => UnlinkTidy(plan, s, o);
    case Do(o) =>
      if s.pc.Roll? {
        RollTidy(plan, s, o);
      } else if !s.pc.WriteRecovery? {
        DoTidy(plan, s.pc, s.w, s.b, o);
      }
  }

  lemma {:induction false} EveryStateTidy(plan: Plan, run: seq<State>, i: nat)
    requires IsRun(plan, run) && i < |run|
    ensures Tidy(plan, run[i])
  {
    if i > 0 {
      EveryStateTidy(plan, run, i - 1);
      EveryStateInv(plan, run, i - 1);
      assert Next(plan, run[i - 1], run[i - 1 + 1]);
      var step :| Enabled(plan, run[i - 1], step) && run[i] == Apply(plan, run[i - 1], step);
      StepTidy(plan, run[i - 1], step);
    }
  }

  /** Whoever else writes and whatever fails: an incomplete rollback is reported only with the
      bound bytes and mode of every item it ever exchanged in that item's backup. */
  lemma IncompleteRollbackIsRecoverable(plan: Plan, run: seq<State>, item: nat)
    requires IsRun(plan, run) && run[|run| - 1].pc.Done? && run[|run| - 1].pc.report.RollbackIncomplete?
    requires item in run[|run| - 1].w.touched
    ensures item < |plan| && ContentIs(run[|run| - 1].w, Backup(item), BaseContent(plan[item]))
  {
    EveryStateInv(plan, run, |run| - 1);
    EveryStateTidy(plan, run, |run| - 1);
  }

  /** A transaction that returns normally leaves no temporary behind. */
  lemma PublishedLeavesNoTemporaries(plan: Plan, run: seq<State>)
    requires IsRun(plan, run) && run[|run| - 1].pc == Done(Published)
    ensures forall name :: name in run[|run| - 1].w.dir ==> name.Dest?
  {
    EveryStateTidy(plan, run, |run| - 1);
  }
  // ---- what the cleanup takes away ----------------------------------------------------------

  /** The recorded temporaries of the first n replacements are gone. */
  ghost predicate GoneUpTo(w: World, b: Book, n: nat) {
    forall j :: 0 <= j < n ==> Candidate(j) !in w.dir && (j in b.backups ==> Backup(j) !in w.dir)
  }

  ghost predicate Swept(s: State) {
    match s.pc
    case Clean(i, backup) => GoneUpTo(s.w, s.b, i) && (backup ==> Candidate(i) !in s.w.dir)
    case Done(report) => report.Published? || report.RolledBack? || report.Escaped? ==> GoneUpTo(s.w, s.b, s.w.listed)
    case _ => true
  }

  lemma {:induction false} RaiseSwept(w: World, b: Book)
    ensures Swept(Raise(w, b))
  {
  }

  lemma {:induction false} UnlinkSwept(w: World, b: Book, i: nat, backup: bool, o: UnlinkOutcome)
    requires Swept(State(Clean(i, backup), w, b))
    ensures Swept(ApplyUnlink(w, b, i, backup, o))
  {
  }

  lemma {:induction false} RollFromSwept(w: World, b: Book, k: nat)
    ensures Swept(RollFrom(w, b, k))
  {
  }

  lemma {:induction false} RolledSwept(w: World, b: Book, k: nat, phase: Phase, o: Outcome, r: State)
    requires k > 0 && RollsOn(w, b, k, phase, o, r)
    ensures Swept(r)
  {
    RollFromSwept(w, b, k - 1);
    RollFromSwept(w, b.(failed := true), k - 1);
  }

  lemma {:induction false} MovedSwept(plan: Plan, pc: Pc, w: World, b: Book, t: State)
    requires Moves(plan, pc, w, b, t)
    ensures Swept(t)
  {
    RaiseSwept(w, b);
    RaiseSwept(w, b.(escapes := true));
    if pc.ClassifyDest? || pc.ClassifyTemp? { RaiseSwept(Recorded(w, pc.i), b); }
  }

  lemma {:induction false} DoSwept(plan: Plan, s: State, o: Outcome)
    requires Inv(plan, s) && Tidy(plan, s) && Enabled(plan, s, Do(o))
    ensures Swept(Apply(plan, s, Do(o)))
  {
    var w, b := s.w, Faulted(s.b, o.Ok?);
    if s.pc.Roll? {
      assert Item(w, s.pc.k) in w.completed;
      ReadRollsOn(plan, w, b, s.pc.k, s.pc.phase, o);
      RolledSwept(w, b, s.pc.k, s.pc.phase, o, Apply(plan, s, Do(o)));
    } else if !s.pc.WriteRecovery? {
      DoMoves(plan, s.pc, w, b, o);
      MovedSwept(plan, s.pc, w, b, Apply(plan, s, Do(o)));
    }
  }

  lemma {:induction false} StageFirstSwept(plan: Plan, w: World, b: Book, i: nat, o: StageOutcome)
    ensures Swept(StageFirst(plan, w, b, i, o))
  {
  }

  lemma {:induction false} StageSecondSwept(plan: Plan, w: World, b: Book, i: nat, o: StageOutcome)
    ensures Swept(StageSecond(plan, w, b, i, o))
  {
  }

  lemma {:induction false} StageSwept(plan: Plan, w: World, b: Book, i: nat, o: StageOutcome)
    ensures Swept(StageFirst(plan, w, b, i, o)) && Swept(StageSecond(plan, w, b, i, o))
  {
    StageFirstSwept(plan, w, b, i, o);
    StageSecondSwept(plan, w, b, i, o);
  }

  lemma {:induction false} StepSwept(plan: Plan, s: State, step: Step)
    requires Inv(plan, s) && Tidy(plan, s) && Swept(s) && Enabled(plan, s, step)
    ensures Swept(Apply(plan, s, step))
  {
    match step
    case Write(_, _) =>
    case Remove(_) =>
    case Stage(o) => StageSwept(plan, s.w, s.b, s.pc.i, o);
    case Do(o) => DoSwept(plan, s, o);
    case Swap(_) =>
    case Unlink(o) => UnlinkSwept(s.w, s.b, s.pc.i, s.pc.backup, o);
  }

  lemma {:induction false} EveryStateSwept(plan: Plan, run: seq<State>, i: nat)
    requires IsRun(plan, run) && i < |run|
    ensures Swept(run[i])
  {
    if i > 0 {
      var before: nat := i - 1;
      EveryStateSwept(plan, run, before);
      EveryStateInv(plan, run, before);
      EveryStateTidy(plan, run, before);
      assert Next(plan, run[before], run[before + 1]);
      var step :| Enabled(plan, run[before], step) && run[i] == Apply(plan, run[before], step);
      StepSwept(plan, run[before], step);
    }
  }

  /** A call that ends without asking for recovery, whether it published or not, has removed
      every temporary it had recorded. */
  lemma {:induction false} NoRecordedTemporaryStays(plan: Plan, run: seq<State>, item: nat)
    requires IsRun(plan, run) && run[|run| - 1].pc.Done? && item < run[|run| - 1].w.listed
    requires var report := run[|run| - 1].pc.report; report.Published? || report.RolledBack? || report.Escaped?
    ensures var last := run[|run| - 1]; Candidate(item) !in last.w.dir && (item in last.b.backups ==> Backup(item) !in last.w.dir)
  {
    EveryStateSwept(plan, run, |run| - 1);
  }
}
