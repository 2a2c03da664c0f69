/** When the rollback of `apply_promoted_overlay` succeeds: with nobody else writing, unless an
    operation of the rollback itself fails, it puts every recorded original back. */
module OverlayRollback {
  import opened Optional
  import opened OverlayTransaction
  import opened OverlaySafety
  import opened OverlayOutcome

  /** The new file is at its destination, the original under the temporary name. */
  ghost predicate Here(original: Directory, w: World, i: nat) {
    && Dest(i) in original && Dest(i) in w.dir && Candidate(i) in w.dir && i in w.cand && w.cand[i].ino != original[Dest(i)].ino
    && w.dir[Dest(i)] == w.cand[i] && w.dir[Candidate(i)] == original[Dest(i)]
  }

  /** The other way round. */
  ghost predicate Back(original: Directory, w: World, i: nat) {
    && Dest(i) in original && Dest(i) in w.dir && Candidate(i) in w.dir && i in w.cand && w.cand[i].ino != original[Dest(i)].ino
    && w.dir[Dest(i)] == original[Dest(i)] && w.dir[Candidate(i)] == w.cand[i]
  }

  ghost predicate HereOrBack(original: Directory, w: World, i: nat) {
    Here(original, w, i) || Back(original, w, i)
  }

  /** A staged candidate that is not at its destination is under its temporary name. */
  ghost predicate Homes(w: World) {
    forall i :: i in w.cand && i !in w.swapped && Candidate(i) in w.dir ==> w.dir[Candidate(i)] == w.cand[i]
  }

  lemma {:induction false} Position(plan: Plan, original: Directory, w: World, i: nat)
    requires Files(plan, original, w) && Homes(w) && CandidatesPresent(w) && i in w.cand && i < |plan|
    ensures HereOrBack(original, w, i)
  {
    assert Placed(original, w, i);
  }

  /** What a rollback without a failed operation knows while it looks at one item. */
  ghost predicate Knows(original: Directory, w: World, i: nat, phase: Phase) {
    HereOrBack(original, w, i)
    && var displaced := w.dir[Candidate(i)];
       match phase
       case InspectDest => true
       case InspectTemp => true
       case TempIdentity(t) => t == IdentityOf(displaced)
       case TempContent(t, ok) => t == IdentityOf(displaced) && (ok <==> Back(original, w, i))
       case DestIdentity(t, atTemp) => t == IdentityOf(displaced) && (atTemp <==> Back(original, w, i))
       case DestContent(t, atTemp, ok) => t == IdentityOf(displaced) && (atTemp <==> Back(original, w, i)) && (ok <==> Here(original, w, i))
       case ReadDisplaced(t) => Here(original, w, i) && t == IdentityOf(displaced)
       case SwapBack(t, ds) => Here(original, w, i) && t == IdentityOf(displaced) && ds == Some(ContentOf(displaced))
       case ValidDest(t, ds) => Back(original, w, i) && t == IdentityOf(w.dir[Dest(i)]) && ds == Some(ContentOf(w.dir[Dest(i)]))
       case ValidContent(c) => Back(original, w, i) && c == ContentOf(w.dir[Dest(i)])
       case ValidTempIdentity => Back(original, w, i)
       case ValidTempContent(ok) => Back(original, w, i) && ok
  }

  /** On the way to a complete rollback, if there is one to be made. */
  ghost predicate OnTrack(original: Directory, s: State) {
    match s.pc
    case Roll(k, phase) => !s.b.failed && 0 < k <= |s.w.completed| && Homes(s.w) && Knows(original, s.w, Item(s.w, k), phase)
    case WriteRecovery => false
    case Clean(_, _) => true
    case Done(report) => !report.RollbackIncomplete? && (report == CleanupIncomplete(StateRolledBack) ==> s.b.faults >= 2)
    case _ => !s.b.failed && Homes(s.w)
  }

  lemma {:induction false} RollFromTracks(plan: Plan, original: Directory, w: World, b: Book, k: nat)
    requires Core(plan, w) && Files(plan, original, w) && Homes(w) && CandidatesPresent(w) && !b.failed && k <= |w.completed|
    ensures OnTrack(original, RollFrom(w, b, k))
  {
    if k > 0 {
      assert Item(w, k) in w.completed;
      Position(plan, original, w, Item(w, k));
    }
  }

  lemma {:induction false} RaiseTracks(plan: Plan, original: Directory, w: World, b: Book)
    requires Core(plan, w) && Files(plan, original, w) && Homes(w) && CandidatesPresent(w) && !b.failed
    ensures OnTrack(original, Raise(w, b))
  {
    RollFromTracks(plan, original, w, b, |w.completed|);
  }

  // ---- staging and publication --------------------------------------------------------------

  lemma {:induction false} StageTracks(plan: Plan, original: Directory, s: State, o: StageOutcome)
    requires Inv(plan, s) && Quiet(plan, original, s) && !s.b.disturbed && OnTrack(original, s) && Enabled(plan, s, Stage(o))
    ensures OnTrack(original, Apply(plan, s, Stage(o)))
  {
    match o
    case NotStaged => RaiseTracks(plan, original, s.w, Faulted(s.b, false));
    case Left(node, recorded) => LeftTracks(plan, original, s, node, recorded);
    case Staged(_, _) =>
  }

  lemma {:induction false} LeftTracks(plan: Plan, original: Directory, s: State, node: Node, recorded: bool)
    requires Inv(plan, s) && Quiet(plan, original, s) && !s.b.disturbed && OnTrack(original, s) && Enabled(plan, s, Stage(Left(node, recorded)))
    ensures OnTrack(original, Apply(plan, s, Stage(Left(node, recorded))))
  {
    var i, w, b := s.pc.i, s.w, s.b;
    var name := if s.pc.StageCandidate? then Candidate(i) else Backup(i);
    var v := w.(dir := w.dir[name := node], listed := if s.pc.StageCandidate? && recorded then i + 1 else w.listed);
    var kept := if s.pc.StageBackup? && recorded then b.(backups := b.backups + {i}) else b;
    NewTemporaryFiles(plan, original, w, v, name, node);
    NewTemporaryKeepsIntact(plan, w, v, name, node);
    RaiseTracks(plan, original, v, Faulted(kept, false));
  }

  lemma {:induction false} CheckTracks(plan: Plan, original: Directory, pc: Pc, w: World, b: Book, o: Outcome)
    requires Intact(plan, w) && PcOk(plan, pc, w, b) && (Checks(pc) || pc.Verify?)
    requires Files(plan, original, w) && Homes(w) && !b.failed
    ensures OnTrack(original, ApplyDo(plan, pc, w, b, o))
  {
    RaiseTracks(plan, original, w, b);
  }

  /** Whatever a classification decides, it raises with the exchange recorded or not. */
  lemma {:induction false} ClassifyRaises(plan: Plan, pc: Pc, w: World, b: Book, o: Outcome)
    requires pc.ClassifyDest? || pc.ClassifyTemp?
    ensures var t := ApplyDo(plan, pc, w, b, o);
      t == Raise(w, b) || t == Raise(w, b.(escapes := true)) || t == Raise(Recorded(w, pc.i), b) || (t.pc.ClassifyTemp? && t.w == w && t.b == b)
  {
  }

  lemma {:induction false} ClassifyTracks(plan: Plan, original: Directory, pc: Pc, w: World, b: Book, o: Outcome)
    requires Intact(plan, w) && PcOk(plan, pc, w, b) && (pc.ClassifyDest? || pc.ClassifyTemp?)
    requires Files(plan, original, w) && Homes(w) && !b.failed
    ensures OnTrack(original, ApplyDo(plan, pc, w, b, o))
  {
    var i, t := pc.i, ApplyDo(plan, pc, w, b, o);
    ClassifyRaises(plan, pc, w, b, o);
    if t == Raise(Recorded(w, i), b) {
      assert i !in w.completed;
      RecordedKeepsIntact(plan, w, i);
      RecordedFiles(plan, original, w, i);
      RaiseTracks(plan, original, Recorded(w, i), b);
    } else if !t.pc.ClassifyTemp? {
      RaiseTracks(plan, original, w, t.b);
    }
  }

  lemma {:induction false} RecordTracks(plan: Plan, original: Directory, w: World, b: Book, i: nat, o: Outcome)
    requires Intact(plan, w) && PcOk(plan, RecordIdentity(i), w, b) && Files(plan, original, w) && Homes(w) && !b.failed
    ensures OnTrack(original, ApplyDo(plan, RecordIdentity(i), w, b, o))
  {
    RaiseTracks(plan, original, w, b);
  }

  lemma {:induction false} DoTracks(plan: Plan, original: Directory, pc: Pc, w: World, b: Book, o: Outcome)
    requires Intact(plan, w) && PcOk(plan, pc, w, b)
    requires !pc.Roll? && !Stages(pc) && !Exchanges(pc) && !pc.Clean? && !pc.Done? && !pc.WriteRecovery?
    requires Files(plan, original, w) && Homes(w) && !b.failed
    ensures OnTrack(original, ApplyDo(plan, pc, w, b, o))
  {
    if Checks(pc) || pc.Verify? {
      CheckTracks(plan, original, pc, w, b, o);
    } else if pc.RecordIdentity? {
      RecordTracks(plan, original, w, b, pc.i, o);
    } else if pc.ValidatePublished? {
      RaiseTracks(plan, original, w, b);
    } else {
      ClassifyTracks(plan, original, pc, w, b, o);
    }
  }

  lemma {:induction false} LandedHomes(original: Directory, w: World, i: nat)
    requires Homes(w) && i in w.cand && BothExist(w.dir, i) && HereOrBack(original, w, i)
    requires i in w.swapped ==> Here(original, w, i)
    ensures Homes(Landed(w, i))
    ensures Here(original, w, i) ==> Back(original, Landed(w, i), i)
  {
  }

  lemma {:induction false} PublishTracks(plan: Plan, original: Directory, w: World, b: Book, i: nat, o: SwapOutcome)
    requires Core(plan, w) && Files(plan, original, w) && Homes(w) && Publishing(plan, w, i) && !b.failed
    requires o.RaisedBefore? || BothExist(w.dir, i)
    ensures OnTrack(original, PublishStep(w, b, i, o))
  {
    Position(plan, original, w, i);
    assert Placed(original, w, i);
    if !o.RaisedBefore? { LandedHomes(original, w, i); }
  }

  // ---- the rollback -------------------------------------------------------------------------

  /** Content and identity tell the two positions apart. */
  lemma {:induction false} PositionsDiffer(original: Directory, w: World, i: nat)
    requires HereOrBack(original, w, i)
    ensures Here(original, w, i) <==> !Back(original, w, i)
    ensures IdentityIs(w, Candidate(i), IdentityOf(w.cand[i])) <==> Back(original, w, i)
    ensures IdentityIs(w, Dest(i), IdentityOf(w.cand[i])) <==> Here(original, w, i)
  {
  }

  /** A reading that does not fail moves on, knowing more, or settles the item. */
  lemma {:induction false} ReadTracks(plan: Plan, original: Directory, w: World, b: Book, k: nat, phase: Phase)
    requires k > 0 && !phase.SwapBack? && Knows(original, w, Item(w, k), phase)
    requires var i := Item(w, k); i in w.cand && i < |plan| && ContentOf(w.cand[i]) == CandidateContent(plan[i])
    ensures var r := ApplyRoll(plan, w, b, k, phase, Ok);
      || r == RollFrom(w, b, k - 1)
      || (r.pc.Roll? && r == State(Roll(k, r.pc.phase), w, b) && Knows(original, w, Item(w, k), r.pc.phase))
  {
    PositionsDiffer(original, w, Item(w, k));
  }

  lemma {:induction false} RollTracks(plan: Plan, original: Directory, w: World, b: Book, k: nat, phase: Phase)
    requires Core(plan, w) && Files(plan, original, w) && Homes(w) && CandidatesPresent(w) && !b.failed && 0 < k <= |w.completed|
    requires !phase.SwapBack? && Knows(original, w, Item(w, k), phase)
    ensures OnTrack(original, ApplyRoll(plan, w, b, k, phase, Ok))
  {
    assert Item(w, k) in w.completed;
    ReadTracks(plan, original, w, b, k, phase);
    RollFromTracks(plan, original, w, b, k - 1);
  }

  lemma {:induction false} SwapBackTracks(original: Directory, w: World, b: Book, k: nat, t: Identity, ds: Option<Content>)
    requires Homes(w) && !b.failed && 0 < k <= |w.completed| && Knows(original, w, Item(w, k), SwapBack(t, ds))
    ensures OnTrack(original, SwapBackStep(w, b, k, t, ds, Exchanged))
  {
    LandedHomes(original, w, Item(w, k));
  }

  // ---- every run ----------------------------------------------------------------------------

  lemma {:induction false} UnlinkTracks(plan: Plan, original: Directory, w: World, b: Book, i: nat, backup: bool, o: UnlinkOutcome)
    requires FlagsTell(plan, w, b) && (b.publishedAll <==> b.faults == 0)
    ensures OnTrack(original, ApplyUnlink(w, b, i, backup, o))
  {
  }

  lemma {:induction false} DoStepTracks(plan: Plan, original: Directory, s: State, o: Outcome)
    requires Inv(plan, s) && Quiet(plan, original, s) && !s.b.disturbed && OnTrack(original, s) && Enabled(plan, s, Do(o))
    requires s.pc.Roll? ==> o.Ok?
    ensures OnTrack(original, Apply(plan, s, Do(o)))
  {
    if s.pc.Roll? {
      RollTracks(plan, original, s.w, s.b, s.pc.k, s.pc.phase);
    } else {
      DoTracks(plan, original, s.pc, s.w, Faulted(s.b, o.Ok?), o);
    }
  }

  lemma {:induction false} SwapStepTracks(plan: Plan, original: Directory, s: State, o: SwapOutcome)
    requires Inv(plan, s) && Quiet(plan, original, s) && !s.b.disturbed && OnTrack(original, s) && Enabled(plan, s, Swap(o))
    requires s.pc.Roll? ==> o.Exchanged?
    ensures OnTrack(original, Apply(plan, s, Swap(o)))
  {
    match s.pc
    case Roll(k, phase) => SwapBackTracks(original, s.w, s.b, k, phase.t, phase.ds);
    case Publish(i) => PublishTracks(plan, original, s.w, Faulted(s.b, o.Exchanged?), i, o);
  }

  /** No operation of the rollback fails in this step. */
  ghost predicate RollsWell(s: State, t: State) {
    s.pc.Roll? ==> t.b.faults <= s.b.faults
  }

  ghost predicate Track(original: Directory, s: State) {
    s.b.disturbed || OnTrack(original, s)
  }

  lemma {:induction false} SwapBackCounts(w: World, b: Book, k: nat, t: Identity, ds: Option<Content>, o: SwapOutcome)
    requires o.RaisedBefore? || BothExist(w.dir, Item(w, k))
    ensures SwapBackStep(w, b, k, t, ds, o).b == b
  {
  }

  lemma {:induction false} RollCounts(plan: Plan, w: World, b: Book, k: nat, phase: Phase, o: Outcome)
    ensures ApplyRoll(plan, w, b, k, phase, o).b.faults == b.faults
  {
  }

  lemma {:induction false} RollsWellIsFaultless(plan: Plan, s: State, step: Step)
    requires Enabled(plan, s, step) && s.pc.Roll? && RollsWell(s, Apply(plan, s, step))
    ensures step.Do? ==> step.outcome.Ok?
    ensures step.Swap? ==> step.swap.Exchanged?
  {
    if step.Do? { RollCounts(plan, s.w, Faulted(s.b, step.outcome.Ok?), s.pc.k, s.pc.phase, step.outcome); }
    if step.Swap? { SwapBackCounts(s.w, Faulted(s.b, step.swap.Exchanged?), s.pc.k, s.pc.phase.t, s.pc.phase.ds, step.swap); }
  }

  lemma {:induction false} StepTracks(plan: Plan, original: Directory, s: State, step: Step)
    requires Inv(plan, s) && Quiet(plan, original, s) && Track(original, s) && Enabled(plan, s, step) && RollsWell(s, Apply(plan, s, step))
    ensures Track(original, Apply(plan, s, step))
  {
    if s.b.disturbed {
      StaysDisturbed(plan, s, step);
    } else {
      if s.pc.Roll? { RollsWellIsFaultless(plan, s, step); }
      match step
      case Write(_, _) =>
      case Remove(_) =>
      case Stage(o) => StageTracks(plan, original, s, o);
      case Do(o) => DoStepTracks(plan, original, s, o);
      case Swap(o) => SwapStepTracks(plan, original, s, o);
      case Unlink(o) => UnlinkTracks(plan, original, s.w, s.b, s.pc.i, s.pc.backup, o);
    }
  }

  ghost predicate RollsWellUntil(run: seq<State>, n: nat) {
    forall m :: 0 <= m < n && m + 1 < |run| ==> RollsWell(run[m], run[m + 1])
  }

  lemma {:induction false} EveryStateTracks(plan: Plan, run: seq<State>, n: nat)
    requires IsRun(plan, run) && n < |run| && Bound(plan, run[0].w.dir) && RollsWellUntil(run, n)
    ensures Track(run[0].w.dir, run[n])
  {
    if n > 0 {
      var before: nat := n - 1;
      EveryStateTracks(plan, run, before);
      EveryStateInv(plan, run, before);
      EveryStateQuiet(plan, run, before);
      assert Next(plan, run[before], run[before + 1]) && RollsWell(run[before], run[before + 1]);
      var step :| Enabled(plan, run[before], step) && run[n] == Apply(plan, run[before], step);
      StepTracks(plan, run[0].w.dir, run[before], step);
    }
  }

  /** With nobody else writing, an incomplete rollback means that an operation of the rollback
      failed: whatever went wrong before, its readings and exchanges put everything back. */
  lemma {:induction false} RollbackSucceeds(plan: Plan, run: seq<State>)
    requires IsRun(plan, run) && Bound(plan, run[0].w.dir)
    requires run[|run| - 1].pc.Done? && !run[|run| - 1].b.disturbed && RollsWellUntil(run, |run| - 1)
    ensures !run[|run| - 1].pc.report.RollbackIncomplete?
  {
    EveryStateTracks(plan, run, |run| - 1);
  }

  // ---- one fault ----------------------------------------------------------------------------

  lemma {:induction false} DoCounts(plan: Plan, pc: Pc, w: World, b: Book, o: Outcome)
    ensures ApplyDo(plan, pc, w, b, o).b.faults == b.faults && ApplyDo(plan, pc, w, b, o).b.disturbed == b.disturbed
  {
  }

  /** An operation fails: it raises, whether or not it did its work before. */
  predicate Fails(step: Step) {
    || (step.Stage? && !step.stage.Staged?)
    || (step.Do? && !step.outcome.Ok?)
    || (step.Swap? && !step.swap.Exchanged?)
    || (step.Unlink? && !step.unlink.Unlinked?)
  }

  function Count(fails: bool): nat {
    if fails then 1 else 0
  }

  lemma {:induction false} FirstCounts(plan: Plan, w: World, b: Book, i: nat, o: StageOutcome)
    ensures StageFirst(plan, w, b, i, o).b.faults == b.faults + Count(!o.Staged?)
  {
  }

  lemma {:induction false} SecondCounts(plan: Plan, w: World, b: Book, i: nat, o: StageOutcome)
    ensures StageSecond(plan, w, b, i, o).b.faults == b.faults + Count(!o.Staged?)
  {
  }

  lemma {:induction false} UnlinkCounts(w: World, b: Book, i: nat, backup: bool, o: UnlinkOutcome)
    ensures ApplyUnlink(w, b, i, backup, o).b.faults == b.faults + Count(!o.Unlinked?)
  {
  }

  lemma {:induction false} PublishCounts(w: World, b: Book, i: nat, o: SwapOutcome)
    requires o.RaisedBefore? || BothExist(w.dir, i)
    ensures PublishStep(w, b, i, o).b == b
  {
  }

  lemma {:induction false} SwapCounts(plan: Plan, s: State, o: SwapOutcome)
    requires Enabled(plan, s, Swap(o))
    ensures Apply(plan, s, Swap(o)).b.faults == s.b.faults + Count(!o.Exchanged?)
  {
    var b := Faulted(s.b, o.Exchanged?);
    match s.pc
    case Roll(k, phase) => SwapBackCounts(s.w, b, k, phase.t, phase.ds, o);
    case Publish(i) => PublishCounts(s.w, b, i, o);
  }

  /** Every failed operation is counted, and nothing else. */
  lemma {:induction false} FaultsAreCounted(plan: Plan, s: State, step: Step)
    requires Enabled(plan, s, step)
    ensures Apply(plan, s, step).b.faults == s.b.faults + Count(Fails(step))
  {
    match step
    case Write(_, _) =>
    case Remove(_) =>
    case Stage(o) =>
      FirstCounts(plan, s.w, s.b, s.pc.i, o);
      SecondCounts(plan, s.w, s.b, s.pc.i, o);
    case Swap(o) => SwapCounts(plan, s, o);
    case Unlink(o) => UnlinkCounts(s.w, s.b, s.pc.i, s.pc.backup, o);
    case Do(o) =>
      var b := Faulted(s.b, o.Ok?);
      if s.pc.Roll? { RollCounts(plan, s.w, b, s.pc.k, s.pc.phase, o); } else { DoCounts(plan, s.pc, s.w, b, o); }
  }

  lemma {:induction false} BooksGrow(plan: Plan, run: seq<State>, m: nat, n: nat)
    requires IsRun(plan, run) && m <= n < |run|
    ensures run[m].b.faults <= run[n].b.faults && (run[m].b.disturbed ==> run[n].b.disturbed)
    decreases n - m
  {
    if m < n {
      var before: nat := n - 1;
      BooksGrow(plan, run, m, before);
      assert Next(plan, run[before], run[before + 1]);
      var step :| Enabled(plan, run[before], step) && run[n] == Apply(plan, run[before], step);
      FaultsAreCounted(plan, run[before], step);
      if run[before].b.disturbed { StaysDisturbed(plan, run[before], step); }
    }
  }

  /** A rollback is only begun after a fault, so with one fault it has none of its own. */
  lemma {:induction false} OneFaultRollsWell(plan: Plan, run: seq<State>)
    requires IsRun(plan, run) && Bound(plan, run[0].w.dir)
    requires !run[|run| - 1].b.disturbed && run[|run| - 1].b.faults <= 1
    ensures RollsWellUntil(run, |run| - 1)
  {
    forall m | 0 <= m < |run| - 1 && m + 1 < |run| ensures RollsWell(run[m], run[m + 1]) {
      BooksGrow(plan, run, m, |run| - 1);
      BooksGrow(plan, run, m + 1, |run| - 1);
      EveryStateQuiet(plan, run, m);
    }
  }

  /** With nobody else writing, one failure, wherever it strikes, is undone: the call reports
      a rollback and every destination is as it was, or, if it was an unlink of the cleanup
      that failed, reports just that, with every destination new. */
  lemma {:induction false} OneFaultIsUndone(plan: Plan, run: seq<State>)
    requires IsRun(plan, run) && Bound(plan, run[0].w.dir)
    requires run[|run| - 1].pc.Done? && !run[|run| - 1].b.disturbed && run[|run| - 1].b.faults == 1
    ensures var last := run[|run| - 1];
      || (last.pc.report == RolledBack && AllOriginal(plan, run[0].w.dir, last.w))
      || (last.pc.report == CleanupIncomplete(StatePublished) && AllNew(plan, last.w))
  {
    var last := run[|run| - 1];
    OneFaultRollsWell(plan, run);
    EveryStateTracks(plan, run, |run| - 1);
    OneFaultIsHandled(plan, run, |run| - 1);
    AllOrNothing(plan, run);
    PublishedExactlyWhenNothingFails(plan, run);
  }
  // ---- what is on record --------------------------------------------------------------------

  /** With at most one fault so far, only exchanges that landed are on record. */
  ghost predicate OnlyLanded(s: State) {
    s.b.disturbed || s.b.faults >= 2
    || ((forall i :: i in s.w.completed ==> i in s.w.touched)
        && (s.pc.ClassifyTemp? ==> IdentityIs(s.w, Dest(s.pc.i), s.pc.dest)))
  }

  lemma {:induction false} KeepsRecord(plan: Plan, pc: Pc, w: World, b: Book, o: Outcome)
    requires !pc.ClassifyDest? && !pc.ClassifyTemp?
    ensures var t := ApplyDo(plan, pc, w, b, o); t.w.completed == w.completed && t.w.touched == w.touched && !t.pc.ClassifyTemp?
  {
  }

  lemma {:induction false} RollKeepsRecord(plan: Plan, w: World, b: Book, k: nat, phase: Phase, o: Outcome)
    ensures var t := ApplyRoll(plan, w, b, k, phase, o); t.w == w && !t.pc.ClassifyTemp?
  {
  }

  /** Undisturbed, an exchange that did not land leaves the destination's inode as it was and
      the candidate's under its temporary name. */
  lemma {:induction false} ClassifiesRight(plan: Plan, original: Directory, pc: Pc, w: World, b: Book, o: Outcome)
    requires pc.ClassifyDest? || (pc.ClassifyTemp? && IdentityIs(w, Dest(pc.i), pc.dest))
    requires Core(plan, w) && Files(plan, original, w) && Homes(w) && Classifying(plan, w, pc.i) && o.Ok?
    requires forall i :: i in w.completed ==> i in w.touched
    ensures var t := ApplyDo(plan, pc, w, b, o);
      && (forall i :: i in t.w.completed ==> i in t.w.touched)
      && (t.pc.ClassifyTemp? ==> IdentityIs(t.w, Dest(t.pc.i), t.pc.dest))
  {
    var i := pc.i;
    Position(plan, original, w, i);
    assert Placed(original, w, i);
    assert i in w.touched || i !in w.swapped;
    ClassifyRaises(plan, pc, w, b, o);
  }

  lemma {:induction false} DoOnlyLanded(plan: Plan, original: Directory, s: State, o: Outcome)
    requires Inv(plan, s) && Quiet(plan, original, s) && !s.b.disturbed && OnlyLanded(s) && Enabled(plan, s, Do(o)) && OnTrack(original, s)
    requires s.b.faults < 2
    ensures OnlyLanded(Apply(plan, s, Do(o)))
  {
    var b := Faulted(s.b, o.Ok?);
    if s.pc.Roll? {
      RollKeepsRecord(plan, s.w, b, s.pc.k, s.pc.phase, o);
      RollCounts(plan, s.w, b, s.pc.k, s.pc.phase, o);
    } else {
      DoCounts(plan, s.pc, s.w, b, o);
      if !s.pc.ClassifyDest? && !s.pc.ClassifyTemp? {
        KeepsRecord(plan, s.pc, s.w, b, o);
      } else if o.Ok? {
        ClassifiesRight(plan, original, s.pc, s.w, b, o);
      }
    }
  }

  lemma {:induction false} StepOnlyLanded(plan: Plan, original: Directory, s: State, step: Step)
    requires Inv(plan, s) && Quiet(plan, original, s) && OnlyLanded(s) && Enabled(plan, s, step)
    requires s.b.disturbed || s.b.faults >= 2 || OnTrack(original, s)
    ensures OnlyLanded(Apply(plan, s, step))
  {
    if s.b.disturbed {
      StaysDisturbed(plan, s, step);
    } else if s.b.faults >= 2 {
      FaultsAreCounted(plan, s, step);
    } else {
      match step
      case Write(_, _) =>
      case Remove(_) =>
      case Stage(_) =>
      case Do(o) => DoOnlyLanded(plan, original, s, o);
      case Swap(_) =>
      case Unlink(_) =>
    }
  }

  lemma {:induction false} EveryStateOnlyLanded(plan: Plan, run: seq<State>, n: nat)
    requires IsRun(plan, run) && n < |run| && Bound(plan, run[0].w.dir)
    ensures OnlyLanded(run[n])
  {
    if n > 0 {
      var before: nat := n - 1;
      EveryStateOnlyLanded(plan, run, before);
      EveryStateInv(plan, run, before);
      EveryStateQuiet(plan, run, before);
      if !run[before].b.disturbed && run[before].b.faults <= 1 {
        var prefix := run[..n];
        forall i | 0 <= i < |prefix| - 1 ensures Next(plan, prefix[i], prefix[i + 1]) { assert Next(plan, run[i], run[i + 1]); }
        OneFaultRollsWell(plan, prefix);
        EveryStateTracks(plan, prefix, before);
      }
      assert Next(plan, run[before], run[before + 1]);
      var step :| Enabled(plan, run[before], step) && run[n] == Apply(plan, run[before], step);
      StepOnlyLanded(plan, run[0].w.dir, run[before], step);
    }
  }

  /** The classification of a raised exchange is right: with nobody else writing and no second
      fault, a rollback has on record exactly the exchanges that landed. */
  lemma {:induction false} RecordIsExact(plan: Plan, run: seq<State>, n: nat, item: nat)
    requires IsRun(plan, run) && n < |run| && Bound(plan, run[0].w.dir)
    requires run[n].pc.Roll? && !run[n].b.disturbed && run[n].b.faults <= 1
    ensures item in run[n].w.completed <==> item in run[n].w.touched
  {
    EveryStateOnlyLanded(plan, run, n);
    EveryStateInv(plan, run, n);
    OneFaultIsHandled(plan, run, n);
  }
}
