/** With nobody else writing: however its operations fail, `apply_promoted_overlay` leaves all
    destinations new or all original, reports which, or reports an incomplete rollback with
    every original still on disk. Interrupts inside its own handlers are the exception. */
module OverlayOutcome {
  import opened Optional
  import opened OverlayTransaction
  import opened OverlaySafety

  predicate HasContent(dir: Directory, name: Name, c: Content) {
    name in dir && ContentOf(dir[name]) == c
  }

  /** Preparation bound every destination to the bytes and mode it has. */
  ghost predicate Bound(plan: Plan, dir: Directory) {
    forall i :: 0 <= i < |plan| ==> HasContent(dir, Dest(i), BaseContent(plan[i]))
  }

  /** An item's two files are where the exchanges that landed have put them. */
  ghost predicate Placed(original: Directory, w: World, i: nat) {
    && Dest(i) in original && Dest(i) in w.dir
    && if i in w.swapped
       then i in w.cand && w.dir[Dest(i)] == w.cand[i] && (Candidate(i) in w.dir ==> w.dir[Candidate(i)] == original[Dest(i)])
       else w.dir[Dest(i)] == original[Dest(i)]
  }

  ghost predicate Files(plan: Plan, original: Directory, w: World) {
    && Bound(plan, original)
    && (forall i :: 0 <= i < |plan| ==> Placed(original, w, i))
    && (forall i :: i in w.swapped ==> i in w.touched)
    && (forall i :: i in w.touched && i !in w.completed ==> i in w.swapped)
    && (forall i :: 0 <= i < |plan| && i in w.cand && Dest(i) in original ==> w.cand[i].ino != original[Dest(i)].ino)
  }

  ghost predicate PreviousIs(plan: Plan, original: Directory, b: Book) {
    forall i :: i in b.previous && i < |plan| && Dest(i) in original ==> b.previous[i] == IdentityOf(original[Dest(i)])
  }

  /** Exactly the first n items carry their new file. */
  ghost predicate SwappedBelow(plan: Plan, w: World, n: nat) {
    forall i :: 0 <= i < |plan| ==> (i in w.swapped <==> i < n)
  }

  ghost predicate Smooth(b: Book) {
    b.faults == 0 && !b.escapes && !b.failed && !b.publishedAll && !b.rollbackComplete
  }

  ghost predicate Troubled(b: Book) {
    b.faults >= 1 && !b.publishedAll && !b.rollbackComplete && (b.escapes ==> b.faults >= 2)
  }

  /** What the two flags read by the `finally` block say about the destinations. */
  ghost predicate FlagsTell(plan: Plan, w: World, b: Book) {
    && (b.escapes ==> b.faults >= 2)
    && (b.publishedAll ==> SwappedBelow(plan, w, |plan|) && !b.rollbackComplete && !b.escapes)
    && (!b.publishedAll && b.rollbackComplete ==> (SwappedBelow(plan, w, 0) <==> AllTouchedCompleted(w)))
    && (!b.publishedAll && b.rollbackComplete && !b.escapes ==> AllTouchedCompleted(w))
    && (!b.publishedAll && !b.rollbackComplete ==> b.escapes)
  }

  ghost predicate Ready(plan: Plan, w: World, b: Book, n: nat) {
    Smooth(b) && SwappedBelow(plan, w, n) && forall j :: 0 <= j < n && j < |plan| ==> j in b.previous
  }

  ghost predicate Told(plan: Plan, report: Report, w: World, b: Book) {
    && (b.escapes ==> b.faults >= 2)
    && (report.Published? <==> b.faults == 0)
    && match report
       case Published => b.publishedAll && FlagsTell(plan, w, b)
       case RolledBack => !b.publishedAll && b.rollbackComplete && FlagsTell(plan, w, b)
       case CleanupIncomplete(r) => r == RecordedState(b) && FlagsTell(plan, w, b)
       case Escaped => b.escapes
       case RollbackIncomplete(_) => true
  }

  ghost predicate Progress(plan: Plan, pc: Pc, w: World, b: Book) {
    match pc
    case StageCandidate(_) => Ready(plan, w, b, 0)
    case RecordIdentity(_) => Ready(plan, w, b, 0)
    case StageBackup(_) => Ready(plan, w, b, 0)
    case ValidateStaged => Ready(plan, w, b, 0)
    case CheckBase(_) => Ready(plan, w, b, 0)
    case PublishPaths(i) => Ready(plan, w, b, i)
    case PublishCheck(i) => Ready(plan, w, b, i)
    case PublishIdentity(i) => Ready(plan, w, b, i)
    case Publish(i) => Ready(plan, w, b, i) && i in b.previous
    case Verify(final, i, _) => Ready(plan, w, b, if final then |plan| else i + 1)
    case ValidatePublished => Ready(plan, w, b, |plan|)
    case Clean(_, _) => FlagsTell(plan, w, b) && (b.publishedAll <==> b.faults == 0)
    case Done(report) => Told(plan, report, w, b)
    case Roll(k, phase) => Troubled(b) && PhaseTells(w, Item(w, k), phase)
    case _ => Troubled(b)
  }

  ghost predicate Quiet(plan: Plan, original: Directory, s: State) {
    s.b.disturbed || (Files(plan, original, s.w) && PreviousIs(plan, original, s.b) && Progress(plan, s.pc, s.w, s.b))
  }

  lemma QuietInit(plan: Plan, s: State)
    requires Initial(plan, s) && Bound(plan, s.w.dir)
    ensures Quiet(plan, s.w.dir, s)
  {
  }

  // ---- control flow ---------------------------------------------------------------------------

  lemma CleanFromQuiet(plan: Plan, original: Directory, w: World, b: Book, i: nat)
    requires Files(plan, original, w) && PreviousIs(plan, original, b) && FlagsTell(plan, w, b)
    requires b.publishedAll <==> b.faults == 0
    ensures Quiet(plan, original, CleanFrom(w, b, i))
  {
  }

  /** When every record has been rolled back, what is left swapped was never recorded. */
  lemma UnrecordedStaysSwapped(plan: Plan, original: Directory, w: World)
    requires Core(plan, w) && Files(plan, original, w) && RestoredFrom(w, 0)
    ensures SwappedBelow(plan, w, 0) <==> AllTouchedCompleted(w)
  {
    forall i | 0 <= i < |plan| ensures i in w.completed ==> i !in w.swapped {
      assert Placed(original, w, i);
      assert i in w.completed ==> Restored(w, i);
    }
  }

  lemma RollFromQuiet(plan: Plan, original: Directory, w: World, b: Book, k: nat)
    requires Core(plan, w) && Files(plan, original, w) && PreviousIs(plan, original, b) && Troubled(b)
    requires Undoing(w, b, k)
    ensures Quiet(plan, original, RollFrom(w, b, k))
  {
    if k == 0 && !b.failed {
      UnrecordedStaysSwapped(plan, original, w);
      CleanFromQuiet(plan, original, w, b.(rollbackComplete := true), 0);
    }
  }

  lemma RaiseQuiet(plan: Plan, original: Directory, w: World, b: Book)
    requires Core(plan, w) && Files(plan, original, w) && PreviousIs(plan, original, b) && Troubled(b)
    requires CandidatesPresent(w) && (b.escapes || AllTouchedCompleted(w))
    ensures Quiet(plan, original, Raise(w, b))
  {
    RollFromQuiet(plan, original, w, b, |w.completed|);
  }

  // ---- staging ----------------------------------------------------------------------------------

  lemma NewTemporaryFiles(plan: Plan, original: Directory, v: World, w: World, name: Name, node: Node)
    requires Files(plan, original, v) && !name.Dest? && v.touched == {}
    requires w == v.(dir := v.dir[name := node], listed := w.listed)
    ensures Files(plan, original, w)
  {
    forall i | 0 <= i < |plan| ensures Placed(original, w, i) {
      assert Placed(original, v, i);
    }
  }

  lemma LeftQuiet(plan: Plan, original: Directory, s: State, node: Node, recorded: bool)
    requires Inv(plan, s) && Quiet(plan, original, s) && !s.b.disturbed && Enabled(plan, s, Stage(Left(node, recorded)))
    ensures Quiet(plan, original, Apply(plan, s, Stage(Left(node, recorded))))
  {
    var i, w, b := s.pc.i, s.w, s.b;
    var name := if s.pc.StageCandidate? then Candidate(i) else Backup(i);
    var v := w.(dir := w.dir[name := node], listed := if s.pc.StageCandidate? && recorded then i + 1 else w.listed);
    var kept := if s.pc.StageBackup? && recorded then b.(backups := b.backups + {i}) else b;
    NewTemporaryFiles(plan, original, w, v, name, node);
    NewTemporaryKeepsIntact(plan, w, v, name, node);
    RaiseQuiet(plan, original, v, Faulted(kept, false));
  }

  lemma StagedQuiet(plan: Plan, original: Directory, s: State, ino: nat, mtime: int)
    requires Inv(plan, s) && Quiet(plan, original, s) && !s.b.disturbed && Enabled(plan, s, Stage(Staged(ino, mtime)))
    ensures Quiet(plan, original, Apply(plan, s, Stage(Staged(ino, mtime))))
  {
    var t := Apply(plan, s, Stage(Staged(ino, mtime)));
    var name := if s.pc.StageCandidate? then Candidate(s.pc.i) else Backup(s.pc.i);
    NewTemporaryFiles(plan, original, s.w, t.w, name, t.w.dir[name]);
    assert SwappedBelow(plan, t.w, 0);
  }

  lemma StageQuiet(plan: Plan, original: Directory, s: State, o: StageOutcome)
    requires Inv(plan, s) && Quiet(plan, original, s) && !s.b.disturbed && Enabled(plan, s, Stage(o))
    ensures Quiet(plan, original, Apply(plan, s, Stage(o)))
  {
    match o
    case NotStaged => RaiseQuiet(plan, original, s.w, Faulted(s.b, false));
    case Left(node, recorded) => LeftQuiet(plan, original, s, node, recorded);
    case Staged(ino, mtime) => StagedQuiet(plan, original, s, ino, mtime);
  }

  lemma RecordFiles(plan: Plan, original: Directory, w: World, i: nat)
    requires Core(plan, w) && Files(plan, original, w) && w.touched == {} && Candidate(i) in w.dir
    ensures Files(plan, original, w.(cand := w.cand[i := w.dir[Candidate(i)]]))
  {
    var v := w.(cand := w.cand[i := w.dir[Candidate(i)]]);
    assert i < |plan| ==> Placed(original, w, i);
    forall j | 0 <= j < |plan| ensures Placed(original, v, j) {
      assert Placed(original, w, j);
    }
  }

  // ---- exchanges --------------------------------------------------------------------------------

  lemma LandedFiles(plan: Plan, original: Directory, w: World, i: nat)
    requires Files(plan, original, w) && i < |plan| && i in w.cand && BothExist(w.dir, i)
    requires i !in w.swapped ==> w.dir[Candidate(i)] == w.cand[i]
    requires i in w.completed || i !in w.swapped
    ensures Files(plan, original, Landed(w, i))
  {
    forall j | 0 <= j < |plan| ensures Placed(original, Landed(w, i), j) {
      assert Placed(original, w, j);
      if j == i { assert Placed(original, w, i); }
    }
  }

  lemma ExchangedFiles(plan: Plan, original: Directory, w: World, b: Book, i: nat)
    requires Core(plan, w) && Files(plan, original, w) && Publishing(plan, w, i) && BothExist(w.dir, i) && Ready(plan, w, b, i)
    ensures Files(plan, original, Landed(w, i)) && (i in b.previous ==> Ready(plan, Landed(w, i), b, i + 1))
  {
    assert i !in w.completed && i !in w.touched;
    LandedFiles(plan, original, w, i);
  }

  lemma PublishStepQuiet(plan: Plan, original: Directory, w: World, b: Book, i: nat, o: SwapOutcome)
    requires Core(plan, w) && Files(plan, original, w) && PreviousIs(plan, original, b) && Publishing(plan, w, i)
    requires Ready(plan, w, b, i) && i in b.previous
    requires o.RaisedBefore? || BothExist(w.dir, i)
    ensures Quiet(plan, original, PublishStep(w, Faulted(b, o.Exchanged?), i, o))
  {
    match o
    case Exchanged => ExchangedQuiet(plan, original, w, b, i);
    case RaisedAfter => ExchangedFiles(plan, original, w, b, i);
    case RaisedBefore =>
  }

  lemma ExchangedQuiet(plan: Plan, original: Directory, w: World, b: Book, i: nat)
    requires Core(plan, w) && Files(plan, original, w) && PreviousIs(plan, original, b) && Publishing(plan, w, i)
    requires Ready(plan, w, b, i) && i in b.previous && BothExist(w.dir, i)
    ensures Quiet(plan, original, State(Verify(false, i, 0), Recorded(Landed(w, i), i), b))
  {
    ExchangedFiles(plan, original, w, b, i);
    RecordedFiles(plan, original, Landed(w, i), i);
  }

  /** With nobody else writing, what the rollback finds at the destination is the candidate. */
  lemma SwapBackQuiet(plan: Plan, original: Directory, w: World, b: Book, k: nat, t: Identity, ds: Option<Content>, o: SwapOutcome)
    requires Core(plan, w) && Files(plan, original, w) && PreviousIs(plan, original, b) && Troubled(b)
    requires k > 0 && Undoing(w, b, k)
    requires o.RaisedBefore? || BothExist(w.dir, Item(w, k))
    requires CandidateAtDest(w, Item(w, k))
    ensures Quiet(plan, original, SwapBackStep(w, b, k, t, ds, o))
  {
    assert Item(w, k) in w.completed;
    assert Placed(original, w, Item(w, k));
    if !o.RaisedBefore? { LandedFiles(plan, original, w, Item(w, k)); }
  }

  // ---- reads and checks ---------------------------------------------------------------------------

  predicate Checks(pc: Pc) {
    pc.ValidateStaged? || pc.CheckBase? || pc.PublishPaths? || pc.PublishCheck? || pc.PublishIdentity?
  }

  /** Undisturbed, a check before publication finds what preparation bound. */
  lemma CheckPasses(plan: Plan, original: Directory, pc: Pc, w: World, b: Book)
    requires PcOk(plan, pc, w, b) && Checks(pc)
    requires Files(plan, original, w) && PreviousIs(plan, original, b) && Progress(plan, pc, w, b)
    ensures Quiet(plan, original, ApplyDo(plan, pc, w, b, Ok))
  {
    if pc.CheckBase? || pc.PublishCheck? || pc.PublishIdentity? {
      assert Placed(original, w, pc.i);
      assert HasContent(original, Dest(pc.i), BaseContent(plan[pc.i]));
    }
  }

  lemma CheckQuiet(plan: Plan, original: Directory, pc: Pc, w: World, b: Book, o: Outcome)
    requires Intact(plan, w) && PcOk(plan, pc, w, b) && Checks(pc)
    requires Files(plan, original, w) && PreviousIs(plan, original, b) && Progress(plan, pc, w, b)
    ensures Quiet(plan, original, ApplyDo(plan, pc, w, Faulted(b, o.Ok?), o))
  {
    if o.Ok? {
      CheckPasses(plan, original, pc, w, b);
    } else {
      RaiseQuiet(plan, original, w, Faulted(b, false));
    }
  }

  /** Undisturbed, every comparison after an exchange holds. */
  lemma VerifyHoldsQuiet(plan: Plan, original: Directory, w: World, b: Book, i: nat, k: nat)
    requires Core(plan, w) && Files(plan, original, w) && PreviousIs(plan, original, b)
    requires i < |plan| && i in w.swapped && i in b.previous && CandidatesPresent(w)
    ensures VerifyHolds(plan, w, b, i, k)
  {
    assert Placed(original, w, i);
    assert HasContent(original, Dest(i), BaseContent(plan[i]));
    assert i in w.cand;
  }

  lemma VerifyQuiet(plan: Plan, original: Directory, w: World, b: Book, final: bool, i: nat, k: nat, o: Outcome)
    requires Intact(plan, w) && Verifying(plan, w, final, i, k)
    requires Files(plan, original, w) && PreviousIs(plan, original, b) && Ready(plan, w, b, if final then |plan| else i + 1)
    ensures Quiet(plan, original, ApplyDo(plan, Verify(final, i, k), w, Faulted(b, o.Ok?), o))
  {
    if o.Ok? {
      VerifyHoldsQuiet(plan, original, w, b, i, k);
    } else {
      RaiseQuiet(plan, original, w, Faulted(b, false));
    }
  }

  lemma RecordedFiles(plan: Plan, original: Directory, w: World, i: nat)
    requires Files(plan, original, w)
    ensures Files(plan, original, Recorded(w, i))
  {
    forall j | 0 <= j < |plan| ensures Placed(original, Recorded(w, i), j) {
      assert Placed(original, w, j);
    }
  }

  /** An exchange the classification counts as completed. */
  lemma CountedQuiet(plan: Plan, original: Directory, w: World, b: Book, i: nat)
    requires Intact(plan, w) && Classifying(plan, w, i)
    requires Files(plan, original, w) && PreviousIs(plan, original, b) && Troubled(b)
    ensures Quiet(plan, original, Raise(Recorded(w, i), b))
  {
    assert i !in w.completed;
    RecordedKeepsIntact(plan, w, i);
    RecordedFiles(plan, original, w, i);
    RaiseQuiet(plan, original, Recorded(w, i), b);
  }

  lemma ClassifyDestQuiet(plan: Plan, original: Directory, w: World, b: Book, i: nat, o: Outcome)
    requires Intact(plan, w) && Classifying(plan, w, i)
    requires Files(plan, original, w) && PreviousIs(plan, original, b) && Troubled(b)
    ensures Quiet(plan, original, ApplyDo(plan, ClassifyDest(i), w, Faulted(b, o.Ok?), o))
  {
    var c := Faulted(b, o.Ok?);
    if o.Hard? {
      RaiseQuiet(plan, original, w, c.(escapes := true));
    } else if o.Soft? || Dest(i) !in w.dir {
      CountedQuiet(plan, original, w, c, i);
    }
  }

  lemma ClassifyTempQuiet(plan: Plan, original: Directory, w: World, b: Book, i: nat, dest: Identity, o: Outcome)
    requires Intact(plan, w) && Classifying(plan, w, i)
    requires Files(plan, original, w) && PreviousIs(plan, original, b) && Troubled(b)
    ensures Quiet(plan, original, ApplyDo(plan, ClassifyTemp(i, dest), w, Faulted(b, o.Ok?), o))
  {
    var c := Faulted(b, o.Ok?);
    if o.Hard? {
      RaiseQuiet(plan, original, w, c.(escapes := true));
    } else if o.Ok? && dest.ino != w.cand[i].ino && w.dir[Candidate(i)].ino == w.cand[i].ino {
      assert i !in w.touched;
      RaiseQuiet(plan, original, w, c);
    } else {
      CountedQuiet(plan, original, w, c, i);
    }
  }

  lemma RecordQuiet(plan: Plan, original: Directory, w: World, b: Book, i: nat, o: Outcome)
    requires Intact(plan, w) && PcOk(plan, RecordIdentity(i), w, b)
    requires Files(plan, original, w) && PreviousIs(plan, original, b) && Ready(plan, w, b, 0)
    ensures Quiet(plan, original, ApplyDo(plan, RecordIdentity(i), w, Faulted(b, o.Ok?), o))
  {
    if o.Ok? { RecordFiles(plan, original, w, i); } else { RaiseQuiet(plan, original, w, Faulted(b, false)); }
  }

  lemma PublishedQuiet(plan: Plan, original: Directory, w: World, b: Book, o: Outcome)
    requires Intact(plan, w) && PcOk(plan, ValidatePublished, w, b)
    requires Files(plan, original, w) && PreviousIs(plan, original, b) && Ready(plan, w, b, |plan|)
    ensures Quiet(plan, original, ApplyDo(plan, ValidatePublished, w, Faulted(b, o.Ok?), o))
  {
    if o.Ok? {
      CleanFromQuiet(plan, original, w, b.(publishedAll := true), 0);
    } else {
      RaiseQuiet(plan, original, w, Faulted(b, false));
    }
  }

  lemma DoQuiet(plan: Plan, original: Directory, pc: Pc, w: World, b: Book, o: Outcome)
    requires Intact(plan, w) && PcOk(plan, pc, w, b)
    requires !pc.Roll? && !Stages(pc) && !Exchanges(pc) && !pc.Clean? && !pc.Done?
    requires Files(plan, original, w) && PreviousIs(plan, original, b) && Progress(plan, pc, w, b)
    ensures Quiet(plan, original, ApplyDo(plan, pc, w, Faulted(b, o.Ok?), o))
  {
    if pc.ClassifyDest? {
      ClassifyDestQuiet(plan, original, w, b, pc.i, o);
    } else if pc.ClassifyTemp? {
      ClassifyTempQuiet(plan, original, w, b, pc.i, pc.dest, o);
    } else if pc.Verify? {
      VerifyQuiet(plan, original, w, b, pc.final, pc.i, pc.k, o);
    } else if pc.RecordIdentity? {
      RecordQuiet(plan, original, w, b, pc.i, o);
    } else if pc.ValidatePublished? {
      PublishedQuiet(plan, original, w, b, o);
    } else if !pc.WriteRecovery? {
      CheckQuiet(plan, original, pc, w, b, o);
    }
  }

  // ---- the rollback loop ----------------------------------------------------------------------------

  lemma RollFailedQuiet(plan: Plan, original: Directory, w: World, b: Book, k: nat)
    requires Core(plan, w) && Files(plan, original, w) && PreviousIs(plan, original, b) && Troubled(b)
    requires k > 0 && Undoing(w, b, k)
    ensures Quiet(plan, original, RollFailed(w, b, k))
  {
    RollFromQuiet(plan, original, w, b.(failed := true), k - 1);
  }

  lemma EscapeQuiet(plan: Plan, original: Directory, w: World, b: Book)
    requires Files(plan, original, w) && PreviousIs(plan, original, b) && Troubled(b) && b.faults >= 2
    ensures Quiet(plan, original, Escape(w, b))
  {
    CleanFromQuiet(plan, original, w, b.(escapes := true), 0);
  }

  lemma RolledOnQuiet(plan: Plan, original: Directory, w: World, b: Book, k: nat, phase: Phase, o: Outcome, r: State)
    requires Core(plan, w) && Files(plan, original, w) && PreviousIs(plan, original, b) && Troubled(b)
    requires k > 0 && Undoing(w, b, k) && RollsOn(w, b, k, phase, o, r) && PhaseTells(w, Item(w, k), phase)
    requires o.Hard? ==> b.faults >= 2
    ensures Quiet(plan, original, r)
  {
    if o.Hard? && r == Escape(w, b) { EscapeQuiet(plan, original, w, b); }
    else if r == RollFailed(w, b, k) { RollFailedQuiet(plan, original, w, b, k); }
    else if Restored(w, Item(w, k)) && r == RollFrom(w, b, k - 1) { RollFromQuiet(plan, original, w, b, k - 1); }
  }

  lemma RollQuiet(plan: Plan, original: Directory, w: World, b: Book, k: nat, phase: Phase, o: Outcome)
    requires Core(plan, w) && Files(plan, original, w) && PreviousIs(plan, original, b) && Troubled(b)
    requires k > 0 && Undoing(w, b, k) && PhaseOk(w, Item(w, k), phase) && PhaseTells(w, Item(w, k), phase) && !phase.SwapBack?
    requires o.Hard? ==> b.faults >= 2
    ensures Quiet(plan, original, ApplyRoll(plan, w, b, k, phase, o))
  {
    assert Item(w, k) in w.completed;
    ReadRollsOn(plan, w, b, k, phase, o);
    RolledOnQuiet(plan, original, w, b, k, phase, o, ApplyRoll(plan, w, b, k, phase, o));
  }

  // ---- every run ------------------------------------------------------------------------------------

  lemma UnlinkQuiet(plan: Plan, original: Directory, w: World, b: Book, i: nat, backup: bool, o: UnlinkOutcome)
    requires Files(plan, original, w) && PreviousIs(plan, original, b) && FlagsTell(plan, w, b)
    requires b.publishedAll <==> b.faults == 0
    ensures Quiet(plan, original, ApplyUnlink(w, b, i, backup, o))
  {
    var gone := w.(dir := w.dir - {if backup then Backup(i) else Candidate(i)});
    forall j | 0 <= j < |plan| ensures Placed(original, gone, j) {
      assert Placed(original, w, j);
    }
    assert FlagsTell(plan, gone, b);
  }

  lemma RollStepQuiet(plan: Plan, original: Directory, s: State, o: Outcome)
    requires Inv(plan, s) && Quiet(plan, original, s) && !s.b.disturbed && Enabled(plan, s, Do(o)) && s.pc.Roll?
    ensures Quiet(plan, original, ApplyRoll(plan, s.w, Faulted(s.b, o.Ok?), s.pc.k, s.pc.phase, o))
  {
    var b := Faulted(s.b, o.Ok?);
    assert Troubled(b) && (o.Hard? ==> b.faults >= 2);
    RollQuiet(plan, original, s.w, b, s.pc.k, s.pc.phase, o);
  }

  lemma DoStepQuiet(plan: Plan, original: Directory, s: State, o: Outcome)
    requires Inv(plan, s) && Quiet(plan, original, s) && !s.b.disturbed && Enabled(plan, s, Do(o))
    ensures Quiet(plan, original, Apply(plan, s, Do(o)))
  {
    if s.pc.Roll? {
      RollStepQuiet(plan, original, s, o);
    } else {
      DoQuiet(plan, original, s.pc, s.w, s.b, o);
    }
  }

  lemma SwapStepQuiet(plan: Plan, original: Directory, s: State, o: SwapOutcome)
    requires Inv(plan, s) && Quiet(plan, original, s) && !s.b.disturbed && Enabled(plan, s, Swap(o))
    ensures Quiet(plan, original, Apply(plan, s, Swap(o)))
  {
    match s.pc
    case Roll(k, phase) => SwapBackQuiet(plan, original, s.w, Faulted(s.b, o.Exchanged?), k, phase.t, phase.ds, o);
    case Publish(i) => PublishStepQuiet(plan, original, s.w, s.b, i, o);
  }

  lemma StepQuiet(plan: Plan, original: Directory, s: State, step: Step)
    requires Inv(plan, s) && Quiet(plan, original, s) && Enabled(plan, s, step)
    ensures Quiet(plan, original, Apply(plan, s, step))
  {
    if !s.b.disturbed {
      match step
      case Write(_, _) =>
      case Remove(_) =>
      case Stage(o) => StageQuiet(plan, original, s, o);
      case Do(o) => DoStepQuiet(plan, original, s, o);
      case Swap(o) => SwapStepQuiet(plan, original, s, o);
      case Unlink(o) => UnlinkQuiet(plan, original, s.w, s.b, s.pc.i, s.pc.backup, o);
    } else {
      StaysDisturbed(plan, s, step);
    }
  }

  lemma DoStaysDisturbed(plan: Plan, pc: Pc, w: World, b: Book, o: Outcome)
    requires b.disturbed
    ensures ApplyDo(plan, pc, w, b, o).b.disturbed
  {
  }

  lemma RollStaysDisturbed(plan: Plan, w: World, b: Book, k: nat, phase: Phase, o: Outcome)
    requires b.disturbed
    ensures ApplyRoll(plan, w, b, k, phase, o).b.disturbed
  {
  }

  /** Once somebody else has written, the run stays disturbed. */
  lemma StaysDisturbed(plan: Plan, s: State, step: Step)
    requires s.b.disturbed && Enabled(plan, s, step)
    ensures Apply(plan, s, step).b.disturbed
  {
    if step.Do? {
      var b := Faulted(s.b, step.outcome.Ok?);
      if s.pc.Roll? {
        RollStaysDisturbed(plan, s.w, b, s.pc.k, s.pc.phase, step.outcome);
      } else {
        DoStaysDisturbed(plan, s.pc, s.w, b, step.outcome);
      }
    }
  }

  lemma {:induction false} EveryStateQuiet(plan: Plan, run: seq<State>, i: nat)
    requires IsRun(plan, run) && i < |run| && Bound(plan, run[0].w.dir)
    ensures Quiet(plan, run[0].w.dir, run[i])
  {
    if i == 0 {
      QuietInit(plan, run[0]);
    } else {
      EveryStateQuiet(plan, run, i - 1);
      EveryStateInv(plan, run, i - 1);
      assert Next(plan, run[i - 1], run[i - 1 + 1]);
      var step :| Enabled(plan, run[i - 1], step) && run[i] == Apply(plan, run[i - 1], step);
      StepQuiet(plan, run[0].w.dir, run[i - 1], step);
    }
  }

  ghost predicate AllNew(plan: Plan, w: World) {
    forall i :: 0 <= i < |plan| ==> HasContent(w.dir, Dest(i), CandidateContent(plan[i]))
  }

  ghost predicate AllOriginal(plan: Plan, original: Directory, w: World) {
    forall i :: 0 <= i < |plan| ==> Dest(i) in original && Dest(i) in w.dir && w.dir[Dest(i)] == original[Dest(i)]
  }

  /** Every original is at its destination or at its temporary name. */
  ghost predicate OriginalsOnDisk(plan: Plan, original: Directory, w: World) {
    forall i :: 0 <= i < |plan| ==>
      Dest(i) in original
      && ((Dest(i) in w.dir && w.dir[Dest(i)] == original[Dest(i)])
          || (Candidate(i) in w.dir && w.dir[Candidate(i)] == original[Dest(i)]))
  }

  lemma PlacedTells(plan: Plan, original: Directory, w: World)
    requires Core(plan, w) && Files(plan, original, w)
    ensures SwappedBelow(plan, w, |plan|) ==> AllNew(plan, w)
    ensures SwappedBelow(plan, w, 0) <==> AllOriginal(plan, original, w)
    ensures CandidatesPresent(w) ==> OriginalsOnDisk(plan, original, w)
  {
    forall i | 0 <= i < |plan|
      ensures i in w.swapped ==> HasContent(w.dir, Dest(i), CandidateContent(plan[i]))
      ensures Dest(i) in w.dir && Dest(i) in original && (i !in w.swapped <==> w.dir[Dest(i)] == original[Dest(i)])
      ensures i in w.swapped ==> i in w.cand && Dest(i) in original && (Candidate(i) in w.dir ==> w.dir[Candidate(i)] == original[Dest(i)])
    {
      assert Placed(original, w, i);
    }
  }

  /** What each report is worth. A rollback reported complete really is one exactly when no
      exchange landed without being recorded. */
  ghost predicate Truthful(plan: Plan, original: Directory, report: Report, w: World) {
    match report
    case Published => AllNew(plan, w)
    case CleanupIncomplete(StatePublished) => AllNew(plan, w)
    case RolledBack => AllOriginal(plan, original, w) <==> AllTouchedCompleted(w)
    case CleanupIncomplete(StateRolledBack) => AllOriginal(plan, original, w) <==> AllTouchedCompleted(w)
    case RollbackIncomplete(_) => OriginalsOnDisk(plan, original, w)
    case _ => true
  }

  /** The two ways to end without a verdict on the destinations. */
  predicate GivesUp(report: Report) {
    report == Escaped || report == CleanupIncomplete(StateNotFullyPublished)
  }

  lemma ToldIsTruthful(plan: Plan, original: Directory, report: Report, w: World, b: Book)
    requires Core(plan, w) && Files(plan, original, w) && Told(plan, report, w, b)
    requires report.RollbackIncomplete? ==> CandidatesPresent(w)
    ensures Truthful(plan, original, report, w)
    ensures !b.escapes ==> !GivesUp(report)
    ensures !b.escapes && (report == RolledBack || report == CleanupIncomplete(StateRolledBack)) ==> AllTouchedCompleted(w)
  {
    PlacedTells(plan, original, w);
  }

  /** All or nothing, and truthfully reported: nobody else wrote, so whatever failed, and
      however often, the call ends all new, all original, or with a reported incomplete
      rollback that has every original on disk. Only an interrupt inside one of its own
      handlers can make it give up, or leave a landed exchange off the record. */
  lemma AllOrNothing(plan: Plan, run: seq<State>)
    requires IsRun(plan, run) && Bound(plan, run[0].w.dir)
    requires var last := run[|run| - 1]; last.pc.Done? && !last.b.disturbed
    ensures var last, original := run[|run| - 1], run[0].w.dir;
      Truthful(plan, original, last.pc.report, last.w)
    ensures var last, original := run[|run| - 1], run[0].w.dir;
      !last.b.escapes && (last.pc.report == RolledBack || last.pc.report == CleanupIncomplete(StateRolledBack)) ==>
        AllOriginal(plan, original, last.w)
    ensures var last := run[|run| - 1]; !last.b.escapes ==> !GivesUp(last.pc.report)
  {
    var last := run[|run| - 1];
    EveryStateInv(plan, run, |run| - 1);
    EveryStateQuiet(plan, run, |run| - 1);
    ToldIsTruthful(plan, run[0].w.dir, last.pc.report, last.w, last.b);
  }

  /** With nobody else writing, `published` is reported exactly when no operation failed. */
  lemma PublishedExactlyWhenNothingFails(plan: Plan, run: seq<State>)
    requires IsRun(plan, run) && Bound(plan, run[0].w.dir)
    requires var last := run[|run| - 1]; last.pc.Done? && !last.b.disturbed
    ensures var last := run[|run| - 1]; last.pc.report.Published? <==> last.b.faults == 0
    ensures var last := run[|run| - 1]; last.b.faults == 0 ==> AllNew(plan, last.w)
  {
    var last := run[|run| - 1];
    EveryStateInv(plan, run, |run| - 1);
    EveryStateQuiet(plan, run, |run| - 1);
    ToldWhenPublished(plan, run[0].w.dir, last.pc.report, last.w, last.b);
  }

  lemma ToldWhenPublished(plan: Plan, original: Directory, report: Report, w: World, b: Book)
    requires Core(plan, w) && Files(plan, original, w) && Told(plan, report, w, b)
    ensures report.Published? <==> b.faults == 0
    ensures report.Published? ==> AllNew(plan, w)
  {
    PlacedTells(plan, original, w);
  }

  /** One failed operation is never enough to escape: two must fail, the second an interrupt. */
  lemma OneFaultIsHandled(plan: Plan, run: seq<State>, i: nat)
    requires IsRun(plan, run) && i < |run| && Bound(plan, run[0].w.dir)
    requires !run[i].b.disturbed && run[i].b.faults <= 1
    ensures !run[i].b.escapes
  {
    EveryStateQuiet(plan, run, i);
  }
}
