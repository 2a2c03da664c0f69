/** What `apply_promoted_overlay` owes to everybody else who writes to its destinations: an
    invariant of every step, and the safety statement it gives for every run. */
module OverlaySafety {
  import opened Optional
  import opened OverlayTransaction

  /** What the transaction may unlink: bytes and mode it was bound to replace, or a file that
      is in every observable respect its own staged candidate. */
  ghost predicate Destroyable(plan: Plan, w: World, i: nat, n: Node) {
    || (i < |plan| && ContentOf(n) == BaseContent(plan[i]))
    || (i in w.cand && n == w.cand[i])
  }

  /** A file somebody put at destination i is there, or was moved to its temporary name. */
  ghost predicate StillHere(plan: Plan, w: World, i: nat, n: Node) {
    || (Dest(i) in w.dir && w.dir[Dest(i)] == n)
    || (i in w.touched && Candidate(i) in w.dir && w.dir[Candidate(i)] == n)
    || Destroyable(plan, w, i, n)
  }

  ghost predicate NothingLost(plan: Plan, w: World) {
    forall p :: p in w.kept ==> StillHere(plan, w, p.0, p.1)
  }

  ghost predicate Distinct(s: seq<nat>) {
    forall a, b :: 0 <= a < b < |s| ==> s[a] != s[b]
  }

  ghost predicate Core(plan: Plan, w: World) {
    && OneName(w.dir)
    && w.listed <= |plan|
    && (forall i :: i in w.cand ==> i < w.listed && ContentOf(w.cand[i]) == CandidateContent(plan[i]))
    && (forall i :: i in w.touched ==> i in w.cand)
    && (forall i :: i in w.completed ==> i in w.cand)
    && Distinct(w.completed)
    && (forall i :: i in w.cand && i !in w.touched && Candidate(i) in w.dir ==> w.dir[Candidate(i)] == w.cand[i])
  }

  /** Until the cleanup starts, every captured candidate name exists. */
  ghost predicate CandidatesPresent(w: World) {
    forall i :: i in w.cand ==> Candidate(i) in w.dir
  }

  ghost predicate CandidatesBelow(w: World, n: nat) {
    forall i :: 0 <= i < n ==> i in w.cand
  }

  ghost predicate AllTouchedCompleted(w: World) {
    forall i :: i in w.touched ==> i in w.completed
  }

  ghost predicate CompletedBelow(w: World, i: nat) {
    forall j :: j in w.completed ==> j < i
  }

  /** The candidate is under its temporary name. */
  ghost predicate Restored(w: World, i: nat) {
    i in w.cand && Candidate(i) in w.dir && w.dir[Candidate(i)] == w.cand[i]
  }

  ghost predicate RestoredFrom(w: World, k: nat) {
    forall j :: k <= j < |w.completed| ==> Restored(w, w.completed[j])
  }

  ghost predicate SafeTemporaries(plan: Plan, w: World) {
    forall i :: i in w.touched && Candidate(i) in w.dir ==> Destroyable(plan, w, i, w.dir[Candidate(i)])
  }

  ghost predicate PreviousVerified(plan: Plan, w: World, n: nat) {
    forall j :: 0 <= j < n && j < |plan| ==> ContentIs(w, Candidate(j), BaseContent(plan[j]))
  }

  /** While staging item i: nothing exchanged, and every earlier candidate captured. */
  ghost predicate Staging(w: World, i: nat) {
    w.touched == {} && w.completed == [] && CandidatesPresent(w) && CandidatesBelow(w, i)
  }

  ghost predicate Publishing(plan: Plan, w: World, i: nat) {
    i < |plan| && CandidatesBelow(w, |plan|) && AllTouchedCompleted(w) && CompletedBelow(w, i) && CandidatesPresent(w)
  }

  /** An exchange raised: if it landed, the candidate is not under its temporary name. */
  ghost predicate Classifying(plan: Plan, w: World, i: nat) {
    && i < |plan| && CandidatesBelow(w, |plan|) && CompletedBelow(w, i) && CandidatesPresent(w)
    && (forall j :: j in w.touched ==> j in w.completed || j == i)
    && (i in w.touched ==> w.dir[Candidate(i)].ino != w.cand[i].ino)
  }

  ghost predicate Verifying(plan: Plan, w: World, final: bool, i: nat, k: nat) {
    && i < |plan| && k < 4 && CandidatesBelow(w, |plan|) && AllTouchedCompleted(w) && CandidatesPresent(w)
    && (!final ==> CompletedBelow(w, i + 1))
    && (final ==> PreviousVerified(plan, w, if k >= 2 then i + 1 else i))
  }

  /** What a probe of the current item has established so far. */
  ghost predicate PhaseOk(w: World, i: nat, phase: Phase) {
    match phase
    case TempContent(_, ok) => ok ==> i in w.cand && IdentityIs(w, Candidate(i), IdentityOf(w.cand[i]))
    case DestIdentity(_, atTemp) => atTemp ==> Restored(w, i)
    case DestContent(_, atTemp, _) => atTemp ==> Restored(w, i)
    case ValidTempContent(ok) => ok ==> i in w.cand && IdentityIs(w, Candidate(i), IdentityOf(w.cand[i]))
    case _ => true
  }

  /** The rollback above the k-th record is done, or has already failed somewhere. */
  ghost predicate Undoing(w: World, b: Book, k: nat) {
    && k <= |w.completed| && CandidatesPresent(w)
    && (b.escapes || AllTouchedCompleted(w))
    && (b.failed || RestoredFrom(w, k))
  }

  ghost predicate PcOk(plan: Plan, pc: Pc, w: World, b: Book) {
    match pc
    case StageCandidate(i) => i < |plan| && w.listed == i && Staging(w, i)
    case RecordIdentity(i) =>
      i < |plan| && w.listed == i + 1 && i !in w.cand && Staging(w, i) && ContentIs(w, Candidate(i), CandidateContent(plan[i]))
    case StageBackup(i) => i < |plan| && w.listed == i + 1 && Staging(w, i + 1)
    case ValidateStaged => Staging(w, |plan|)
    case CheckBase(i) => i < |plan| && Staging(w, |plan|)
    case PublishPaths(i) => Publishing(plan, w, i)
    case PublishCheck(i) => Publishing(plan, w, i)
    case PublishIdentity(i) => Publishing(plan, w, i)
    case Publish(i) => Publishing(plan, w, i)
    case ClassifyDest(i) => Classifying(plan, w, i)
    case ClassifyTemp(i, _) => Classifying(plan, w, i)
    case Verify(final, i, k) => Verifying(plan, w, final, i, k)
    case ValidatePublished =>
      CandidatesBelow(w, |plan|) && AllTouchedCompleted(w) && PreviousVerified(plan, w, |plan|) && CandidatesPresent(w)
    case Roll(k, phase) => k > 0 && Undoing(w, b, k) && PhaseOk(w, Item(w, k), phase)
    case WriteRecovery => CandidatesPresent(w)
    case Clean(i, _) => i < w.listed && (b.escapes || SafeTemporaries(plan, w))
    case Done(report) => report.RollbackIncomplete? ==> CandidatesPresent(w)
  }

  ghost predicate Inv(plan: Plan, s: State) {
    && Core(plan, s.w)
    && ((s.b.escapes && Cleaning(s.pc)) || NothingLost(plan, s.w))
    && PcOk(plan, s.pc, s.w, s.b)
  }

  /** In or after the cleanup. */
  predicate Cleaning(pc: Pc) {
    pc.Clean? || (pc.Done? && !pc.report.RollbackIncomplete?)
  }

  /** The part of the invariant that control flow cannot break, before the cleanup ... */
  ghost predicate Intact(plan: Plan, w: World) {
    Core(plan, w) && NothingLost(plan, w)
  }

  /** ... and during it. */
  ghost predicate Sound(plan: Plan, w: World, b: Book) {
    Core(plan, w) && (b.escapes || NothingLost(plan, w))
  }

  lemma InitInv(plan: Plan, s: State)
    requires Initial(plan, s)
    ensures Inv(plan, s)
  {
  }

  // ---- control flow ---------------------------------------------------------------------------

  lemma CleanFromInv(plan: Plan, w: World, b: Book, i: nat)
    requires Sound(plan, w, b) && (b.escapes || SafeTemporaries(plan, w))
    ensures Inv(plan, CleanFrom(w, b, i))
  {
  }

  /** Everything exchanged has been put back, so every temporary is the candidate again. */
  lemma RestoredIsSafe(plan: Plan, w: World)
    requires AllTouchedCompleted(w) && RestoredFrom(w, 0)
    ensures SafeTemporaries(plan, w)
  {
    forall i | i in w.touched && Candidate(i) in w.dir ensures Destroyable(plan, w, i, w.dir[Candidate(i)]) {
      assert i in w.completed;
      var j :| 0 <= j < |w.completed| && w.completed[j] == i;
      assert Restored(w, w.completed[j]);
    }
  }

  lemma RollFromInv(plan: Plan, w: World, b: Book, k: nat)
    requires Intact(plan, w) && Undoing(w, b, k)
    ensures Inv(plan, RollFrom(w, b, k))
  {
    if k == 0 && !b.failed {
      if !b.escapes { RestoredIsSafe(plan, w); }
      CleanFromInv(plan, w, b.(rollbackComplete := true), 0);
    }
  }

  /** Entering the rollback is sound wherever every landed exchange is on record. */
  lemma RaiseInv(plan: Plan, w: World, b: Book)
    requires Intact(plan, w) && CandidatesPresent(w) && (b.escapes || AllTouchedCompleted(w))
    ensures Inv(plan, Raise(w, b))
  {
    RollFromInv(plan, w, b, |w.completed|);
  }

  // ---- somebody else's writes ---------------------------------------------------------------------

  /** The same temporaries: what happened happened to destinations. */
  ghost predicate SameTemporaries(v: World, w: World) {
    && w.listed == v.listed && w.cand == v.cand && w.completed == v.completed && w.touched == v.touched
    && forall i {:trigger Candidate(i)} ::
         (Candidate(i) in w.dir <==> Candidate(i) in v.dir) && (Candidate(i) in w.dir ==> w.dir[Candidate(i)] == v.dir[Candidate(i)])
  }

  /** Nothing the invariant says about control looks at a destination. */
  lemma DestinationFrame(plan: Plan, pc: Pc, v: World, w: World, b: Book, c: Book)
    requires PcOk(plan, pc, v, b) && SameTemporaries(v, w)
    requires c.escapes == b.escapes && c.failed == b.failed
    ensures PcOk(plan, pc, w, c)
  {
    if pc.Clean? && !b.escapes {
      forall i | i in w.touched && Candidate(i) in w.dir ensures Destroyable(plan, w, i, w.dir[Candidate(i)]) {
        assert Destroyable(plan, v, i, v.dir[Candidate(i)]);
      }
    }
  }

  lemma WriteKeepsCore(plan: Plan, w: World, i: nat, node: Node)
    requires Core(plan, w) && NothingLost(plan, w) && LegalWrite(w.dir, i, node)
    ensures var v := w.(dir := w.dir[Dest(i) := node], kept := Overwritten(w, i) + {(i, node)});
      NothingLost(plan, v)
  {
    var v := w.(dir := w.dir[Dest(i) := node], kept := Overwritten(w, i) + {(i, node)});
    forall p | p in v.kept ensures StillHere(plan, v, p.0, p.1) {
      if p in w.kept { assert StillHere(plan, w, p.0, p.1); }
    }
  }

  lemma RemoveKeepsCore(plan: Plan, w: World, i: nat)
    requires Core(plan, w) && NothingLost(plan, w) && Dest(i) in w.dir
    ensures NothingLost(plan, w.(dir := w.dir - {Dest(i)}, kept := Overwritten(w, i)))
  {
    var v := w.(dir := w.dir - {Dest(i)}, kept := Overwritten(w, i));
    forall p | p in v.kept ensures StillHere(plan, v, p.0, p.1) {
      assert StillHere(plan, w, p.0, p.1);
    }
  }

  lemma OthersKeepInv(plan: Plan, s: State, step: Step)
    requires Inv(plan, s) && Enabled(plan, s, step) && (step.Write? || step.Remove?)
    ensures Inv(plan, Apply(plan, s, step))
  {
    var t := Apply(plan, s, step);
    if !(s.b.escapes && Cleaning(s.pc)) {
      if step.Write? { WriteKeepsCore(plan, s.w, step.i, step.node); } else { RemoveKeepsCore(plan, s.w, step.i); }
    }
    assert Core(plan, t.w);
    DestinationFrame(plan, s.pc, s.w, t.w, s.b, t.b);
  }

  // ---- staging ------------------------------------------------------------------------------------

  /** A new temporary under a fresh inode disturbs nothing. */
  lemma NewTemporaryKeepsIntact(plan: Plan, v: World, w: World, name: Name, node: Node)
    requires Intact(plan, v) && !name.Dest? && FreshIno(v.dir, node.ino)
    requires name.Candidate? ==> name.item !in v.cand
    requires v.listed <= w.listed <= |plan| && w == v.(dir := v.dir[name := node], listed := w.listed)
    ensures Intact(plan, w)
  {
    forall p | p in w.kept ensures StillHere(plan, w, p.0, p.1) {
      assert StillHere(plan, v, p.0, p.1);
      assert p.0 in v.touched ==> p.0 in v.cand;
    }
  }

  lemma FirstStagedKeepsInv(plan: Plan, w: World, b: Book, i: nat, node: Node)
    requires Intact(plan, w) && i < |plan| && w.listed == i && Staging(w, i)
    requires FreshIno(w.dir, node.ino) && ContentOf(node) == CandidateContent(plan[i])
    ensures Inv(plan, State(RecordIdentity(i), w.(dir := w.dir[Candidate(i) := node], listed := i + 1), b))
  {
    var v := w.(dir := w.dir[Candidate(i) := node], listed := i + 1);
    NewTemporaryKeepsIntact(plan, w, v, Candidate(i), node);
    assert Staging(v, i) && i !in v.cand;
  }

  lemma FirstLeftKeepsInv(plan: Plan, w: World, b: Book, i: nat, node: Node, listed: nat)
    requires Intact(plan, w) && i < |plan| && w.listed == i && Staging(w, i)
    requires FreshIno(w.dir, node.ino) && i <= listed <= i + 1
    ensures Inv(plan, Raise(w.(dir := w.dir[Candidate(i) := node], listed := listed), Faulted(b, false)))
  {
    var v := w.(dir := w.dir[Candidate(i) := node], listed := listed);
    NewTemporaryKeepsIntact(plan, w, v, Candidate(i), node);
    assert Intact(plan, v);
    RaiseInv(plan, v, Faulted(b, false));
  }

  lemma StageFirstKeepsInv(plan: Plan, w: World, b: Book, i: nat, o: StageOutcome)
    requires Intact(plan, w) && i < |plan| && w.listed == i && Staging(w, i)
    requires o.Staged? ==> FreshIno(w.dir, o.ino)
    requires o.Left? ==> FreshIno(w.dir, o.node.ino)
    ensures Inv(plan, StageFirst(plan, w, b, i, o))
  {
    match o
    case Staged(ino, mtime) => FirstStagedKeepsInv(plan, w, b, i, Node(ino, plan[i].content, plan[i].mode, mtime));
    case NotStaged => RaiseInv(plan, w, Faulted(b, false));
    case Left(node, recorded) =>
      FirstLeftKeepsInv(plan, w, b, i, node, if recorded then i + 1 else w.listed);
  }

  lemma StageSecondKeepsInv(plan: Plan, w: World, b: Book, i: nat, o: StageOutcome)
    requires Intact(plan, w) && i < |plan| && w.listed == i + 1 && Staging(w, i + 1)
    requires o.Staged? ==> FreshIno(w.dir, o.ino)
    requires o.Left? ==> FreshIno(w.dir, o.node.ino)
    ensures Inv(plan, StageSecond(plan, w, b, i, o))
  {
    match o
    case NotStaged => RaiseInv(plan, w, Faulted(b, false));
    case Left(node, recorded) =>
      var v := w.(dir := w.dir[Backup(i) := node]);
      NewTemporaryKeepsIntact(plan, w, v, Backup(i), node);
      RaiseInv(plan, v, Faulted(if recorded then b.(backups := b.backups + {i}) else b, false));
    case Staged(ino, mtime) =>
      var node := Node(ino, plan[i].original, plan[i].mode, mtime);
      NewTemporaryKeepsIntact(plan, w, w.(dir := w.dir[Backup(i) := node]), Backup(i), node);
  }

  lemma RecordKeepsIntact(plan: Plan, w: World, i: nat)
    requires Intact(plan, w) && i < w.listed && w.touched == {} && i !in w.cand
    requires ContentIs(w, Candidate(i), CandidateContent(plan[i]))
    ensures Intact(plan, w.(cand := w.cand[i := w.dir[Candidate(i)]]))
  {
    var v := w.(cand := w.cand[i := w.dir[Candidate(i)]]);
    forall p | p in v.kept ensures StillHere(plan, v, p.0, p.1) {
      assert StillHere(plan, w, p.0, p.1);
    }
  }

  // ---- exchanges ----------------------------------------------------------------------------------

  lemma OneNameAfterExchange(dir: Directory, i: nat)
    requires OneName(dir) && BothExist(dir, i)
    ensures OneName(Exchange(dir, i))
  {
    var other := (n: Name) => if n == Dest(i) then Candidate(i) else if n == Candidate(i) then Dest(i) else n;
    var after := Exchange(dir, i);
    forall a, b | a in after && b in after && after[a].ino == after[b].ino ensures a == b {
      assert after[a] == dir[other(a)] && after[b] == dir[other(b)];
    }
  }

  lemma LandedKeepsIntact(plan: Plan, w: World, i: nat)
    requires Intact(plan, w) && i in w.cand && BothExist(w.dir, i)
    ensures Intact(plan, Landed(w, i))
  {
    var v := Landed(w, i);
    OneNameAfterExchange(w.dir, i);
    forall p | p in v.kept ensures StillHere(plan, v, p.0, p.1) {
      assert StillHere(plan, w, p.0, p.1);
    }
  }

  lemma RecordedKeepsIntact(plan: Plan, w: World, i: nat)
    requires Intact(plan, w) && i in w.cand && i !in w.completed
    ensures Intact(plan, Recorded(w, i))
    ensures AllTouchedCompleted(Recorded(w, i)) <==> forall j :: j in w.touched ==> j in w.completed || j == i
  {
    var v := Recorded(w, i);
    assert v.completed[|w.completed|] == i;
    assert forall j :: j in v.completed <==> j in w.completed || j == i;
    forall p | p in v.kept ensures StillHere(plan, v, p.0, p.1) {
      assert StillHere(plan, w, p.0, p.1);
    }
  }

  lemma PublishStepKeepsInv(plan: Plan, w: World, b: Book, i: nat, o: SwapOutcome)
    requires Intact(plan, w) && Publishing(plan, w, i)
    requires o.RaisedBefore? || BothExist(w.dir, i)
    ensures Inv(plan, PublishStep(w, b, i, o))
  {
    assert i !in w.completed && i !in w.touched;
    match o
    case RaisedBefore => assert Classifying(plan, w, i);
    case Exchanged =>
      LandedKeepsIntact(plan, w, i);
      RecordedKeepsIntact(plan, Landed(w, i), i);
      assert Verifying(plan, Recorded(Landed(w, i), i), false, i, 0);
    case RaisedAfter =>
      LandedKeepsIntact(plan, w, i);
      assert w.dir[Candidate(i)] == w.cand[i];
      assert Landed(w, i).dir[Candidate(i)] == w.dir[Dest(i)];
      assert w.dir[Dest(i)].ino != w.dir[Candidate(i)].ino;
      assert Classifying(plan, Landed(w, i), i);
  }

  /** Undoing one exchange leaves the ones already undone alone. */
  lemma LandedKeepsUndoing(w: World, b: Book, k: nat)
    requires Undoing(w, b, k) && k > 0 && Distinct(w.completed) && BothExist(w.dir, Item(w, k))
    ensures Undoing(Landed(w, Item(w, k)), b, k)
  {
    var i := Item(w, k);
    var v := Landed(w, i);
    if !b.failed {
      forall j | k <= j < |v.completed| ensures Restored(v, v.completed[j]) {
        assert Restored(w, w.completed[j]) && w.completed[j] != i;
      }
    }
    assert i in w.completed;
  }

  lemma SwapBackStepKeepsInv(plan: Plan, w: World, b: Book, k: nat, t: Identity, ds: Option<Content>, o: SwapOutcome)
    requires Intact(plan, w) && k > 0 && Undoing(w, b, k)
    requires o.RaisedBefore? || BothExist(w.dir, Item(w, k))
    ensures Inv(plan, SwapBackStep(w, b, k, t, ds, o))
  {
    if !o.RaisedBefore? {
      assert Item(w, k) in w.completed;
      LandedKeepsIntact(plan, w, Item(w, k));
      LandedKeepsUndoing(w, b, k);
    }
  }

  // ---- reads and checks outside the rollback ---------------------------------------------------------

  lemma ClassifyKeepsInv(plan: Plan, pc: Pc, w: World, b: Book, o: Outcome)
    requires Intact(plan, w) && (pc.ClassifyDest? || pc.ClassifyTemp?) && Classifying(plan, w, pc.i)
    ensures Inv(plan, ApplyDo(plan, pc, w, b, o))
  {
    var i := pc.i;
    if o.Hard? {
      RaiseInv(plan, w, b.(escapes := true));
    } else if pc.ClassifyDest? && o.Ok? && Dest(i) in w.dir {
    } else if pc.ClassifyTemp? && o.Ok? && pc.dest.ino != w.cand[i].ino && w.dir[Candidate(i)].ino == w.cand[i].ino {
      assert i !in w.touched;
      RaiseInv(plan, w, b);
    } else {
      assert i !in w.completed;
      RecordedKeepsIntact(plan, w, i);
      RaiseInv(plan, Recorded(w, i), b);
    }
  }

  lemma VerifyKeepsInv(plan: Plan, w: World, b: Book, final: bool, i: nat, k: nat, o: Outcome)
    requires Intact(plan, w) && Verifying(plan, w, final, i, k)
    ensures Inv(plan, ApplyDo(plan, Verify(final, i, k), w, b, o))
  {
    if o.Ok? && VerifyHolds(plan, w, b, i, k) {
      if k < 3 {
        assert Verifying(plan, w, final, i, k + 1);
      } else if final {
        assert PreviousVerified(plan, w, i + 1);
      } else {
        assert CompletedBelow(w, i + 1);
      }
    } else {
      RaiseInv(plan, w, b);
    }
  }

  lemma PublishedIsSafe(plan: Plan, w: World)
    requires Core(plan, w) && PreviousVerified(plan, w, |plan|)
    ensures SafeTemporaries(plan, w)
  {
    forall i | i in w.touched && Candidate(i) in w.dir ensures Destroyable(plan, w, i, w.dir[Candidate(i)]) {
      assert i in w.cand;
      assert ContentIs(w, Candidate(i), BaseContent(plan[i]));
    }
  }

  /** Checks that either move on or raise. */
  lemma CheckKeepsInv(plan: Plan, pc: Pc, w: World, b: Book, o: Outcome)
    requires Intact(plan, w) && PcOk(plan, pc, w, b)
    requires pc.ValidateStaged? || pc.CheckBase? || pc.PublishPaths? || pc.PublishCheck? || pc.PublishIdentity?
    ensures Inv(plan, ApplyDo(plan, pc, w, b, o))
  {
    RaiseInv(plan, w, b);
  }

  lemma DoKeepsInv(plan: Plan, pc: Pc, w: World, b: Book, o: Outcome)
    requires Intact(plan, w) && PcOk(plan, pc, w, b)
    requires !pc.Roll? && !Stages(pc) && !Exchanges(pc) && !pc.Clean? && !pc.Done?
    ensures Inv(plan, ApplyDo(plan, pc, w, b, o))
  {
    if pc.ClassifyDest? || pc.ClassifyTemp? {
      ClassifyKeepsInv(plan, pc, w, b, o);
    } else if pc.Verify? {
      VerifyKeepsInv(plan, w, b, pc.final, pc.i, pc.k, o);
    } else if pc.RecordIdentity? {
      if o.Ok? { RecordKeepsIntact(plan, w, pc.i); } else { RaiseInv(plan, w, b); }
    } else if pc.ValidatePublished? {
      if o.Ok? {
        PublishedIsSafe(plan, w);
        CleanFromInv(plan, w, b.(publishedAll := true), 0);
      } else {
        RaiseInv(plan, w, b);
      }
    } else if !pc.WriteRecovery? {
      CheckKeepsInv(plan, pc, w, b, o);
    }
  }

  // ---- the rollback loop ------------------------------------------------------------------------------

  lemma RollFailedInv(plan: Plan, w: World, b: Book, k: nat)
    requires Intact(plan, w) && k > 0 && Undoing(w, b, k)
    ensures Inv(plan, RollFailed(w, b, k))
  {
    RollFromInv(plan, w, b.(failed := true), k - 1);
  }

  lemma EscapeInv(plan: Plan, w: World, b: Book)
    requires Core(plan, w)
    ensures Inv(plan, Escape(w, b))
  {
    CleanFromInv(plan, w, b.(escapes := true), 0);
  }

  /** Identity and content together single out the staged candidate. */
  lemma SameFile(plan: Plan, w: World, i: nat)
    requires i in w.cand && i < |plan| && ContentOf(w.cand[i]) == CandidateContent(plan[i])
    requires IdentityIs(w, Candidate(i), IdentityOf(w.cand[i])) && ContentIs(w, Candidate(i), CandidateContent(plan[i]))
    ensures Restored(w, i)
  {
  }

  /** The staged candidate was seen at the destination. */
  ghost predicate PhaseTells(w: World, i: nat, phase: Phase) {
    match phase
    case DestContent(_, _, ok) => ok ==> CandidateAtDest(w, i)
    case ReadDisplaced(_) => CandidateAtDest(w, i)
    case SwapBack(_, _) => CandidateAtDest(w, i)
    case _ => true
  }

  ghost predicate CandidateAtDest(w: World, i: nat) {
    i in w.cand && IdentityIs(w, Dest(i), IdentityOf(w.cand[i]))
  }

  /** All a read inside the rollback loop can do: break off, give the record up, settle it, or
      move on with what it learned. */
  ghost predicate RollsOn(w: World, b: Book, k: nat, phase: Phase, o: Outcome, r: State)
    requires k > 0
  {
    || (o.Hard? && r == Escape(w, b))
    || r == RollFailed(w, b, k)
    || (Restored(w, Item(w, k)) && r == RollFrom(w, b, k - 1))
    || (&& r.pc.Roll? && r == State(Roll(k, r.pc.phase), w, b) && PhaseOk(w, Item(w, k), r.pc.phase)
        && (PhaseTells(w, Item(w, k), phase) ==> PhaseTells(w, Item(w, k), r.pc.phase)))
  }

  lemma ReadRollsOn(plan: Plan, w: World, b: Book, k: nat, phase: Phase, o: Outcome)
    requires k > 0 && PhaseOk(w, Item(w, k), phase) && !phase.SwapBack?
    requires var i := Item(w, k); i in w.cand && i < |plan| && ContentOf(w.cand[i]) == CandidateContent(plan[i])
    ensures RollsOn(w, b, k, phase, o, ApplyRoll(plan, w, b, k, phase, o))
  {
    var i := Item(w, k);
    if IdentityIs(w, Candidate(i), IdentityOf(w.cand[i])) && ContentIs(w, Candidate(i), CandidateContent(plan[i])) {
      SameFile(plan, w, i);
    }
  }

  lemma RollKeepsInv(plan: Plan, w: World, b: Book, k: nat, phase: Phase, o: Outcome)
    requires Intact(plan, w) && k > 0 && Undoing(w, b, k) && PhaseOk(w, Item(w, k), phase) && !phase.SwapBack?
    ensures Inv(plan, ApplyRoll(plan, w, b, k, phase, o))
  {
    assert Item(w, k) in w.completed;
    ReadRollsOn(plan, w, b, k, phase, o);
    RolledOnInv(plan, w, b, k, phase, o, ApplyRoll(plan, w, b, k, phase, o));
  }

  lemma RolledOnInv(plan: Plan, w: World, b: Book, k: nat, phase: Phase, o: Outcome, r: State)
    requires Intact(plan, w) && k > 0 && Undoing(w, b, k) && RollsOn(w, b, k, phase, o, r)
    ensures Inv(plan, r)
  {
    if o.Hard? && r == Escape(w, b) { EscapeInv(plan, w, b); }
    else if r == RollFailed(w, b, k) { RollFailedInv(plan, w, b, k); }
    else if Restored(w, Item(w, k)) && r == RollFrom(w, b, k - 1) { RollFromInv(plan, w, b, k - 1); }
  }

  // ---- cleanup ----------------------------------------------------------------------------------------

  /** The cleanup only unlinks backups, candidates never exchanged, and destroyable files. */
  lemma GoneKeepsSound(plan: Plan, w: World, b: Book, name: Name)
    requires Sound(plan, w, b) && !name.Dest? && (b.escapes || SafeTemporaries(plan, w))
    ensures var v := w.(dir := w.dir - {name}); Sound(plan, v, b) && (b.escapes || SafeTemporaries(plan, v))
  {
    var v := w.(dir := w.dir - {name});
    if !b.escapes {
      forall p | p in v.kept ensures StillHere(plan, v, p.0, p.1) {
        assert StillHere(plan, w, p.0, p.1);
        if name == Candidate(p.0) && name in w.dir && p.0 in w.touched {
          assert Destroyable(plan, w, p.0, w.dir[name]);
        }
      }
      forall i | i in v.touched && Candidate(i) in v.dir ensures Destroyable(plan, v, i, v.dir[Candidate(i)]) {
        assert Destroyable(plan, w, i, w.dir[Candidate(i)]);
      }
    }
  }

  lemma UnlinkKeepsInv(plan: Plan, w: World, b: Book, i: nat, backup: bool, o: UnlinkOutcome)
    requires Sound(plan, w, b) && i < w.listed && (b.escapes || SafeTemporaries(plan, w))
    ensures Inv(plan, ApplyUnlink(w, b, i, backup, o))
  {
    var name := if backup then Backup(i) else Candidate(i);
    GoneKeepsSound(plan, w, b, name);
    match o
    case Unlinked => AfterUnlinkInv(plan, w.(dir := w.dir - {name}), b, i, backup);
    case _ =>
  }

  lemma AfterUnlinkInv(plan: Plan, w: World, b: Book, i: nat, backup: bool)
    requires Sound(plan, w, b) && i < w.listed && (b.escapes || SafeTemporaries(plan, w))
    ensures Inv(plan, AfterUnlink(w, b, i, backup))
  {
    if backup || i !in b.backups { CleanFromInv(plan, w, b, i + 1); }
  }

  // ---- every run ---------------------------------------------------------------------------------------

  lemma DoStepKeepsInv(plan: Plan, s: State, o: Outcome)
    requires Inv(plan, s) && Enabled(plan, s, Do(o))
    ensures Inv(plan, Apply(plan, s, Do(o)))
  {
    if s.pc.Roll? {
      RollKeepsInv(plan, s.w, Faulted(s.b, o.Ok?), s.pc.k, s.pc.phase, o);
    } else {
      DoKeepsInv(plan, s.pc, s.w, Faulted(s.b, o.Ok?), o);
    }
  }

  lemma SwapStepKeepsInv(plan: Plan, s: State, o: SwapOutcome)
    requires Inv(plan, s) && Enabled(plan, s, Swap(o))
    ensures Inv(plan, Apply(plan, s, Swap(o)))
  {
    match s.pc
    case Roll(k, phase) => SwapBackStepKeepsInv(plan, s.w, Faulted(s.b, o.Exchanged?), k, phase.t, phase.ds, o);
    case Publish(i) => PublishStepKeepsInv(plan, s.w, Faulted(s.b, o.Exchanged?), i, o);
  }

  lemma StageStepKeepsInv(plan: Plan, s: State, o: StageOutcome)
    requires Inv(plan, s) && Enabled(plan, s, Stage(o))
    ensures Inv(plan, Apply(plan, s, Stage(o)))
  {
    match s.pc
    case StageCandidate(i) => StageFirstKeepsInv(plan, s.w, s.b, i, o);
    case StageBackup(i) => StageSecondKeepsInv(plan, s.w, s.b, i, o);
  }

  lemma StepKeepsInv(plan: Plan, s: State, step: Step)
    requires Inv(plan, s) && Enabled(plan, s, step)
    ensures Inv(plan, Apply(plan, s, step))
  {
    match step
    case Write(_, _) => OthersKeepInv(plan, s, step);
    case Remove(_) => OthersKeepInv(plan, s, step);
    case Stage(o) => StageStepKeepsInv(plan, s, o);
    case Do(o) => DoStepKeepsInv(plan, s, o);
    case Swap(o) => SwapStepKeepsInv(plan, s, o);
    case Unlink(o) => UnlinkKeepsInv(plan, s.w, s.b, s.pc.i, s.pc.backup, o);
  }

  lemma {:induction false} EveryStateInv(plan: Plan, run: seq<State>, i: nat)
    requires IsRun(plan, run) && i < |run|
    ensures Inv(plan, run[i])
  {
    if i == 0 {
      InitInv(plan, run[0]);
    } else {
      EveryStateInv(plan, run, i - 1);
      assert Next(plan, run[i - 1], run[i - 1 + 1]);
      var step :| Enabled(plan, run[i - 1], step) && run[i] == Apply(plan, run[i - 1], step);
      StepKeepsInv(plan, run[i - 1], step);
    }
  }

  /** Whatever others write to the destinations and whatever fails, at any moment of any run:
      every file somebody else put there and has not replaced is at its destination or at the
      temporary name it was moved to, unless it has the bound bytes and mode or is the
      candidate itself. The one exception is a cleanup that an interrupt at an inspection
      inside a handler has led to. */
  lemma NobodysBytesLost(plan: Plan, run: seq<State>, i: nat, item: nat, node: Node)
    requires IsRun(plan, run) && i < |run| && !(run[i].b.escapes && Cleaning(run[i].pc))
    requires (item, node) in run[i].w.kept
    ensures var w := run[i].w;
      || (Dest(item) in w.dir && w.dir[Dest(item)] == node)
      || (Candidate(item) in w.dir && w.dir[Candidate(item)] == node)
      || (item < |plan| && ContentOf(node) == BaseContent(plan[item]))
      || (item in w.cand && node == w.cand[item])
  {
    EveryStateInv(plan, run, i);
    assert StillHere(plan, run[i].w, item, node);
  }
}
