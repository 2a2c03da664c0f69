/** What a reported rollback of `apply_promoted_overlay` vouches for, whoever else writes: how
    each recorded exchange was found undone, or was undone and seen to be. */
module OverlayReturn {
  import opened Optional
  import opened OverlayTransaction
  import opened OverlaySafety
  import opened OverlayTemporaries

  /** The rollback is at this phase of the item. */
  predicate At(s: State, item: nat, phase: Phase) {
    s.pc.Roll? && s.pc.phase == phase && Item(s.w, s.pc.k) == item
  }

  /** The identity of what was under the temporary name was read, ... */
  ghost predicate Inspected(run: seq<State>, n: nat, item: nat, t: Identity) {
    exists q :: 0 <= q < n && q < |run| && At(run[q], item, InspectTemp) && IdentityIs(run[q].w, Candidate(item), t)
  }

  /** ... then an exchange back was made, or at least tried, ... */
  ghost predicate TriedBack(run: seq<State>, n: nat, item: nat, t: Identity, ds: Option<Content>) {
    exists x :: 0 <= x < n && x < |run| && At(run[x], item, SwapBack(t, ds)) && Inspected(run, x, item, t)
  }

  /** ... after which that identity was at the destination, ... */
  ghost predicate SeenBack(run: seq<State>, n: nat, item: nat, t: Identity, ds: Option<Content>) {
    exists v :: 0 <= v < n && v < |run| && At(run[v], item, ValidDest(t, ds)) && TriedBack(run, v, item, t, ds)
                && IdentityIs(run[v].w, Dest(item), t)
  }

  /** ... and, where it could be read before the exchange, so was the content. */
  ghost predicate Returned(run: seq<State>, n: nat, item: nat) {
    || (exists t :: SeenBack(run, n, item, t, None))
    || (exists t, c :: ContentBack(run, n, item, t, c))
  }

  ghost predicate ContentBack(run: seq<State>, n: nat, item: nat, t: Identity, c: Content) {
    exists u :: 0 <= u < n && u < |run| && At(run[u], item, ValidContent(c)) && SeenBack(run, u, item, t, Some(c)) && ContentIs(run[u].w, Dest(item), c)
  }

  /** The staged candidate is under its temporary name, and if an exchange back was made for
      that, what it brought back was seen at the destination. */
  ghost predicate SettledAt(run: seq<State>, f: int, item: nat) {
    && 0 <= f < |run| && run[f].pc.Roll? && Item(run[f].w, run[f].pc.k) == item && Restored(run[f].w, item)
    && (run[f].pc.phase.ValidTempContent? ==> Returned(run, f, item))
    && (run[f].pc.phase.ValidTempContent? || run[f].pc.phase.DestIdentity? || run[f].pc.phase.DestContent?)
  }

  ghost predicate Settled(run: seq<State>, n: nat, item: nat) {
    exists f :: 0 <= f < n && SettledAt(run, f, item)
  }

  ghost predicate AllSettled(run: seq<State>, n: nat, k: nat)
    requires n < |run|
  {
    forall j :: k <= j < |run[n].w.completed| ==> Settled(run, n, run[n].w.completed[j])
  }

  // ---- what each phase knows ----------------------------------------------------------------

  ghost predicate Remembers(run: seq<State>, n: nat, item: nat, phase: Phase) {
    match phase
    case InspectDest => true
    case InspectTemp => true
    case TempIdentity(t) => Inspected(run, n, item, t)
    case TempContent(t, _) => Inspected(run, n, item, t)
    case DestIdentity(t, _) => Inspected(run, n, item, t)
    case DestContent(t, _, _) => Inspected(run, n, item, t)
    case ReadDisplaced(t) => Inspected(run, n, item, t)
    case SwapBack(t, _) => Inspected(run, n, item, t)
    case ValidDest(t, ds) => TriedBack(run, n, item, t, ds)
    case ValidContent(c) => exists t :: SeenBack(run, n, item, t, Some(c))
    case ValidTempIdentity => Returned(run, n, item)
    case ValidTempContent(_) => Returned(run, n, item)
  }

  ghost predicate Accounted(plan: Plan, run: seq<State>, n: nat)
    requires n < |run|
  {
    match run[n].pc
    case Roll(k, phase) =>
      !run[n].b.rollbackComplete && 0 < k <= |run[n].w.completed|
      && (!run[n].b.failed ==> AllSettled(run, n, k)) && Remembers(run, n, Item(run[n].w, k), phase)
    case Clean(_, _) => run[n].b.rollbackComplete ==> AllSettled(run, n, 0)
    case Done(report) => (report.RolledBack? ==> run[n].b.rollbackComplete) && (run[n].b.rollbackComplete ==> AllSettled(run, n, 0))
    case _ => !run[n].b.rollbackComplete
  }

  // ---- nothing is forgotten -----------------------------------------------------------------

  lemma {:induction false} InspectedStays(run: seq<State>, n: nat, m: nat, item: nat, t: Identity)
    requires n <= m && Inspected(run, n, item, t)
    ensures Inspected(run, m, item, t)
  {
  }

  lemma {:induction false} TriedStays(run: seq<State>, n: nat, m: nat, item: nat, t: Identity, ds: Option<Content>)
    requires n <= m && TriedBack(run, n, item, t, ds)
    ensures TriedBack(run, m, item, t, ds)
  {
  }

  lemma {:induction false} SeenStays(run: seq<State>, n: nat, m: nat, item: nat, t: Identity, ds: Option<Content>)
    requires n <= m && SeenBack(run, n, item, t, ds)
    ensures SeenBack(run, m, item, t, ds)
  {
  }

  lemma {:induction false} ReturnedStays(run: seq<State>, n: nat, m: nat, item: nat)
    requires n <= m && Returned(run, n, item)
    ensures Returned(run, m, item)
  {
    if t :| SeenBack(run, n, item, t, None) {
      SeenStays(run, n, m, item, t, None);
    } else {
      var t, c :| ContentBack(run, n, item, t, c);
      assert ContentBack(run, m, item, t, c);
    }
  }

  lemma {:induction false} RemembersStays(run: seq<State>, n: nat, m: nat, item: nat, phase: Phase)
    requires n <= m && Remembers(run, n, item, phase)
    ensures Remembers(run, m, item, phase)
  {
    match phase
    case ValidContent(c) =>
      var t :| SeenBack(run, n, item, t, Some(c));
      SeenStays(run, n, m, item, t, Some(c));
    case ValidTempIdentity => ReturnedStays(run, n, m, item);
    case ValidTempContent(_) => ReturnedStays(run, n, m, item);
    case _ =>
  }

  lemma {:induction false} AllSettledStays(run: seq<State>, n: nat, k: nat)
    requires n + 1 < |run| && AllSettled(run, n, k) && run[n + 1].w.completed == run[n].w.completed
    ensures AllSettled(run, n + 1, k)
  {
    var next := n + 1;
    forall j | k <= j < |run[next].w.completed| ensures Settled(run, next, run[next].w.completed[j]) {
      assert Settled(run, n, run[n].w.completed[j]);
    }
  }

  // ---- one reading --------------------------------------------------------------------------

  /** How a reading gets from one phase to the next. */
  ghost predicate Follows(w: World, item: nat, phase: Phase, next: Phase) {
    match next
    case InspectDest => false
    case InspectTemp => true
    case TempIdentity(t) => phase.InspectTemp? && IdentityIs(w, Candidate(item), t)
    case TempContent(t, _) => phase == TempIdentity(t)
    case DestIdentity(t, _) => phase == TempIdentity(t) || (phase.TempContent? && phase.t == t)
    case DestContent(t, _, _) => phase.DestIdentity? && phase.t == t
    case ReadDisplaced(t) => (phase.DestIdentity? || phase.DestContent?) && phase.t == t
    case SwapBack(t, _) => phase == ReadDisplaced(t)
    case ValidDest(_, _) => false
    case ValidContent(c) => phase.ValidDest? && phase.ds == Some(c) && IdentityIs(w, Dest(item), phase.t)
    case ValidTempIdentity =>
      || (phase.ValidDest? && phase.ds == None && IdentityIs(w, Dest(item), phase.t))
      || (phase.ValidContent? && ContentIs(w, Dest(item), phase.displaced))
    case ValidTempContent(_) => phase.ValidTempIdentity?
  }

  lemma {:induction false} ReadingFollows(plan: Plan, w: World, b: Book, k: nat, phase: Phase, o: Outcome)
    requires k > 0 && !phase.SwapBack? && PhaseOk(w, Item(w, k), phase)
    requires var i := Item(w, k); i in w.cand && i < |plan| && ContentOf(w.cand[i]) == CandidateContent(plan[i])
    ensures var i, r := Item(w, k), ApplyRoll(plan, w, b, k, phase, o);
      || r == Escape(w, b) || r == RollFailed(w, b, k)
      || (r == RollFrom(w, b, k - 1) && Restored(w, i) && (phase.ValidTempContent? || phase.DestIdentity? || phase.DestContent?))
      || (r.pc.Roll? && r == State(Roll(k, r.pc.phase), w, b) && Follows(w, i, phase, r.pc.phase))
  {
    var i := Item(w, k);
    if IdentityIs(w, Candidate(i), IdentityOf(w.cand[i])) && ContentIs(w, Candidate(i), CandidateContent(plan[i])) {
      SameFile(plan, w, i);
    }
  }

  lemma {:induction false} IsReturned(run: seq<State>, n: nat, item: nat, phase: Phase)
    requires n + 1 < |run| && At(run[n], item, phase) && Remembers(run, n, item, phase) && Follows(run[n].w, item, phase, ValidTempIdentity)
    ensures Returned(run, n + 1, item)
  {
    if phase.ValidDest? {
      assert SeenBack(run, n + 1, item, phase.t, None);
    } else {
      var t :| SeenBack(run, n, item, t, Some(phase.displaced));
      assert ContentBack(run, n + 1, item, t, phase.displaced);
    }
  }

  lemma {:induction false} IdentityFollows(run: seq<State>, n: nat, item: nat, phase: Phase, t: Identity)
    requires n + 1 < |run| && At(run[n], item, phase) && phase.InspectTemp? && IdentityIs(run[n].w, Candidate(item), t)
    ensures Inspected(run, n + 1, item, t)
  {
    assert At(run[n], item, InspectTemp);
  }

  lemma {:induction false} ContentFollows(run: seq<State>, n: nat, item: nat, phase: Phase, c: Content)
    requires n + 1 < |run| && At(run[n], item, phase) && phase.ValidDest? && phase.ds == Some(c)
    requires TriedBack(run, n, item, phase.t, phase.ds) && IdentityIs(run[n].w, Dest(item), phase.t)
    ensures SeenBack(run, n + 1, item, phase.t, Some(c))
  {
    assert At(run[n], item, ValidDest(phase.t, phase.ds));
  }

  /** Phases that carry the identity read under the temporary name. */
  predicate Carries(phase: Phase) {
    phase.TempIdentity? || phase.TempContent? || phase.DestIdentity? || phase.DestContent? || phase.ReadDisplaced? || phase.SwapBack?
  }

  lemma {:induction false} CarriedFollows(run: seq<State>, n: nat, item: nat, phase: Phase, next: Phase)
    requires n + 1 < |run| && At(run[n], item, phase) && Carries(next) && !next.TempIdentity?
    requires Remembers(run, n, item, phase) && Follows(run[n].w, item, phase, next)
    ensures Inspected(run, n + 1, item, next.t)
  {
    assert Carries(phase) && phase.t == next.t;
    InspectedStays(run, n, n + 1, item, next.t);
  }

  lemma {:induction false} CarriedRemembers(run: seq<State>, n: nat, item: nat, phase: Phase)
    requires Carries(phase) && Inspected(run, n, item, phase.t)
    ensures Remembers(run, n, item, phase)
  {
  }

  lemma {:induction false} FollowingRemembers(run: seq<State>, n: nat, item: nat, phase: Phase, next: Phase)
    requires n + 1 < |run| && At(run[n], item, phase) && Remembers(run, n, item, phase) && Follows(run[n].w, item, phase, next)
    ensures Remembers(run, n + 1, item, next)
  {
    if Carries(next) {
      if next.TempIdentity? { IdentityFollows(run, n, item, phase, next.t); } else { CarriedFollows(run, n, item, phase, next); }
      CarriedRemembers(run, n + 1, item, next);
    } else {
      LateRemembers(run, n, item, phase, next);
    }
  }

  lemma {:induction false} LateRemembers(run: seq<State>, n: nat, item: nat, phase: Phase, next: Phase)
    requires n + 1 < |run| && At(run[n], item, phase) && Remembers(run, n, item, phase) && Follows(run[n].w, item, phase, next)
    requires !Carries(next)
    ensures Remembers(run, n + 1, item, next)
  {
    match next
    case ValidContent(c) => ContentFollows(run, n, item, phase, c);
    case ValidTempIdentity => IsReturned(run, n, item, phase);
    case ValidTempContent(_) => ReturnedStays(run, n, n + 1, item);
    case _ =>
  }

  // ---- steps --------------------------------------------------------------------------------

  lemma {:induction false} RollFromAccounted(plan: Plan, run: seq<State>, n: nat, w: World, b: Book, k: nat)
    requires n < |run| && run[n] == RollFrom(w, b, k) && k <= |w.completed| && !b.rollbackComplete
    requires !b.failed ==> AllSettled(run, n, k)
    ensures Accounted(plan, run, n)
  {
  }

  lemma {:induction false} RaiseAccounted(plan: Plan, run: seq<State>, n: nat, w: World, b: Book)
    requires n < |run| && run[n] == Raise(w, b) && !b.rollbackComplete
    ensures Accounted(plan, run, n)
  {
    RollFromAccounted(plan, run, n, w, b, |w.completed|);
  }

  lemma {:induction false} ItemSettled(plan: Plan, run: seq<State>, n: nat)
    requires n + 1 < |run| && Accounted(plan, run, n) && run[n].pc.Roll? && run[n + 1].w == run[n].w && !run[n].b.failed
    requires SettledAt(run, n, Item(run[n].w, run[n].pc.k))
    ensures AllSettled(run, n + 1, run[n].pc.k - 1)
  {
    var k, next := run[n].pc.k, n + 1;
    AllSettledStays(run, n, k);
    assert Settled(run, next, run[next].w.completed[k - 1]);
    forall j | k - 1 <= j < |run[next].w.completed| ensures Settled(run, next, run[next].w.completed[j]) {}
  }

  lemma {:induction false} RollAccounted(plan: Plan, run: seq<State>, n: nat, o: Outcome)
    requires n + 1 < |run| && Accounted(plan, run, n) && Inv(plan, run[n]) && run[n].pc.Roll? && !run[n].pc.phase.SwapBack?
    requires run[n + 1] == ApplyRoll(plan, run[n].w, Faulted(run[n].b, o.Ok?), run[n].pc.k, run[n].pc.phase, o)
    ensures Accounted(plan, run, n + 1)
  {
    var w, b, k, phase := run[n].w, Faulted(run[n].b, o.Ok?), run[n].pc.k, run[n].pc.phase;
    var i, r := Item(w, k), run[n + 1];
    assert i in w.completed;
    ReadingFollows(plan, w, b, k, phase, o);
    if r == RollFailed(w, b, k) {
      RollFromAccounted(plan, run, n + 1, w, b.(failed := true), k - 1);
    } else if r == RollFrom(w, b, k - 1) && Restored(w, i) && (phase.ValidTempContent? || phase.DestIdentity? || phase.DestContent?) {
      assert SettledAt(run, n, i);
      if !b.failed { ItemSettled(plan, run, n); }
      RollFromAccounted(plan, run, n + 1, w, b, k - 1);
    } else if r != Escape(w, b) {
      if !b.failed { AllSettledStays(run, n, k); }
      FollowingRemembers(run, n, i, phase, r.pc.phase);
    }
  }

  lemma {:induction false} SwapBackAccounted(plan: Plan, run: seq<State>, n: nat, o: SwapOutcome)
    requires n + 1 < |run| && Accounted(plan, run, n) && run[n].pc.Roll? && run[n].pc.phase.SwapBack?
    requires o.RaisedBefore? || BothExist(run[n].w.dir, Item(run[n].w, run[n].pc.k))
    requires run[n + 1] == SwapBackStep(run[n].w, Faulted(run[n].b, o.Exchanged?), run[n].pc.k, run[n].pc.phase.t, run[n].pc.phase.ds, o)
    ensures Accounted(plan, run, n + 1)
  {
    var k, phase := run[n].pc.k, run[n].pc.phase;
    assert TriedBack(run, n + 1, Item(run[n].w, k), phase.t, phase.ds);
    if !run[n].b.failed { AllSettledStays(run, n, k); }
  }

  /** Somebody else's step, or one of the cleanup. */
  lemma {:induction false} StaysAccounted(plan: Plan, run: seq<State>, n: nat)
    requires n + 1 < |run| && Accounted(plan, run, n) && run[n + 1].w.completed == run[n].w.completed
    requires run[n + 1].b.rollbackComplete == run[n].b.rollbackComplete && run[n + 1].b.failed == run[n].b.failed
    requires run[n + 1].pc == run[n].pc
             || (run[n].pc.Clean? && (run[n + 1].pc.Clean? || (run[n + 1].pc.Done? && (run[n + 1].pc.report.RolledBack? ==> run[n].b.rollbackComplete))))
    ensures Accounted(plan, run, n + 1)
  {
    var pc := run[n].pc;
    if pc.Roll? {
      if !run[n].b.failed { AllSettledStays(run, n, pc.k); }
      RemembersStays(run, n, n + 1, Item(run[n].w, pc.k), pc.phase);
    } else if (pc.Clean? || pc.Done?) && run[n].b.rollbackComplete {
      AllSettledStays(run, n, 0);
    }
  }

  lemma {:induction false} UnlinkAccounted(plan: Plan, run: seq<State>, n: nat, o: UnlinkOutcome)
    requires n + 1 < |run| && Accounted(plan, run, n) && run[n].pc.Clean?
    requires run[n + 1] == ApplyUnlink(run[n].w, run[n].b, run[n].pc.i, run[n].pc.backup, o)
    ensures Accounted(plan, run, n + 1)
  {
    StaysAccounted(plan, run, n);
  }

  lemma {:induction false} FirstAccounted(plan: Plan, run: seq<State>, n: nat, w: World, b: Book, i: nat, o: StageOutcome)
    requires n < |run| && run[n] == StageFirst(plan, w, b, i, o) && !b.rollbackComplete
    ensures Accounted(plan, run, n)
  {
    match o
    case NotStaged => RaiseAccounted(plan, run, n, w, Faulted(b, false));
    case Left(node, recorded) =>
      RaiseAccounted(plan, run, n, w.(dir := w.dir[Candidate(i) := node], listed := if recorded then i + 1 else w.listed), Faulted(b, false));
    case Staged(_, _) => if i >= |plan| { RaiseAccounted(plan, run, n, w, b); }
  }

  lemma {:induction false} SecondAccounted(plan: Plan, run: seq<State>, n: nat, w: World, b: Book, i: nat, o: StageOutcome)
    requires n < |run| && run[n] == StageSecond(plan, w, b, i, o) && !b.rollbackComplete
    ensures Accounted(plan, run, n)
  {
    match o
    case NotStaged => RaiseAccounted(plan, run, n, w, Faulted(b, false));
    case Left(node, recorded) =>
      RaiseAccounted(plan, run, n, w.(dir := w.dir[Backup(i) := node]), Faulted(if recorded then b.(backups := b.backups + {i}) else b, false));
    case Staged(_, _) => if i >= |plan| { RaiseAccounted(plan, run, n, w, b); }
  }

  lemma {:induction false} MovedAccounted(plan: Plan, run: seq<State>, n: nat, pc: Pc, w: World, b: Book)
    requires n < |run| && Moves(plan, pc, w, b, run[n]) && !b.rollbackComplete
    ensures Accounted(plan, run, n)
  {
    var t := run[n];
    if t == Raise(w, b) || t == Unrecorded(w, b) {
      RaiseAccounted(plan, run, n, w, if t == Raise(w, b) then b else b.(escapes := true));
    } else if (pc.ClassifyDest? || pc.ClassifyTemp?) && t == Raise(Recorded(w, pc.i), b) {
      RaiseAccounted(plan, run, n, Recorded(w, pc.i), b);
    }
  }

  lemma {:induction false} DoAccounted(plan: Plan, run: seq<State>, n: nat, o: Outcome)
    requires n + 1 < |run| && Accounted(plan, run, n) && Tidy(plan, run[n]) && !Ended(run[n].pc) && !Stages(run[n].pc) && !Exchanges(run[n].pc)
    requires run[n + 1] == ApplyDo(plan, run[n].pc, run[n].w, Faulted(run[n].b, o.Ok?), o)
    ensures Accounted(plan, run, n + 1)
  {
    DoMoves(plan, run[n].pc, run[n].w, Faulted(run[n].b, o.Ok?), o);
    MovedAccounted(plan, run, n + 1, run[n].pc, run[n].w, Faulted(run[n].b, o.Ok?));
  }

  lemma {:induction false} StepAccounted(plan: Plan, run: seq<State>, n: nat, step: Step)
    requires n + 1 < |run| && Accounted(plan, run, n) && Inv(plan, run[n]) && Tidy(plan, run[n])
    requires Enabled(plan, run[n], step) && run[n + 1] == Apply(plan, run[n], step)
    ensures Accounted(plan, run, n + 1)
  {
    match step
    case Write(_, _) => StaysAccounted(plan, run, n);
    case Remove(_) => StaysAccounted(plan, run, n);
    case Stage(o) =>
      if run[n].pc.StageCandidate? {
        FirstAccounted(plan, run, n + 1, run[n].w, run[n].b, run[n].pc.i, o);
      } else {
        SecondAccounted(plan, run, n + 1, run[n].w, run[n].b, run[n].pc.i, o);
      }
    case Swap(o) => if run[n].pc.Roll? { SwapBackAccounted(plan, run, n, o); }
    case Unlink(o) => UnlinkAccounted(plan, run, n, o);
    case Do(o) =>
      if run[n].pc.Roll? {
        RollAccounted(plan, run, n, o);
      } else if !run[n].pc.WriteRecovery? {
        DoAccounted(plan, run, n, o);
      }
  }

  lemma {:induction false} NextAccounted(plan: Plan, run: seq<State>, n: nat)
    requires n + 1 < |run| && Accounted(plan, run, n) && Inv(plan, run[n]) && Tidy(plan, run[n]) && Next(plan, run[n], run[n + 1])
    ensures Accounted(plan, run, n + 1)
  {
    var step :| Enabled(plan, run[n], step) && run[n + 1] == Apply(plan, run[n], step);
    StepAccounted(plan, run, n, step);
  }

  lemma {:induction false} EveryStateAccounted(plan: Plan, run: seq<State>, n: nat)
    requires IsRun(plan, run) && n < |run|
    ensures Accounted(plan, run, n)
  {
    if n > 0 {
      var before: nat := n - 1;
      EveryStateAccounted(plan, run, before);
      EveryStateInv(plan, run, before);
      EveryStateTidy(plan, run, before);
      NextAccounted(plan, run, before);
    }
  }

  /** Whoever else writes: when a rollback is reported, of every recorded exchange the staged
      candidate was seen under its temporary name, and if it took an exchange back to get it
      there, the file that the exchange brought back was seen at the destination after it: by
      the identity it had had under the temporary name, and by its content if that could be
      read. */
  lemma {:induction false} RollbackIsVouched(plan: Plan, run: seq<State>, item: nat)
    requires IsRun(plan, run) && run[|run| - 1].pc == Done(RolledBack) && item in run[|run| - 1].w.completed
    ensures Settled(run, |run| - 1, item)
  {
    EveryStateAccounted(plan, run, |run| - 1);
    var w := run[|run| - 1].w;
    var j :| 0 <= j < |w.completed| && w.completed[j] == item;
  }
}
