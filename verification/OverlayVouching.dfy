/** What a normal return of `apply_promoted_overlay` vouches for, whoever else writes: what was
    seen, and when, at every destination before its exchange and in the pass after the last. */
module OverlayVouching {
  import opened OverlayTransaction
  import opened OverlaySafety
  import opened OverlayTemporaries

  /** In the comparisons made of all items after the last exchange. */
  predicate InPass(pc: Pc) {
    pc.Verify? && pc.final
  }

  /** The staged candidate's inode is at its destination. */
  predicate InodeAt(s: State, item: nat) {
    item in s.w.cand && Dest(item) in s.w.dir && s.w.dir[Dest(item)].ino == s.w.cand[item].ino
  }

  /** Nobody gets the inode number of a staged candidate again once its file is gone. */
  ghost predicate KeepsInodes(run: seq<State>) {
    forall i, item :: 0 <= i < |run| - 1 && InodeAt(run[i + 1], item) && item in run[i].w.cand ==>
      InodeAt(run[i], item) || (Candidate(item) in run[i].w.dir && run[i].w.dir[Candidate(item)].ino == run[i].w.cand[item].ino)
  }

  // ---- what was seen ------------------------------------------------------------------------

  /** After staging and before any exchange the destination had the bound bytes and mode. */
  ghost predicate BaseSeenAt(plan: Plan, run: seq<State>, c: int, item: nat) {
    && 0 <= c < |run| && item < |plan| && run[c].pc == CheckBase(item) && run[c].w.touched == {}
    && ContentIs(run[c].w, Dest(item), BaseContent(plan[item]))
  }

  ghost predicate BaseSeen(plan: Plan, run: seq<State>, n: nat, item: nat) {
    exists c :: 0 <= c < n && BaseSeenAt(plan, run, c, item)
  }

  /** So it had just before its exchange, ... */
  ghost predicate CheckedAt(plan: Plan, run: seq<State>, c: int, item: nat) {
    && 0 <= c < |run| && item < |plan| && run[c].pc == PublishCheck(item)
    && ContentIs(run[c].w, Dest(item), BaseContent(plan[item]))
  }

  /** ... when its identity was read, ... */
  ghost predicate IdentifiedAt(run: seq<State>, y: int, item: nat, id: Identity) {
    0 <= y < |run| && run[y].pc == PublishIdentity(item) && IdentityIs(run[y].w, Dest(item), id)
  }

  ghost predicate Identified(plan: Plan, run: seq<State>, n: nat, item: nat)
    requires n < |run|
  {
    item in run[n].b.previous
    && exists c, y :: 0 <= c < y < n && CheckedAt(plan, run, c, item) && IdentifiedAt(run, y, item, run[n].b.previous[item])
  }

  /** ... and the file the exchange found there. */
  ghost predicate FoundAt(run: seq<State>, x: int, item: nat, node: Node) {
    0 <= x < |run| && run[x].pc == Publish(item) && Dest(item) in run[x].w.dir && run[x].w.dir[Dest(item)] == node
  }

  ghost predicate MovedBefore(plan: Plan, run: seq<State>, n: int, item: nat, id: Identity, node: Node) {
    exists c, y, x :: 0 <= c < y < x < n && CheckedAt(plan, run, c, item) && IdentifiedAt(run, y, item, id) && FoundAt(run, x, item, node)
  }

  /** Since its exchange the item's displaced file is under its temporary name. */
  ghost predicate Moved(plan: Plan, run: seq<State>, n: nat, item: nat)
    requires n < |run|
  {
    && item in run[n].b.previous && item in run[n].w.cand && Candidate(item) in run[n].w.dir
    && MovedBefore(plan, run, n, item, run[n].b.previous[item], run[n].w.dir[Candidate(item)])
  }

  /** The new bytes and mode at the destination, in the pass, with the displaced file aside. */
  ghost predicate ContentSeenAt(plan: Plan, run: seq<State>, a: int, item: nat, node: Node) {
    && 0 <= a < |run| && item < |plan| && InPass(run[a].pc) && ContentIs(run[a].w, Dest(item), CandidateContent(plan[item]))
    && Candidate(item) in run[a].w.dir && run[a].w.dir[Candidate(item)] == node
  }

  /** The staged candidate's identity there. */
  ghost predicate IdentitySeenAt(run: seq<State>, b: int, item: nat, node: Node) {
    && 0 <= b < |run| && InPass(run[b].pc) && item in run[b].w.cand && IdentityIs(run[b].w, Dest(item), IdentityOf(run[b].w.cand[item]))
    && Candidate(item) in run[b].w.dir && run[b].w.dir[Candidate(item)] == node
  }

  ghost predicate ContentSeen(plan: Plan, run: seq<State>, n: nat, item: nat)
    requires n < |run|
  {
    && Candidate(item) in run[n].w.dir && item in run[n].b.previous
    && exists a :: 0 <= a < n && ContentSeenAt(plan, run, a, item, run[n].w.dir[Candidate(item)])
         && MovedBefore(plan, run, a, item, run[n].b.previous[item], run[n].w.dir[Candidate(item)])
         && (KeepsInodes(run) && InodeAt(run[n], item) ==> InodeAt(run[a], item))
  }

  ghost predicate BothSeen(plan: Plan, run: seq<State>, n: nat, item: nat)
    requires n < |run|
  {
    && Candidate(item) in run[n].w.dir && item in run[n].b.previous
    && exists a, b :: 0 <= a < b < n && ContentSeenAt(plan, run, a, item, run[n].w.dir[Candidate(item)])
         && MovedBefore(plan, run, a, item, run[n].b.previous[item], run[n].w.dir[Candidate(item)])
         && IdentitySeenAt(run, b, item, run[n].w.dir[Candidate(item)])
         && (KeepsInodes(run) ==> InodeAt(run[a], item))
  }

  /** Everything a normal return vouches for about one item: before its exchange the
      destination had the bound bytes and mode, then the identity of the file that the
      exchange found, which had the bound bytes and mode too; in the pass after the last
      exchange, with that file under the temporary name, the destination had the new bytes and
      mode and then the staged candidate's identity. */
  ghost predicate VouchedAt(plan: Plan, run: seq<State>, item: nat, c: int, y: int, x: int, a: int, b: int, node: Node) {
    && 0 <= c < y < x < a < b < |run| && item < |plan|
    && CheckedAt(plan, run, c, item) && IdentifiedAt(run, y, item, IdentityOf(node)) && FoundAt(run, x, item, node)
    && ContentOf(node) == BaseContent(plan[item])
    && ContentSeenAt(plan, run, a, item, node) && IdentitySeenAt(run, b, item, node)
    && (KeepsInodes(run) ==> InodeAt(run[a], item))
  }

  ghost predicate Vouched(plan: Plan, run: seq<State>, n: nat, item: nat) {
    exists c, y, x, a, b, node :: b < n && VouchedAt(plan, run, item, c, y, x, a, b, node)
  }

  // ---- what holds at each step --------------------------------------------------------------

  ghost predicate AllBaseSeen(plan: Plan, run: seq<State>, n: nat, m: nat) {
    forall j: nat :: j < m ==> BaseSeen(plan, run, n, j)
  }

  ghost predicate AllMoved(plan: Plan, run: seq<State>, n: nat, m: nat)
    requires n < |run|
  {
    forall j: nat :: j < m ==> Moved(plan, run, n, j)
  }

  ghost predicate AllVouched(plan: Plan, run: seq<State>, n: nat, m: nat) {
    forall j: nat :: j < m ==> Vouched(plan, run, n, j)
  }

  ghost predicate Publishes(plan: Plan, run: seq<State>, n: nat, i: nat)
    requires n < |run|
  {
    i < |plan| && AllBaseSeen(plan, run, n, |plan|) && AllMoved(plan, run, n, i)
  }

  ghost predicate Passing(plan: Plan, run: seq<State>, n: nat, i: nat, k: nat)
    requires n < |run|
  {
    && i < |plan| && AllMoved(plan, run, n, |plan|) && AllVouched(plan, run, n, i)
    && (k == 1 || k == 2 ==> ContentSeen(plan, run, n, i))
    && (k >= 2 ==> ContentIs(run[n].w, Candidate(i), BaseContent(plan[i])))
    && (k >= 3 ==> BothSeen(plan, run, n, i))
  }

  ghost predicate Seen(plan: Plan, run: seq<State>, n: nat)
    requires n < |run|
  {
    match run[n].pc
    case CheckBase(i) => i < |plan| && AllBaseSeen(plan, run, n, i)
    case PublishPaths(i) => Publishes(plan, run, n, i)
    case PublishCheck(i) => Publishes(plan, run, n, i)
    case PublishIdentity(i) => Publishes(plan, run, n, i) && exists c :: 0 <= c < n && CheckedAt(plan, run, c, i)
    case Publish(i) => Publishes(plan, run, n, i) && Identified(plan, run, n, i)
    case Verify(false, i, k) => Publishes(plan, run, n, i) && AllMoved(plan, run, n, i + 1)
    case Verify(true, i, k) => Passing(plan, run, n, i, k)
    case ValidatePublished => AllVouched(plan, run, n, |plan|)
    case Clean(_, _) => run[n].b.publishedAll ==> AllVouched(plan, run, n, |plan|)
    case Done(report) => (report.Published? ==> run[n].b.publishedAll) && (run[n].b.publishedAll ==> AllVouched(plan, run, n, |plan|))
    case _ => true
  }

  // ---- nothing seen is unseen ---------------------------------------------------------------

  /** What a step leaves of an item's temporary and of what is recorded about it. */
  ghost predicate SameItem(s: State, t: State, item: nat) {
    && (item in s.w.cand ==> item in t.w.cand && t.w.cand[item] == s.w.cand[item])
    && (item in s.b.previous ==> item in t.b.previous && t.b.previous[item] == s.b.previous[item])
    && (Candidate(item) in s.w.dir ==> Candidate(item) in t.w.dir && t.w.dir[Candidate(item)] == s.w.dir[Candidate(item)])
  }

  ghost predicate SameItems(s: State, t: State, m: nat) {
    forall j: nat :: j < m ==> SameItem(s, t, j)
  }

  lemma {:induction false} MovedStays(plan: Plan, run: seq<State>, n: nat, item: nat)
    requires n + 1 < |run| && Moved(plan, run, n, item) && SameItem(run[n], run[n + 1], item)
    ensures Moved(plan, run, n + 1, item)
  {
  }

  lemma {:induction false} AllMovedStays(plan: Plan, run: seq<State>, n: nat, m: nat)
    requires n + 1 < |run| && AllMoved(plan, run, n, m) && SameItems(run[n], run[n + 1], m)
    ensures AllMoved(plan, run, n + 1, m)
  {
    var next := n + 1;
    forall j: nat | j < m ensures Moved(plan, run, next, j) { MovedStays(plan, run, n, j); }
  }

  lemma {:induction false} BaseSeenStays(plan: Plan, run: seq<State>, n: nat, m: nat)
    requires AllBaseSeen(plan, run, n, m)
    ensures AllBaseSeen(plan, run, n + 1, m)
  {
    var next := n + 1;
    forall j: nat | j < m ensures BaseSeen(plan, run, next, j) { assert BaseSeen(plan, run, n, j); }
  }

  lemma {:induction false} VouchedStays(plan: Plan, run: seq<State>, n: nat, m: nat)
    requires AllVouched(plan, run, n, m)
    ensures AllVouched(plan, run, n + 1, m)
  {
    var next := n + 1;
    forall j: nat | j < m ensures Vouched(plan, run, next, j) {
      assert Vouched(plan, run, n, j);
      var c, y, x, a, b, node :| b < n && VouchedAt(plan, run, j, c, y, x, a, b, node);
      assert b < next && VouchedAt(plan, run, j, c, y, x, a, b, node);
    }
  }

  /** The inode does not come back to the destination in the pass. */
  lemma {:induction false} InodeWasThere(plan: Plan, run: seq<State>, n: nat, item: nat)
    requires n + 1 < |run| && Core(plan, run[n + 1].w) && SameItem(run[n], run[n + 1], item)
    requires item in run[n].w.cand && Candidate(item) in run[n].w.dir
    ensures KeepsInodes(run) && InodeAt(run[n + 1], item) ==> InodeAt(run[n], item)
  {
    if KeepsInodes(run) && InodeAt(run[n + 1], item) {
      var dir := run[n + 1].w.dir;
      assert dir[Candidate(item)].ino != dir[Dest(item)].ino;
    }
  }

  lemma {:induction false} ContentSeenStays(plan: Plan, run: seq<State>, n: nat, item: nat)
    requires n + 1 < |run| && ContentSeen(plan, run, n, item) && SameItem(run[n], run[n + 1], item)
    requires Core(plan, run[n + 1].w) && item in run[n].w.cand
    ensures ContentSeen(plan, run, n + 1, item)
  {
    InodeWasThere(plan, run, n, item);
    var a :| 0 <= a < n && ContentSeenAt(plan, run, a, item, run[n].w.dir[Candidate(item)])
      && MovedBefore(plan, run, a, item, run[n].b.previous[item], run[n].w.dir[Candidate(item)])
      && (KeepsInodes(run) && InodeAt(run[n], item) ==> InodeAt(run[a], item));
    assert ContentSeenAt(plan, run, a, item, run[n + 1].w.dir[Candidate(item)]);
  }

  lemma {:induction false} BothSeenStays(plan: Plan, run: seq<State>, n: nat, item: nat)
    requires n + 1 < |run| && BothSeen(plan, run, n, item) && SameItem(run[n], run[n + 1], item)
    ensures BothSeen(plan, run, n + 1, item)
  {
  }

  // ---- steps --------------------------------------------------------------------------------

  lemma {:induction false} OthersChangeNoItem(plan: Plan, s: State, step: Step, item: nat)
    requires Enabled(plan, s, step) && (step.Write? || step.Remove?)
    ensures var t := Apply(plan, s, step); SameItem(s, t, item) && t.pc == s.pc && t.b.publishedAll == s.b.publishedAll
  {
  }

  lemma {:induction false} PassStays(plan: Plan, run: seq<State>, n: nat, i: nat, k: nat)
    requires n + 1 < |run| && Passing(plan, run, n, i, k) && Core(plan, run[n + 1].w)
    requires SameItems(run[n], run[n + 1], |plan|)
    ensures Passing(plan, run, n + 1, i, k)
  {
    AllMovedStays(plan, run, n, |plan|);
    VouchedStays(plan, run, n, i);
    assert Moved(plan, run, n, i);
    if k == 1 || k == 2 { ContentSeenStays(plan, run, n, i); }
    if k >= 3 { BothSeenStays(plan, run, n, i); }
  }

  /** A write by somebody else. */
  lemma {:induction false} OthersKeepSeen(plan: Plan, run: seq<State>, n: nat, step: Step)
    requires n + 1 < |run| && Seen(plan, run, n) && Core(plan, run[n + 1].w)
    requires Enabled(plan, run[n], step) && (step.Write? || step.Remove?) && run[n + 1] == Apply(plan, run[n], step)
    ensures Seen(plan, run, n + 1)
  {
    var s, t := run[n], run[n + 1];
    forall j: nat ensures SameItem(s, t, j) { OthersChangeNoItem(plan, s, step, j); }
    OthersChangeNoItem(plan, s, step, 0);
    match s.pc
    case CheckBase(i) => BaseSeenStays(plan, run, n, i);
    case PublishPaths(i) => PublishesStays(plan, run, n, i);
    case PublishCheck(i) => PublishesStays(plan, run, n, i);
    case PublishIdentity(i) => PublishesStays(plan, run, n, i);
    case Publish(i) => PublishesStays(plan, run, n, i);
    case Verify(final, i, k) =>
      if final {
        PassStays(plan, run, n, i, k);
      } else {
        PublishesStays(plan, run, n, i);
        AllMovedStays(plan, run, n, i + 1);
      }
    case ValidatePublished => VouchedStays(plan, run, n, |plan|);
    case Clean(_, _) => if s.b.publishedAll { VouchedStays(plan, run, n, |plan|); }
    case _ =>
  }

  lemma {:induction false} PublishesStays(plan: Plan, run: seq<State>, n: nat, i: nat)
    requires n + 1 < |run| && Publishes(plan, run, n, i) && SameItems(run[n], run[n + 1], i)
    ensures Publishes(plan, run, n + 1, i)
  {
    BaseSeenStays(plan, run, n, |plan|);
    AllMovedStays(plan, run, n, i);
  }

  /** A raise leads where nothing is vouched for. */
  lemma {:induction false} RaisedSeesNothing(plan: Plan, run: seq<State>, n: nat, w: World, b: Book)
    requires n < |run| && run[n] == Raise(w, b) && !b.publishedAll
    ensures Seen(plan, run, n)
  {
  }

  lemma {:induction false} NextPublishSeen(plan: Plan, run: seq<State>, n: nat, i: nat)
    requires n < |run| && run[n].pc == NextPublish(plan, i) && i <= |plan| && |plan| > 0
    requires AllBaseSeen(plan, run, n, |plan|) && AllMoved(plan, run, n, i)
    ensures Seen(plan, run, n)
  {
  }

  lemma {:induction false} CheckBaseKeepsSeen(plan: Plan, run: seq<State>, n: nat, o: Outcome)
    requires n + 1 < |run| && Seen(plan, run, n) && run[n].pc.CheckBase? && Inv(plan, run[n]) && !run[n].b.publishedAll
    requires run[n + 1] == ApplyDo(plan, run[n].pc, run[n].w, Faulted(run[n].b, o.Ok?), o)
    ensures Seen(plan, run, n + 1)
  {
    var i, w := run[n].pc.i, run[n].w;
    if o.Ok? && ContentIs(w, Dest(i), BaseContent(plan[i])) {
      assert BaseSeenAt(plan, run, n, i);
      BaseSeenStays(plan, run, n, i);
      assert BaseSeen(plan, run, n + 1, i);
      assert AllBaseSeen(plan, run, n + 1, i + 1);
      if i + 1 == |plan| { NextPublishSeen(plan, run, n + 1, 0); }
    } else {
      RaisedSeesNothing(plan, run, n + 1, w, Faulted(run[n].b, o.Ok?));
    }
  }

  lemma {:induction false} PublishCheckKeepsSeen(plan: Plan, run: seq<State>, n: nat, o: Outcome)
    requires n + 1 < |run| && Seen(plan, run, n) && !run[n].b.publishedAll
    requires run[n].pc.PublishPaths? || run[n].pc.PublishCheck?
    requires run[n + 1] == ApplyDo(plan, run[n].pc, run[n].w, Faulted(run[n].b, o.Ok?), o)
    ensures Seen(plan, run, n + 1)
  {
    var i := run[n].pc.i;
    if run[n + 1] == Raise(run[n].w, Faulted(run[n].b, o.Ok?)) {
      RaisedSeesNothing(plan, run, n + 1, run[n].w, Faulted(run[n].b, o.Ok?));
    } else {
      PublishesStays(plan, run, n, i);
      if run[n].pc.PublishCheck? { assert CheckedAt(plan, run, n, i); }
    }
  }

  lemma {:induction false} PublishIdentityKeepsSeen(plan: Plan, run: seq<State>, n: nat, o: Outcome)
    requires n + 1 < |run| && Seen(plan, run, n) && !run[n].b.publishedAll && run[n].pc.PublishIdentity?
    requires run[n + 1] == ApplyDo(plan, run[n].pc, run[n].w, Faulted(run[n].b, o.Ok?), o)
    ensures Seen(plan, run, n + 1)
  {
    var i, w := run[n].pc.i, run[n].w;
    if o.Ok? && Dest(i) in w.dir {
      PublishesStays(plan, run, n, i);
      var c :| 0 <= c < n && CheckedAt(plan, run, c, i);
      assert IdentifiedAt(run, n, i, run[n + 1].b.previous[i]);
      assert Identified(plan, run, n + 1, i);
    } else {
      RaisedSeesNothing(plan, run, n + 1, w, Faulted(run[n].b, o.Ok?));
    }
  }

  lemma {:induction false} ExchangedIsMoved(plan: Plan, run: seq<State>, n: nat, i: nat)
    requires n + 1 < |run| && run[n].pc == Publish(i) && Identified(plan, run, n, i) && i in run[n].w.cand
    requires BothExist(run[n].w.dir, i) && run[n + 1].w == Recorded(Landed(run[n].w, i), i) && run[n + 1].b.previous == run[n].b.previous
    ensures Moved(plan, run, n + 1, i)
  {
    var id, node := run[n].b.previous[i], run[n].w.dir[Dest(i)];
    assert run[n + 1].w.dir[Candidate(i)] == node;
    assert FoundAt(run, n, i, node);
    var c, y :| 0 <= c < y < n && CheckedAt(plan, run, c, i) && IdentifiedAt(run, y, i, id);
    assert MovedBefore(plan, run, n + 1, i, id, node);
  }

  lemma {:induction false} ExchangeKeepsSeen(plan: Plan, run: seq<State>, n: nat, i: nat)
    requires n + 1 < |run| && Seen(plan, run, n) && run[n].pc == Publish(i) && CandidatesBelow(run[n].w, |plan|)
    requires BothExist(run[n].w.dir, i) && run[n + 1].w == Recorded(Landed(run[n].w, i), i) && run[n + 1].b.previous == run[n].b.previous
    requires run[n + 1].pc == Verify(false, i, 0)
    ensures Seen(plan, run, n + 1)
  {
    PublishesStays(plan, run, n, i);
    ExchangedIsMoved(plan, run, n, i);
    assert AllMoved(plan, run, n + 1, i + 1);
  }

  lemma {:induction false} FirstVerifyKeepsSeen(plan: Plan, run: seq<State>, n: nat, o: Outcome)
    requires n + 1 < |run| && Seen(plan, run, n) && !run[n].b.publishedAll && run[n].pc.Verify? && !run[n].pc.final
    requires run[n + 1] == ApplyDo(plan, run[n].pc, run[n].w, Faulted(run[n].b, o.Ok?), o)
    ensures Seen(plan, run, n + 1)
  {
    var i := run[n].pc.i;
    if run[n + 1] == Raise(run[n].w, Faulted(run[n].b, o.Ok?)) {
      RaisedSeesNothing(plan, run, n + 1, run[n].w, Faulted(run[n].b, o.Ok?));
    } else {
      PublishesStays(plan, run, n, i);
      AllMovedStays(plan, run, n, i + 1);
      if run[n].pc.k >= 3 { NextPublishSeen(plan, run, n + 1, i + 1); }
    }
  }

  lemma {:induction false} ContentIsSeen(plan: Plan, run: seq<State>, n: nat, i: nat)
    requires n + 1 < |run| && Passing(plan, run, n, i, 0) && InPass(run[n].pc) && run[n + 1].w == run[n].w && run[n + 1].b.previous == run[n].b.previous
    requires ContentIs(run[n].w, Dest(i), CandidateContent(plan[i]))
    ensures ContentSeen(plan, run, n + 1, i)
  {
    assert Moved(plan, run, n, i);
    assert ContentSeenAt(plan, run, n, i, run[n + 1].w.dir[Candidate(i)]);
  }

  lemma {:induction false} IdentityIsSeen(plan: Plan, run: seq<State>, n: nat, i: nat)
    requires n + 1 < |run| && Passing(plan, run, n, i, 2) && InPass(run[n].pc) && run[n + 1].w == run[n].w && run[n + 1].b.previous == run[n].b.previous
    requires i in run[n].w.cand && IdentityIs(run[n].w, Dest(i), IdentityOf(run[n].w.cand[i]))
    ensures BothSeen(plan, run, n + 1, i)
  {
    var node := run[n].w.dir[Candidate(i)];
    assert IdentitySeenAt(run, n, i, node);
    var a :| 0 <= a < n && ContentSeenAt(plan, run, a, i, node) && MovedBefore(plan, run, a, i, run[n].b.previous[i], node)
      && (KeepsInodes(run) && InodeAt(run[n], i) ==> InodeAt(run[a], i));
    assert run[n + 1].b.previous == run[n].b.previous;
  }

  lemma {:induction false} SeenTogether(plan: Plan, run: seq<State>, n: nat, i: nat, a: int, b: int, id: Identity, node: Node)
    requires i < |plan| && 0 <= a < b < n && MovedBefore(plan, run, a, i, id, node) && id == IdentityOf(node) && ContentOf(node) == BaseContent(plan[i])
    requires ContentSeenAt(plan, run, a, i, node) && IdentitySeenAt(run, b, i, node) && (KeepsInodes(run) ==> InodeAt(run[a], i))
    ensures Vouched(plan, run, n, i)
  {
    var c, y, x :| 0 <= c < y < x < a && CheckedAt(plan, run, c, i) && IdentifiedAt(run, y, i, id) && FoundAt(run, x, i, node);
    assert VouchedAt(plan, run, i, c, y, x, a, b, node);
  }

  /** All four comparisons of one item have held. */
  lemma {:induction false} ItemIsVouched(plan: Plan, run: seq<State>, n: nat, i: nat, k: nat)
    requires n + 1 < |run| && k >= 3 && Passing(plan, run, n, i, k)
    requires i in run[n].b.previous && IdentityIs(run[n].w, Candidate(i), run[n].b.previous[i])
    ensures Vouched(plan, run, n + 1, i)
  {
    var node, id := run[n].w.dir[Candidate(i)], run[n].b.previous[i];
    var a, b :| 0 <= a < b < n && ContentSeenAt(plan, run, a, i, node) && MovedBefore(plan, run, a, i, id, node)
      && IdentitySeenAt(run, b, i, node) && (KeepsInodes(run) ==> InodeAt(run[a], i));
    SeenTogether(plan, run, n + 1, i, a, b, id, node);
  }

  lemma {:induction false} FourthHolds(plan: Plan, run: seq<State>, n: nat, i: nat, k: nat)
    requires n + 1 < |run| && k >= 3 && Passing(plan, run, n, i, k) && i in run[n].b.previous
    requires IdentityIs(run[n].w, Candidate(i), run[n].b.previous[i])
    ensures AllVouched(plan, run, n + 1, i + 1)
  {
    VouchedStays(plan, run, n, i);
    ItemIsVouched(plan, run, n, i, k);
  }

  lemma {:induction false} NextComparison(plan: Plan, run: seq<State>, n: nat, i: nat, k: nat)
    requires n + 1 < |run| && k < 3 && Passing(plan, run, n, i, k) && InPass(run[n].pc) && Core(plan, run[n + 1].w)
    requires run[n + 1].w == run[n].w && run[n + 1].b.previous == run[n].b.previous && VerifyHolds(plan, run[n].w, run[n].b, i, k)
    ensures Passing(plan, run, n + 1, i, k + 1)
  {
    assert SameItems(run[n], run[n + 1], |plan|);
    PassStays(plan, run, n, i, k);
    match k
    case 0 => ContentIsSeen(plan, run, n, i);
    case 1 =>
    case _ => IdentityIsSeen(plan, run, n, i);
  }

  lemma {:induction false} PassKeepsSeen(plan: Plan, run: seq<State>, n: nat, o: Outcome)
    requires n + 1 < |run| && Seen(plan, run, n) && !run[n].b.publishedAll && InPass(run[n].pc)
    requires Core(plan, run[n + 1].w)
    requires run[n + 1] == ApplyDo(plan, run[n].pc, run[n].w, Faulted(run[n].b, o.Ok?), o)
    ensures Seen(plan, run, n + 1)
  {
    var i, k, w, b := run[n].pc.i, run[n].pc.k, run[n].w, Faulted(run[n].b, o.Ok?);
    if !(o.Ok? && VerifyHolds(plan, w, b, i, k)) {
      RaisedSeesNothing(plan, run, n + 1, w, b);
    } else if k < 3 {
      NextComparison(plan, run, n, i, k);
    } else {
      FourthHolds(plan, run, n, i, k);
      AllMovedStays(plan, run, n, |plan|);
      assert run[n + 1] == State(NextVerify(plan, i + 1), w, b);
    }
  }

  lemma {:induction false} DoPublishesNothing(plan: Plan, pc: Pc, w: World, b: Book, o: Outcome)
    requires !pc.ValidatePublished?
    ensures ApplyDo(plan, pc, w, b, o).b.publishedAll == b.publishedAll
  {
  }

  lemma {:induction false} ValidatedKeepsSeen(plan: Plan, run: seq<State>, n: nat, o: Outcome)
    requires n + 1 < |run| && Seen(plan, run, n) && !run[n].b.publishedAll
    requires run[n].pc.ValidateStaged? || run[n].pc.ValidatePublished?
    requires run[n + 1] == ApplyDo(plan, run[n].pc, run[n].w, Faulted(run[n].b, o.Ok?), o)
    ensures Seen(plan, run, n + 1)
  {
    if !o.Ok? {
      RaisedSeesNothing(plan, run, n + 1, run[n].w, Faulted(run[n].b, o.Ok?));
    } else if run[n].pc.ValidatePublished? {
      VouchedStays(plan, run, n, |plan|);
    }
  }

  /** Steps that neither publish nor look at anything vouched for. */
  predicate Elsewhere(pc: Pc) {
    pc.RecordIdentity? || pc.ClassifyDest? || pc.ClassifyTemp? || pc.WriteRecovery?
  }

  lemma {:induction false} ElsewhereKeepsSeen(plan: Plan, run: seq<State>, n: nat, o: Outcome)
    requires n + 1 < |run| && Elsewhere(run[n].pc) && !run[n].b.publishedAll
    requires run[n + 1] == ApplyDo(plan, run[n].pc, run[n].w, Faulted(run[n].b, o.Ok?), o)
    ensures Seen(plan, run, n + 1)
  {
    DoPublishesNothing(plan, run[n].pc, run[n].w, Faulted(run[n].b, o.Ok?), o);
  }

  lemma {:induction false} DoKeepsSeen(plan: Plan, run: seq<State>, n: nat, o: Outcome)
    requires n + 1 < |run| && Seen(plan, run, n) && Inv(plan, run[n]) && Core(plan, run[n + 1].w)
    requires !run[n].b.publishedAll && !run[n].pc.Roll? && Enabled(plan, run[n], Do(o))
    requires run[n + 1] == ApplyDo(plan, run[n].pc, run[n].w, Faulted(run[n].b, o.Ok?), o)
    ensures Seen(plan, run, n + 1)
  {
    match run[n].pc
    case CheckBase(_) => CheckBaseKeepsSeen(plan, run, n, o);
    case PublishPaths(_) => PublishCheckKeepsSeen(plan, run, n, o);
    case PublishCheck(_) => PublishCheckKeepsSeen(plan, run, n, o);
    case PublishIdentity(_) => PublishIdentityKeepsSeen(plan, run, n, o);
    case Verify(final, _, _) => if final { PassKeepsSeen(plan, run, n, o); } else { FirstVerifyKeepsSeen(plan, run, n, o); }
    case ValidateStaged => ValidatedKeepsSeen(plan, run, n, o);
    case ValidatePublished => ValidatedKeepsSeen(plan, run, n, o);
    case _ => ElsewhereKeepsSeen(plan, run, n, o);
  }

  lemma {:induction false} RollKeepsSeen(plan: Plan, run: seq<State>, n: nat, o: Outcome)
    requires n + 1 < |run| && run[n].pc.Roll? && !run[n].b.publishedAll && Inv(plan, run[n]) && Enabled(plan, run[n], Do(o))
    requires run[n + 1] == ApplyRoll(plan, run[n].w, Faulted(run[n].b, o.Ok?), run[n].pc.k, run[n].pc.phase, o)
    ensures Seen(plan, run, n + 1)
  {
    var w, k := run[n].w, run[n].pc.k;
    assert Item(w, k) in w.completed;
    ReadRollsOn(plan, w, Faulted(run[n].b, o.Ok?), k, run[n].pc.phase, o);
  }

  lemma {:induction false} StageKeepsSeen(plan: Plan, run: seq<State>, n: nat, o: StageOutcome)
    requires n + 1 < |run| && !run[n].b.publishedAll && Enabled(plan, run[n], Stage(o))
    requires run[n + 1] == if run[n].pc.StageCandidate? then StageFirst(plan, run[n].w, run[n].b, run[n].pc.i, o)
                           else StageSecond(plan, run[n].w, run[n].b, run[n].pc.i, o)
    ensures Seen(plan, run, n + 1)
  {
    if run[n].pc.StageCandidate? {
      match o
      case Staged(_, _) =>
      case NotStaged =>
      case Left(_, _) =>
    }
  }

  lemma {:induction false} SwapKeepsSeen(plan: Plan, run: seq<State>, n: nat, o: SwapOutcome)
    requires n + 1 < |run| && Seen(plan, run, n) && Inv(plan, run[n])
    requires Enabled(plan, run[n], Swap(o)) && run[n + 1] == Apply(plan, run[n], Swap(o))
    ensures Seen(plan, run, n + 1)
  {
    if run[n].pc.Publish? && o.Exchanged? { ExchangeKeepsSeen(plan, run, n, run[n].pc.i); }
  }

  lemma {:induction false} UnlinkKeepsSeen(plan: Plan, run: seq<State>, n: nat, o: UnlinkOutcome)
    requires n + 1 < |run| && Seen(plan, run, n)
    requires Enabled(plan, run[n], Unlink(o)) && run[n + 1] == ApplyUnlink(run[n].w, run[n].b, run[n].pc.i, run[n].pc.backup, o)
    ensures Seen(plan, run, n + 1)
  {
    if run[n].b.publishedAll { VouchedStays(plan, run, n, |plan|); }
  }

  lemma {:induction false} StepKeepsSeen(plan: Plan, run: seq<State>, n: nat, step: Step)
    requires n + 1 < |run| && Seen(plan, run, n) && Inv(plan, run[n]) && Tidy(plan, run[n]) && Core(plan, run[n + 1].w)
    requires Enabled(plan, run[n], step) && run[n + 1] == Apply(plan, run[n], step)
    ensures Seen(plan, run, n + 1)
  {
    match step
    case Write(_, _) => OthersKeepSeen(plan, run, n, step);
    case Remove(_) => OthersKeepSeen(plan, run, n, step);
    case Stage(o) => StageKeepsSeen(plan, run, n, o);
    case Swap(o) => SwapKeepsSeen(plan, run, n, o);
    case Unlink(o) => UnlinkKeepsSeen(plan, run, n, o);
    case Do(o) => if run[n].pc.Roll? { RollKeepsSeen(plan, run, n, o); } else { DoKeepsSeen(plan, run, n, o); }
  }

  lemma {:induction false} NextSeen(plan: Plan, run: seq<State>, n: nat)
    requires n + 1 < |run| && Seen(plan, run, n) && Inv(plan, run[n]) && Tidy(plan, run[n]) && Core(plan, run[n + 1].w)
    requires Next(plan, run[n], run[n + 1])
    ensures Seen(plan, run, n + 1)
  {
    var step :| Enabled(plan, run[n], step) && run[n + 1] == Apply(plan, run[n], step);
    StepKeepsSeen(plan, run, n, step);
  }

  lemma {:induction false} EveryStateSeen(plan: Plan, run: seq<State>, n: nat)
    requires IsRun(plan, run) && n < |run|
    ensures Seen(plan, run, n)
  {
    if n > 0 {
      var before: nat := n - 1;
      EveryStateSeen(plan, run, before);
      EveryStateInv(plan, run, before);
      EveryStateInv(plan, run, n);
      EveryStateTidy(plan, run, before);
      NextSeen(plan, run, before);
    }
  }

  /** Whoever else writes: a call that returns normally saw, of every item, all that is listed
      in `VouchedAt`. */
  lemma {:induction false} PublishedIsVouched(plan: Plan, run: seq<State>, item: nat)
    requires IsRun(plan, run) && run[|run| - 1].pc == Done(Published) && item < |plan|
    ensures Vouched(plan, run, |run| - 1, item)
  {
    EveryStateSeen(plan, run, |run| - 1);
  }
  // ---- nothing is exchanged unseen ----------------------------------------------------------

  /** The first exchange has been tried, or is next. */
  predicate Started(s: State) {
    || s.pc.PublishPaths? || s.pc.PublishCheck? || s.pc.PublishIdentity? || s.pc.Publish? || s.pc.ClassifyDest? || s.pc.ClassifyTemp?
    || s.pc.Verify? || s.pc.ValidatePublished? || s.w.touched != {} || s.w.completed != []
  }

  lemma {:induction false} DoStarts(plan: Plan, pc: Pc, w: World, b: Book, o: Outcome)
    requires PcOk(plan, pc, w, b) && !Started(State(pc, w, b)) && !pc.Roll? && Started(ApplyDo(plan, pc, w, b, o))
    ensures pc.CheckBase? || plan == []
    ensures pc.CheckBase? ==> ApplyDo(plan, pc, w, b, o).pc == NextCheck(plan, pc.i + 1)
  {
  }

  lemma {:induction false} UnlinkStarts(w: World, b: Book, i: nat, backup: bool, o: UnlinkOutcome)
    requires w.touched == {} && w.completed == []
    ensures !Started(ApplyUnlink(w, b, i, backup, o))
  {
  }

  lemma {:induction false} StageStarts(plan: Plan, w: World, b: Book, i: nat, o: StageOutcome)
    requires w.touched == {} && w.completed == []
    ensures !Started(StageFirst(plan, w, b, i, o)) && !Started(StageSecond(plan, w, b, i, o))
  {
  }

  lemma {:induction false} StartsAfterChecks(plan: Plan, s: State, step: Step)
    requires Inv(plan, s) && Enabled(plan, s, step) && !Started(s) && Started(Apply(plan, s, step))
    ensures s.pc.CheckBase? || plan == []
    ensures s.pc.CheckBase? && step.Do? ==> Apply(plan, s, step).pc == NextCheck(plan, s.pc.i + 1)
    ensures s.pc.CheckBase? ==> step.Do?
  {
    assert !s.pc.Roll?;
    match step
    case Do(o) => DoStarts(plan, s.pc, s.w, Faulted(s.b, o.Ok?), o);
    case Unlink(o) => UnlinkStarts(s.w, s.b, s.pc.i, s.pc.backup, o);
    case Stage(o) => StageStarts(plan, s.w, s.b, s.pc.i, o);
    case _ =>
  }

  lemma {:induction false} NextStarted(plan: Plan, run: seq<State>, n: nat)
    requires n + 1 < |run| && Inv(plan, run[n]) && Next(plan, run[n], run[n + 1]) && Seen(plan, run, n + 1)
    requires Started(run[n]) ==> AllBaseSeen(plan, run, n, |plan|)
    ensures Started(run[n + 1]) ==> AllBaseSeen(plan, run, n + 1, |plan|)
  {
    var step :| Enabled(plan, run[n], step) && run[n + 1] == Apply(plan, run[n], step);
    if Started(run[n]) {
      BaseSeenStays(plan, run, n, |plan|);
    } else if Started(run[n + 1]) {
      StartsAfterChecks(plan, run[n], step);
    }
  }

  lemma {:induction false} StartedIsSeen(plan: Plan, run: seq<State>, n: nat)
    requires IsRun(plan, run) && n < |run|
    ensures Started(run[n]) ==> AllBaseSeen(plan, run, n, |plan|)
  {
    if n > 0 {
      var before: nat := n - 1;
      StartedIsSeen(plan, run, before);
      EveryStateInv(plan, run, before);
      EveryStateSeen(plan, run, n);
      NextStarted(plan, run, before);
    }
  }

  /** Before the first exchange of any item, every destination was seen with the bytes and mode
      it was bound with, after everything had been staged. */
  lemma {:induction false} NothingExchangedUnseen(plan: Plan, run: seq<State>, n: nat, item: nat)
    requires IsRun(plan, run) && n < |run| && run[n].w.touched != {} && item < |plan|
    ensures BaseSeen(plan, run, n, item)
  {
    StartedIsSeen(plan, run, n);
  }
}
