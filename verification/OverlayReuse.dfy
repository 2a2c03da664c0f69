/** The one thing a normal return of `apply_promoted_overlay` does not vouch for: it reads the
    content and the identity of a destination one after the other, so an inode number that is
    given out again between the two can make two files look like one. */
module OverlayReuse {
  import opened Octets
  import opened OverlayTransaction
  import opened OverlaySafety
  import opened OverlayVouching
  import opened OverlayInterrupts

  /** In one state of the last pass the destination has the new bytes and mode under the staged
      candidate's inode. */
  ghost predicate SeenAtOnce(plan: Plan, run: seq<State>, item: nat) {
    item < |plan|
    && exists a :: 0 <= a < |run| && InPass(run[a].pc) && InodeAt(run[a], item) && ContentIs(run[a].w, Dest(item), CandidateContent(plan[item]))
  }

  lemma PublishedAtOnce(plan: Plan, run: seq<State>, item: nat)
    requires IsRun(plan, run) && run[|run| - 1].pc == Done(Published) && item < |plan| && KeepsInodes(run)
    ensures SeenAtOnce(plan, run, item)
  {
    PublishedIsVouched(plan, run, item);
    var c, y, x, a, b, node :| b < |run| - 1 && VouchedAt(plan, run, item, c, y, x, a, b, node);
  }

  // ---- a run in which an inode number comes back ---------------------------------------------

  lemma Written(plan: Plan, run: seq<State>, i: nat, node: Node) returns (longer: seq<State>)
    requires IsRun(plan, run) && Enabled(plan, run[|run| - 1], Write(i, node))
    ensures longer == run + [Apply(plan, run[|run| - 1], Write(i, node))] && IsRun(plan, longer)
  {
    var t := Apply(plan, run[|run| - 1], Write(i, node));
    longer := run + [t];
    assert Next(plan, run[|run| - 1], t);
    forall k | 0 <= k < |longer| - 1 ensures Next(plan, longer[k], longer[k + 1]) {
      if k < |run| - 1 { assert Next(plan, run[k], run[k + 1]); }
    }
  }

  /** The comparisons after the only exchange. */
  lemma ExchangeRuns(item: Prepared, w: World, b: Book) returns (states: seq<State>)
    requires BothExist(w.dir, 0) && 0 in w.cand && w.dir[Candidate(0)] == w.cand[0] && ContentOf(w.cand[0]) == CandidateContent(item)
    requires ContentOf(w.dir[Dest(0)]) == BaseContent(item) && 0 in b.previous && b.previous[0] == IdentityOf(w.dir[Dest(0)])
    ensures Steps([item], states) && states[0] == State(Publish(0), w, b)
    ensures states[|states| - 1] == State(Verify(false, 0, 3), Recorded(Landed(w, 0), 0), b)
    ensures forall m :: 0 <= m < |states| ==> !InPass(states[m].pc)
  {
    var plan, v := [item], Recorded(Landed(w, 0), 0);
    var s, s0, s1 := State(Publish(0), w, b), State(Verify(false, 0, 0), v, b), State(Verify(false, 0, 1), v, b);
    var s2, s3 := State(Verify(false, 0, 2), v, b), State(Verify(false, 0, 3), v, b);
    assert s0 == Apply(plan, s, Swap(Exchanged));
    assert s1 == Apply(plan, s0, Do(Ok));
    assert s2 == Apply(plan, s1, Do(Ok));
    assert s3 == Apply(plan, s2, Do(Ok));
    assert OwnStep(plan, s, s0) && OwnStep(plan, s0, s1) && OwnStep(plan, s1, s2) && OwnStep(plan, s2, s3);
    states := [s, s0, s1, s2, s3];
  }

  /** From the last comparison after the exchange into the last pass, up to its first reading. */
  lemma PassBegins(item: Prepared, w: World, b: Book) returns (states: seq<State>)
    requires ContentIs(w, Dest(0), CandidateContent(item)) && 0 in b.previous && IdentityIs(w, Candidate(0), b.previous[0])
    requires 0 in w.cand && w.dir[Dest(0)].ino != w.cand[0].ino
    ensures Steps([item], states) && states[0] == State(Verify(false, 0, 3), w, b) && states[|states| - 1] == State(Verify(true, 0, 1), w, b)
    ensures forall m :: 0 <= m < |states| ==> !InodeAt(states[m], 0)
  {
    var plan := [item];
    var s, s0, s1 := State(Verify(false, 0, 3), w, b), State(Verify(true, 0, 0), w, b), State(Verify(true, 0, 1), w, b);
    assert s0 == Apply(plan, s, Do(Ok));
    assert s1 == Apply(plan, s0, Do(Ok));
    assert OwnStep(plan, s, s0) && OwnStep(plan, s0, s1);
    states := [s, s0, s1];
  }

  /** The rest of the pass, the validation and the cleanup. */
  lemma PassEnds(item: Prepared, w: World, b: Book) returns (states: seq<State>)
    requires ContentIs(w, Candidate(0), BaseContent(item)) && 0 in b.previous && IdentityIs(w, Candidate(0), b.previous[0])
    requires 0 in w.cand && IdentityIs(w, Dest(0), IdentityOf(w.cand[0])) && !ContentIs(w, Dest(0), CandidateContent(item))
    ensures Steps([item], states) && states[0] == State(Verify(true, 0, 1), w, b) && states[|states| - 1].pc == Done(Published)
    ensures forall m :: 0 <= m < |states| ==> !InPass(states[m].pc) || !ContentIs(states[m].w, Dest(0), CandidateContent(item))
  {
    var plan := [item];
    var s1, s2, s3 := State(Verify(true, 0, 1), w, b), State(Verify(true, 0, 2), w, b), State(Verify(true, 0, 3), w, b);
    var s4 := State(ValidatePublished, w, b);
    var rest := CleanupRuns(plan, w, b.(publishedAll := true), 0);
    assert s2 == Apply(plan, s1, Do(Ok));
    assert s3 == Apply(plan, s2, Do(Ok));
    assert s4 == Apply(plan, s3, Do(Ok));
    assert rest[0] == Apply(plan, s4, Do(Ok));
    StepsAfter(plan, s4, Do(Ok), rest);
    StepsAfter(plan, s3, Do(Ok), [s4] + rest);
    StepsAfter(plan, s2, Do(Ok), [s3] + ([s4] + rest));
    StepsAfter(plan, s1, Do(Ok), [s2] + ([s3] + ([s4] + rest)));
    states := [s1] + ([s2] + ([s3] + ([s4] + rest)));
  }

  /** No state so far has shown it. */
  ghost predicate Unseen(item: Prepared, run: seq<State>) {
    forall m :: 0 <= m < |run| && InPass(run[m].pc) ==> !InodeAt(run[m], 0) || !ContentIs(run[m].w, Dest(0), CandidateContent(item))
  }

  lemma Continued(item: Prepared, run: seq<State>, more: seq<State>) returns (longer: seq<State>)
    requires IsRun([item], run) && Unseen(item, run) && Steps([item], more) && Unseen(item, more) && more[0] == run[|run| - 1]
    ensures IsRun([item], longer) && Unseen(item, longer) && longer[|longer| - 1] == more[|more| - 1]
  {
    Extended([item], run, more);
    longer := run + more[1..];
  }

  /** The bytes with the first one changed. */
  function Forged(content: Bytes): (c: Bytes)
    requires content != []
    ensures |c| == |content| && c != content
  {
    var first := if content[0] == 0 then 1 else 0;
    assert ([first] + content[1..])[0] != content[0];
    [first] + content[1..]
  }

  lemma InodeComesBack(item: Prepared, base: Node, mtime: int) returns (run: seq<State>)
    requires ContentOf(base) == BaseContent(item) && item.content != []
    ensures IsRun([item], run) && run[|run| - 1].pc == Done(Published) && Unseen(item, run)
  {
    var plan, w := [item], StagedWorld(item, base, mtime);
    run := RunsToPublish(item, base, mtime);
    var b := StagedBook().(previous := map[0 := IdentityOf(base)]);
    var exchange := ExchangeRuns(item, w, b);
    run := Continued(item, run, exchange);
    var v := Recorded(Landed(w, 0), 0);
    // the same bytes in another file, ...
    var copy := Node(base.ino + 3, item.content, item.mode, mtime);
    assert LegalWrite(v.dir, 0, copy);
    run := WrittenUnseen(item, run, copy);
    var s := run[|run| - 1];
    var begins := PassBegins(item, s.w, s.b);
    run := Continued(item, run, begins);
    // ... and once they have been read, other bytes under the candidate's old inode number
    var other := Node(w.cand[0].ino, Forged(item.content), item.mode, mtime);
    assert LegalWrite(s.w.dir, 0, other);
    run := WrittenUnseen(item, run, other);
    s := run[|run| - 1];
    var ends := PassEnds(item, s.w, s.b);
    run := Continued(item, run, ends);
  }

  lemma WrittenUnseen(item: Prepared, run: seq<State>, node: Node) returns (longer: seq<State>)
    requires IsRun([item], run) && Unseen(item, run) && Enabled([item], run[|run| - 1], Write(0, node))
    requires !InPass(run[|run| - 1].pc) || ContentOf(node) != CandidateContent(item)
    ensures IsRun([item], longer) && Unseen(item, longer) && longer[|longer| - 1] == Apply([item], run[|run| - 1], Write(0, node))
  {
    longer := Written([item], run, 0, node);
  }

  /** A call that returns normally had every item in place in one state of its last pass, for
      every run, exactly if inode numbers of staged candidates are not given out again. */
  lemma SeenAtOnceExactly(reuse: bool)
    ensures (forall plan: Plan, run: seq<State>, item: nat ::
               IsRun(plan, run) && run[|run| - 1].pc == Done(Published) && item < |plan| && (reuse || KeepsInodes(run)) ==> SeenAtOnce(plan, run, item))
            <==> !reuse
  {
    if reuse {
      var item := Prepared([1], [2], 0);
      var run := InodeComesBack(item, Node(0, [1], 0, 0), 0);
      assert !SeenAtOnce([item], run, 0);
    } else {
      forall plan: Plan, run: seq<State>, item: nat | IsRun(plan, run) && run[|run| - 1].pc == Done(Published) && item < |plan| && KeepsInodes(run)
        ensures SeenAtOnce(plan, run, item)
      {
        PublishedAtOnce(plan, run, item);
      }
    }
  }
}
