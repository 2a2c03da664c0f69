/** `sweep_packed_cells` as a step system. A producer thread submits cells inside a window
    ahead of the fold pointer, a pool of workers runs them, and the calling thread folds
    results in submission order; any enabled step may be the next one. A worker's two flag
    reads are one step: the folder raises `halt` before `cancel`, so reading them apart
    gives an answer that reading them together at one of the two moments also gives. */
module PackedSweep {
  import opened OutageBreaker

  datatype Config = Config(cells: seq<Cell>, workers: int, window: int, streak: int, limit: int)

  /** The arguments `sweep_packed_cells` accepts. */
  predicate ValidConfig(c: Config) {
    c.workers >= 1 && c.window >= c.workers
  }

  /** An entry of `submitted`: None for an abandoned task's cell, else a future. A settled
      future has a row in `results` only if it ran. */
  datatype Entry = Abandoned | Pending | Running | Settled(ran: bool)

  datatype Producer =
    | Checking(cell: nat)    // about to test the flags for this cell
    | Awaiting(cell: nat)    // inside await_ready
    | Submitting(cell: nat)  // waiting for the window, holding a ready cell
    | Stopped                // producing == False

  datatype Folder =
    | Waiting(at: nat)       // for submitted[at] to exist and settle
    | Publishing(at: nat)    // about to set fold_pointer
    | Checkpoint(at: nat)    // about to test cancel_event
    | Tripping(at: nat)      // halt raised by the breaker, cancel_event not yet
    | Leaving(at: nat)       // entering the finally block
    | Joining(at: nat)       // waiting for the producer
    | Cancelling(at: nat)    // cancelling what is still pending, then shutting the pool down
    | Returned

  datatype State = State(
    producer: Producer, folder: Folder, submitted: seq<Entry>, foldPointer: nat,
    halt: bool, cancel: bool, streak: int, tripped: bool,
    log: seq<nat>,           // cells handed to on_record, in order
    started: set<nat>,       // cells handed to on_start
    external: bool)          // someone else set cancel_event

  datatype Step =
    | ProducerCheck | ProducerAwait | ProducerSubmit
    | WorkerStart(cell: nat) | WorkerFinish(cell: nat)
    | FolderFold | FolderPublish | FolderCheckpoint | FolderCancel | FolderHalt | FolderJoin
    | FolderDrop(cell: nat) | FolderReturn
    | ExternalCancel

  function Init(c: Config): State {
    State(Checking(0), Waiting(0), [], 0, false, false, c.streak, false, [], {}, false)
  }

  function RunningCount(s: seq<Entry>): (n: nat) {
    if s == [] then 0 else RunningCount(s[..|s| - 1]) + if s[|s| - 1] == Running then 1 else 0
  }

  predicate AllSettled(s: seq<Entry>) {
    forall k :: 0 <= k < |s| ==> s[k] != Pending && s[k] != Running
  }

  predicate Enabled(c: Config, s: State, step: Step) {
    match step
    case ProducerCheck => s.producer.Checking?
    case ProducerAwait => s.producer.Awaiting?
    case ProducerSubmit => s.producer.Submitting? && (s.producer.cell - s.foldPointer < c.window || s.halt)
    case WorkerStart(k) => k < |s.submitted| && s.submitted[k] == Pending && RunningCount(s.submitted) < c.workers
    case WorkerFinish(k) => k < |s.submitted| && s.submitted[k] == Running
    case FolderFold =>
      s.folder.Waiting? &&
      if s.folder.at < |s.submitted|
      then s.submitted[s.folder.at] != Pending && s.submitted[s.folder.at] != Running
      else s.producer.Stopped?
    case FolderPublish => s.folder.Publishing?
    case FolderCheckpoint => s.folder.Checkpoint?
    case FolderCancel => s.folder.Tripping?
    case FolderHalt => s.folder.Leaving?
    case FolderJoin => s.folder.Joining? && s.producer.Stopped?
    case FolderDrop(k) => s.folder.Cancelling? && s.folder.at < k < |s.submitted| && s.submitted[k] == Pending
    case FolderReturn => s.folder.Cancelling? && AllSettled(s.submitted)
    case ExternalCancel => !s.external && !s.folder.Returned?
  }

  function Apply(c: Config, s: State, step: Step): State
    requires Enabled(c, s, step)
  {
    match step
    case ProducerCheck =>
      if s.producer.cell >= |c.cells| || s.halt || s.cancel then s.(producer := Stopped)
      else s.(producer := Awaiting(s.producer.cell))
    case ProducerAwait =>
      var i := s.producer.cell;
      if i < |c.cells| && c.cells[i].ready then s.(producer := Submitting(i))
      else s.(submitted := s.submitted + [Abandoned], producer := Checking(i + 1))
    case ProducerSubmit =>
      if s.halt || s.cancel then s.(producer := Stopped)
      else s.(submitted := s.submitted + [Pending], producer := Checking(s.producer.cell + 1))
    case WorkerStart(k) =>
      if s.halt || s.cancel then s.(submitted := s.submitted[k := Settled(false)])
      else s.(submitted := s.submitted[k := Running], started := s.started + {k})
    case WorkerFinish(k) => s.(submitted := s.submitted[k := Settled(true)])
    case FolderFold => FoldOne(c, s)
    case FolderPublish => s.(foldPointer := s.folder.at, folder := Checkpoint(s.folder.at))
    case FolderCheckpoint =>
      if s.cancel then s.(tripped := true, folder := Leaving(s.folder.at)) else s.(folder := Waiting(s.folder.at))
    case FolderCancel => s.(cancel := true, folder := Leaving(s.folder.at))
    case FolderHalt => s.(halt := true, folder := Joining(s.folder.at))
    case FolderJoin => s.(folder := Cancelling(s.folder.at))
    case FolderDrop(k) => s.(submitted := s.submitted[k := Settled(false)])
    case FolderReturn => s.(folder := Returned)
    case ExternalCancel => s.(cancel := true, external := true)
  }

  /** One turn of the folder's loop, up to raising `halt` or advancing the index. */
  function FoldOne(c: Config, s: State): State
    requires Enabled(c, s, FolderFold)
  {
    var i := s.folder.at;
    if i >= |s.submitted| then s.(folder := Leaving(i))
    else if s.submitted[i] == Settled(true) && i < |c.cells| then
      var streak := Streak(RowKind(c.cells[i].record), s.streak);
      var folded := s.(log := s.log + [i], streak := streak);
      if Trips(streak, c.limit) then folded.(tripped := true, halt := true, folder := Tripping(i))
      else folded.(folder := Publishing(i + 1))
    else s.(folder := Publishing(i + 1))
  }

  ghost predicate Next(c: Config, s: State, t: State) {
    exists step :: Enabled(c, s, step) && t == Apply(c, s, step)
  }

  /** A finite run from the initial state, every interleaving included. */
  ghost predicate IsRun(c: Config, run: seq<State>) {
    && run != [] && run[0] == Init(c)
    && forall i :: 0 <= i < |run| - 1 ==> Next(c, run[i], run[i + 1])
  }

  // ---- the invariant --------------------------------------------------------------------

  function SerialTo(c: Config, n: nat): Fold
    requires n <= |c.cells|
  {
    Serial(c.cells, c.streak, c.limit, n)
  }

  ghost predicate ProducerOk(c: Config, s: State) {
    && |s.submitted| <= |c.cells|
    && (!s.producer.Stopped? ==> s.producer.cell == |s.submitted|)
    && (s.producer.Awaiting? || s.producer.Submitting? ==> s.producer.cell < |c.cells|)
    && (s.producer.Submitting? ==> c.cells[s.producer.cell].ready)
    && (s.producer.Stopped? && !s.halt && !s.cancel ==> |s.submitted| == |c.cells|)
  }

  ghost predicate EntriesOk(c: Config, s: State)
    requires |s.submitted| <= |c.cells|
  {
    && (forall k :: 0 <= k < |s.submitted| ==> (s.submitted[k] == Abandoned <==> !c.cells[k].ready))
    && (forall k :: 0 <= k < |s.submitted| ==>
          (k in s.started <==> s.submitted[k] == Running || s.submitted[k] == Settled(true)))
    && (forall k :: k in s.started ==> k < |s.submitted|)
    && (forall k :: 0 <= k < |s.submitted| && s.submitted[k] == Settled(false) ==> s.halt || s.cancel)
    && RunningCount(s.submitted) <= c.workers
  }

  /** No future reaches past the window: submitted cells stay below fold_pointer + window. */
  ghost predicate WindowOk(c: Config, s: State) {
    forall k :: 0 <= k < |s.submitted| && s.submitted[k] != Abandoned ==> k < s.foldPointer + c.window
  }

  /** The folder agrees with the serial fold of the first n cells. */
  ghost predicate Agrees(c: Config, s: State, n: nat)
    requires n <= |c.cells|
  {
    s.log == SerialTo(c, n).log && s.streak == SerialTo(c, n).streak
  }

  ghost predicate InLoop(f: Folder) {
    f.Waiting? || f.Publishing? || f.Checkpoint?
  }

  /** An outside cancel may have emptied the very last result the folder looked at. */
  ghost predicate FoldedOrSkippedLast(c: Config, s: State, at: nat)
    requires at <= |c.cells|
  {
    || (Agrees(c, s, at) && !SerialTo(c, at).tripped)
    || (at > 0 && s.cancel && s.external && Agrees(c, s, at - 1) && !SerialTo(c, at - 1).tripped)
  }

  ghost predicate FolderOk(c: Config, s: State)
    requires |s.submitted| <= |c.cells|
  {
    && (s.cancel && !s.external ==> s.tripped && !InLoop(s.folder) && !s.folder.Tripping?)
    && (!s.folder.Returned? ==> s.folder.at <= |s.submitted|)
    && match s.folder
       case Waiting(i) => !s.halt && !s.tripped && s.foldPointer == i && Agrees(c, s, i) && !SerialTo(c, i).tripped
       case Publishing(i) => !s.halt && !s.tripped && i > 0 && s.foldPointer == i - 1 && FoldedOrSkippedLast(c, s, i)
       case Checkpoint(i) => !s.halt && !s.tripped && s.foldPointer == i && FoldedOrSkippedLast(c, s, i)
       case Tripping(i) => s.halt && s.tripped && Ended(c, s)
       case Leaving(i) => Ended(c, s)
       case Joining(i) => s.halt && Ended(c, s)
       case Cancelling(i) => s.halt && s.producer.Stopped? && Ended(c, s)
       case Returned => s.halt && s.producer.Stopped? && AllSettled(s.submitted) && Ended(c, s)
  }

  /** How the folding can have ended. */
  ghost predicate Ended(c: Config, s: State) {
    || Broke(c, s)
    || (!s.tripped && |s.submitted| == |c.cells| && Agrees(c, s, |c.cells|) && !SerialTo(c, |c.cells|).tripped)
    || (s.external && exists n :: 0 <= n <= |c.cells| && Agrees(c, s, n) && !SerialTo(c, n).tripped)
  }

  /** The breaker tripped on the cell the fold pointer stands at. */
  ghost predicate Broke(c: Config, s: State) {
    && s.tripped && s.foldPointer < |c.cells|
    && Agrees(c, s, s.foldPointer + 1) && SerialTo(c, s.foldPointer + 1).tripped
    && c.cells[s.foldPointer].ready && !SerialTo(c, s.foldPointer).tripped
  }

  ghost predicate Inv(c: Config, s: State) {
    ProducerOk(c, s) && EntriesOk(c, s) && WindowOk(c, s) && FolderOk(c, s)
  }

  lemma {:induction false} RunningCountUpdate(s: seq<Entry>, k: nat, e: Entry)
    requires k < |s|
    ensures RunningCount(s[k := e]) ==
              RunningCount(s) - (if s[k] == Running then 1 else 0) + (if e == Running then 1 else 0)
  {
    var n := |s| - 1;
    if k == n {
      assert s[k := e][..n] == s[..n];
    } else {
      RunningCountUpdate(s[..n], k, e);
      assert s[k := e][..n] == s[..n][k := e];
    }
  }

  lemma RunningCountAppend(s: seq<Entry>, e: Entry)
    requires e != Running
    ensures RunningCount(s + [e]) == RunningCount(s)
  {
    assert (s + [e])[..|s|] == s;
  }

  lemma InitInv(c: Config)
    requires ValidConfig(c)
    ensures Inv(c, Init(c))
  {
  }

  /** The folder's part of the invariant looks at `submitted` only for its length and, once
      the call has returned, for nothing being left in flight. */
  lemma FolderFrame(c: Config, s: State, t: State)
    requires Inv(c, s) && |s.submitted| <= |t.submitted| <= |c.cells|
    requires t.folder == s.folder && t.foldPointer == s.foldPointer && t.log == s.log && t.streak == s.streak
    requires t.tripped == s.tripped && t.halt == s.halt && t.cancel == s.cancel && t.external == s.external
    requires s.producer.Stopped? ==> t.producer.Stopped? && |t.submitted| == |s.submitted|
    requires s.folder.Returned? ==> t.submitted == s.submitted
    requires |s.submitted| == |c.cells| ==> |t.submitted| == |c.cells|
    ensures FolderOk(c, t)
  {
    if s.external && exists n :: 0 <= n <= |c.cells| && Agrees(c, s, n) && !SerialTo(c, n).tripped {
      var n :| 0 <= n <= |c.cells| && Agrees(c, s, n) && !SerialTo(c, n).tripped;
      assert Agrees(c, t, n);
    }
  }

  lemma AppendKeepsEntries(c: Config, s: State, e: Entry)
    requires Inv(c, s) && |s.submitted| < |c.cells|
    requires e == Abandoned || e == Pending
    requires e == Abandoned <==> !c.cells[|s.submitted|].ready
    ensures EntriesOk(c, s.(submitted := s.submitted + [e]))
  {
    RunningCountAppend(s.submitted, e);
    var t := s.(submitted := s.submitted + [e]);
    forall k | 0 <= k < |t.submitted|
      ensures t.submitted[k] == Abandoned <==> !c.cells[k].ready
      ensures k in t.started <==> t.submitted[k] == Running || t.submitted[k] == Settled(true)
      ensures t.submitted[k] == Settled(false) ==> t.halt || t.cancel
    {
      if k < |s.submitted| { assert t.submitted[k] == s.submitted[k]; }
    }
  }

  lemma AppendKeepsInv(c: Config, s: State, e: Entry)
    requires Inv(c, s) && |s.submitted| < |c.cells| && (s.producer.Awaiting? || s.producer.Submitting?)
    requires e == Abandoned || (e == Pending && |s.submitted| - s.foldPointer < c.window)
    requires e == Abandoned <==> !c.cells[|s.submitted|].ready
    ensures Inv(c, s.(submitted := s.submitted + [e], producer := Checking(|s.submitted| + 1)))
  {
    var t := s.(submitted := s.submitted + [e], producer := Checking(|s.submitted| + 1));
    AppendKeepsEntries(c, s, e);
    assert EntriesOk(c, t);
    forall k | 0 <= k < |t.submitted| && t.submitted[k] != Abandoned ensures k < t.foldPointer + c.window {
      if k < |s.submitted| { assert t.submitted[k] == s.submitted[k]; }
    }
    FolderFrame(c, s, t);
  }

  lemma MoveKeepsInv(c: Config, s: State, p: Producer)
    requires Inv(c, s) && !s.producer.Stopped?
    requires ProducerOk(c, s.(producer := p))
    ensures Inv(c, s.(producer := p))
  {
    var t := s.(producer := p);
    assert EntriesOk(c, t) && WindowOk(c, t);
    FolderFrame(c, s, t);
  }

  lemma CheckKeepsInv(c: Config, s: State)
    requires ValidConfig(c) && Inv(c, s) && Enabled(c, s, ProducerCheck)
    ensures Inv(c, Apply(c, s, ProducerCheck))
  {
    var i := s.producer.cell;
    if i >= |c.cells| || s.halt || s.cancel { MoveKeepsInv(c, s, Stopped); } else { MoveKeepsInv(c, s, Awaiting(i)); }
  }

  lemma AwaitKeepsInv(c: Config, s: State)
    requires ValidConfig(c) && Inv(c, s) && Enabled(c, s, ProducerAwait)
    ensures Inv(c, Apply(c, s, ProducerAwait))
  {
    var i := s.producer.cell;
    if c.cells[i].ready { MoveKeepsInv(c, s, Submitting(i)); } else { AppendKeepsInv(c, s, Abandoned); }
  }

  lemma SubmitKeepsInv(c: Config, s: State)
    requires ValidConfig(c) && Inv(c, s) && Enabled(c, s, ProducerSubmit)
    ensures Inv(c, Apply(c, s, ProducerSubmit))
  {
    if s.halt || s.cancel { MoveKeepsInv(c, s, Stopped); } else { AppendKeepsInv(c, s, Pending); }
  }

  lemma ReplaceKeepsEntries(c: Config, s: State, t: State, k: nat)
    requires Inv(c, s) && k < |s.submitted| && |t.submitted| == |s.submitted|
    requires t.submitted == s.submitted[k := t.submitted[k]]
    requires s.submitted[k] == Pending || s.submitted[k] == Running
    requires t.submitted[k] == Settled(true) ==> s.submitted[k] == Running
    requires t.submitted[k] == Settled(false) ==> s.submitted[k] == Pending && (s.halt || s.cancel)
    requires t.submitted[k] == Running ==> s.submitted[k] == Pending && RunningCount(s.submitted) < c.workers
    requires t.submitted[k] != Pending && t.submitted[k] != Abandoned
    requires t.started == if t.submitted[k] == Running then s.started + {k} else s.started
    requires t.halt == s.halt && t.cancel == s.cancel
    ensures EntriesOk(c, t)
  {
    RunningCountUpdate(s.submitted, k, t.submitted[k]);
    forall j | 0 <= j < |t.submitted|
      ensures t.submitted[j] == Abandoned <==> !c.cells[j].ready
      ensures j in t.started <==> t.submitted[j] == Running || t.submitted[j] == Settled(true)
      ensures t.submitted[j] == Settled(false) ==> t.halt || t.cancel
    {
      if j != k { assert t.submitted[j] == s.submitted[j]; }
    }
  }

  /** One entry moving on, and nothing else but the set of started cells. */
  lemma EntryMoves(c: Config, s: State, t: State, k: nat)
    requires ValidConfig(c) && Inv(c, s) && k < |s.submitted| && |t.submitted| == |s.submitted|
    requires t == s.(submitted := s.submitted[k := t.submitted[k]], started := t.started)
    requires s.submitted[k] == Pending || s.submitted[k] == Running
    requires t.submitted[k] == Settled(true) ==> s.submitted[k] == Running
    requires t.submitted[k] == Settled(false) ==> s.submitted[k] == Pending && (s.halt || s.cancel)
    requires t.submitted[k] == Running ==> s.submitted[k] == Pending && RunningCount(s.submitted) < c.workers
    requires t.submitted[k] != Pending && t.submitted[k] != Abandoned
    requires t.started == if t.submitted[k] == Running then s.started + {k} else s.started
    requires !s.folder.Returned?
    ensures Inv(c, t)
  {
    ReplaceKeepsEntries(c, s, t, k);
    FolderFrame(c, s, t);
  }

  lemma WorkerKeepsInv(c: Config, s: State, step: Step)
    requires ValidConfig(c) && Inv(c, s) && Enabled(c, s, step)
    requires step.WorkerStart? || step.WorkerFinish? || step.FolderDrop?
    ensures Inv(c, Apply(c, s, step))
  {
    EntryMoves(c, s, Apply(c, s, step), step.cell);
  }

  lemma SubmissionFrame(c: Config, s: State, t: State)
    requires Inv(c, s)
    requires t.submitted == s.submitted && t.started == s.started && t.producer == s.producer
    requires t.foldPointer >= s.foldPointer
    requires s.halt || s.cancel ==> t.halt || t.cancel
    ensures ProducerOk(c, t) && EntriesOk(c, t) && WindowOk(c, t)
  {
  }

  lemma FoldKeepsInv(c: Config, s: State)
    requires ValidConfig(c) && Inv(c, s) && Enabled(c, s, FolderFold)
    ensures Inv(c, Apply(c, s, FolderFold))
  {
    var i := s.folder.at;
    SubmissionFrame(c, s, Apply(c, s, FolderFold));
    if i < |s.submitted| {
      assert SerialTo(c, i + 1) ==
        if !c.cells[i].ready then SerialTo(c, i)
        else
          var next := Streak(RowKind(c.cells[i].record), SerialTo(c, i).streak);
          Fold(next, Trips(next, c.limit), SerialTo(c, i).log + [i]);
    }
  }

  lemma EndedFrame(c: Config, s: State, t: State)
    requires |s.submitted| <= |c.cells| && Ended(c, s)
    requires t.submitted == s.submitted && t.foldPointer == s.foldPointer && t.log == s.log
    requires t.streak == s.streak && t.tripped == s.tripped && (s.external ==> t.external)
    ensures Ended(c, t)
  {
    if s.external && exists n :: 0 <= n <= |c.cells| && Agrees(c, s, n) && !SerialTo(c, n).tripped {
      var n :| 0 <= n <= |c.cells| && Agrees(c, s, n) && !SerialTo(c, n).tripped;
      assert Agrees(c, t, n);
    }
  }

  lemma FolderKeepsInv(c: Config, s: State, step: Step)
    requires ValidConfig(c) && Inv(c, s) && Enabled(c, s, step)
    requires step.FolderPublish? || step.FolderCheckpoint? || step.FolderCancel? || step.FolderHalt?
          || step.FolderJoin? || step.FolderReturn? || step.ExternalCancel?
    ensures Inv(c, Apply(c, s, step))
  {
    var t := Apply(c, s, step);
    SubmissionFrame(c, s, t);
    if !InLoop(s.folder) {
      EndedFrame(c, s, t);
    } else {
      assert Agrees(c, s, s.folder.at) ==> Agrees(c, t, s.folder.at);
      assert s.folder.at > 0 && Agrees(c, s, s.folder.at - 1) ==> Agrees(c, t, s.folder.at - 1);
    }
  }

  lemma StepKeepsInv(c: Config, s: State, step: Step)
    requires ValidConfig(c) && Inv(c, s) && Enabled(c, s, step)
    ensures Inv(c, Apply(c, s, step))
  {
    match step
    case ProducerCheck => CheckKeepsInv(c, s);
    case ProducerAwait => AwaitKeepsInv(c, s);
    case ProducerSubmit => SubmitKeepsInv(c, s);
    case WorkerStart(_) => WorkerKeepsInv(c, s, step);
    case WorkerFinish(_) => WorkerKeepsInv(c, s, step);
    case FolderDrop(_) => WorkerKeepsInv(c, s, step);
    case FolderFold => FoldKeepsInv(c, s);
    case _ => FolderKeepsInv(c, s, step);
  }

  lemma NextKeepsInv(c: Config, s: State, t: State)
    requires ValidConfig(c) && Inv(c, s) && Next(c, s, t)
    ensures Inv(c, t)
  {
    var step :| Enabled(c, s, step) && t == Apply(c, s, step);
    StepKeepsInv(c, s, step);
  }

  // ---- safety over every run --------------------------------------------------------------

  lemma {:induction false} EveryStateInv(c: Config, run: seq<State>, i: nat)
    requires ValidConfig(c) && IsRun(c, run) && i < |run|
    ensures Inv(c, run[i])
  {
    if i == 0 {
      InitInv(c);
    } else {
      EveryStateInv(c, run, i - 1);
      assert Next(c, run[i - 1], run[i - 1 + 1]);
      NextKeepsInv(c, run[i - 1], run[i]);
    }
  }

  /** Whatever the interleaving, a call nobody cancels from outside returns the streak, the
      tripped flag and the on_record sequence of the serial fold. */
  lemma PackedRefinesSerial(c: Config, run: seq<State>)
    requires ValidConfig(c) && IsRun(c, run)
    requires var last := run[|run| - 1]; last.folder.Returned? && !last.external
    ensures var last := run[|run| - 1];
      Fold(last.streak, last.tripped, last.log) == SerialTo(c, |c.cells|)
  {
    var last := run[|run| - 1];
    EveryStateInv(c, run, |run| - 1);
    if Broke(c, last) {
      TripIsFinal(c.cells, c.streak, c.limit, last.foldPointer + 1, |c.cells|);
    }
  }

  /** With an outside cancel the call still reports a prefix of the serial fold, and still
      reports a trip when that prefix tripped; but `tripped` may also mean the cancel. */
  lemma CancelledRunIsSerialPrefix(c: Config, run: seq<State>)
    requires ValidConfig(c) && IsRun(c, run) && run[|run| - 1].folder.Returned?
    ensures var last := run[|run| - 1];
      exists n :: 0 <= n <= |c.cells| && Agrees(c, last, n)
                  && (SerialTo(c, n).tripped ==> last.tripped)
                  && (last.tripped ==> SerialTo(c, n).tripped || last.external)
  {
    var last := run[|run| - 1];
    EveryStateInv(c, run, |run| - 1);
    if Broke(c, last) {
      assert Agrees(c, last, last.foldPointer + 1);
    } else if !last.external {
      assert Agrees(c, last, |c.cells|);
    }
  }

  /** `t` is the cell the serial fold aborts on. */
  ghost predicate TripCell(c: Config, t: nat) {
    t < |c.cells| && !SerialTo(c, t).tripped && SerialTo(c, t + 1).tripped
  }

  lemma FoldPointerStopsAtTrip(c: Config, s: State, t: nat)
    requires Inv(c, s) && TripCell(c, t)
    requires !s.external || Broke(c, s)
    ensures s.foldPointer <= t
  {
    if s.foldPointer > t && s.foldPointer <= |c.cells| {
      TripIsFinal(c.cells, c.streak, c.limit, t + 1, s.foldPointer);
    }
    if InLoop(s.folder) && s.folder.at > t {
      TripIsFinal(c.cells, c.streak, c.limit, t + 1, s.folder.at);
    }
    TripIsFinal(c.cells, c.streak, c.limit, t + 1, |c.cells|);
  }

  ghost predicate Between(low: int, k: int, high: int) {
    low < k < high
  }

  lemma {:induction false} SpanSize(s: set<nat>, low: nat, size: nat)
    requires forall k :: k in s ==> Between(low, k, low + size + 1)
    ensures |s| <= size
  {
    if s != {} {
      assert size > 0 by { var k :| k in s; }
      SpanSize(s - {low + size}, low, size - 1);
    }
  }

  /** Cells after t whose session was paid for. */
  ghost function Overrun(s: State, t: nat): set<nat> {
    set k | k in s.started && k > t
  }

  /** The breaker's overrun: at every moment of every run, only cells before t + window have
      started, so at most window - 1 sessions past the tripping cell are ever paid for. */
  lemma OverrunWithinWindow(c: Config, run: seq<State>, i: nat, t: nat)
    requires ValidConfig(c) && IsRun(c, run) && i < |run| && TripCell(c, t)
    requires !run[i].external || Broke(c, run[i])
    ensures forall k :: k in run[i].started ==> k < t + c.window
    ensures |Overrun(run[i], t)| <= c.window - 1
  {
    EveryStateInv(c, run, i);
    FoldPointerStopsAtTrip(c, run[i], t);
    SpanSize(Overrun(run[i], t), t, c.window - 1);
  }

  // ---- every run ends -----------------------------------------------------------------------

  /** Steps each entry still has in it. */
  function EntryWork(s: seq<Entry>): nat {
    if s == [] then 0
    else EntryWork(s[..|s| - 1]) + match s[|s| - 1] case Pending => 2 case Running => 1 case _ => 0
  }

  function ProducerWork(p: Producer, n: nat): int {
    match p
    case Checking(i) => 6 * (n - i) + 3
    case Awaiting(i) => 6 * (n - i) + 2
    case Submitting(i) => 6 * (n - i) + 1
    case Stopped => 0
  }

  function FolderWork(f: Folder, n: nat): int {
    match f
    case Waiting(i) => 4 * (n - i) + 6
    case Publishing(i) => 4 * (n - i) + 8
    case Checkpoint(i) => 4 * (n - i) + 7
    case Tripping(_) => 4
    case Leaving(_) => 3
    case Joining(_) => 2
    case Cancelling(_) => 1
    case Returned => 0
  }

  function Work(c: Config, s: State): int {
    ProducerWork(s.producer, |c.cells|) + EntryWork(s.submitted) + FolderWork(s.folder, |c.cells|)
    + if s.external then 0 else 1
  }

  lemma {:induction false} EntryWorkUpdate(s: seq<Entry>, k: nat, e: Entry)
    requires k < |s|
    ensures EntryWork(s[k := e]) == EntryWork(s) - EntryWork([s[k]]) + EntryWork([e])
  {
    var n := |s| - 1;
    assert [s[k]][..0] == [] && [e][..0] == [];
    if k == n {
      assert s[k := e][..n] == s[..n];
    } else {
      EntryWorkUpdate(s[..n], k, e);
      assert s[k := e][..n] == s[..n][k := e];
    }
  }

  lemma WorkerDoesWork(c: Config, s: State, step: Step)
    requires Enabled(c, s, step) && (step.WorkerStart? || step.WorkerFinish? || step.FolderDrop?)
    ensures Work(c, Apply(c, s, step)) < Work(c, s)
  {
    var was := s.submitted[step.cell];
    var now := Apply(c, s, step).submitted[step.cell];
    EntryWorkUpdate(s.submitted, step.cell, now);
    assert [was][..0] == [] && [now][..0] == [];
  }

  lemma ProducerDoesWork(c: Config, s: State, step: Step)
    requires ProducerOk(c, s) && Enabled(c, s, step)
    requires step.ProducerCheck? || step.ProducerAwait? || step.ProducerSubmit?
    ensures Work(c, Apply(c, s, step)) < Work(c, s)
  {
    assert (s.submitted + [Abandoned])[..|s.submitted|] == s.submitted;
    assert (s.submitted + [Pending])[..|s.submitted|] == s.submitted;
  }

  lemma FolderDoesWork(c: Config, s: State, step: Step)
    requires ProducerOk(c, s) && FolderOk(c, s) && Enabled(c, s, step)
    requires !step.ProducerCheck? && !step.ProducerAwait? && !step.ProducerSubmit?
    requires !step.WorkerStart? && !step.WorkerFinish? && !step.FolderDrop?
    ensures Work(c, Apply(c, s, step)) < Work(c, s)
  {
    var t := Apply(c, s, step);
    assert t.submitted == s.submitted && t.producer == s.producer;
  }

  lemma StepDoesWork(c: Config, s: State, step: Step)
    requires ValidConfig(c) && Inv(c, s) && Enabled(c, s, step)
    ensures Work(c, Apply(c, s, step)) < Work(c, s)
  {
    match step
    case ProducerCheck => ProducerDoesWork(c, s, step);
    case ProducerAwait => ProducerDoesWork(c, s, step);
    case ProducerSubmit => ProducerDoesWork(c, s, step);
    case WorkerStart(_) => WorkerDoesWork(c, s, step);
    case WorkerFinish(_) => WorkerDoesWork(c, s, step);
    case FolderDrop(_) => WorkerDoesWork(c, s, step);
    case _ => FolderDoesWork(c, s, step);
  }

  lemma WorkNonNegative(c: Config, s: State)
    requires Inv(c, s)
    ensures Work(c, s) >= 0
  {
  }

  /** No run is longer than the work in the initial state. */
  lemma {:induction false} RunsAreBounded(c: Config, run: seq<State>, i: nat)
    requires ValidConfig(c) && IsRun(c, run) && i < |run|
    ensures i + Work(c, run[i]) <= Work(c, Init(c))
    ensures Work(c, run[i]) >= 0
  {
    EveryStateInv(c, run, i);
    WorkNonNegative(c, run[i]);
    if i > 0 {
      RunsAreBounded(c, run, i - 1);
      RunDoesWork(c, run, i - 1);
    }
  }

  lemma NextDoesWork(c: Config, s: State, t: State)
    requires ValidConfig(c) && Inv(c, s) && Next(c, s, t)
    ensures Work(c, t) < Work(c, s)
  {
    var step :| Enabled(c, s, step) && t == Apply(c, s, step);
    StepDoesWork(c, s, step);
  }

  lemma RunDoesWork(c: Config, run: seq<State>, k: nat)
    requires ValidConfig(c) && IsRun(c, run) && k + 1 < |run|
    ensures Work(c, run[k + 1]) < Work(c, run[k])
  {
    EveryStateInv(c, run, k);
    assert Next(c, run[k], run[k + 1]);
    NextDoesWork(c, run[k], run[k + 1]);
  }

  lemma {:induction false} SomeoneRuns(s: seq<Entry>)
    requires RunningCount(s) > 0
    ensures exists k :: 0 <= k < |s| && s[k] == Running
  {
    var n := |s| - 1;
    if s[n] != Running {
      SomeoneRuns(s[..n]);
      var k :| 0 <= k < n && s[..n][k] == Running;
      assert s[k] == Running;
    }
  }

  /** A submitted cell that has not settled always has a worker step to take, or waits on a
      pool whose running cells have one. */
  lemma UnsettledCellMoves(c: Config, s: State, k: nat) returns (step: Step)
    requires ValidConfig(c) && k < |s.submitted| && (s.submitted[k] == Pending || s.submitted[k] == Running)
    ensures Enabled(c, s, step) && !step.ExternalCancel?
  {
    if s.submitted[k] == Running {
      step := WorkerFinish(k);
    } else if RunningCount(s.submitted) < c.workers {
      step := WorkerStart(k);
    } else {
      SomeoneRuns(s.submitted);
      var r :| 0 <= r < |s.submitted| && s.submitted[r] == Running;
      step := WorkerFinish(r);
    }
  }

  /** Producer, workers and folder are never all stuck: until the call has returned, some
      step of their own is enabled. */
  lemma NeverStuck(c: Config, s: State) returns (step: Step)
    requires ValidConfig(c) && Inv(c, s) && !s.folder.Returned?
    ensures Enabled(c, s, step) && !step.ExternalCancel?
  {
    match s.folder
    case Waiting(i) =>
      if i < |s.submitted| {
        if s.submitted[i] == Pending || s.submitted[i] == Running {
          step := UnsettledCellMoves(c, s, i);
        } else {
          step := FolderFold;
        }
      } else {
        step := ProducerMoves(c, s);
      }
    case Publishing(_) => step := FolderPublish;
    case Checkpoint(_) => step := FolderCheckpoint;
    case Tripping(_) => step := FolderCancel;
    case Leaving(_) => step := FolderHalt;
    case Joining(_) => step := ProducerMoves(c, s);
    case Cancelling(_) =>
      if AllSettled(s.submitted) {
        step := FolderReturn;
      } else {
        var k :| 0 <= k < |s.submitted| && (s.submitted[k] == Pending || s.submitted[k] == Running);
        step := UnsettledCellMoves(c, s, k);
      }
  }

  /** With the folder caught up, or halt raised, the window never blocks the producer. */
  lemma ProducerMoves(c: Config, s: State) returns (step: Step)
    requires ValidConfig(c) && Inv(c, s)
    requires (s.folder.Waiting? && s.folder.at >= |s.submitted|) || s.folder.Joining?
    ensures Enabled(c, s, step) && !step.ExternalCancel?
  {
    match s.producer
    case Checking(_) => step := ProducerCheck;
    case Awaiting(_) => step := ProducerAwait;
    case Submitting(_) => step := ProducerSubmit;
    case Stopped => step := if s.folder.Joining? then FolderJoin else FolderFold;
  }

  // ---- when a cancel is reported ------------------------------------------------------------

  /** The folder will still come to its test of the cancel flag: it is between folding a cell
      and that test, or it has a cell to fold, or the producer is about to hand it one that
      was abandoned. */
  predicate WillTest(c: Config, s: State) {
    match s.folder
    case Publishing(_) => true
    case Checkpoint(_) => true
    case Tripping(_) => true
    case Waiting(at) =>
      at < |s.submitted|
      || (s.producer.Awaiting? && !(s.producer.cell < |c.cells| && c.cells[s.producer.cell].ready))
    case _ => false
  }

  predicate WillReport(c: Config, s: State) {
    s.tripped || WillTest(c, s)
  }

  /** Once cancelled, whether the call will report it does not change. */
  lemma StepKeepsReport(c: Config, s: State, step: Step)
    requires ValidConfig(c) && Inv(c, s) && Enabled(c, s, step) && s.cancel
    ensures var t := Apply(c, s, step); t.cancel && (WillReport(c, t) <==> WillReport(c, s))
  {
  }

  lemma NextKeepsReport(c: Config, s: State, t: State)
    requires ValidConfig(c) && Inv(c, s) && Next(c, s, t) && s.cancel
    ensures t.cancel && (WillReport(c, t) <==> WillReport(c, s))
  {
    var step :| Enabled(c, s, step) && t == Apply(c, s, step);
    StepKeepsReport(c, s, step);
  }

  ghost predicate Settles(c: Config, s: State, verdict: bool) {
    s.cancel && (WillReport(c, s) <==> verdict)
  }

  lemma RunKeepsReport(c: Config, run: seq<State>, k: nat, verdict: bool)
    requires ValidConfig(c) && IsRun(c, run) && k + 1 < |run| && Settles(c, run[k], verdict)
    ensures Settles(c, run[k + 1], verdict)
  {
    EveryStateInv(c, run, k);
    assert Next(c, run[k], run[k + 1]);
    NextKeepsReport(c, run[k], run[k + 1]);
  }

  ghost predicate KeepsReport(c: Config, run: seq<State>, k: nat, verdict: bool)
    requires k + 1 < |run|
  {
    Settles(c, run[k], verdict) ==> Settles(c, run[k + 1], verdict)
  }

  lemma {:induction false} ReportIsSettled(c: Config, run: seq<State>, i: nat, j: nat, verdict: bool)
    requires i <= j < |run| && Settles(c, run[i], verdict)
    requires forall k :: i <= k < j ==> KeepsReport(c, run, k, verdict)
    ensures Settles(c, run[j], verdict)
  {
    if i < j {
      ReportIsSettled(c, run, i, j - 1, verdict);
      assert KeepsReport(c, run, j - 1, verdict);
    }
  }

  /** A returned call reports tripped exactly when, in any state that already had the cancel
      flag set (such as the one the outside cancel left), it had tripped or its folder was
      still to test the flag. */
  lemma CancelIsReportedExactly(c: Config, run: seq<State>, i: nat)
    requires ValidConfig(c) && IsRun(c, run) && i < |run| && run[i].cancel && run[|run| - 1].folder.Returned?
    ensures run[|run| - 1].tripped <==> WillReport(c, run[i])
  {
    var verdict, end: nat := WillReport(c, run[i]), |run| - 1;
    forall k: nat | i <= k < end ensures KeepsReport(c, run, k, verdict) {
      if Settles(c, run[k], verdict) { RunKeepsReport(c, run, k, verdict); }
    }
    ReportIsSettled(c, run, i, end, verdict);
  }

  // ---- an outside cancel need not be reported ---------------------------------------------

  /** One ready cell, cancelled from outside before the producer first looks at the flags. */
  ghost function SilentCancelRun(c: Config): seq<State> {
    var s0 := Init(c);
    var s1 := s0.(cancel := true, external := true);
    var s2 := s1.(producer := Stopped);
    var s3 := s2.(folder := Leaving(0));
    var s4 := s3.(halt := true, folder := Joining(0));
    var s5 := s4.(folder := Cancelling(0));
    [s0, s1, s2, s3, s4, s5, s5.(folder := Returned)]
  }

  lemma Takes(c: Config, s: State, step: Step, t: State)
    requires Enabled(c, s, step) && t == Apply(c, s, step)
    ensures Next(c, s, t)
  {
  }

  /** The check at the end of the folder's loop reports an outside cancel as tripped only if
      the loop gets there: when the cancel stops the producer while the folder is waiting for
      a submission, the call returns untripped with ready cells never run. */
  lemma OutsideCancelCanReturnUntripped(c: Config)
    requires ValidConfig(c) && c.cells != [] && c.cells[0].ready
    ensures var run := SilentCancelRun(c); var last := run[|run| - 1];
      && IsRun(c, run) && last.folder.Returned?
      && last.external && !last.tripped && last.log == [] && last.started == {}
  {
    var run := SilentCancelRun(c);
    Takes(c, run[0], ExternalCancel, run[1]);
    Takes(c, run[1], ProducerCheck, run[2]);
    Takes(c, run[2], FolderFold, run[3]);
    Takes(c, run[3], FolderHalt, run[4]);
    Takes(c, run[4], FolderJoin, run[5]);
    Takes(c, run[5], FolderReturn, run[6]);
    forall i | 0 <= i < |run| - 1 ensures Next(c, run[i], run[i + 1]) {
      assert i in {0, 1, 2, 3, 4, 5};
    }
  }
  // ---- the window and the pool are used ------------------------------------------------------

  lemma {:induction false} OneMoreState(c: Config, run: seq<State>, step: Step) returns (longer: seq<State>)
    requires IsRun(c, run) && Enabled(c, run[|run| - 1], step)
    ensures IsRun(c, longer) && longer[|longer| - 1] == Apply(c, run[|run| - 1], step)
  {
    var t := Apply(c, run[|run| - 1], step);
    longer := run + [t];
    assert Next(c, run[|run| - 1], t);
    forall i | 0 <= i < |longer| - 1 ensures Next(c, longer[i], longer[i + 1]) {
      if i < |run| - 1 { assert Next(c, run[i], run[i + 1]); }
    }
  }

  /** The first r of n submitted cells are running, the others wait for a worker. */
  function Underway(r: nat, n: nat): (s: seq<Entry>)
    requires r <= n
    ensures |s| == n && forall k :: 0 <= k < n ==> s[k] == if k < r then Running else Pending
  {
    seq(n, k => if k < r then Running else Pending)
  }

  function UpTo(r: nat): set<nat> {
    if r == 0 then {} else UpTo(r - 1) + {r - 1}
  }

  /** Nothing has been folded yet. */
  function Ahead(c: Config, r: nat, n: nat): State
    requires r <= n
  {
    State(Checking(n), Waiting(0), Underway(r, n), 0, false, false, c.streak, false, [], UpTo(r), false)
  }

  lemma {:induction false} UnderwayCount(r: nat, n: nat)
    requires r <= n
    ensures RunningCount(Underway(r, n)) == r
  {
    if n > 0 {
      var front := Underway(if r == n then r - 1 else r, n - 1);
      assert Underway(r, n)[..n - 1] == front;
      UnderwayCount(if r == n then r - 1 else r, n - 1);
    }
  }

  lemma {:induction false} SubmitsAhead(c: Config, n: nat) returns (run: seq<State>)
    requires ValidConfig(c) && n <= |c.cells| && n <= c.window && forall k :: 0 <= k < n ==> c.cells[k].ready
    ensures IsRun(c, run) && run[|run| - 1] == Ahead(c, 0, n)
  {
    if n == 0 {
      run := [Init(c)];
      assert Underway(0, 0) == [] && UpTo(0) == {};
    } else {
      run := SubmitsAhead(c, n - 1);
      run := OneMoreState(c, run, ProducerCheck);
      run := OneMoreState(c, run, ProducerAwait);
      run := OneMoreState(c, run, ProducerSubmit);
      assert Underway(0, n - 1) + [Pending] == Underway(0, n);
    }
  }

  /** As long as nothing is folded, as many cells are submitted as the window and the cells
      allow, and as many of them run at once as there are workers. */
  lemma {:induction false} PoolIsUsed(c: Config, r: nat, n: nat) returns (run: seq<State>)
    requires ValidConfig(c) && n <= |c.cells| && n <= c.window && forall k :: 0 <= k < n ==> c.cells[k].ready
    requires r <= n && r <= c.workers
    ensures IsRun(c, run)
    ensures var last := run[|run| - 1];
      last.folder == Waiting(0) && |last.submitted| == n && RunningCount(last.submitted) == r && last.started == UpTo(r) && last == Ahead(c, r, n)
  {
    UnderwayCount(r, n);
    if r == 0 {
      run := SubmitsAhead(c, n);
    } else {
      run := PoolIsUsed(c, r - 1, n);
      run := OneMoreState(c, run, WorkerStart(r - 1));
      assert Underway(r - 1, n)[r - 1 := Running] == Underway(r, n);
    }
  }
}
