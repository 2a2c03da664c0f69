/** `apply_promoted_overlay` from staging to its return, as a step system over one directory.
    A step is either one filesystem operation of the transaction, with any outcome it can
    have, or a write by somebody else to a destination name; any number of those may fall
    between two operations. Files are regular and have one name each; digests identify
    bytes; a read of one entry is one step. */
module OverlayTransaction {
  import opened Octets
  import opened Optional

  /** One prepared destination: the bytes and mode it was bound with, and its new bytes. */
  datatype Prepared = Prepared(original: Bytes, content: Bytes, mode: nat)
  type Plan = seq<Prepared>

  /** A file: inode, bytes, mode and modification time. */
  datatype Node = Node(ino: nat, data: Bytes, mode: nat, mtime: int)

  /** `_entry_identity_at`, and what `entry_state` returns. */
  datatype Identity = Identity(ino: nat, size: nat, mode: nat, mtime: int)
  datatype Content = Content(data: Bytes, mode: nat)

  function IdentityOf(n: Node): Identity {
    Identity(n.ino, |n.data|, n.mode, n.mtime)
  }

  function ContentOf(n: Node): Content {
    Content(n.data, n.mode)
  }

  function BaseContent(item: Prepared): Content {
    Content(item.original, item.mode)
  }

  function CandidateContent(item: Prepared): Content {
    Content(item.content, item.mode)
  }

  /** The names the transaction touches, all different: a destination and its two temporaries. */
  datatype Name = Dest(item: nat) | Candidate(item: nat) | Backup(item: nat)

  type Directory = map<Name, Node>

  datatype Report =
    | Published
    | RolledBack
    | RollbackIncomplete(recorded: bool)
    | CleanupIncomplete(recordedState: TransactionState)
    | Escaped                      // an interrupt left the rollback half way

  datatype TransactionState = StatePublished | StateRolledBack | StateNotFullyPublished

  /** Where the rollback of one exchanged destination stands; `t` is `temporary_identity`
      and `ds` is `displaced_state`. */
  datatype Phase =
    | InspectDest
    | InspectTemp
    | TempIdentity(t: Identity)
    | TempContent(t: Identity, ok: bool)
    | DestIdentity(t: Identity, atTemp: bool)
    | DestContent(t: Identity, atTemp: bool, ok: bool)
    | ReadDisplaced(t: Identity)
    | SwapBack(t: Identity, ds: Option<Content>)
    | ValidDest(t: Identity, ds: Option<Content>)
    | ValidContent(displaced: Content)
    | ValidTempIdentity
    | ValidTempContent(ok: bool)

  datatype Pc =
    | StageCandidate(i: nat)
    | RecordIdentity(i: nat)
    | StageBackup(i: nat)
    | ValidateStaged
    | CheckBase(i: nat)
    | PublishPaths(i: nat)
    | PublishCheck(i: nat)
    | PublishIdentity(i: nat)
    | Publish(i: nat)
    | ClassifyDest(i: nat)
    | ClassifyTemp(i: nat, dest: Identity)
    | Verify(final: bool, i: nat, k: nat)
    | ValidatePublished
    | Roll(k: nat, phase: Phase)
    | WriteRecovery
    | Clean(i: nat, backup: bool)
    | Done(report: Report)

  /** The files, and which of them the transaction has recorded. */
  datatype World = World(
    dir: Directory,
    listed: nat,                      // replacements recorded so far
    cand: map<nat, Node>,             // candidate entries whose identity was captured
    completed: seq<nat>,              // exchanges the rollback will look at
    // what only the proofs look at
    touched: set<nat>,                // an exchange of this item landed at least once
    swapped: set<nat>,                // ... an odd number of times
    kept: set<(nat, Node)>)           // files others put there and have not replaced themselves

  datatype Book = Book(
    previous: map<nat, Identity>,     // publication_previous_identity
    backups: set<nat>,                // recorded backup names
    failed: bool,                     // rollback_failures is not empty
    publishedAll: bool,
    rollbackComplete: bool,
    // what only the proofs look at
    disturbed: bool,                  // somebody else wrote
    faults: nat,
    escapes: bool)                    // an interrupt hit an inspection inside a handler

  datatype State = State(pc: Pc, w: World, b: Book)

  /** Soft is OSError or ValueError, Hard any other exception, such as an interrupt. */
  datatype Outcome = Ok | Soft | Hard
  datatype StageOutcome = Staged(ino: nat, mtime: int) | NotStaged | Left(node: Node, recorded: bool)
  datatype SwapOutcome = Exchanged | RaisedBefore | RaisedAfter
  datatype UnlinkOutcome = Unlinked | StillThere | UnlinkedThenRaised

  datatype Step =
    | Write(i: nat, node: Node)       // somebody else creates, replaces or edits a destination
    | Remove(i: nat)                  // somebody else deletes it
    | Stage(stage: StageOutcome)
    | Do(outcome: Outcome)            // any read, check or record
    | Swap(swap: SwapOutcome)
    | Unlink(unlink: UnlinkOutcome)

  // ---- what one operation does --------------------------------------------------------------

  predicate FreshIno(dir: Directory, ino: nat) {
    forall name :: name in dir ==> dir[name].ino != ino
  }

  /** An edit in place keeps the inode and shows; anything else brings a new inode. */
  predicate LegalWrite(dir: Directory, i: nat, node: Node) {
    FreshIno(dir, node.ino) || (Dest(i) in dir && dir[Dest(i)].ino == node.ino && dir[Dest(i)] != node)
  }

  predicate BothExist(dir: Directory, i: nat) {
    Dest(i) in dir && Candidate(i) in dir
  }

  predicate Stages(pc: Pc) {
    pc.StageCandidate? || pc.StageBackup?
  }

  predicate Exchanges(pc: Pc) {
    pc.Publish? || (pc.Roll? && pc.phase.SwapBack?)
  }

  /** The item an exchange or a rollback inspection is about. */
  function Item(w: World, k: nat): nat {
    if 0 < k <= |w.completed| then w.completed[k - 1] else 0
  }

  function ExchangedItem(s: State): nat {
    if s.pc.Publish? then s.pc.i else if s.pc.Roll? then Item(s.w, s.pc.k) else 0
  }

  predicate Enabled(plan: Plan, s: State, step: Step) {
    match step
    case Write(i, node) => !s.pc.Done? && i < |plan| && LegalWrite(s.w.dir, i, node)
    case Remove(i) => !s.pc.Done? && i < |plan| && Dest(i) in s.w.dir
    case Stage(Staged(ino, _)) => Stages(s.pc) && FreshIno(s.w.dir, ino)
    case Stage(NotStaged) => Stages(s.pc)
    case Stage(Left(node, _)) => Stages(s.pc) && FreshIno(s.w.dir, node.ino)
    case Swap(o) => Exchanges(s.pc) && (o.RaisedBefore? || BothExist(s.w.dir, ExchangedItem(s)))
    case Unlink(_) => s.pc.Clean?
    case Do(_) => !Stages(s.pc) && !Exchanges(s.pc) && !s.pc.Clean? && !s.pc.Done?
  }

  function Exchange(dir: Directory, i: nat): Directory
    requires BothExist(dir, i)
  {
    dir[Dest(i) := dir[Candidate(i)]][Candidate(i) := dir[Dest(i)]]
  }

  /** An exchange that landed. */
  function Landed(w: World, i: nat): World
    requires BothExist(w.dir, i)
  {
    w.(dir := Exchange(w.dir, i), touched := w.touched + {i},
       swapped := if i in w.swapped then w.swapped - {i} else w.swapped + {i})
  }

  function Recorded(w: World, i: nat): World {
    w.(completed := w.completed + [i])
  }

  /** Others lose only what they replace or remove themselves. */
  function Overwritten(w: World, i: nat): set<(nat, Node)> {
    if Dest(i) in w.dir then w.kept - {(i, w.dir[Dest(i)])} else w.kept
  }

  function Faulted(b: Book, fine: bool): Book {
    if fine then b else b.(faults := b.faults + 1)
  }

  // ---- control flow ---------------------------------------------------------------------------

  function NextStage(plan: Plan, i: nat): Pc {
    if i < |plan| then StageCandidate(i) else ValidateStaged
  }

  function NextCheck(plan: Plan, i: nat): Pc {
    if i < |plan| then CheckBase(i) else NextPublish(plan, 0)
  }

  function NextPublish(plan: Plan, i: nat): Pc {
    if i < |plan| then PublishPaths(i) else NextVerify(plan, 0)
  }

  function NextVerify(plan: Plan, i: nat): Pc {
    if i < |plan| then Verify(true, i, 0) else ValidatePublished
  }

  /** The `except BaseException` block moves on to the k-th recorded exchange, counting down. */
  function RollFrom(w: World, b: Book, k: nat): State {
    if k > 0 then State(Roll(k, InspectDest), w, b)
    else if b.failed then State(WriteRecovery, w, b)
    else CleanFrom(w, b.(rollbackComplete := true), 0)
  }

  function Raise(w: World, b: Book): State {
    RollFrom(w, b, |w.completed|)
  }

  /** The `finally` block, from the i-th replacement on. */
  function CleanFrom(w: World, b: Book, i: nat): State {
    if i < w.listed then State(Clean(i, false), w, b) else State(Done(FinalReport(b)), w, b)
  }

  function FinalReport(b: Book): Report {
    if b.publishedAll then Published else if b.rollbackComplete then RolledBack else Escaped
  }

  function RecordedState(b: Book): TransactionState {
    if b.publishedAll then StatePublished else if b.rollbackComplete then StateRolledBack else StateNotFullyPublished
  }

  function AfterUnlink(w: World, b: Book, i: nat, backup: bool): State {
    if !backup && i in b.backups then State(Clean(i, true), w, b) else CleanFrom(w, b, i + 1)
  }

  /** The first failed unlink ends the cleanup: the remaining temporaries are kept. */
  function StopCleanup(w: World, b: Book): State {
    State(Done(CleanupIncomplete(RecordedState(b))), w, Faulted(b, false))
  }

  function RollFailed(w: World, b: Book, k: nat): State
    requires k > 0
  {
    RollFrom(w, b.(failed := true), k - 1)
  }

  /** An interrupt inside the rollback: no more of it, straight to the `finally` block. */
  function Escape(w: World, b: Book): State {
    CleanFrom(w, b.(escapes := true), 0)
  }

  /** An interrupt during the classification leaves the exchange off the record. */
  function Unrecorded(w: World, b: Book): State {
    Raise(w, b.(escapes := true))
  }

  // ---- one step ---------------------------------------------------------------------------------

  function Apply(plan: Plan, s: State, step: Step): State
    requires Enabled(plan, s, step)
  {
    var w, b := s.w, s.b;
    match step
    case Write(i, node) =>
      State(s.pc, w.(dir := w.dir[Dest(i) := node], kept := Overwritten(w, i) + {(i, node)}), b.(disturbed := true))
    case Remove(i) =>
      State(s.pc, w.(dir := w.dir - {Dest(i)}, kept := Overwritten(w, i)), b.(disturbed := true))
    case Stage(o) =>
      if s.pc.StageCandidate? then StageFirst(plan, w, b, s.pc.i, o) else StageSecond(plan, w, b, s.pc.i, o)
    case Do(o) =>
      (match s.pc
       case Roll(k, phase) => ApplyRoll(plan, w, Faulted(b, o.Ok?), k, phase, o)
       case _ => ApplyDo(plan, s.pc, w, Faulted(b, o.Ok?), o))
    case Swap(o) =>
      (match s.pc
       case Roll(k, phase) => SwapBackStep(w, Faulted(b, o.Exchanged?), k, phase.t, phase.ds, o)
       case _ => PublishStep(w, Faulted(b, o.Exchanged?), ExchangedItem(s), o))
    case Unlink(o) => ApplyUnlink(w, b, s.pc.i, s.pc.backup, o)
  }

  function ApplyUnlink(w: World, b: Book, i: nat, backup: bool, o: UnlinkOutcome): State {
    var gone := w.(dir := w.dir - {if backup then Backup(i) else Candidate(i)});
    match o
    case Unlinked => AfterUnlink(gone, b, i, backup)
    case StillThere => StopCleanup(w, b)
    case UnlinkedThenRaised => StopCleanup(gone, b)
  }

  function StageFirst(plan: Plan, w: World, b: Book, i: nat, o: StageOutcome): State {
    match o
    case NotStaged => Raise(w, Faulted(b, false))
    case Left(node, recorded) =>
      Raise(w.(dir := w.dir[Candidate(i) := node], listed := if recorded then i + 1 else w.listed), Faulted(b, false))
    case Staged(ino, mtime) =>
      if i >= |plan| then Raise(w, b)
      else
        var node := Node(ino, plan[i].content, plan[i].mode, mtime);
        State(RecordIdentity(i), w.(dir := w.dir[Candidate(i) := node], listed := i + 1), b)
  }

  function StageSecond(plan: Plan, w: World, b: Book, i: nat, o: StageOutcome): State {
    match o
    case NotStaged => Raise(w, Faulted(b, false))
    case Left(node, recorded) =>
      var kept := if recorded then b.(backups := b.backups + {i}) else b;
      Raise(w.(dir := w.dir[Backup(i) := node]), Faulted(kept, false))
    case Staged(ino, mtime) =>
      if i >= |plan| then Raise(w, b)
      else
        var node := Node(ino, plan[i].original, plan[i].mode, mtime);
        State(NextStage(plan, i + 1), w.(dir := w.dir[Backup(i) := node]), b.(backups := b.backups + {i}))
  }

  /** An exchange during publication is followed by its parity check or, if it raised, by the
      classification. */
  function PublishStep(w: World, b: Book, i: nat, o: SwapOutcome): State
    requires o.RaisedBefore? || BothExist(w.dir, i)
  {
    match o
    case Exchanged => State(Verify(false, i, 0), Recorded(Landed(w, i), i), b)
    case RaisedBefore => State(ClassifyDest(i), w, b)
    case RaisedAfter => State(ClassifyDest(i), Landed(w, i), b)
  }

  /** One during rollback is followed by its validation either way. */
  function SwapBackStep(w: World, b: Book, k: nat, t: Identity, ds: Option<Content>, o: SwapOutcome): State
    requires o.RaisedBefore? || BothExist(w.dir, Item(w, k))
  {
    State(Roll(k, ValidDest(t, ds)), if o.RaisedBefore? then w else Landed(w, Item(w, k)), b)
  }

  predicate IdentityIs(w: World, name: Name, id: Identity) {
    name in w.dir && IdentityOf(w.dir[name]) == id
  }

  predicate ContentIs(w: World, name: Name, c: Content) {
    name in w.dir && ContentOf(w.dir[name]) == c
  }

  /** The four comparisons made for each item after its exchange, and again at the end. */
  predicate VerifyHolds(plan: Plan, w: World, b: Book, i: nat, k: nat)
    requires i < |plan|
  {
    match k
    case 0 => ContentIs(w, Dest(i), CandidateContent(plan[i]))
    case 1 => ContentIs(w, Candidate(i), BaseContent(plan[i]))
    case 2 => i in w.cand && IdentityIs(w, Dest(i), IdentityOf(w.cand[i]))
    case _ => i in b.previous && IdentityIs(w, Candidate(i), b.previous[i])
  }

  function AfterVerify(plan: Plan, final: bool, i: nat, k: nat): Pc {
    if k < 3 then Verify(final, i, k + 1)
    else if final then NextVerify(plan, i + 1)
    else NextPublish(plan, i + 1)
  }

  /** Steps outside the rollback. */
  function ApplyDo(plan: Plan, pc: Pc, w: World, b: Book, o: Outcome): State {
    match pc
    case RecordIdentity(i) =>
      if o.Ok? && Candidate(i) in w.dir
      then State(StageBackup(i), w.(cand := w.cand[i := w.dir[Candidate(i)]]), b) else Raise(w, b)
    case ValidateStaged => if o.Ok? then State(NextCheck(plan, 0), w, b) else Raise(w, b)
    case CheckBase(i) =>
      if o.Ok? && i < |plan| && ContentIs(w, Dest(i), BaseContent(plan[i]))
      then State(NextCheck(plan, i + 1), w, b) else Raise(w, b)
    case PublishPaths(i) => if o.Ok? then State(PublishCheck(i), w, b) else Raise(w, b)
    case PublishCheck(i) =>
      if o.Ok? && i < |plan| && ContentIs(w, Dest(i), BaseContent(plan[i]))
      then State(PublishIdentity(i), w, b) else Raise(w, b)
    case PublishIdentity(i) =>
      if o.Ok? && Dest(i) in w.dir
      then State(Publish(i), w, b.(previous := b.previous[i := IdentityOf(w.dir[Dest(i)])])) else Raise(w, b)
    case ClassifyDest(i) =>
      // except OSError: counts as completed; an interrupt leaves it out
      if o.Hard? then Unrecorded(w, b)
      else if o.Ok? && Dest(i) in w.dir then State(ClassifyTemp(i, IdentityOf(w.dir[Dest(i)])), w, b)
      else Raise(Recorded(w, i), b)
    case ClassifyTemp(i, dest) =>
      if o.Hard? then Unrecorded(w, b)
      else if o.Ok? && Candidate(i) in w.dir && i in w.cand && dest.ino != w.cand[i].ino && w.dir[Candidate(i)].ino == w.cand[i].ino
      then Raise(w, b)
      else Raise(Recorded(w, i), b)
    case Verify(final, i, k) =>
      if o.Ok? && i < |plan| && VerifyHolds(plan, w, b, i, k) then State(AfterVerify(plan, final, i, k), w, b) else Raise(w, b)
    case ValidatePublished => if o.Ok? then CleanFrom(w, b.(publishedAll := true), 0) else Raise(w, b)
    case WriteRecovery => State(Done(RollbackIncomplete(o.Ok?)), w, b)
    case _ => State(pc, w, b)
  }

  /** Steps of the rollback loop. `candidate_is_intact` reads an identity and then a content;
      it and `rollback_exchange_is_valid` turn soft faults into False. */
  function ApplyRoll(plan: Plan, w: World, b: Book, k: nat, phase: Phase, o: Outcome): State {
    var i := Item(w, k);
    if k == 0 || i !in w.cand || i >= |plan| then State(Roll(k, phase), w, b)
    else
      var id, content := IdentityOf(w.cand[i]), CandidateContent(plan[i]);
      match phase
      case InspectDest =>
        if o.Ok? && Dest(i) in w.dir then State(Roll(k, InspectTemp), w, b) else RollFailed(w, b, k)
      case InspectTemp =>
        if o.Ok? && Candidate(i) in w.dir
        then State(Roll(k, TempIdentity(IdentityOf(w.dir[Candidate(i)]))), w, b) else RollFailed(w, b, k)
      case TempIdentity(t) =>
        if o.Hard? then Escape(w, b)
        else if o.Soft? || Candidate(i) !in w.dir then State(Roll(k, DestIdentity(t, false)), w, b)
        else State(Roll(k, TempContent(t, IdentityIs(w, Candidate(i), id))), w, b)
      case TempContent(t, ok) =>
        if o.Hard? then Escape(w, b)
        else State(Roll(k, DestIdentity(t, o.Ok? && ok && ContentIs(w, Candidate(i), content))), w, b)
      case DestIdentity(t, atTemp) =>
        if o.Hard? then Escape(w, b)
        else if o.Soft? || Dest(i) !in w.dir then Decide(w, b, k, t, atTemp, false)
        else State(Roll(k, DestContent(t, atTemp, IdentityIs(w, Dest(i), id))), w, b)
      case DestContent(t, atTemp, ok) =>
        if o.Hard? then Escape(w, b)
        else Decide(w, b, k, t, atTemp, o.Ok? && ok && ContentIs(w, Dest(i), content))
      case ReadDisplaced(t) =>
        if o.Hard? then Escape(w, b)
        else if o.Ok? && Candidate(i) in w.dir then State(Roll(k, SwapBack(t, Some(ContentOf(w.dir[Candidate(i)])))), w, b)
        else State(Roll(k, SwapBack(t, None)), w, b)
      case SwapBack(t, ds) => State(Roll(k, phase), w, b)
      case ValidDest(t, ds) =>
        if o.Hard? then Escape(w, b)
        else if o.Ok? && IdentityIs(w, Dest(i), t) then State(Roll(k, AfterValidDest(ds)), w, b)
        else RollFailed(w, b, k)
      case ValidContent(c) =>
        if o.Hard? then Escape(w, b)
        else if o.Ok? && ContentIs(w, Dest(i), c) then State(Roll(k, ValidTempIdentity), w, b) else RollFailed(w, b, k)
      case ValidTempIdentity =>
        if o.Hard? then Escape(w, b)
        else if o.Soft? || Candidate(i) !in w.dir then RollFailed(w, b, k)
        else State(Roll(k, ValidTempContent(IdentityIs(w, Candidate(i), id))), w, b)
      case ValidTempContent(ok) =>
        if o.Hard? then Escape(w, b)
        else if o.Ok? && ok && ContentIs(w, Candidate(i), content) then RollFrom(w, b, k - 1) else RollFailed(w, b, k)
  }

  function AfterValidDest(ds: Option<Content>): Phase {
    match ds case Some(c) => ValidContent(c) case None => ValidTempIdentity
  }

  function Decide(w: World, b: Book, k: nat, t: Identity, atTemp: bool, atDest: bool): State
    requires k > 0
  {
    if atTemp && atDest then RollFailed(w, b, k)
    else if atTemp then RollFrom(w, b, k - 1)
    else if !atDest then RollFailed(w, b, k)
    else State(Roll(k, ReadDisplaced(t)), w, b)
  }

  // ---- runs -------------------------------------------------------------------------------------

  ghost predicate OneName(dir: Directory) {
    forall a, b :: a in dir && b in dir && dir[a].ino == dir[b].ino ==> a == b
  }

  /** The transaction starts over some destinations and no temporaries. */
  ghost predicate Initial(plan: Plan, s: State) {
    && s == State(NextStage(plan, 0), World(s.w.dir, 0, map[], [], {}, {}, {}), Book(map[], {}, false, false, false, false, 0, false))
    && (forall name :: name in s.w.dir ==> name.Dest?)
    && OneName(s.w.dir)
  }

  ghost predicate Next(plan: Plan, s: State, t: State) {
    exists step :: Enabled(plan, s, step) && t == Apply(plan, s, step)
  }

  ghost predicate IsRun(plan: Plan, run: seq<State>) {
    && run != [] && Initial(plan, run[0])
    && forall i :: 0 <= i < |run| - 1 ==> Next(plan, run[i], run[i + 1])
  }
}
