/** The three-slot lock of the editor hooks: every interleaving of processes that acquire and
    release slots, one file operation at a time. Processes may start, die and reuse process
    ids at any moment; any operation may fail. */
module HookLock {
  const MAX_INFLIGHT: nat := 3
  const STALE_MS: nat := 30000

  /** A lock file's text: nothing yet, a process id as this code writes it, or text from
      elsewhere, with the number `parseInt` gets out of it (0 when it gets none). */
  datatype Text = Empty | Own(pid: nat) | Foreign(number: int)

  /** A lock file; `born` is when it was created, and only the proofs look at it. */
  datatype Inode = Inode(text: Text, mtime: int, born: int)

  /** Where a process stands in `acquireHookSlot`, or in the `release` it returned. */
  datatype Pc =
    | Idle
    | Try(slot: nat, attempt: nat)
    | Created(slot: nat, attempt: nat, id: nat)          // opened with wx, text not yet written
    | Open(slot: nat, attempt: nat)
    | Stat(slot: nat, attempt: nat, id: nat)
    | Read(slot: nat, attempt: nat, id: nat, mtime: int)
    | Kill(slot: nat, attempt: nat, id: nat, mtime: int, number: int)
    | Age(slot: nat, attempt: nat, id: nat, mtime: int)   // judged alive so far
    | Unlink(slot: nat, attempt: nat, id: nat)            // judged dead
    | Holding(slot: nat, id: nat)
    | CheckOwn(slot: nat, id: nat)
    | UnlinkOwn(slot: nat, id: nat)

  /** Files outlive their names: an open descriptor still reads an unlinked one. */
  datatype State = State(
    now: int,
    names: map<nat, nat>,
    inodes: map<nat, Inode>,
    next: nat,
    procs: map<nat, Pc>,
    evicted: set<nat>,       // files unlinked while their creator was still counting on them
    evictions: nat)          // how many unlinks did that

  datatype Step =
    | Tick(ms: nat)
    | Start(pid: nat)
    | Die(pid: nat)
    | Act(pid: nat, ok: bool, alive: bool)   // `alive` is the answer of kill(pid, 0)

  predicate Owns(pc: Pc, id: nat) {
    (pc.Created? || pc.Holding?) && pc.id == id
  }

  predicate Enabled(s: State, step: Step) {
    match step
    case Tick(_) => true
    case Start(pid) => pid !in s.procs && pid > 0
    case Die(pid) => pid in s.procs
    case Act(pid, _, alive) =>
      && pid in s.procs
      && (s.procs[pid].Kill? && s.procs[pid].number in s.procs ==> alive)
      && (var pc := s.procs[pid];
          (pc.Created? || pc.Stat? || pc.Read? ==> pc.id in s.inodes)
          && (pc.CheckOwn? && pc.slot in s.names ==> s.names[pc.slot] in s.inodes))
  }

  function NextSlot(slot: nat): Pc {
    if slot + 1 < MAX_INFLIGHT then Try(slot + 1, 0) else Idle
  }

  function Retry(slot: nat, attempt: nat): Pc {
    if attempt + 1 < 2 then Try(slot, attempt + 1) else NextSlot(slot)
  }

  function At(s: State, pid: nat, pc: Pc): State {
    s.(procs := s.procs[pid := pc])
  }

  predicate IsOwned(s: State, id: nat) {
    exists p :: p in s.procs && Owns(s.procs[p], id)
  }

  function Removed(s: State, slot: nat): State
    requires slot in s.names
  {
    var id := s.names[slot];
    var owned := IsOwned(s, id);
    s.(names := s.names - {slot},
       evicted := if owned then s.evicted + {id} else s.evicted,
       evictions := if owned then s.evictions + 1 else s.evictions)
  }

  function Unlinked(s: State, slot: nat, ok: bool): State {
    if ok && slot in s.names then Removed(s, slot) else s
  }

  function NewFile(s: State, slot: nat): State {
    s.(names := s.names[slot := s.next], inodes := s.inodes[s.next := Inode(Empty, s.now, s.now)], next := s.next + 1)
  }

  function Written(s: State, id: nat, pid: nat): State
    requires id in s.inodes
  {
    s.(inodes := s.inodes[id := Inode(Own(pid), s.now, s.inodes[id].born)])
  }

  /** What reading an owner decides: no number is dead, an empty text gets the benefit of the doubt. */
  function AfterRead(slot: nat, attempt: nat, id: nat, mtime: int, text: Text): Pc {
    match text
    case Empty => Age(slot, attempt, id, mtime)
    case Own(pid) => if pid > 0 then Kill(slot, attempt, id, mtime, pid) else Unlink(slot, attempt, id)
    case Foreign(number) => if number > 0 then Kill(slot, attempt, id, mtime, number) else Unlink(slot, attempt, id)
  }

  function Apply(s: State, step: Step): State
    requires Enabled(s, step)
  {
    match step
    case Tick(ms) => s.(now := s.now + ms)
    case Start(pid) => At(s, pid, Idle)
    case Die(pid) => s.(procs := s.procs - {pid})
    case Act(pid, ok, alive) => ApplyAct(s, pid, s.procs[pid], ok, alive)
  }

  function ApplyAct(s: State, pid: nat, pc: Pc, ok: bool, alive: bool): State
    requires pc.Created? || pc.Stat? || pc.Read? ==> pc.id in s.inodes
    requires pc.CheckOwn? && pc.slot in s.names ==> s.names[pc.slot] in s.inodes
  {
    match pc
    case Idle => At(s, pid, Try(0, 0))
    case Try(slot, attempt) =>
      if ok && slot !in s.names then At(NewFile(s, slot), pid, Created(slot, attempt, s.next))
      else At(s, pid, Open(slot, attempt))
    case Created(slot, attempt, id) =>
      if ok then At(Written(s, id, pid), pid, Holding(slot, id)) else At(s, pid, Open(slot, attempt))
    case Open(slot, attempt) =>
      At(s, pid, if ok && slot in s.names then Stat(slot, attempt, s.names[slot]) else Retry(slot, attempt))
    case Stat(slot, attempt, id) =>
      At(s, pid, if ok then Read(slot, attempt, id, s.inodes[id].mtime) else Unlink(slot, attempt, id))
    case Read(slot, attempt, id, mtime) =>
      At(s, pid, if ok then AfterRead(slot, attempt, id, mtime, s.inodes[id].text) else Unlink(slot, attempt, id))
    case Kill(slot, attempt, id, mtime, _) =>
      At(s, pid, if alive then Age(slot, attempt, id, mtime) else Unlink(slot, attempt, id))
    case Age(slot, attempt, id, mtime) =>
      At(s, pid, if s.now - mtime > STALE_MS then Unlink(slot, attempt, id) else NextSlot(slot))
    case Unlink(slot, attempt, _) => At(Unlinked(s, slot, ok), pid, Retry(slot, attempt))
    case Holding(slot, id) => At(s, pid, CheckOwn(slot, id))
    case CheckOwn(slot, id) =>
      At(s, pid, if ok && slot in s.names && s.inodes[s.names[slot]].text == Own(pid) then UnlinkOwn(slot, id) else Idle)
    case UnlinkOwn(slot, _) => At(Unlinked(s, slot, ok), pid, Idle)
  }

  /** Before any process starts there may be lock files left over from earlier ones. */
  ghost predicate Initial(s: State) {
    && s.procs == map[] && s.evicted == {} && s.evictions == 0
    && (forall slot :: slot in s.names ==> slot < MAX_INFLIGHT && s.names[slot] in s.inodes)
    && (forall a, b :: a in s.names && b in s.names && s.names[a] == s.names[b] ==> a == b)
    && (forall id :: id in s.inodes ==> id < s.next && s.inodes[id].born <= s.inodes[id].mtime)
  }

  ghost predicate Next(s: State, t: State) {
    exists step :: Enabled(s, step) && t == Apply(s, step)
  }

  ghost predicate IsRun(run: seq<State>) {
    && run != [] && Initial(run[0])
    && forall i :: 0 <= i < |run| - 1 ==> Next(run[i], run[i + 1])
  }

  /** The processes that believe they hold a slot. */
  function Holders(s: State): set<nat> {
    set p | p in s.procs && s.procs[p].Holding?
  }

  // ---- every interleaving -----------------------------------------------------------------------

  predicate HasId(pc: Pc) {
    pc.Created? || pc.Stat? || pc.Read? || pc.Kill? || pc.Age? || pc.Unlink? || pc.Holding? || pc.CheckOwn? || pc.UnlinkOwn?
  }

  ghost predicate FilesOk(s: State) {
    && (forall slot :: slot in s.names ==> slot < MAX_INFLIGHT && s.names[slot] in s.inodes && s.names[slot] !in s.evicted)
    && (forall a, b :: a in s.names && b in s.names && s.names[a] == s.names[b] ==> a == b)
    && (forall id :: id in s.inodes ==> id < s.next)
    && (forall id :: id in s.evicted ==> id in s.inodes)
    && |s.evicted| == s.evictions
  }

  /** What one process holds on to is there, or was taken from it. */
  ghost predicate PcOk(s: State, pc: Pc) {
    && (!pc.Idle? ==> pc.slot < MAX_INFLIGHT)
    && (HasId(pc) ==> pc.id in s.inodes)
    && ((pc.Created? || pc.Holding?) && pc.id !in s.evicted ==> pc.slot in s.names && s.names[pc.slot] == pc.id)
  }

  ghost predicate Inv(s: State) {
    && FilesOk(s)
    && (forall p :: p in s.procs ==> PcOk(s, s.procs[p]))
    && (forall p, q :: p in s.procs && q in s.procs && Using(s.procs[p]) && Using(s.procs[q]) && s.procs[p].id == s.procs[q].id ==> p == q)
  }

  /** From the creation of its file to the end of its release. */
  predicate Using(pc: Pc) {
    pc.Created? || pc.Holding? || pc.CheckOwn? || pc.UnlinkOwn?
  }

  lemma RemovedKeepsInv(s: State, slot: nat)
    requires Inv(s) && slot in s.names
    ensures Inv(Removed(s, slot))
  {
    var t := Removed(s, slot);
    forall p | p in t.procs ensures PcOk(t, t.procs[p]) {
      assert PcOk(s, s.procs[p]);
    }
  }

  /** One process moving on, its file ids being old ones or the one just created. */
  lemma MovedKeepsInv(s: State, pid: nat, pc: Pc)
    requires Inv(s) && PcOk(s, pc)
    requires forall q :: q in s.procs && q != pid && Using(s.procs[q]) && Using(pc) ==> s.procs[q].id != pc.id
    ensures Inv(At(s, pid, pc))
  {
    var t := At(s, pid, pc);
    forall p | p in t.procs ensures PcOk(t, t.procs[p]) {
      if p != pid { assert PcOk(s, s.procs[p]); }
    }
  }

  lemma NewFileKeepsInv(s: State, slot: nat)
    requires Inv(s) && slot < MAX_INFLIGHT && slot !in s.names
    ensures Inv(NewFile(s, slot))
    ensures forall p :: p in s.procs && HasId(s.procs[p]) ==> s.procs[p].id != s.next
  {
    var t := NewFile(s, slot);
    forall p | p in t.procs ensures PcOk(t, t.procs[p]) && (HasId(t.procs[p]) ==> t.procs[p].id != s.next) {
      assert PcOk(s, s.procs[p]);
    }
  }

  lemma WrittenKeepsInv(s: State, id: nat, pid: nat)
    requires Inv(s) && id in s.inodes
    ensures Inv(Written(s, id, pid))
  {
    var t := Written(s, id, pid);
    forall p | p in t.procs ensures PcOk(t, t.procs[p]) {
      assert PcOk(s, s.procs[p]);
    }
  }

  predicate OnlyLooks(pc: Pc) {
    !pc.Try? && !pc.Created? && !pc.Unlink? && !pc.UnlinkOwn?
  }

  /** A step that changes no file moves its own process only. */
  lemma LookMoves(s: State, pid: nat, ok: bool, alive: bool)
    requires Enabled(s, Act(pid, ok, alive)) && OnlyLooks(s.procs[pid]) && PcOk(s, s.procs[pid])
    requires FilesOk(s)
    ensures var t := Apply(s, Act(pid, ok, alive));
      t == At(s, pid, t.procs[pid]) && PcOk(s, t.procs[pid])
      && (Using(t.procs[pid]) ==> Using(s.procs[pid]) && t.procs[pid].id == s.procs[pid].id)
  {
  }

  lemma TryKeepsInv(s: State, pid: nat, slot: nat, attempt: nat, ok: bool, alive: bool)
    requires Inv(s) && pid in s.procs && s.procs[pid] == Try(slot, attempt)
    ensures Inv(ApplyAct(s, pid, Try(slot, attempt), ok, alive))
  {
    assert PcOk(s, s.procs[pid]);
    if ok && slot !in s.names {
      NewFileKeepsInv(s, slot);
      MovedKeepsInv(NewFile(s, slot), pid, Created(slot, attempt, s.next));
    } else {
      MovedKeepsInv(s, pid, Open(slot, attempt));
    }
  }

  lemma CreatedKeepsInv(s: State, pid: nat, slot: nat, attempt: nat, id: nat, ok: bool, alive: bool)
    requires Inv(s) && pid in s.procs && s.procs[pid] == Created(slot, attempt, id) && id in s.inodes
    ensures Inv(ApplyAct(s, pid, Created(slot, attempt, id), ok, alive))
  {
    assert PcOk(s, s.procs[pid]);
    if ok {
      WrittenKeepsInv(s, id, pid);
      MovedKeepsInv(Written(s, id, pid), pid, Holding(slot, id));
    } else {
      MovedKeepsInv(s, pid, Open(slot, attempt));
    }
  }

  lemma UnlinkedKeepsInv(s: State, pid: nat, slot: nat, ok: bool, pc: Pc)
    requires Inv(s) && pid in s.procs && !HasId(pc) && (!pc.Idle? ==> pc.slot < MAX_INFLIGHT)
    ensures Inv(At(Unlinked(s, slot, ok), pid, pc))
  {
    if ok && slot in s.names { RemovedKeepsInv(s, slot); }
    MovedKeepsInv(Unlinked(s, slot, ok), pid, pc);
  }

  lemma ActKeepsInv(s: State, pid: nat, ok: bool, alive: bool)
    requires Inv(s) && Enabled(s, Act(pid, ok, alive))
    ensures Inv(Apply(s, Act(pid, ok, alive)))
  {
    var pc := s.procs[pid];
    assert PcOk(s, pc);
    match pc
    case Try(slot, attempt) => TryKeepsInv(s, pid, slot, attempt, ok, alive);
    case Created(slot, attempt, id) => CreatedKeepsInv(s, pid, slot, attempt, id, ok, alive);
    case Unlink(slot, attempt, _) => UnlinkedKeepsInv(s, pid, slot, ok, Retry(slot, attempt));
    case UnlinkOwn(slot, _) => UnlinkedKeepsInv(s, pid, slot, ok, Idle);
    case _ =>
      LookMoves(s, pid, ok, alive);
      MovedKeepsInv(s, pid, Apply(s, Act(pid, ok, alive)).procs[pid]);
  }

  lemma StepKeepsInv(s: State, step: Step)
    requires Inv(s) && Enabled(s, step)
    ensures Inv(Apply(s, step))
  {
    match step
    case Act(pid, ok, alive) => ActKeepsInv(s, pid, ok, alive);
    case Start(pid) => MovedKeepsInv(s, pid, Idle);
    case _ =>
      var t := Apply(s, step);
      forall p | p in t.procs ensures PcOk(t, t.procs[p]) {
        assert PcOk(s, s.procs[p]);
      }
  }

  lemma {:induction false} EveryStateInv(run: seq<State>, i: nat)
    requires IsRun(run) && i < |run|
    ensures Inv(run[i])
  {
    if i > 0 {
      EveryStateInv(run, i - 1);
      assert Next(run[i - 1], run[i - 1 + 1]);
      var step :| Enabled(run[i - 1], step) && run[i] == Apply(run[i - 1], step);
      StepKeepsInv(run[i - 1], step);
    }
  }

  /** Holders that nobody took the file from own different slots. */
  lemma HoldersOwnDistinctSlots(run: seq<State>, i: nat, p: nat, q: nat)
    requires IsRun(run) && i < |run| && p in Holders(run[i]) && q in Holders(run[i]) && p != q
    requires run[i].procs[p].id !in run[i].evicted && run[i].procs[q].id !in run[i].evicted
    ensures run[i].procs[p].slot != run[i].procs[q].slot
  {
    EveryStateInv(run, i);
    assert PcOk(run[i], run[i].procs[p]) && PcOk(run[i], run[i].procs[q]);
  }

  ghost predicate Injects(from: set<nat>, f: map<nat, nat>, to: set<nat>) {
    && (forall x :: x in from ==> x in f && f[x] in to)
    && (forall x, y :: x in from && y in from && f[x] == f[y] ==> x == y)
  }

  lemma {:induction false} InjectionBounds(from: set<nat>, f: map<nat, nat>, to: set<nat>)
    requires Injects(from, f, to)
    ensures |from| <= |to|
  {
    if from != {} {
      var x :| x in from;
      InjectionBounds(from - {x}, f, to - {f[x]});
    }
  }

  function Robbed(s: State): set<nat> {
    set p | p in Holders(s) && s.procs[p].id in s.evicted
  }

  lemma RobbedBound(s: State)
    requires Inv(s)
    ensures |Robbed(s)| <= s.evictions
  {
    var ids := map p | p in Robbed(s) :: s.procs[p].id;
    InjectionBounds(Robbed(s), ids, s.evicted);
  }

  lemma SecureBound(s: State)
    requires Inv(s)
    ensures |Holders(s) - Robbed(s)| <= MAX_INFLIGHT
  {
    var secure := Holders(s) - Robbed(s);
    var slots := map p | p in secure :: s.procs[p].slot;
    var all: set<nat> := {0, 1, 2};
    forall p | p in secure ensures slots[p] in all && slots[p] in s.names && s.names[slots[p]] == s.procs[p].id {
      assert PcOk(s, s.procs[p]);
    }
    InjectionBounds(secure, slots, all);
  }

  /** In every interleaving the processes in flight exceed three by no more than the number of
      unlinks that took a slot file away from a process counting on it. */
  lemma InFlightBound(run: seq<State>, i: nat)
    requires IsRun(run) && i < |run|
    ensures |Holders(run[i])| <= MAX_INFLIGHT + run[i].evictions
  {
    var s := run[i];
    EveryStateInv(run, i);
    RobbedBound(s);
    SecureBound(s);
    assert Holders(s) == Robbed(s) + (Holders(s) - Robbed(s));
  }

  // ---- orderly runs -------------------------------------------------------------------------------

  /** Between looking at a slot's file and unlinking the slot's name. */
  predicate Looking(pc: Pc) {
    pc.Stat? || pc.Read? || pc.Kill? || pc.Age? || pc.Unlink? || pc.UnlinkOwn?
  }

  /** No two processes between looking at one slot and unlinking it. */
  ghost predicate Apart(s: State) {
    forall p, q :: p in s.procs && q in s.procs && p != q && Looking(s.procs[p]) && Looking(s.procs[q]) ==>
      s.procs[p].slot != s.procs[q].slot
  }

  /** Nobody uses a file for longer than the stale limit. */
  ghost predicate Prompt(s: State) {
    forall p :: p in s.procs && Using(s.procs[p]) && s.procs[p].id in s.inodes ==>
      s.now - s.inodes[s.procs[p].id].born <= STALE_MS
  }

  ghost predicate Orderly(s: State) {
    Apart(s) && Prompt(s)
  }

  /** Reading a slot file does not fail. */
  predicate Readable(s: State, step: Step) {
    step.Act? && step.pid in s.procs && (s.procs[step.pid].Stat? || s.procs[step.pid].Read?) ==> step.ok
  }

  ghost predicate IsOrderlyRun(run: seq<State>) {
    && run != [] && Initial(run[0])
    && (forall i :: 0 <= i < |run| ==> Orderly(run[i]))
    && (forall i :: 0 <= i < |run| - 1 ==> NextReadable(run[i], run[i + 1]))
  }

  ghost predicate NextReadable(s: State, t: State) {
    exists step :: Enabled(s, step) && Readable(s, step) && t == Apply(s, step)
  }

  predicate NumberIs(text: Text, number: int) {
    match text
    case Empty => false
    case Own(pid) => pid == number
    case Foreign(n) => n == number
  }

  ghost predicate Unused(s: State, id: nat) {
    forall p :: p in s.procs && Using(s.procs[p]) ==> s.procs[p].id != id
  }

  /** What a process inside a section knows about the slot it looked at. */
  ghost predicate Informed(s: State, pc: Pc) {
    && (Looking(pc) ==> pc.slot in s.names && s.names[pc.slot] == pc.id)
    && ((pc.Read? || pc.Kill? || pc.Age?) && pc.id in s.inodes ==> pc.mtime >= s.inodes[pc.id].born)
    && (pc.Kill? && pc.id in s.inodes ==> NumberIs(s.inodes[pc.id].text, pc.number))
    && (pc.Unlink? ==> Unused(s, pc.id))
  }

  ghost predicate Signed(s: State, p: nat, pc: Pc) {
    && (Using(pc) && pc.id in s.inodes ==>
          s.inodes[pc.id].text == (if pc.Created? then Empty else Own(p)) && s.inodes[pc.id].born <= s.now)
    && (Using(pc) ==> pc.slot in s.names && s.names[pc.slot] == pc.id)
  }

  ghost predicate Calm(s: State) {
    && Inv(s) && s.evicted == {}
    && (forall id :: id in s.inodes ==> s.inodes[id].born <= s.inodes[id].mtime)
    && (forall p :: p in s.procs ==> p > 0 && Signed(s, p, s.procs[p]) && Informed(s, s.procs[p]))
  }

  // Every step of an orderly run stays calm.

  lemma CalmStart(s: State)
    requires Initial(s)
    ensures Calm(s)
  {
  }

  /** The user of a file has signed it, is alive, and has not had it for too long. */
  lemma UserIsAlive(s: State, id: nat, q: nat)
    requires Calm(s) && Orderly(s) && q in s.procs && Using(s.procs[q]) && s.procs[q].id == id
    ensures id in s.inodes && q > 0 && s.now - s.inodes[id].born <= STALE_MS
    ensures s.inodes[id].text == if s.procs[q].Created? then Empty else Own(q)
  {
    assert PcOk(s, s.procs[q]) && Signed(s, q, s.procs[q]);
  }

  lemma ReadIsInformed(s: State, slot: nat, attempt: nat, id: nat, mtime: int)
    requires Calm(s) && Orderly(s) && id in s.inodes && Informed(s, Read(slot, attempt, id, mtime))
    ensures Informed(s, AfterRead(slot, attempt, id, mtime, s.inodes[id].text))
  {
    forall q | q in s.procs && Using(s.procs[q]) && s.procs[q].id == id
      ensures s.inodes[id].text == (if s.procs[q].Created? then Empty else Own(q)) && q > 0
    {
      UserIsAlive(s, id, q);
    }
  }

  /** The file of a process that is gone, or of one past the stale limit, is nobody's. */
  lemma VerdictIsInformed(s: State, pc: Pc)
    requires Calm(s) && Orderly(s) && (pc.Kill? || pc.Age?) && pc.id in s.inodes && Informed(s, pc)
    requires pc.Kill? ==> pc.number !in s.procs
    requires pc.Age? ==> s.now - pc.mtime > STALE_MS
    ensures Unused(s, pc.id)
  {
    forall q | q in s.procs && Using(s.procs[q]) ensures s.procs[q].id != pc.id {
      if s.procs[q].id == pc.id { UserIsAlive(s, pc.id, q); }
    }
  }

  /** Looking on inside a section keeps what is known, and a verdict of dead adds to it. */
  lemma LookStaysInformed(s: State, pid: nat, pc: Pc, ok: bool, alive: bool)
    requires Calm(s) && Orderly(s) && (pc.Stat? || pc.Read? || pc.Kill? || pc.Age?) && pc.id in s.inodes && Informed(s, pc)
    requires pc.Kill? && pc.number in s.procs ==> alive
    requires pc.Stat? || pc.Read? ==> ok
    ensures Informed(s, ApplyAct(s, pid, pc, ok, alive).procs[pid])
  {
    if pc.Read? {
      ReadIsInformed(s, pc.slot, pc.attempt, pc.id, pc.mtime);
    } else if (pc.Kill? && !alive) || (pc.Age? && s.now - pc.mtime > STALE_MS) {
      VerdictIsInformed(s, pc);
    }
  }

  lemma LookStaysSigned(s: State, pid: nat, pc: Pc, ok: bool, alive: bool)
    requires pid in s.procs && s.procs[pid] == pc && OnlyLooks(pc) && PcOk(s, pc) && FilesOk(s)
    requires Signed(s, pid, pc) && Informed(s, pc) && Enabled(s, Act(pid, ok, alive))
    ensures var t := ApplyAct(s, pid, pc, ok, alive).procs[pid];
      Signed(s, pid, t) && (pc.Idle? || pc.Open? || pc.Holding? || pc.CheckOwn? ==> Informed(s, t))
  {
  }

  lemma LookStaysCalm(s: State, pid: nat, pc: Pc, ok: bool, alive: bool)
    requires Calm(s) && Orderly(s) && pid in s.procs && s.procs[pid] == pc && OnlyLooks(pc)
    requires Enabled(s, Act(pid, ok, alive)) && Readable(s, Act(pid, ok, alive))
    ensures var t := ApplyAct(s, pid, pc, ok, alive).procs[pid]; Signed(s, pid, t) && Informed(s, t)
  {
    assert PcOk(s, pc) && Signed(s, pid, pc) && Informed(s, pc);
    LookStaysSigned(s, pid, pc, ok, alive);
    if pc.Stat? || pc.Read? || pc.Kill? || pc.Age? {
      LookStaysInformed(s, pid, pc, ok, alive);
    }
  }

  /** One process moving on does not change what the others know, if it takes up no new file. */
  lemma MovedStaysCalm(s: State, pid: nat, pc: Pc)
    requires Calm(s) && Inv(At(s, pid, pc)) && pid > 0 && Signed(s, pid, pc) && Informed(s, pc)
    requires Using(pc) ==> pid in s.procs && Using(s.procs[pid]) && s.procs[pid].id == pc.id
    ensures Calm(At(s, pid, pc))
  {
    var t := At(s, pid, pc);
    forall p | p in t.procs ensures Signed(t, p, t.procs[p]) && Informed(t, t.procs[p]) {
      if p != pid { assert Signed(s, p, s.procs[p]) && Informed(s, s.procs[p]); }
    }
  }

  lemma CreatedStaysCalm(s: State, pid: nat, slot: nat, attempt: nat)
    requires Calm(s) && pid in s.procs && slot !in s.names && slot < MAX_INFLIGHT
    requires Inv(At(NewFile(s, slot), pid, Created(slot, attempt, s.next)))
    ensures Calm(At(NewFile(s, slot), pid, Created(slot, attempt, s.next)))
  {
    var t := At(NewFile(s, slot), pid, Created(slot, attempt, s.next));
    forall p | p in t.procs ensures Signed(t, p, t.procs[p]) && Informed(t, t.procs[p]) {
      if p != pid {
        assert PcOk(s, s.procs[p]) && Signed(s, p, s.procs[p]) && Informed(s, s.procs[p]);
      }
    }
  }

  lemma WrittenStaysCalm(s: State, pid: nat, slot: nat, id: nat)
    requires Calm(s) && pid in s.procs && s.procs[pid].Created? && s.procs[pid].slot == slot && s.procs[pid].id == id
    requires id in s.inodes
    requires Inv(At(Written(s, id, pid), pid, Holding(slot, id)))
    ensures Calm(At(Written(s, id, pid), pid, Holding(slot, id)))
  {
    var t := At(Written(s, id, pid), pid, Holding(slot, id));
    assert Signed(s, pid, s.procs[pid]);
    forall p | p in t.procs ensures Signed(t, p, t.procs[p]) && Informed(t, t.procs[p]) {
      if p != pid {
        assert PcOk(s, s.procs[p]) && Signed(s, p, s.procs[p]) && Informed(s, s.procs[p]);
      }
    }
  }

  /** The name unlinked is the one looked at, and nobody uses its file. */
  lemma RemovedStaysCalm(s: State, pid: nat, pc: Pc)
    requires Calm(s) && Orderly(s) && pid in s.procs && (s.procs[pid].Unlink? || s.procs[pid].UnlinkOwn?)
    requires s.procs[pid].slot in s.names && !HasId(pc)
    requires Inv(At(Removed(s, s.procs[pid].slot), pid, pc))
    ensures Calm(At(Removed(s, s.procs[pid].slot), pid, pc))
  {
    var slot, id := s.procs[pid].slot, s.procs[pid].id;
    var t := At(Removed(s, slot), pid, pc);
    assert PcOk(s, s.procs[pid]) && Informed(s, s.procs[pid]);
    assert !IsOwned(s, id);
    forall p | p in t.procs ensures Signed(t, p, t.procs[p]) && Informed(t, t.procs[p]) {
      if p != pid {
        assert PcOk(s, s.procs[p]) && Signed(s, p, s.procs[p]) && Informed(s, s.procs[p]);
      }
    }
  }

  /** Every other step moves its process only. */
  lemma StandsStill(s: State, pid: nat, pc: Pc, ok: bool, alive: bool)
    requires Calm(s) && Orderly(s) && Enabled(s, Act(pid, ok, alive)) && Readable(s, Act(pid, ok, alive))
    requires s.procs[pid] == pc && Inv(ApplyAct(s, pid, pc, ok, alive))
    requires pc.Try? ==> !ok || pc.slot in s.names
    requires pc.Created? ==> !ok
    requires pc.Unlink? || pc.UnlinkOwn? ==> !ok || pc.slot !in s.names
    ensures Calm(ApplyAct(s, pid, pc, ok, alive))
  {
    var t := ApplyAct(s, pid, pc, ok, alive);
    assert PcOk(s, pc) && pid > 0;
    if OnlyLooks(pc) {
      LookStaysCalm(s, pid, pc, ok, alive);
      LookMoves(s, pid, ok, alive);
    }
    assert t == At(s, pid, t.procs[pid]);
    MovedStaysCalm(s, pid, t.procs[pid]);
  }

  lemma OthersStayCalm(s: State, t: State)
    requires Calm(s) && Inv(t) && t.now >= s.now && t.procs.Keys <= s.procs.Keys
    requires t == s.(now := t.now, procs := t.procs) && forall p :: p in t.procs ==> t.procs[p] == s.procs[p]
    ensures Calm(t)
  {
    forall p | p in t.procs ensures p > 0 && Signed(t, p, t.procs[p]) && Informed(t, t.procs[p]) {
      assert Signed(s, p, s.procs[p]) && Informed(s, s.procs[p]);
    }
  }

  lemma UnlinkStaysCalm(s: State, pid: nat, pc: Pc, alive: bool)
    requires Calm(s) && Orderly(s) && pid in s.procs && s.procs[pid] == pc
    requires (pc.Unlink? || pc.UnlinkOwn?) && pc.slot in s.names && Inv(ApplyAct(s, pid, pc, true, alive))
    ensures Calm(ApplyAct(s, pid, pc, true, alive))
  {
    RemovedStaysCalm(s, pid, if pc.Unlink? then Retry(pc.slot, pc.attempt) else Idle);
  }

  lemma ActStaysCalm(s: State, pid: nat, pc: Pc, ok: bool, alive: bool)
    requires Calm(s) && Orderly(s) && Enabled(s, Act(pid, ok, alive)) && Readable(s, Act(pid, ok, alive))
    requires s.procs[pid] == pc && Inv(ApplyAct(s, pid, pc, ok, alive)) && PcOk(s, pc)
    ensures Calm(ApplyAct(s, pid, pc, ok, alive))
  {
    if pc.Try? && ok && pc.slot !in s.names {
      CreatedStaysCalm(s, pid, pc.slot, pc.attempt);
    } else if pc.Created? && ok {
      WrittenStaysCalm(s, pid, pc.slot, pc.id);
    } else if (pc.Unlink? || pc.UnlinkOwn?) && ok && pc.slot in s.names {
      UnlinkStaysCalm(s, pid, pc, alive);
    } else {
      StandsStill(s, pid, pc, ok, alive);
    }
  }

  lemma ActStepStaysCalm(s: State, pid: nat, ok: bool, alive: bool)
    requires Calm(s) && Orderly(s) && Enabled(s, Act(pid, ok, alive)) && Readable(s, Act(pid, ok, alive))
    ensures Calm(Apply(s, Act(pid, ok, alive)))
  {
    ActKeepsInv(s, pid, ok, alive);
    assert PcOk(s, s.procs[pid]);
    ActStaysCalm(s, pid, s.procs[pid], ok, alive);
  }

  lemma StartStaysCalm(s: State, pid: nat)
    requires Calm(s) && pid !in s.procs && pid > 0
    ensures Calm(At(s, pid, Idle))
  {
    MovedKeepsInv(s, pid, Idle);
    MovedStaysCalm(s, pid, Idle);
  }

  lemma OtherStepStaysCalm(s: State, step: Step)
    requires Calm(s) && Enabled(s, step) && (step.Tick? || step.Die?)
    ensures Calm(Apply(s, step))
  {
    StepKeepsInv(s, step);
    OthersStayCalm(s, Apply(s, step));
  }

  lemma StepStaysCalm(s: State, step: Step)
    requires Calm(s) && Orderly(s) && Enabled(s, step) && Readable(s, step)
    ensures Calm(Apply(s, step))
  {
    match step
    case Act(pid, ok, alive) => ActStepStaysCalm(s, pid, ok, alive);
    case Start(pid) => StartStaysCalm(s, pid);
    case Tick(_) => OtherStepStaysCalm(s, step);
    case Die(_) => OtherStepStaysCalm(s, step);
  }

  lemma {:induction false} EveryStateCalm(run: seq<State>, i: nat)
    requires IsOrderlyRun(run) && i < |run|
    ensures Calm(run[i])
  {
    if i == 0 {
      CalmStart(run[0]);
    } else {
      EveryStateCalm(run, i - 1);
      assert NextReadable(run[i - 1], run[i - 1 + 1]);
      var step :| Enabled(run[i - 1], step) && Readable(run[i - 1], step) && run[i] == Apply(run[i - 1], step);
      StepStaysCalm(run[i - 1], step);
    }
  }

  /** In an orderly run no process loses its slot file, the holders own different slots, and
      there are never more than three. */
  lemma AtMostThreeInFlight(run: seq<State>, i: nat)
    requires IsOrderlyRun(run) && i < |run|
    ensures |Holders(run[i])| <= MAX_INFLIGHT && run[i].evicted == {}
    ensures forall p, q :: p in Holders(run[i]) && q in Holders(run[i]) && p != q ==> run[i].procs[p].slot != run[i].procs[q].slot
  {
    var s := run[i];
    EveryStateCalm(run, i);
    RobbedBound(s);
    SecureBound(s);
    assert Robbed(s) == {} && Holders(s) == Holders(s) - Robbed(s);
    forall p, q | p in Holders(s) && q in Holders(s) && p != q ensures s.procs[p].slot != s.procs[q].slot {
      assert PcOk(s, s.procs[p]) && PcOk(s, s.procs[q]);
    }
  }
}
