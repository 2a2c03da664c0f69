/** What one process gets when it acquires or releases with nobody else moving, no operation
    failing, and `kill` telling the truth: other processes may hold slots, and files may be
    left over from processes that are gone. */
module HookLockAlone {
  import opened HookLock

  /** The next operation of `pid`; `live` are the numbers of the processes that exist. */
  function OwnStep(live: set<int>, s: State, pid: nat): Step {
    Act(pid, true, if pid in s.procs && s.procs[pid].Kill? then s.procs[pid].number in live else true)
  }

  /** Every process of the lock exists. */
  predicate Truthful(live: set<int>, s: State) {
    forall p :: p in s.procs ==> p in live
  }

  ghost predicate Moves(live: set<int>, pid: nat, s: State, t: State) {
    Enabled(s, OwnStep(live, s, pid)) && t == Apply(s, OwnStep(live, s, pid))
  }

  /** On its way through `acquireHookSlot`. */
  predicate Busy(s: State, pid: nat) {
    pid in s.procs && !s.procs[pid].Idle? && !s.procs[pid].Holding?
  }

  /** From the call of `acquireHookSlot` to its return, one operation after the other. */
  ghost predicate IsAcquisition(live: set<int>, pid: nat, run: seq<State>) {
    && |run| >= 2 && pid in run[0].procs && run[0].procs[pid] == Idle
    && (forall i :: 0 <= i < |run| - 1 ==> Moves(live, pid, run[i], run[i + 1]))
    && (forall i :: 0 < i < |run| - 1 ==> Busy(run[i], pid))
    && pid in run[|run| - 1].procs && !Busy(run[|run| - 1], pid)
  }

  /** A slot without a file, or with one whose text is neither empty nor a positive number,
      whose owner is gone, or that is older than the stale limit. */
  predicate Takeable(live: set<int>, s: State, slot: nat) {
    slot in s.names ==>
      s.names[slot] in s.inodes
      && var file := s.inodes[s.names[slot]];
         var owner := if file.text.Own? then file.text.pid else if file.text.Foreign? then file.text.number else 0;
         (!file.text.Empty? && (owner <= 0 || owner !in live)) || s.now - file.mtime > STALE_MS
  }

  /** The slot has a new file with the process's number in it; no other slot, file or process
      has changed. */
  predicate Got(s: State, t: State, pid: nat, slot: nat) {
    && t.names == s.names[slot := s.next] && t.next == s.next + 1 && t.now == s.now
    && t.inodes == s.inodes[s.next := Inode(Own(pid), s.now, s.now)]
    && t.procs == s.procs[pid := Holding(slot, s.next)]
  }

  // ---- paths --------------------------------------------------------------------------------

  /** A path of own steps, busy until its last state. */
  ghost predicate IsPath(live: set<int>, pid: nat, path: seq<State>, s: State, t: State) {
    && path != [] && path[0] == s && path[|path| - 1] == t
    && (forall i :: 0 <= i < |path| - 1 ==> Moves(live, pid, path[i], path[i + 1]))
    && (forall i :: 0 <= i < |path| - 1 ==> Busy(path[i], pid))
  }

  ghost predicate Leads(live: set<int>, pid: nat, s: State, t: State) {
    exists path :: IsPath(live, pid, path, s, t)
  }

  lemma OneStep(live: set<int>, pid: nat, s: State, t: State)
    requires Moves(live, pid, s, t) && Busy(s, pid)
    ensures Leads(live, pid, s, t)
  {
    assert IsPath(live, pid, [s, t], s, t);
  }

  lemma Chained(live: set<int>, pid: nat, a: State, b: State, c: State)
    requires Leads(live, pid, a, b) && Leads(live, pid, b, c)
    ensures Leads(live, pid, a, c)
  {
    var p :| IsPath(live, pid, p, a, b);
    var q :| IsPath(live, pid, q, b, c);
    var path := p + q[1..];
    forall i | 0 <= i < |path| - 1 ensures Moves(live, pid, path[i], path[i + 1]) && Busy(path[i], pid) {
      if i < |p| - 1 {
        assert Moves(live, pid, p[i], p[i + 1]) && Busy(p[i], pid);
      } else {
        assert Moves(live, pid, q[i - |p| + 1], q[i - |p| + 1 + 1]) && Busy(q[i - |p| + 1], pid);
      }
    }
    assert IsPath(live, pid, path, a, c);
  }

  /** One step that changes nothing but where the process stands. */
  lemma Goes(live: set<int>, s: State, pid: nat, from: Pc, to: Pc)
    requires var m := At(s, pid, from);
      Enabled(m, OwnStep(live, m, pid)) && Busy(m, pid) && Apply(m, OwnStep(live, m, pid)).procs[pid] == to
      && Apply(m, OwnStep(live, m, pid)) == At(m, pid, to)
    ensures Leads(live, pid, At(s, pid, from), At(s, pid, to))
  {
    assert At(At(s, pid, from), pid, to) == At(s, pid, to);
    OneStep(live, pid, At(s, pid, from), At(s, pid, to));
  }

  // ---- one slot -----------------------------------------------------------------------------

  lemma TakesFree(live: set<int>, s: State, pid: nat, slot: nat, attempt: nat)
    requires pid in s.procs && slot !in s.names
    ensures var t := At(Written(NewFile(s, slot), s.next, pid), pid, Holding(slot, s.next));
      Leads(live, pid, At(s, pid, Try(slot, attempt)), t) && Got(s, t, pid, slot)
  {
    var m, c := At(s, pid, Try(slot, attempt)), At(NewFile(s, slot), pid, Created(slot, attempt, s.next));
    var t := At(Written(NewFile(s, slot), s.next, pid), pid, Holding(slot, s.next));
    assert c.procs == m.procs[pid := Created(slot, attempt, s.next)] && t.procs == c.procs[pid := Holding(slot, s.next)];
    OneStep(live, pid, m, c);
    OneStep(live, pid, c, t);
    Chained(live, pid, m, c, t);
  }

  /** An existing slot is opened and its owner read. */
  lemma Looks(live: set<int>, s: State, pid: nat, slot: nat)
    requires pid in s.procs && slot in s.names && s.names[slot] in s.inodes
    ensures var id, file := s.names[slot], s.inodes[s.names[slot]];
      Leads(live, pid, At(s, pid, Try(slot, 0)), At(s, pid, AfterRead(slot, 0, id, file.mtime, file.text)))
  {
    var id, file := s.names[slot], s.inodes[s.names[slot]];
    Goes(live, s, pid, Try(slot, 0), Open(slot, 0));
    Goes(live, s, pid, Open(slot, 0), Stat(slot, 0, id));
    Chained(live, pid, At(s, pid, Try(slot, 0)), At(s, pid, Open(slot, 0)), At(s, pid, Stat(slot, 0, id)));
    Goes(live, s, pid, Stat(slot, 0, id), Read(slot, 0, id, file.mtime));
    Chained(live, pid, At(s, pid, Try(slot, 0)), At(s, pid, Stat(slot, 0, id)), At(s, pid, Read(slot, 0, id, file.mtime)));
    Goes(live, s, pid, Read(slot, 0, id, file.mtime), AfterRead(slot, 0, id, file.mtime, file.text));
    Chained(live, pid, At(s, pid, Try(slot, 0)), At(s, pid, Read(slot, 0, id, file.mtime)), At(s, pid, AfterRead(slot, 0, id, file.mtime, file.text)));
  }

  lemma JudgesAge(live: set<int>, s: State, pid: nat, slot: nat, id: nat, mtime: int)
    requires pid in s.procs
    ensures Leads(live, pid, At(s, pid, Age(slot, 0, id, mtime)), At(s, pid, if s.now - mtime > STALE_MS then Unlink(slot, 0, id) else NextSlot(slot)))
  {
    Goes(live, s, pid, Age(slot, 0, id, mtime), if s.now - mtime > STALE_MS then Unlink(slot, 0, id) else NextSlot(slot));
  }

  /** What was read decides, with the age of the file. */
  lemma Judges(live: set<int>, s: State, pid: nat, slot: nat)
    requires Truthful(live, s) && pid in s.procs && slot in s.names && s.names[slot] in s.inodes
    ensures var id, file := s.names[slot], s.inodes[s.names[slot]];
      var pc := AfterRead(slot, 0, id, file.mtime, file.text);
      var verdict := if Takeable(live, s, slot) then Unlink(slot, 0, id) else NextSlot(slot);
      pc == verdict || Leads(live, pid, At(s, pid, pc), At(s, pid, verdict))
  {
    var id, file := s.names[slot], s.inodes[s.names[slot]];
    var pc := AfterRead(slot, 0, id, file.mtime, file.text);
    var verdict := if Takeable(live, s, slot) then Unlink(slot, 0, id) else NextSlot(slot);
    var age := Age(slot, 0, id, file.mtime);
    JudgesAge(live, s, pid, slot, id, file.mtime);
    if pc.Kill? {
      if pc.number in live {
        Goes(live, s, pid, pc, age);
        Chained(live, pid, At(s, pid, pc), At(s, pid, age), At(s, pid, verdict));
      } else {
        Goes(live, s, pid, pc, verdict);
      }
    }
  }

  lemma Decides(live: set<int>, s: State, pid: nat, slot: nat)
    requires Truthful(live, s) && pid in s.procs && slot in s.names && s.names[slot] in s.inodes
    ensures Leads(live, pid, At(s, pid, Try(slot, 0)), At(s, pid, if Takeable(live, s, slot) then Unlink(slot, 0, s.names[slot]) else NextSlot(slot)))
  {
    var file := s.inodes[s.names[slot]];
    Looks(live, s, pid, slot);
    Judges(live, s, pid, slot);
    var pc := AfterRead(slot, 0, s.names[slot], file.mtime, file.text);
    var verdict := if Takeable(live, s, slot) then Unlink(slot, 0, s.names[slot]) else NextSlot(slot);
    if pc != verdict { Chained(live, pid, At(s, pid, Try(slot, 0)), At(s, pid, pc), At(s, pid, verdict)); }
  }

  /** A slot that can be taken is taken. */
  lemma TakesOver(live: set<int>, s: State, pid: nat, slot: nat) returns (t: State)
    requires Truthful(live, s) && pid in s.procs && slot in s.names && s.names[slot] in s.inodes && Takeable(live, s, slot)
    ensures Leads(live, pid, At(s, pid, Try(slot, 0)), t) && Got(s, t, pid, slot)
  {
    var m := At(s, pid, Unlink(slot, 0, s.names[slot]));
    var free := Removed(m, slot);
    Decides(live, s, pid, slot);
    OneStep(live, pid, m, At(free, pid, Try(slot, 1)));
    Chained(live, pid, At(s, pid, Try(slot, 0)), m, At(free, pid, Try(slot, 1)));
    TakesFree(live, free, pid, slot, 1);
    t := At(Written(NewFile(free, slot), free.next, pid), pid, Holding(slot, free.next));
    Chained(live, pid, At(s, pid, Try(slot, 0)), At(free, pid, Try(slot, 1)), t);
    assert t.names == s.names[slot := s.next] && t.procs == s.procs[pid := Holding(slot, s.next)];
  }

  lemma Takes(live: set<int>, s: State, pid: nat, slot: nat) returns (t: State)
    requires Truthful(live, s) && pid in s.procs && (slot in s.names ==> s.names[slot] in s.inodes) && Takeable(live, s, slot)
    ensures Leads(live, pid, At(s, pid, Try(slot, 0)), t) && Got(s, t, pid, slot)
  {
    if slot in s.names {
      t := TakesOver(live, s, pid, slot);
    } else {
      TakesFree(live, s, pid, slot, 0);
      t := At(Written(NewFile(s, slot), s.next, pid), pid, Holding(slot, s.next));
    }
  }

  // ---- all slots ----------------------------------------------------------------------------

  /** What an acquisition from `s` comes to, when it is at the slots from `slot` on: the first
      that can be taken, or nothing. */
  ghost predicate Outcome(live: set<int>, s: State, t: State, pid: nat, slot: nat) {
    || (exists k: nat :: slot <= k < MAX_INFLIGHT && Takeable(live, s, k) && Got(s, t, pid, k)
          && forall j :: slot <= j < k ==> !Takeable(live, s, j))
    || (t == At(s, pid, Idle) && forall j :: slot <= j < MAX_INFLIGHT ==> !Takeable(live, s, j))
  }

  lemma {:induction false} TriesFrom(live: set<int>, s: State, pid: nat, slot: nat) returns (t: State)
    requires Truthful(live, s) && pid in s.procs && slot < MAX_INFLIGHT && forall k :: k in s.names ==> s.names[k] in s.inodes
    ensures Leads(live, pid, At(s, pid, Try(slot, 0)), t) && Outcome(live, s, t, pid, slot)
    decreases MAX_INFLIGHT - slot
  {
    if Takeable(live, s, slot) {
      t := Takes(live, s, pid, slot);
    } else {
      Decides(live, s, pid, slot);
      if slot + 1 < MAX_INFLIGHT {
        t := TriesFrom(live, s, pid, slot + 1);
        Chained(live, pid, At(s, pid, Try(slot, 0)), At(s, pid, Try(slot + 1, 0)), t);
      } else {
        t := At(s, pid, Idle);
      }
    }
  }

  /** Every acquisition ends, ... */
  lemma AcquisitionEnds(live: set<int>, pid: nat, s: State) returns (run: seq<State>)
    requires FilesOk(s) && Truthful(live, s) && pid in s.procs && s.procs[pid] == Idle
    ensures IsAcquisition(live, pid, run) && run[0] == s && Outcome(live, s, run[|run| - 1], pid, 0)
  {
    var m := At(s, pid, Try(0, 0));
    var t := TriesFrom(live, s, pid, 0);
    var path :| IsPath(live, pid, path, m, t);
    run := [s] + path;
    forall i | 0 <= i < |run| - 1 ensures Moves(live, pid, run[i], run[i + 1]) && (i > 0 ==> Busy(run[i], pid)) {
      if i > 0 { assert Moves(live, pid, path[i - 1], path[i - 1 + 1]) && Busy(path[i - 1], pid); }
    }
    assert pid in t.procs && !Busy(t, pid);
  }

  /** ... in one way only. */
  lemma {:induction false} SameAcquisition(live: set<int>, pid: nat, run: seq<State>, other: seq<State>, i: nat)
    requires IsAcquisition(live, pid, run) && IsAcquisition(live, pid, other) && run[0] == other[0] && i < |run|
    ensures i < |other| && run[i] == other[i]
  {
    if i > 0 {
      SameAcquisition(live, pid, run, other, i - 1);
      assert Moves(live, pid, run[i - 1], run[i - 1 + 1]);
      assert i == 1 || Busy(run[i - 1], pid);
      assert i < |other|;
      assert Moves(live, pid, other[i - 1], other[i - 1 + 1]);
    }
  }

  /** A process that acquires alone ends holding the first slot that can be taken, with its
      own file in it and nothing else changed, exactly when there is one; otherwise it ends
      without a slot, and nothing has changed at all. */
  lemma AcquisitionOutcome(live: set<int>, pid: nat, run: seq<State>)
    requires IsAcquisition(live, pid, run) && FilesOk(run[0]) && Truthful(live, run[0])
    ensures var s, t := run[0], run[|run| - 1];
      && (t.procs[pid].Holding? <==> exists slot: nat :: slot < MAX_INFLIGHT && Takeable(live, s, slot))
      && (t.procs[pid].Holding? ==>
            var slot := t.procs[pid].slot;
            Got(s, t, pid, slot) && Takeable(live, s, slot) && forall k: nat :: k < slot ==> !Takeable(live, s, k))
      && (!t.procs[pid].Holding? ==> t == s)
  {
    var s := run[0];
    var other := AcquisitionEnds(live, pid, s);
    SameAcquisition(live, pid, run, other, |run| - 1);
    SameAcquisition(live, pid, other, run, |other| - 1);
    assert run[|run| - 1] == other[|other| - 1];
    assert At(s, pid, Idle) == s;
  }

  // ---- whatever the others do ---------------------------------------------------------------

  /** How many operations an acquisition still has in it at most. */
  function Left(pc: Pc): int {
    match pc
    case Idle => 0
    case Holding(_, _) => 0
    case CheckOwn(_, _) => 2
    case UnlinkOwn(_, _) => 1
    case Try(slot, attempt) => After(slot, attempt) + 8
    case Created(slot, attempt, _) => After(slot, attempt) + 7
    case Open(slot, attempt) => After(slot, attempt) + 6
    case Stat(slot, attempt, _) => After(slot, attempt) + 5
    case Read(slot, attempt, _, _) => After(slot, attempt) + 4
    case Kill(slot, attempt, _, _, _) => After(slot, attempt) + 3
    case Age(slot, attempt, _, _) => After(slot, attempt) + 2
    case Unlink(slot, attempt, _) => After(slot, attempt) + 1
  }

  /** What the attempts after this one have in them: two for each slot, eight operations each. */
  function After(slot: nat, attempt: nat): int {
    8 * (5 - 2 * slot - attempt)
  }

  /** Every operation of an acquisition brings it nearer to its end. */
  lemma {:induction false} EveryOperationCounts(s: State, pid: nat, ok: bool, alive: bool)
    requires Inv(s) && Enabled(s, Act(pid, ok, alive)) && Busy(s, pid) && TwoAttempts(s.procs[pid])
    ensures var t := Apply(s, Act(pid, ok, alive)); 0 <= Left(t.procs[pid]) < Left(s.procs[pid]) <= 48
  {
    assert PcOk(s, s.procs[pid]);
  }

  predicate TwoAttempts(pc: Pc) {
    (pc.Try? || pc.Created? || pc.Open? || pc.Stat? || pc.Read? || pc.Kill? || pc.Age? || pc.Unlink?) ==> pc.slot < MAX_INFLIGHT && pc.attempt < 2
  }

  lemma {:induction false} ActKeepsAttempts(s: State, pid: nat, ok: bool, alive: bool)
    requires Enabled(s, Act(pid, ok, alive)) && TwoAttempts(s.procs[pid]) && PcOk(s, s.procs[pid])
    ensures TwoAttempts(Apply(s, Act(pid, ok, alive)).procs[pid])
  {
  }

  ghost predicate AllTwoAttempts(s: State) {
    forall p :: p in s.procs ==> TwoAttempts(s.procs[p])
  }

  lemma {:induction false} StepKeepsAttempts(s: State, step: Step)
    requires Inv(s) && Enabled(s, step) && AllTwoAttempts(s)
    ensures AllTwoAttempts(Apply(s, step))
  {
    var t := Apply(s, step);
    forall p | p in t.procs ensures TwoAttempts(t.procs[p]) {
      if step.Act? && step.pid == p {
        assert PcOk(s, s.procs[p]);
        ActKeepsAttempts(s, p, step.ok, step.alive);
      } else if !step.Start? || step.pid != p {
        OthersStand(s, step, p);
      }
    }
  }

  /** A step of somebody else leaves a process where it is. */
  lemma {:induction false} OthersStand(s: State, step: Step, pid: nat)
    requires Enabled(s, step) && pid in Apply(s, step).procs
    requires step.Act? || step.Start? ==> step.pid != pid
    ensures pid in s.procs && Apply(s, step).procs[pid] == s.procs[pid]
  {
  }

  lemma {:induction false} EveryStateAttempts(run: seq<State>, i: nat)
    requires IsRun(run) && i < |run|
    ensures AllTwoAttempts(run[i])
  {
    if i > 0 {
      var before: nat := i - 1;
      EveryStateAttempts(run, before);
      EveryStateInv(run, before);
      assert Next(run[before], run[before + 1]);
      var step :| Enabled(run[before], step) && run[i] == Apply(run[before], step);
      StepKeepsAttempts(run[before], step);
    }
  }

  /** From state i to state m the process is busy. */
  ghost predicate BusyFrom(run: seq<State>, pid: nat, i: nat, m: nat) {
    forall k :: i <= k <= m && k < |run| ==> Busy(run[k], pid)
  }

  /** How many of the steps between states i and m are operations of `pid`. */
  ghost function Operations(run: seq<State>, pid: nat, i: nat, m: nat): nat
    requires i <= m < |run|
    decreases m
  {
    if m == i then 0 else Operations(run, pid, i, m - 1) + if Stands(run[m - 1], run[m], pid) then 0 else 1
  }

  predicate Stands(s: State, t: State, pid: nat) {
    pid in s.procs && pid in t.procs && t.procs[pid] == s.procs[pid]
  }

  lemma {:induction false} StepSpendsLeft(s: State, t: State, pid: nat)
    requires Inv(s) && AllTwoAttempts(s) && Next(s, t) && Busy(s, pid) && Busy(t, pid)
    ensures Left(t.procs[pid]) + (if Stands(s, t, pid) then 0 else 1) <= Left(s.procs[pid])
  {
    var step :| Enabled(s, step) && t == Apply(s, step);
    if step.Act? && step.pid == pid {
      EveryOperationCounts(s, pid, step.ok, step.alive);
    } else {
      OthersStand(s, step, pid);
    }
  }

  /** The step to state m costs the process what it did in it. */
  ghost predicate Spends(run: seq<State>, pid: nat, m: nat) {
    0 < m < |run| && pid in run[m - 1].procs && pid in run[m].procs
    && Left(run[m].procs[pid]) + (if Stands(run[m - 1], run[m], pid) then 0 else 1) <= Left(run[m - 1].procs[pid])
  }

  lemma {:induction false} StepOfRun(run: seq<State>, m: nat)
    requires IsRun(run) && 0 < m < |run|
    ensures Inv(run[m - 1]) && AllTwoAttempts(run[m - 1]) && Next(run[m - 1], run[m])
  {
    var before: nat := m - 1;
    EveryStateInv(run, before);
    EveryStateAttempts(run, before);
    assert Next(run[before], run[before + 1]);
  }

  lemma {:induction false} RunSpends(run: seq<State>, pid: nat, m: nat)
    requires 0 < m < |run| && Inv(run[m - 1]) && AllTwoAttempts(run[m - 1]) && Next(run[m - 1], run[m])
    requires Busy(run[m - 1], pid) && Busy(run[m], pid)
    ensures Spends(run, pid, m)
  {
    StepSpendsLeft(run[m - 1], run[m], pid);
  }

  lemma {:induction false} OperationsSpendLeft(run: seq<State>, pid: nat, i: nat, m: nat)
    requires i <= m < |run| && pid in run[i].procs && pid in run[m].procs && forall k: nat :: i < k <= m ==> Spends(run, pid, k)
    ensures Operations(run, pid, i, m) + Left(run[m].procs[pid]) <= Left(run[i].procs[pid])
    decreases m
  {
    if m > i {
      assert Spends(run, pid, m);
      OperationsSpendLeft(run, pid, i, m - 1);
    }
  }

  lemma {:induction false} LeftIsBounded(s: State, pid: nat)
    requires Inv(s) && AllTwoAttempts(s) && Busy(s, pid)
    ensures 0 <= Left(s.procs[pid]) <= 48
  {
    assert PcOk(s, s.procs[pid]) && TwoAttempts(s.procs[pid]);
  }

  /** In every run, whatever the others do and whatever fails, a process is in an acquisition or
      a release for at most 48 operations of its own. */
  lemma {:induction false} AcquisitionIsBounded(run: seq<State>, pid: nat, i: nat, m: nat)
    requires IsRun(run) && i <= m < |run| && BusyFrom(run, pid, i, m)
    ensures Operations(run, pid, i, m) <= 48
  {
    forall k: nat | i < k <= m ensures Spends(run, pid, k) {
      StepOfRun(run, k);
      RunSpends(run, pid, k);
    }
    OperationsSpendLeft(run, pid, i, m);
    EveryStateAttempts(run, i);
    EveryStateAttempts(run, m);
    EveryStateInv(run, i);
    EveryStateInv(run, m);
    LeftIsBounded(run[i], pid);
    LeftIsBounded(run[m], pid);
  }

  /** At a slot, in an acquisition. */
  predicate Trying(pc: Pc, slot: nat) {
    (pc.Try? || pc.Created? || pc.Open? || pc.Stat? || pc.Read? || pc.Kill? || pc.Age? || pc.Unlink?) && pc.slot == slot
  }

  /** Whatever fails and whoever interferes, an acquisition leaves a slot only as its holder,
      after judging the file there young and its owner alive, or after a second attempt. */
  lemma {:induction false} SlotIsTriedTwice(s: State, pid: nat, ok: bool, alive: bool, slot: nat)
    requires Enabled(s, Act(pid, ok, alive)) && Trying(s.procs[pid], slot)
    ensures var pc, t := s.procs[pid], Apply(s, Act(pid, ok, alive)).procs[pid];
      || Trying(t, slot)
      || (t.Holding? && t.slot == slot)
      || (pc.Age? && s.now - pc.mtime <= STALE_MS)
      || pc.attempt >= 1
  {
  }

  // ---- release ------------------------------------------------------------------------------

  /** The holder's release, one operation after the other. */
  ghost predicate IsRelease(live: set<int>, pid: nat, run: seq<State>) {
    && |run| >= 2 && pid in run[0].procs && run[0].procs[pid].Holding?
    && (forall i :: 0 <= i < |run| - 1 ==> Moves(live, pid, run[i], run[i + 1]))
    && (forall i :: 0 < i < |run| - 1 ==> Busy(run[i], pid))
    && pid in run[|run| - 1].procs && run[|run| - 1].procs[pid] == Idle
  }

  /** A release takes away the slot's file exactly if that has the releaser's own number in it;
      a file that another process has put there stays. */
  lemma ReleaseOutcome(live: set<int>, pid: nat, run: seq<State>)
    requires IsRelease(live, pid, run) && FilesOk(run[0])
    ensures var s, t, slot := run[0], run[|run| - 1], run[0].procs[pid].slot;
      && t.inodes == s.inodes && t.procs == s.procs[pid := Idle]
      && t.names == if slot in s.names && s.inodes[s.names[slot]].text == Own(pid) then s.names - {slot} else s.names
  {
    var s := run[0];
    var slot, id := s.procs[pid].slot, s.procs[pid].id;
    assert Moves(live, pid, run[0], run[0 + 1]) && run[1] == At(s, pid, CheckOwn(slot, id));
    assert |run| > 2 && Moves(live, pid, run[1], run[1 + 1]);
    if slot in s.names && s.inodes[s.names[slot]].text == Own(pid) {
      assert run[2] == At(s, pid, UnlinkOwn(slot, id));
      assert |run| > 3 && Moves(live, pid, run[2], run[2 + 1]);
      assert run[3].procs[pid] == Idle && !Busy(run[3], pid);
      assert |run| == 4;
    } else {
      assert run[2] == At(s, pid, Idle) && !Busy(run[2], pid);
      assert |run| == 3;
    }
  }
}
