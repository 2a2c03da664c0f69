/** Which of the conditions on orderly runs the bound of three needs: each of them. If two
    processes may be at one slot at once, or a read of a slot may fail, or a file may be used
    beyond the stale limit, any number of processes can be in flight. */
module HookLockRace {
  import opened HookLock

  /** What a run may contain. */
  datatype Rules = Rules(
    overlap: bool,        // two processes between looking at one slot and unlinking it
    unreadable: bool,     // a slot file that cannot be read
    overlong: bool)       // a file in use for longer than the stale limit

  ghost predicate Allowed(rules: Rules, s: State) {
    (rules.overlap || Apart(s)) && (rules.overlong || Prompt(s))
  }

  ghost predicate NextRuled(rules: Rules, s: State, t: State) {
    exists step :: Enabled(s, step) && (rules.unreadable || Readable(s, step)) && t == Apply(s, step)
  }

  ghost predicate IsRuledRun(rules: Rules, run: seq<State>) {
    && run != [] && Initial(run[0])
    && (forall i :: 0 <= i < |run| ==> Allowed(rules, run[i]))
    && (forall i :: 0 <= i < |run| - 1 ==> NextRuled(rules, run[i], run[i + 1]))
  }

  /** Nobody dies, no operation fails but a read of a slot where that is allowed, and time
      passes only where files may be used for too long. */
  predicate Undisturbed(rules: Rules, s: State, step: Step) {
    match step
    case Start(_) => true
    case Die(_) => false
    case Tick(_) => rules.overlong
    case Act(pid, ok, _) => ok || (rules.unreadable && pid in s.procs && (s.procs[pid].Stat? || s.procs[pid].Read?))
  }

  ghost predicate NextUndisturbed(rules: Rules, s: State, t: State) {
    exists step :: Enabled(s, step) && Undisturbed(rules, s, step) && t == Apply(s, step)
  }

  // ---- paths ------------------------------------------------------------------------------------

  ghost predicate Leads(rules: Rules, s: State, t: State) {
    Allowed(rules, s) && Allowed(rules, t) && NextUndisturbed(rules, s, t)
  }

  ghost predicate IsPath(rules: Rules, path: seq<State>, s: State, t: State) {
    && path != [] && path[0] == s && path[|path| - 1] == t && Allowed(rules, s)
    && (forall i :: 0 <= i < |path| - 1 ==> Leads(rules, path[i], path[i + 1]))
  }

  ghost predicate Reaches(rules: Rules, s: State, t: State) {
    exists path :: IsPath(rules, path, s, t)
  }

  lemma Chained(rules: Rules, a: State, b: State, c: State)
    requires Reaches(rules, a, b) && Reaches(rules, b, c)
    ensures Reaches(rules, a, c)
  {
    var p :| IsPath(rules, p, a, b);
    var q :| IsPath(rules, q, b, c);
    var path := p + q[1..];
    forall i | 0 <= i < |path| - 1 ensures Leads(rules, path[i], path[i + 1]) {
      if i < |p| - 1 { assert Leads(rules, p[i], p[i + 1]); } else { assert Leads(rules, q[i - |p| + 1], q[i - |p| + 1 + 1]); }
    }
    assert IsPath(rules, path, a, c);
  }

  /** What makes a state allowed while one process moves: the others are holding, and no file
      is older than the stale limit, where the rules ask for it. */
  ghost predicate Alone(rules: Rules, s: State, pid: nat) {
    && (rules.overlap || forall q :: q in s.procs && q != pid ==> s.procs[q].Holding?)
    && (rules.overlong || forall id :: id in s.inodes ==> s.now - s.inodes[id].born <= STALE_MS)
  }

  lemma Steps(rules: Rules, s: State, pid: nat, step: Step, t: State)
    requires Alone(rules, s, pid) && Alone(rules, t, pid)
    requires Enabled(s, step) && Undisturbed(rules, s, step) && t == Apply(s, step)
    ensures Reaches(rules, s, t)
  {
    assert Allowed(rules, s) && Allowed(rules, t);
    assert NextUndisturbed(rules, s, t);
    assert Leads(rules, s, t);
    assert IsPath(rules, [s, t], s, t);
  }

  /** One process moves on, alone. */
  lemma Moves(rules: Rules, s: State, pid: nat, ok: bool, alive: bool, pc: Pc)
    requires Alone(rules, s, pid) && Enabled(s, Act(pid, ok, alive)) && Undisturbed(rules, s, Act(pid, ok, alive))
    requires Apply(s, Act(pid, ok, alive)) == At(s, pid, pc)
    ensures Reaches(rules, s, At(s, pid, pc)) && Alone(rules, At(s, pid, pc), pid)
  {
    Steps(rules, s, pid, Act(pid, ok, alive), At(s, pid, pc));
  }

  // ---- what one process does at one slot --------------------------------------------------------

  lemma Begins(rules: Rules, s: State, pid: nat)
    requires pid !in s.procs && pid > 0 && Alone(rules, s, pid)
    ensures Reaches(rules, s, At(s, pid, Try(0, 0))) && Alone(rules, At(s, pid, Try(0, 0)), pid)
  {
    var m := At(s, pid, Idle);
    Steps(rules, s, pid, Start(pid), m);
    assert At(m, pid, Try(0, 0)) == At(s, pid, Try(0, 0));
    Moves(rules, m, pid, true, true, Try(0, 0));
    Chained(rules, s, m, At(s, pid, Try(0, 0)));
  }

  /** A free slot is taken in two steps. */
  function Taken(s: State, pid: nat, slot: nat): State {
    At(Written(NewFile(s, slot), s.next, pid), pid, Holding(slot, s.next))
  }

  lemma Takes(rules: Rules, s: State, pid: nat, slot: nat, attempt: nat)
    requires pid in s.procs && s.procs[pid] == Try(slot, attempt) && slot !in s.names && Alone(rules, s, pid)
    ensures Reaches(rules, s, Taken(s, pid, slot)) && Alone(rules, Taken(s, pid, slot), pid)
  {
    var m := At(NewFile(s, slot), pid, Created(slot, attempt, s.next));
    var t := Taken(s, pid, slot);
    assert t.procs == m.procs[pid := Holding(slot, s.next)];
    Steps(rules, s, pid, Act(pid, true, true), m);
    Steps(rules, m, pid, Act(pid, true, true), t);
    Chained(rules, s, m, t);
  }

  /** A slot that exists is opened, ... */
  lemma Opens(rules: Rules, s: State, pid: nat, slot: nat)
    requires pid in s.procs && s.procs[pid] == Try(slot, 0) && slot in s.names && Alone(rules, s, pid)
    ensures var t := At(s, pid, Stat(slot, 0, s.names[slot])); Reaches(rules, s, t) && Alone(rules, t, pid)
  {
    var m, t := At(s, pid, Open(slot, 0)), At(s, pid, Stat(slot, 0, s.names[slot]));
    Moves(rules, s, pid, true, true, Open(slot, 0));
    assert At(m, pid, Stat(slot, 0, s.names[slot])) == t;
    Moves(rules, m, pid, true, true, Stat(slot, 0, s.names[slot]));
    Chained(rules, s, m, t);
  }

  /** ... and its owner is read. */
  lemma Reads(rules: Rules, s: State, pid: nat, slot: nat, id: nat)
    requires pid in s.procs && s.procs[pid] == Stat(slot, 0, id) && id in s.inodes && Alone(rules, s, pid)
    ensures var t := At(s, pid, AfterRead(slot, 0, id, s.inodes[id].mtime, s.inodes[id].text));
      Reaches(rules, s, t) && Alone(rules, t, pid)
  {
    var read, found := Read(slot, 0, id, s.inodes[id].mtime), AfterRead(slot, 0, id, s.inodes[id].mtime, s.inodes[id].text);
    var m, t := At(s, pid, read), At(s, pid, found);
    Moves(rules, s, pid, true, true, read);
    assert At(m, pid, found) == t;
    Moves(rules, m, pid, true, true, found);
    Chained(rules, s, m, t);
  }

  /** A slot of a live owner ... */
  lemma FindsOwner(rules: Rules, s: State, pid: nat, slot: nat)
    requires pid in s.procs && s.procs[pid] == Try(slot, 0) && Owned(s, slot) && Alone(rules, s, pid)
    ensures var id, file := s.names[slot], s.inodes[s.names[slot]];
      var t := At(s, pid, Kill(slot, 0, id, file.mtime, file.text.pid)); Reaches(rules, s, t) && Alone(rules, t, pid)
  {
    var id, file := s.names[slot], s.inodes[s.names[slot]];
    var o, k := At(s, pid, Stat(slot, 0, id)), At(s, pid, Kill(slot, 0, id, file.mtime, file.text.pid));
    Opens(rules, s, pid, slot);
    Reads(rules, o, pid, slot, id);
    assert At(o, pid, k.procs[pid]) == k;
    Chained(rules, s, o, k);
  }

  /** ... is judged by its age. */
  lemma Judges(rules: Rules, s: State, pid: nat, slot: nat, pc: Pc)
    requires pid in s.procs && s.procs[pid] == Try(slot, 0) && Owned(s, slot) && Alone(rules, s, pid)
    requires var id := s.names[slot]; pc == if s.now - s.inodes[id].mtime > STALE_MS then Unlink(slot, 0, id) else NextSlot(slot)
    ensures Reaches(rules, s, At(s, pid, pc)) && Alone(rules, At(s, pid, pc), pid)
  {
    var id, file := s.names[slot], s.inodes[s.names[slot]];
    var k, a := At(s, pid, Kill(slot, 0, id, file.mtime, file.text.pid)), At(s, pid, Age(slot, 0, id, file.mtime));
    FindsOwner(rules, s, pid, slot);
    assert At(k, pid, a.procs[pid]) == a && At(a, pid, pc) == At(s, pid, pc);
    Moves(rules, k, pid, true, true, a.procs[pid]);
    Moves(rules, a, pid, true, true, pc);
    Chained(rules, s, k, a);
    Chained(rules, s, a, At(s, pid, pc));
  }

  ghost predicate Owned(s: State, slot: nat) {
    && slot in s.names && s.names[slot] in s.inodes
    && var file := s.inodes[s.names[slot]]; file.text.Own? && file.text.pid > 0 && file.text.pid in s.procs
  }

  /** A condemned slot is unlinked, whoever's file it has by now, and taken. */
  lemma Replaces(rules: Rules, s: State, pid: nat, slot: nat, id: nat)
    requires pid in s.procs && s.procs[pid] == Unlink(slot, 0, id) && slot in s.names && Alone(rules, s, pid)
    ensures var t := Taken(At(Removed(s, slot), pid, Try(slot, 1)), pid, slot); Reaches(rules, s, t) && Alone(rules, t, pid)
  {
    var m := At(Removed(s, slot), pid, Try(slot, 1));
    Steps(rules, s, pid, Act(pid, true, true), m);
    Takes(rules, m, pid, slot, 1);
    Chained(rules, s, m, Taken(m, pid, slot));
  }

  // ---- a crowd at slot 0 ------------------------------------------------------------------------

  /** Processes 1 to m hold slot 0, each but the last having lost its file to the next, and
      m + 1 to n have condemned what they saw there; before the first of them took it, it was
      left over from a process long gone. */
  ghost predicate Queue(s: State, m: nat, n: nat) {
    && m <= n && s.names.Keys == {0} && s.names[0] in s.inodes && s.inodes[s.names[0]].mtime <= s.now
    && (forall p :: p in s.procs <==> 1 <= p <= n)
    && (forall p :: 1 <= p <= m ==> s.procs[p].Holding?)
    && (forall p :: m < p <= n ==> s.procs[p].Unlink? && s.procs[p].slot == 0 && s.procs[p].attempt == 0)
    && s.inodes[s.names[0]].text == (if m == 0 then Foreign(0) else Own(m))
    && (m > 0 ==> s.procs[m].id == s.names[0])
    && s.evictions == (if m == 0 then 0 else m - 1)
    && (forall id :: id in s.inodes ==> id < s.next)
  }

  /** The next process condemns a file nobody has, or one it cannot read, or one that its
      owner has had for too long. */
  lemma Condemns(rules: Rules, s: State, pid: nat)
    requires pid in s.procs && s.procs[pid] == Try(0, 0) && 0 in s.names && s.names[0] in s.inodes && Alone(rules, s, pid)
    requires rules.unreadable || s.inodes[s.names[0]].text == Foreign(0)
             || (Owned(s, 0) && s.now - s.inodes[s.names[0]].mtime > STALE_MS)
    ensures var t := At(s, pid, Unlink(0, 0, s.names[0])); Reaches(rules, s, t) && Alone(rules, t, pid)
  {
    var id := s.names[0];
    var o, t := At(s, pid, Stat(0, 0, id)), At(s, pid, Unlink(0, 0, id));
    assert At(o, pid, Unlink(0, 0, id)) == t;
    if Owned(s, 0) && s.now - s.inodes[id].mtime > STALE_MS {
      Judges(rules, s, pid, 0, Unlink(0, 0, id));
    } else {
      Opens(rules, s, pid, 0);
      if rules.unreadable {
        Moves(rules, o, pid, false, true, Unlink(0, 0, id));
      } else {
        Reads(rules, o, pid, 0, id);
      }
      Chained(rules, s, o, t);
    }
  }

  /** Where files may be used for too long, time passes until they are. */
  lemma Waits(rules: Rules, s: State, pid: nat) returns (t: State)
    requires Alone(rules, s, pid) && Allowed(rules, s)
    ensures Reaches(rules, s, t) && Alone(rules, t, pid) && t == s.(now := t.now)
    ensures t.now == if rules.overlong then s.now + STALE_MS + 1 else s.now
  {
    if rules.overlong {
      t := s.(now := s.now + (STALE_MS + 1));
      Steps(rules, s, pid, Tick(STALE_MS + 1), t);
    } else {
      t := s;
      assert IsPath(rules, [s], s, s);
    }
  }

  lemma Joins(rules: Rules, s: State, m: nat, n: nat) returns (t: State)
    requires Queue(s, m, n) && Alone(rules, s, n + 1)
    requires m == 0 || rules.unreadable || rules.overlong
    ensures Queue(t, m, n + 1) && Reaches(rules, s, t) && Alone(rules, t, n + 1)
  {
    var u := Waits(rules, s, n + 1);
    var v := At(u, n + 1, Try(0, 0));
    assert Queue(u, m, n);
    Begins(rules, u, n + 1);
    Condemns(rules, v, n + 1);
    t := At(v, n + 1, Unlink(0, 0, v.names[0]));
    Chained(rules, s, u, v);
    Chained(rules, s, v, t);
  }

  /** The next one that condemned the slot takes it, from whoever has it by now. */
  lemma Evicts(rules: Rules, s: State, m: nat, n: nat) returns (t: State)
    requires Queue(s, m, n) && m < n && Alone(rules, s, m + 1)
    ensures Queue(t, m + 1, n) && Reaches(rules, s, t) && Alone(rules, t, m + 1)
    ensures t.inodes[t.names[0]].mtime == t.now
  {
    var pid := m + 1;
    var a := At(Removed(s, 0), pid, Try(0, 1));
    t := Taken(a, pid, 0);
    Replaces(rules, s, pid, 0, s.procs[pid].id);
    OwnedIffTaken(s, m, n);
    assert t.procs == s.procs[pid := Holding(0, s.next)];
  }

  lemma OwnedIffTaken(s: State, m: nat, n: nat)
    requires Queue(s, m, n)
    ensures IsOwned(s, s.names[0]) <==> m > 0
  {
    if m > 0 { assert Owns(s.procs[m], s.names[0]); }
  }

  lemma {:induction false} AllCondemn(rules: Rules, s: State, n: nat) returns (t: State)
    requires rules.overlap && Queue(s, 0, 0) && Alone(rules, s, 0)
    ensures Queue(t, 0, n) && Reaches(rules, s, t) && Alone(rules, t, 0)
  {
    if n == 0 {
      t := s;
      assert IsPath(rules, [s], s, s);
    } else {
      var u := AllCondemn(rules, s, n - 1);
      t := Joins(rules, u, 0, n - 1);
      Chained(rules, s, u, t);
    }
  }

  lemma {:induction false} AllTake(rules: Rules, s: State, m: nat, n: nat) returns (t: State)
    requires rules.overlap && Queue(s, 0, n) && Alone(rules, s, 0) && 0 < m <= n
    ensures Queue(t, m, n) && Reaches(rules, s, t) && t.inodes[t.names[0]].mtime == t.now && Alone(rules, t, 0)
  {
    if m == 1 {
      t := Evicts(rules, s, 0, n);
    } else {
      var u := AllTake(rules, s, m - 1, n);
      t := Evicts(rules, u, m - 1, n);
      Chained(rules, s, u, t);
    }
  }

  /** Where reads may fail or files be used for too long, they come one after the other. */
  lemma {:induction false} OneByOne(rules: Rules, s: State, n: nat) returns (t: State)
    requires (rules.unreadable || rules.overlong) && Queue(s, 0, 0) && Alone(rules, s, 1) && n > 0
    ensures Queue(t, n, n) && Reaches(rules, s, t) && t.inodes[t.names[0]].mtime == t.now && Alone(rules, t, n + 1)
  {
    var u := s;
    if n > 1 {
      u := OneByOne(rules, s, n - 1);
    }
    var v := Joins(rules, u, n - 1, n - 1);
    t := Evicts(rules, v, n - 1, n);
    Chained(rules, u, v, t);
    if n > 1 {
      Chained(rules, s, u, t);
    }
  }

  lemma Crowd(rules: Rules, s: State, n: nat) returns (t: State)
    requires rules.overlap || rules.unreadable || rules.overlong
    requires Queue(s, 0, 0) && Alone(rules, s, 0) && n > 0
    ensures Queue(t, n, n) && Reaches(rules, s, t) && t.inodes[t.names[0]].mtime == t.now && Alone(rules, t, n + 1)
  {
    if rules.overlap {
      var u := AllCondemn(rules, s, n);
      t := AllTake(rules, u, n, n);
      Chained(rules, s, u, t);
    } else {
      t := OneByOne(rules, s, n);
    }
  }

  // ---- and two more in the other slots ----------------------------------------------------------

  ghost predicate Held(s: State, slot: nat) {
    Owned(s, slot) && s.now - s.inodes[s.names[slot]].mtime <= STALE_MS
  }

  /** A process passes the slots that live ones hold, and takes the next. */
  lemma {:induction false} Arrives(rules: Rules, s: State, pid: nat, slot: nat, n: nat)
    requires pid in s.procs && s.procs[pid] == Try(slot, 0) && slot <= n < MAX_INFLIGHT && n !in s.names && Alone(rules, s, pid)
    requires forall k: nat :: slot <= k < n ==> Held(s, k)
    ensures var t := Taken(At(s, pid, Try(n, 0)), pid, n); Reaches(rules, s, t) && Alone(rules, t, pid)
    decreases n - slot
  {
    if slot == n {
      assert At(s, pid, Try(n, 0)) == s;
      Takes(rules, s, pid, n, 0);
    } else {
      assert Held(s, slot);
      var m := At(s, pid, Try(slot + 1, 0));
      Judges(rules, s, pid, slot, Try(slot + 1, 0));
      forall k: nat | slot + 1 <= k < n ensures Held(m, k) { assert Held(s, k); }
      assert At(m, pid, Try(n, 0)) == At(s, pid, Try(n, 0));
      Arrives(rules, m, pid, slot + 1, n);
      Chained(rules, s, m, Taken(At(s, pid, Try(n, 0)), pid, n));
    }
  }

  lemma TakenKeepsHeld(s: State, pid: nat, slot: nat, n: nat)
    requires slot < n && slot in s.names && n !in s.names && Held(s, slot) && s.names[slot] < s.next
    ensures Held(Taken(s, pid, n), slot)
  {
  }

  /** Having passed the slots that are held, it has taken the next, and all of them are held. */
  lemma NowHeld(s: State, pid: nat, slot: nat)
    requires pid > 0 && slot !in s.names && (forall id :: id in s.inodes ==> id < s.next)
    requires forall k: nat :: k < slot ==> Held(s, k)
    ensures forall k: nat :: k <= slot ==> Held(Taken(s, pid, slot), k)
  {
    forall k: nat | k <= slot ensures Held(Taken(s, pid, slot), k) {
      if k < slot {
        assert Held(s, k);
        TakenKeepsHeld(s, pid, k, slot);
      }
    }
  }

  lemma Latecomer(rules: Rules, s: State, pid: nat, slot: nat) returns (t: State)
    requires pid !in s.procs && pid > 0 && slot < MAX_INFLIGHT && slot !in s.names && Alone(rules, s, pid)
    requires (forall k: nat :: k < slot ==> Held(s, k)) && (forall id :: id in s.inodes ==> id < s.next)
    ensures Reaches(rules, s, t) && Alone(rules, t, pid) && (forall id :: id in t.inodes ==> id < t.next)
    ensures t.procs == s.procs[pid := Holding(slot, s.next)] && t.names == s.names[slot := s.next]
    ensures t.evictions == s.evictions && forall k: nat :: k <= slot ==> Held(t, k)
  {
    var a := At(s, pid, Try(0, 0));
    Begins(rules, s, pid);
    forall k: nat | k < slot ensures Held(a, k) { assert Held(s, k); }
    t := Passes(rules, a, pid, slot);
    assert t.procs == s.procs[pid := Holding(slot, s.next)];
    Chained(rules, s, a, t);
  }

  lemma Passes(rules: Rules, s: State, pid: nat, slot: nat) returns (t: State)
    requires pid in s.procs && s.procs[pid] == Try(0, 0) && pid > 0 && slot < MAX_INFLIGHT && slot !in s.names && Alone(rules, s, pid)
    requires (forall k: nat :: k < slot ==> Held(s, k)) && (forall id :: id in s.inodes ==> id < s.next)
    ensures Reaches(rules, s, t) && Alone(rules, t, pid) && (forall id :: id in t.inodes ==> id < t.next)
    ensures t.procs == s.procs[pid := Holding(slot, s.next)] && t.names == s.names[slot := s.next]
    ensures t.evictions == s.evictions && forall k: nat :: k <= slot ==> Held(t, k)
  {
    var b := At(s, pid, Try(slot, 0));
    t := Taken(b, pid, slot);
    forall k: nat | k < slot ensures Held(b, k) { assert Held(s, k); }
    NowHeld(b, pid, slot);
    Arrives(rules, s, pid, 0, slot);
    assert t.procs == s.procs[pid := Holding(slot, s.next)];
  }

  lemma Latecomers(rules: Rules, s: State, n: nat) returns (t: State)
    requires Queue(s, n, n) && n > 0 && Alone(rules, s, n + 1) && s.inodes[s.names[0]].mtime == s.now
    ensures Reaches(rules, s, t) && (forall p :: p in t.procs <==> 1 <= p <= n + 2) && t.evictions == s.evictions
    ensures forall p :: p in t.procs ==> t.procs[p].Holding?
  {
    var b := Latecomer(rules, s, n + 1, 1);
    assert Alone(rules, b, n + 2);
    t := Latecomer(rules, b, n + 2, 2);
    Chained(rules, s, b, t);
  }

  lemma {:induction false} CountTo(s: set<nat>, n: nat)
    requires forall p :: p in s <==> 1 <= p <= n
    ensures |s| == n
  {
    if n > 0 { CountTo(s - {n}, n - 1); }
  }

  /** If any of the three may happen, there is a run, otherwise undisturbed, that ends with
      any number of processes above three in flight, and attains the bound that always holds. */
  lemma CrowdInFlight(rules: Rules, more: nat) returns (run: seq<State>)
    requires rules.overlap || rules.unreadable || rules.overlong
    ensures IsRuledRun(rules, run) && forall i :: 0 <= i < |run| - 1 ==> NextUndisturbed(rules, run[i], run[i + 1])
    ensures var last := run[|run| - 1]; |Holders(last)| == MAX_INFLIGHT + more && last.evictions == more
  {
    var s := State(0, map[0 := 0], map[0 := Inode(Foreign(0), 0, 0)], 1, map[], {}, 0);
    var u := Crowd(rules, s, more + 1);
    var t := Latecomers(rules, u, more + 1);
    Chained(rules, s, u, t);
    run :| IsPath(rules, run, s, t);
    CountTo(Holders(t), more + 3);
    PathIsRun(rules, run, s, t);
  }

  lemma PathIsRun(rules: Rules, path: seq<State>, s: State, t: State)
    requires IsPath(rules, path, s, t) && Initial(s)
    ensures IsRuledRun(rules, path) && forall i :: 0 <= i < |path| - 1 ==> NextUndisturbed(rules, path[i], path[i + 1])
  {
    forall i | 0 <= i < |path| - 1 ensures NextRuled(rules, path[i], path[i + 1]) && NextUndisturbed(rules, path[i], path[i + 1]) {
      assert Leads(rules, path[i], path[i + 1]);
    }
    forall i | 0 <= i < |path| ensures Allowed(rules, path[i]) {
      if i > 0 { assert Leads(rules, path[i - 1], path[i - 1 + 1]); }
    }
  }

  lemma StrictRunIsOrderly(run: seq<State>)
    requires IsRuledRun(Rules(false, false, false), run)
    ensures IsOrderlyRun(run)
  {
    forall i | 0 <= i < |run| - 1 ensures NextReadable(run[i], run[i + 1]) {
      assert NextRuled(Rules(false, false, false), run[i], run[i + 1]);
    }
    forall i | 0 <= i < |run| ensures Orderly(run[i]) {
      assert Allowed(Rules(false, false, false), run[i]);
    }
  }

  /** Three slots keep the processes in flight to three exactly when no two processes are at
      one slot at once, no read of a slot fails, and no file is used beyond the stale limit. */
  lemma ThreeInFlightExactly(rules: Rules)
    ensures (forall run, i: nat :: IsRuledRun(rules, run) && i < |run| ==> |Holders(run[i])| <= MAX_INFLIGHT)
            <==> !rules.overlap && !rules.unreadable && !rules.overlong
  {
    if rules.overlap || rules.unreadable || rules.overlong {
      var run := CrowdInFlight(rules, 1);
      assert |Holders(run[|run| - 1])| > MAX_INFLIGHT;
    } else {
      forall run, i: nat | IsRuledRun(rules, run) && i < |run| ensures |Holders(run[i])| <= MAX_INFLIGHT {
        StrictRunIsOrderly(run);
        AtMostThreeInFlight(run, i);
      }
    }
  }
}
