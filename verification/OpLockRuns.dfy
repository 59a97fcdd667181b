/**
 Runs of the lock manager: any interleaving of taking locks, moving and destroying lock
 objects, and serving wake-up events, by any number of sockets.
 */
module OpLockRuns {
  import opened Optional
  import opened ServerPath
  import opened OpLockTable

  /** A variable that may hold a lock object. */
  type Slot = nat

  /** The table, the lock objects that own a lock, and the events sent but not served yet. */
  datatype World = World(table: Table, slots: map<Slot, Handle>, events: multiset<Socket>)

  datatype Action =
    | Acquire(slot: Slot, socket: Socket, server: Server, reason: Reason, path: Path, inclusive: bool)
    | MoveTo(from: Slot, to: Slot)
    | Destroy(slot: Slot)
    | Serve(socket: Socket)

  const Initial := World([], map[], multiset{})

  function Release(w: World, slot: Slot): World
    requires slot in w.slots && InTable(w.table, w.slots[slot])
  {
    var h := w.slots[slot];
    World(UnlockSpec(w.table, h), w.slots - {slot}, w.events + UnlockEvents(w.table, h))
  }

  /** A lock object is destroyed, or about to be overwritten by a move. */
  function Clear(w: World, slot: Slot): World {
    if slot in w.slots && InTable(w.table, w.slots[slot]) then Release(w, slot) else w
  }

  /** The lock object's ownership passes from one variable to another. */
  function Rename(w: World, from: Slot, to: Slot): World {
    if from in w.slots then w.(slots := (w.slots - {from})[to := w.slots[from]]) else w
  }

  ghost function Acquired(w: World, slot: Slot, s: Socket, server: Server, reason: Reason, path: Path, inclusive: bool): World {
    if slot in w.slots then w else
    var (t, h) := LockSpec(w.table, s, server, reason, path, inclusive);
    w.(table := t, slots := w.slots[slot := h])
  }

  ghost function Served(w: World, s: Socket): World {
    if s in w.events then w.(table := ObtainSpec(w.table, s), events := w.events - multiset{s}) else w
  }

  /**
   A new lock goes into a fresh object. A move onto itself does nothing; otherwise the
   target first gives up what it holds. An event is served only if one was sent.
   */
  ghost function Step(w: World, a: Action): World {
    match a
    case Acquire(slot, s, server, reason, path, inclusive) =>
      Acquired(w, slot, s, server, reason, path, inclusive)
    case MoveTo(from, to) =>
      if from == to then w else
      Rename(Clear(w, to), from, to)
    case Destroy(slot) => Clear(w, slot)
    case Serve(s) => Served(w, s)
  }

  // ---------------------------------------------------------------- invariant

  /** Lock objects and unreleased locks of the table correspond one to one. */
  ghost predicate HandlesMatch(t: Table, slots: map<Slot, Handle>) {
    && (forall s :: s in slots ==> Live(t, slots[s]))
    && (forall s, r :: s in slots && r in slots && s != r ==> slots[s] != slots[r])
    && (forall h: Handle :: Live(t, h) ==> exists s :: s in slots && slots[s] == h)
  }

  ghost predicate Valid(w: World) {
    && ValidTable(w.table)
    && HandlesMatch(w.table, w.slots)
    && Exclusive(w.table)
    && NoLostWakeup(w.table, w.events)
  }

  lemma HandlesAfterRelease(t: Table, t': Table, slots: map<Slot, Handle>, slot: Slot)
    requires HandlesMatch(t, slots) && slot in slots && AllBut(t, t', slots[slot])
    ensures HandlesMatch(t', slots - {slot})
  {
    var slots' := slots - {slot};
    forall g: Handle | Live(t', g) ensures exists s :: s in slots' && slots'[s] == g {
      var s :| s in slots && slots[s] == g;
      assert s in slots';
    }
  }

  lemma HandlesAfterAcquire(t: Table, t': Table, slots: map<Slot, Handle>, slot: Slot, h: Handle)
    requires HandlesMatch(t, slots) && slot !in slots
    requires !Live(t, h) && Live(t', h) && Carries(t, t', {}, {h})
    ensures HandlesMatch(t', slots[slot := h])
  {
    var slots' := slots[slot := h];
    forall g: Handle | Live(t', g) ensures exists s :: s in slots' && slots'[s] == g {
      if g == h {
        assert slots'[slot] == g;
      } else {
        var s :| s in slots && slots[s] == g;
        assert s in slots' && slots'[s] == g;
      }
    }
  }

  lemma ReleaseKeeps(w: World, slot: Slot)
    requires Valid(w) && slot in w.slots
    ensures Valid(Release(w, slot))
  {
    var h := w.slots[slot];
    UnlockValid(w.table, h);
    UnlockLeaves(w.table, h);
    UnlockExclusive(w.table, h);
    UnlockNoLostWakeup(w.table, h, w.events);
    HandlesAfterRelease(w.table, UnlockSpec(w.table, h), w.slots, slot);
  }

  lemma AcquireKeeps(w: World, a: Action)
    requires Valid(w) && a.Acquire? && a.slot !in w.slots
    ensures Valid(Step(w, a))
  {
    LockValid(w.table, a.socket, a.server, a.reason, a.path, a.inclusive);
    LockExclusive(w.table, a.socket, a.server, a.reason, a.path, a.inclusive);
    LockNoLostWakeup(w.table, a.socket, a.server, a.reason, a.path, a.inclusive, w.events);
    var (t, h) := LockSpec(w.table, a.socket, a.server, a.reason, a.path, a.inclusive);
    HandlesAfterAcquire(w.table, t, w.slots, a.slot, h);
  }

  lemma RenameKeeps(w: World, from: Slot, to: Slot)
    requires Valid(w) && from in w.slots && to !in w.slots
    ensures Valid(Rename(w, from, to))
  {
    HandlesAfterRename(w.table, w.slots, from, to);
  }

  lemma HandlesAfterRename(t: Table, slots: map<Slot, Handle>, from: Slot, to: Slot)
    requires HandlesMatch(t, slots) && from in slots && to !in slots
    ensures HandlesMatch(t, (slots - {from})[to := slots[from]])
  {
    var slots' := (slots - {from})[to := slots[from]];
    forall g: Handle | Live(t, g) ensures exists s :: s in slots' && slots'[s] == g {
      var s :| s in slots && slots[s] == g;
      assert slots'[if s == from then to else s] == g;
    }
  }

  lemma ServeKeeps(w: World, s: Socket)
    requires Valid(w)
    ensures Valid(w.(table := ObtainSpec(w.table, s), events := w.events - multiset{s}))
  {
    ObtainValid(w.table, s);
    ObtainExclusive(w.table, s);
    ObtainNoLostWakeup(w.table, s, w.events);
    var t' := ObtainSpec(w.table, s);
    forall g: Handle | Live(t', g) ensures exists r :: r in w.slots && w.slots[r] == g {
      assert Live(w.table, g);
    }
  }

  lemma StepKeeps(w: World, a: Action)
    requires Valid(w)
    ensures Valid(Step(w, a))
  {
    match a
    case Acquire(slot, _, _, _, _, _) => if slot !in w.slots { AcquireKeeps(w, a); }
    case MoveTo(from, to) =>
      if from != to {
        if to in w.slots { ReleaseKeeps(w, to); }
        var w1 := Clear(w, to);
        if from in w1.slots { RenameKeeps(w1, from, to); }
      }
    case Destroy(slot) => if slot in w.slots { ReleaseKeeps(w, slot); }
    case Serve(s) => ServeKeeps(w, s);
  }

  // ---------------------------------------------------------------- runs

  lemma InitialValid()
    ensures Valid(Initial)
  {}

  ghost function Run(actions: seq<Action>): World {
    if actions == [] then Initial else Step(Run(actions[..|actions| - 1]), actions[|actions| - 1])
  }

  /** In every reachable state the table is well formed, lock objects and locks correspond, granted locks
      exclude each other and no wake-up is lost. */
  lemma {:induction false} RunValid(actions: seq<Action>)
    ensures Valid(Run(actions))
    decreases |actions|
  {
    if actions == [] {
      InitialValid();
    } else {
      RunValid(actions[..|actions| - 1]);
      StepKeeps(Run(actions[..|actions| - 1]), actions[|actions| - 1]);
    }
  }

  /** Two lock objects, as seen through their handles, hold granted locks. */
  predicate HoldsGranted(w: World, s: Slot) {
    s in w.slots && Granted(w.table, w.slots[s])
  }

  /**
   Mutual exclusion. In no run do two sockets hold granted locks for the same reason on one
   server where the paths are equal or one is an inclusive lock above the other.
   */
  lemma MutualExclusion(actions: seq<Action>, r: Slot, s: Slot)
    requires HoldsGranted(Run(actions), r) && HoldsGranted(Run(actions), s)
    ensures var w := Run(actions);
            var (g, h) := (w.slots[r], w.slots[s]);
            w.table[g.entry].socket != w.table[h.entry].socket && w.table[g.entry].server == w.table[h.entry].server
            ==> !Conflict(LockAt(w.table, g), LockAt(w.table, h))
  {
    RunValid(actions);
    var w := Run(actions);
    assert Exclusive(w.table);
    assert w.slots[r].entry == w.slots[s].entry
           || !(w.table[w.slots[r].entry].server == w.table[w.slots[s].entry].server)
           || !Conflict(LockAt(w.table, w.slots[r]), LockAt(w.table, w.slots[s]));
  }

  /**
   No lost wake-up. In every run a lock object that waits either has a granted lock of
   another lock object in its way or its socket has an event it has not served yet.
   */
  lemma WaitersAreBlockedOrNotified(actions: seq<Action>, s: Slot)
    requires s in Run(actions).slots && Waits(Run(actions).table, Run(actions).slots[s])
    ensures var w := Run(actions);
            var h := w.slots[s];
            && w.table[h.entry].socket.Some?
            && (|| w.table[h.entry].socket.value in w.events
                || exists r :: HoldsGranted(w, r) && Blocks(w.table, w.slots[r], h.entry, LockAt(w.table, h)))
  {
    RunValid(actions);
    var w := Run(actions);
    var h := w.slots[s];
    if Blocked(w.table, h.entry, LockAt(w.table, h)) {
      var b: Handle :| Blocks(w.table, b, h.entry, LockAt(w.table, h));
      var r :| r in w.slots && w.slots[r] == b;
      assert HoldsGranted(w, r);
    }
  }

  /** Once all events are served and nothing is granted any more, nothing waits. */
  lemma QuietMeansNoWaiter(actions: seq<Action>)
    requires Run(actions).events == multiset{}
    requires forall s :: !HoldsGranted(Run(actions), s)
    ensures forall h: Handle :: !Waits(Run(actions).table, h)
  {
    RunValid(actions);
    var w := Run(actions);
    forall h: Handle | Waits(w.table, h) ensures false {
      var s :| s in w.slots && w.slots[s] == h;
      WaitersAreBlockedOrNotified(actions, s);
    }
  }

  // ---------------------------------------------------------------- what serving an event grants

  lemma RunStep(actions: seq<Action>, a: Action)
    ensures Run(actions + [a]) == Step(Run(actions), a)
  {
    assert (actions + [a])[..|actions|] == actions;
  }

  /** `r` holds a granted lock of another socket that conflicts with the lock of `s`. */
  predicate SlotBlocks(w: World, r: Slot, s: Slot)
    requires s in w.slots && InTable(w.table, w.slots[s])
  {
    HoldsGranted(w, r) && Blocks(w.table, w.slots[r], w.slots[s].entry, LockAt(w.table, w.slots[s]))
  }

  ghost predicate NothingInTheWay(w: World, s: Slot)
    requires s in w.slots && InTable(w.table, w.slots[s])
  {
    !exists r :: SlotBlocks(w, r, s)
  }

  lemma BlockedBySlot(w: World, s: Slot)
    requires HandlesMatch(w.table, w.slots) && s in w.slots
    ensures Blocked(w.table, w.slots[s].entry, LockAt(w.table, w.slots[s])) <==> exists r :: SlotBlocks(w, r, s)
  {
    var h := w.slots[s];
    if Blocked(w.table, h.entry, LockAt(w.table, h)) {
      var b: Handle :| Blocks(w.table, b, h.entry, LockAt(w.table, h));
      var r :| r in w.slots && w.slots[r] == b;
      assert SlotBlocks(w, r, s);
    }
  }

  lemma ObtainDecides(t: Table, s: Socket, w: Handle)
    requires ValidTable(t) && Waits(t, w) && t[w.entry].socket == Some(s)
    ensures Granted(ObtainSpec(t, s), w) <==> !Blocked(t, w.entry, LockAt(t, w))
  {
    var i := FindSocket(t, s);
    assert i == w.entry;
    assert ObtainSpec(t, s)[i].locks[w.lock] == ObtainEntry(t, i)[w.lock];
  }

  /** The lock object waits, and its socket has an event to serve. */
  predicate AboutToServe(w: World, socket: Socket, s: Slot) {
    && socket in w.events && s in w.slots && Waits(w.table, w.slots[s])
    && w.table[w.slots[s].entry].socket == Some(socket)
  }

  lemma ServedSlot(w: World, socket: Socket, s: Slot)
    requires ValidTable(w.table) && HandlesMatch(w.table, w.slots) && AboutToServe(w, socket, s)
    ensures HoldsGranted(Served(w, socket), s) <==> NothingInTheWay(w, s)
  {
    ObtainDecides(w.table, socket, w.slots[s]);
    BlockedBySlot(w, s);
  }

  lemma ServeStep(w: World, socket: Socket, s: Slot)
    requires Valid(w) && AboutToServe(w, socket, s)
    ensures HoldsGranted(Step(w, Serve(socket)), s) <==> NothingInTheWay(w, s)
  {
    ServedSlot(w, socket, s);
  }

  /**
   For every run and every waiting lock object whose socket has an event to serve: serving it grants the lock
   if and only if no other lock object, on whatever server, holds a granted lock in its way.
   */
  lemma ServeGrantsExactly(actions: seq<Action>, socket: Socket, s: Slot)
    requires AboutToServe(Run(actions), socket, s)
    ensures HoldsGranted(Run(actions + [Serve(socket)]), s) <==> NothingInTheWay(Run(actions), s)
  {
    RunValid(actions);
    RunStep(actions, Serve(socket));
    ServeStep(Run(actions), socket, s);
  }

  predicate SameServer(w: World, r: Slot, s: Slot)
    requires s in w.slots && InTable(w.table, w.slots[s]) && r in w.slots && InTable(w.table, w.slots[r])
  {
    w.table[w.slots[r].entry].server == w.table[w.slots[s].entry].server
  }

  /** A request made now would be granted: nothing on the lock's own server is in its way. */
  ghost predicate FreeOnServer(w: World, s: Slot)
    requires s in w.slots && InTable(w.table, w.slots[s])
  {
    forall r :: SlotBlocks(w, r, s) ==> !SameServer(w, r, s)
  }

  /** A conflicting lock is granted on another server. */
  ghost predicate BlockedElsewhere(w: World, s: Slot)
    requires s in w.slots && InTable(w.table, w.slots[s])
  {
    exists r :: SlotBlocks(w, r, s) && !SameServer(w, r, s)
  }

  lemma OnlyElsewhere(w: World, s: Slot)
    requires s in w.slots && InTable(w.table, w.slots[s]) && FreeOnServer(w, s)
    ensures NothingInTheWay(w, s) <==> !BlockedElsewhere(w, s)
  {}

  /**
   A lock object with nothing in its way on its own server nevertheless goes on waiting after its event
   is served, if and only if a conflicting lock is granted on another server.
   */
  lemma WaitsForOtherServer(actions: seq<Action>, socket: Socket, s: Slot)
    requires AboutToServe(Run(actions), socket, s) && FreeOnServer(Run(actions), s)
    ensures !HoldsGranted(Run(actions + [Serve(socket)]), s) <==> BlockedElsewhere(Run(actions), s)
  {
    ServeGrantsExactly(actions, socket, s);
    OnlyElsewhere(Run(actions), s);
  }

  // ---------------------------------------------------------------- such a run

  function Granting(p: Path): LockInfo {
    LockInfo(p, ListReason, false, false, false)
  }

  function Waiting(p: Path): LockInfo {
    LockInfo(p, ListReason, false, true, false)
  }

  function Ask(slot: Slot, socket: Socket, server: Server, p: Path): Action {
    Acquire(slot, socket, server, ListReason, p, false)
  }

  /** Socket 30 on server 2 holds a lock; then socket 10 on server 1; socket 20 on server 2 has to wait. */
  function World1(p: Path): World {
    World([Entry(2, Some(30), [Granting(p)])], map[0 := Handle(0, 0)], multiset{})
  }

  function World2(p: Path): World {
    World([Entry(2, Some(30), [Granting(p)]), Entry(1, Some(10), [Granting(p)])],
          map[0 := Handle(0, 0), 1 := Handle(1, 0)], multiset{})
  }

  function World3(p: Path): World {
    World([Entry(2, Some(30), [Granting(p)]), Entry(1, Some(10), [Granting(p)]), Entry(2, Some(20), [Waiting(p)])],
          map[0 := Handle(0, 0), 1 := Handle(1, 0), 2 := Handle(2, 0)], multiset{})
  }

  /** The lock of socket 30 is gone and socket 20 has been sent an event. */
  function World4(p: Path): World {
    World([Entry(2, None, []), Entry(1, Some(10), [Granting(p)]), Entry(2, Some(20), [Waiting(p)])],
          map[1 := Handle(1, 0), 2 := Handle(2, 0)], multiset{20})
  }

  lemma FirstAsked(p: Path)
    ensures Acquired(Initial, 0, 30, 2, ListReason, p, false) == World1(p)
  {
    var t: Table := [Entry(2, Some(30), [])];
    assert [] + [Entry(2, Some(30), [])] == t && t[..1] == t;
    assert !BlockedOnServer(t, 0, Granting(p));
    assert [] + [Granting(p)] == [Granting(p)];
    assert Push(t, 0, Granting(p)) == World1(p).table;
  }

  lemma SecondAsked(p: Path)
    ensures Acquired(World1(p), 1, 10, 1, ListReason, p, false) == World2(p)
  {
    var t0 := World1(p).table;
    var t := t0 + [Entry(1, Some(10), [])];
    assert FindSocket(t0, 10) == 1 by { assert t0[0].socket != Some(10); }
    assert GetOrCreate(t0, 10, 1) == t;
    assert !BlockedOnServer(t, 1, Granting(p));
    assert [] + [Granting(p)] == [Granting(p)];
    assert Push(t, 1, Granting(p)) == World2(p).table;
  }

  lemma ThirdAsked(p: Path)
    ensures Acquired(World2(p), 2, 20, 2, ListReason, p, false) == World3(p)
  {
    var t0 := World2(p).table;
    var t := t0 + [Entry(2, Some(20), [])];
    assert FindSocket(t0, 20) == 2 by { assert t0[0].socket != Some(20) && t0[1].socket != Some(20); }
    assert GetOrCreate(t0, 20, 2) == t;
    assert Blocks(t, Handle(0, 0), 2, Granting(p)) && t[0].server == t[2].server;
    assert BlockedOnServer(t, 2, Granting(p));
    assert [] + [Waiting(p)] == [Waiting(p)];
    assert Push(t, 2, Waiting(p)) == World3(p).table;
  }

  lemma FirstReleased(p: Path)
    ensures Release(World3(p), 0) == World4(p)
  {
    var t := World4(p).table;
    var ls: seq<LockInfo> := [Granting(p)];
    assert ls[..0] == [] && TrimLocks([]) == [];
    assert UnlockSpec(World3(p).table, Handle(0, 0)) == t;
    WokenByRelease(p);
    assert World3(p).slots - {0} == World4(p).slots;
  }

  lemma WokenByRelease(p: Path)
    ensures WakeupSpec(World4(p).table) == multiset{20}
  {
    var t := World4(p).table;
    assert t[..2] == [t[0], t[1]] && t[..2][..1] == [t[0]] && [t[0]][..0] == [];
    assert t[2].locks[0].waiting && AnyWaiting(t[2].locks);
    assert WakeupEntry(t[2]) == multiset{20} && WakeupEntry(t[1]) == multiset{} && WakeupEntry(t[0]) == multiset{};
    assert WakeupSpec([]) == multiset{} && WakeupSpec([t[0]]) == multiset{} && WakeupSpec([t[0], t[1]]) == multiset{};
  }

  function Script(p: Path): seq<Action> {
    [Ask(0, 30, 2, p), Ask(1, 10, 1, p), Ask(2, 20, 2, p), Destroy(0)]
  }

  lemma RunUpTo(actions: seq<Action>, n: nat, w: World)
    requires n < |actions| && Run(actions[..n]) == w
    ensures Run(actions[..n + 1]) == Step(w, actions[n])
  {
    RunStep(actions[..n], actions[n]);
    assert actions[..n] + [actions[n]] == actions[..n + 1];
  }

  lemma AcquiresNext(actions: seq<Action>, n: nat, w: World, w': World)
    requires n < |actions| && Run(actions[..n]) == w && actions[n].Acquire?
    requires var a := actions[n]; Acquired(w, a.slot, a.socket, a.server, a.reason, a.path, a.inclusive) == w'
    ensures Run(actions[..n + 1]) == w'
  {
    RunUpTo(actions, n, w);
  }

  lemma DestroysNext(actions: seq<Action>, n: nat, w: World, w': World)
    requires n < |actions| && Run(actions[..n]) == w && actions[n].Destroy? && actions[n].slot in w.slots
    requires InTable(w.table, w.slots[actions[n].slot]) && Release(w, actions[n].slot) == w'
    ensures Run(actions[..n + 1]) == w'
  {
    RunUpTo(actions, n, w);
  }

  lemma ScriptRun(p: Path)
    ensures Run(Script(p)) == World4(p)
  {
    var actions := Script(p);
    assert actions[..0] == [];
    FirstAsked(p);
    AcquiresNext(actions, 0, Initial, World1(p));
    SecondAsked(p);
    AcquiresNext(actions, 1, World1(p), World2(p));
    ThirdAsked(p);
    AcquiresNext(actions, 2, World2(p), World3(p));
    FirstReleased(p);
    DestroysNext(actions, 3, World3(p), World4(p));
    assert actions[..4] == actions;
  }

  /** In a run of four actions, a lock on a free server goes on waiting because of another server's lock. */
  lemma StarvedByOtherServer(p: Path)
    ensures AboutToServe(Run(Script(p)), 20, 2) && FreeOnServer(Run(Script(p)), 2)
    ensures !HoldsGranted(Run(Script(p) + [Serve(20)]), 2)
  {
    ScriptRun(p);
    StarvedWorld(p);
    WaitsForOtherServer(Script(p), 20, 2);
  }

  lemma StarvedWorld(p: Path)
    ensures var w := World4(p); AboutToServe(w, 20, 2) && FreeOnServer(w, 2) && BlockedElsewhere(w, 2)
  {
    var w := World4(p);
    assert SlotBlocks(w, 1, 2) && !SameServer(w, 1, 2);
  }

  /** The slots an action may change. */
  predicate Touches(a: Action, s: Slot) {
    match a
    case Acquire(slot, _, _, _, _, _) => s == slot
    case MoveTo(from, to) => s == from || s == to
    case Destroy(slot) => s == slot
    case Serve(_) => false
  }

  /** The lock object keeps its handle, the handle its lock, and a granted lock is not taken back. */
  predicate Kept(w: World, w': World, s: Slot) {
    && s in w.slots && s in w'.slots && w'.slots[s] == w.slots[s]
    && SameLock(w.table, w'.table, w.slots[s])
    && (Granted(w.table, w.slots[s]) ==> Granted(w'.table, w.slots[s]))
  }

  /**
   Handles survive compaction. Through every step of every run, a lock object that the step
   does not itself touch is kept.
   */
  lemma HandlesStayValid(actions: seq<Action>, a: Action, s: Slot)
    requires s in Run(actions).slots && !Touches(a, s)
    ensures Kept(Run(actions), Run(actions + [a]), s)
  {
    RunValid(actions);
    var w := Run(actions);
    RunStep(actions, a);
    UntouchedSlot(w, a, s);
  }

  lemma UntouchedSlot(w: World, a: Action, s: Slot)
    requires Valid(w) && s in w.slots && !Touches(a, s)
    ensures Kept(w, Step(w, a), s)
  {
    match a
    case Acquire(_, _, _, _, _, _) => UntouchedByAcquire(w, a, s);
    case MoveTo(from, to) => UntouchedByMove(w, from, to, s);
    case Destroy(slot) => UntouchedByClear(w, slot, s);
    case Serve(socket) => UntouchedByServe(w, socket, s);
  }

  lemma UntouchedByMove(w: World, from: Slot, to: Slot, s: Slot)
    requires Valid(w) && s in w.slots && s != from && s != to
    ensures Kept(w, Step(w, MoveTo(from, to)), s)
  {
    UntouchedByClear(w, to, s);
    UntouchedByRename(w, Clear(w, to), from, to, s);
  }

  lemma UntouchedByRename(w: World, w1: World, from: Slot, to: Slot, s: Slot)
    requires Kept(w, w1, s) && s != from && s != to
    ensures Kept(w, Rename(w1, from, to), s)
  {}

  lemma LockedTableKeeps(t: Table, a: Action, h: Handle)
    requires ValidTable(t) && Live(t, h) && a.Acquire?
    ensures var t' := LockSpec(t, a.socket, a.server, a.reason, a.path, a.inclusive).0;
            SameLock(t, t', h) && (Granted(t, h) ==> Granted(t', h))
  {
    LockValid(t, a.socket, a.server, a.reason, a.path, a.inclusive);
  }

  lemma UntouchedByAcquire(w: World, a: Action, s: Slot)
    requires ValidTable(w.table) && HandlesMatch(w.table, w.slots) && s in w.slots && a.Acquire?
    ensures Kept(w, Acquired(w, a.slot, a.socket, a.server, a.reason, a.path, a.inclusive), s)
  {
    LockedTableKeeps(w.table, a, w.slots[s]);
  }

  lemma ReleasedTableKeeps(t: Table, gone: Handle, h: Handle)
    requires ValidTable(t) && Live(t, gone) && Live(t, h) && h != gone
    ensures var t' := UnlockSpec(t, gone); SameLock(t, t', h) && (Granted(t, h) ==> Granted(t', h))
  {
    UnlockLeaves(t, gone);
  }

  lemma UntouchedByClear(w: World, slot: Slot, s: Slot)
    requires Valid(w) && s in w.slots && s != slot
    ensures Kept(w, Clear(w, slot), s)
  {
    if slot in w.slots { ReleasedTableKeeps(w.table, w.slots[slot], w.slots[s]); }
  }

  lemma ServedTableKeeps(t: Table, s: Socket, h: Handle)
    requires ValidTable(t) && Live(t, h)
    ensures SameLock(t, ObtainSpec(t, s), h) && (Granted(t, h) ==> Granted(ObtainSpec(t, s), h))
  {
    ObtainValid(t, s);
  }

  lemma UntouchedByServe(w: World, socket: Socket, s: Slot)
    requires ValidTable(w.table) && HandlesMatch(w.table, w.slots) && s in w.slots
    ensures Kept(w, Served(w, socket), s)
  {
    ServedTableKeeps(w.table, socket, w.slots[s]);
  }

  /** Moving a lock object hands its lock over: the target now names the lock the source did. */
  lemma MoveTransfers(actions: seq<Action>, from: Slot, to: Slot)
    requires from in Run(actions).slots && from != to
    ensures var (w, w') := (Run(actions), Run(actions + [MoveTo(from, to)]));
            && from !in w'.slots && to in w'.slots
            && w'.slots[to] == w.slots[from]
            && SameLock(w.table, w'.table, w.slots[from])
  {
    RunValid(actions);
    var w := Run(actions);
    RunStep(actions, MoveTo(from, to));
    UntouchedByClear(w, to, from);
    RenameTransfers(w, Clear(w, to), from, to);
  }

  lemma RenameTransfers(w: World, w1: World, from: Slot, to: Slot)
    requires Kept(w, w1, from) && from != to
    ensures var w' := Rename(w1, from, to);
            && from !in w'.slots && to in w'.slots
            && w'.slots[to] == w.slots[from]
            && SameLock(w.table, w'.table, w.slots[from])
  {}

  /** When every lock object is gone the table is empty: compaction leaves nothing behind. */
  lemma AllReleasedEmptiesTable(actions: seq<Action>)
    ensures Run(actions).slots == map[] <==> Run(actions).table == []
  {
    RunValid(actions);
    var w := Run(actions);
    NoHandlesNoEntries(w.table, w.slots);
  }

  lemma NoHandlesNoEntries(t: Table, slots: map<Slot, Handle>)
    requires ValidTable(t) && HandlesMatch(t, slots)
    ensures slots == map[] <==> t == []
  {
    if t != [] {
      var last := t[|t| - 1];
      var h := Handle(|t| - 1, |last.locks| - 1);
      assert ValidEntry(last) && Live(t, h);
      var s :| s in slots && slots[s] == h;
    } else {
      forall s ensures s !in slots {}
    }
  }
}
