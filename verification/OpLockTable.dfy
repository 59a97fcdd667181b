/**
 The operation lock table as a value: entries per control socket, each with a vector of
 locks that handles address by index. The operations are those of the lock manager; the
 class in OpLockManager.dfy carries them out in place.
 */
module OpLockTable {
  import opened Optional
  import opened ServerPath

  type Socket = nat
  type Server = int

  datatype Reason = UnknownReason | ListReason | MkdirReason | Private1

  datatype LockInfo = LockInfo(path: Path, reason: Reason, inclusive: bool, waiting: bool, released: bool)

  /** An entry whose last lock went away while later entries exist loses its socket. */
  datatype Entry = Entry(server: Server, socket: Option<Socket>, locks: seq<LockInfo>)

  type Table = seq<Entry>

  datatype Handle = Handle(entry: nat, lock: nat)

  // ---------------------------------------------------------------- what locks mean

  predicate Overlap(a: LockInfo, b: LockInfo) {
    || a.path == b.path
    || (a.inclusive && IsSubdirOf(b.path, a.path, false, false))
    || (b.inclusive && IsSubdirOf(a.path, b.path, false, false))
  }

  predicate Conflict(a: LockInfo, b: LockInfo) {
    a.reason == b.reason && Overlap(a, b)
  }

  predicate InTable(t: Table, h: Handle) {
    h.entry < |t| && h.lock < |t[h.entry].locks|
  }

  function LockAt(t: Table, h: Handle): LockInfo
    requires InTable(t, h)
  {
    t[h.entry].locks[h.lock]
  }

  predicate Live(t: Table, h: Handle) {
    InTable(t, h) && !LockAt(t, h).released
  }

  predicate Granted(t: Table, h: Handle) {
    Live(t, h) && !LockAt(t, h).waiting
  }

  predicate Waits(t: Table, h: Handle) {
    Live(t, h) && LockAt(t, h).waiting
  }

  /** `b` is a granted lock of another entry that conflicts with `l`, a lock of entry `i`. */
  predicate Blocks(t: Table, b: Handle, i: nat, l: LockInfo) {
    b.entry != i && Granted(t, b) && Conflict(LockAt(t, b), l)
  }

  ghost predicate Blocked(t: Table, i: nat, l: LockInfo) {
    exists b: Handle :: Blocks(t, b, i, l)
  }

  /** As `Blocked`, but only locks on the same server count. */
  ghost predicate BlockedOnServer(t: Table, i: nat, l: LockInfo)
    requires i < |t|
  {
    exists b: Handle :: Blocks(t, b, i, l) && t[b.entry].server == t[i].server
  }

  // ---------------------------------------------------------------- the operations

  /** The entry of a socket, or the length of the table. */
  function FindSocket(t: Table, s: Socket): (i: nat)
    ensures i <= |t|
    ensures i < |t| ==> t[i].socket == Some(s)
    ensures forall k :: 0 <= k < i ==> t[k].socket != Some(s)
  {
    if t == [] then 0
    else if t[0].socket == Some(s) then 0
    else 1 + FindSocket(t[1..], s)
  }

  function GetOrCreate(t: Table, s: Socket, server: Server): Table {
    if FindSocket(t, s) < |t| then t else t + [Entry(server, Some(s), [])]
  }

  function Push(t: Table, i: nat, l: LockInfo): Table
    requires i < |t|
  {
    t[i := t[i].(locks := t[i].locks + [l])]
  }

  ghost function LockSpec(t: Table, s: Socket, server: Server, reason: Reason, path: Path, inclusive: bool): (Table, Handle)
  {
    var i := FindSocket(t, s);
    var t1 := GetOrCreate(t, s, server);
    var asked := LockInfo(path, reason, inclusive, false, false);
    (Push(t1, i, asked.(waiting := BlockedOnServer(t1, i, asked))), Handle(i, |t1[i].locks|))
  }

  /** Drops the released locks at the end. */
  function TrimLocks(ls: seq<LockInfo>): (r: seq<LockInfo>)
    ensures r <= ls
    ensures r != [] ==> !r[|r| - 1].released
    ensures forall k :: |r| <= k < |ls| ==> ls[k].released
  {
    if ls != [] && ls[|ls| - 1].released then TrimLocks(ls[..|ls| - 1]) else ls
  }

  /** Drops the entries without socket at the end. */
  function TrimEntries(t: Table): (r: Table)
    ensures r <= t
    ensures r != [] ==> r[|r| - 1].socket.Some?
    ensures forall k :: |r| <= k < |t| ==> t[k].socket.None?
  {
    if t != [] && t[|t| - 1].socket.None? then TrimEntries(t[..|t| - 1]) else t
  }

  function UnlockSpec(t: Table, h: Handle): Table
    requires InTable(t, h)
  {
    var e := t[h.entry];
    if h.lock + 1 == |e.locks| then
      var ls := TrimLocks(e.locks[..h.lock]);
      if ls != [] then t[h.entry := e.(locks := ls)]
      else if h.entry + 1 == |t| then TrimEntries(t[..h.entry])
      else t[h.entry := e.(socket := None, locks := [])]
    else
      t[h.entry := e.(locks := e.locks[h.lock := e.locks[h.lock].(waiting := false, released := true)])]
  }

  /** The sockets that get an event: those of entries with a waiting lock, once per entry. */
  function WakeupSpec(t: Table): multiset<Socket> {
    if t == [] then multiset{}
    else WakeupSpec(t[..|t| - 1]) + WakeupEntry(t[|t| - 1])
  }

  predicate AnyWaiting(ls: seq<LockInfo>) {
    exists k :: 0 <= k < |ls| && ls[k].waiting
  }

  function WakeupEntry(e: Entry): multiset<Socket> {
    if e.socket.Some? && AnyWaiting(e.locks)
    then multiset{e.socket.value} else multiset{}
  }

  /** Grants every waiting lock of entry `i` that no other entry blocks. */
  ghost function ObtainEntry(t: Table, i: nat): seq<LockInfo>
    requires i < |t|
  {
    var ls := t[i].locks;
    seq(|ls|, k requires 0 <= k < |ls| =>
      if ls[k].waiting && !Blocked(t, i, ls[k]) then ls[k].(waiting := false) else ls[k])
  }

  ghost function ObtainSpec(t: Table, s: Socket): Table {
    var i := FindSocket(t, s);
    if i < |t| then t[i := t[i].(locks := ObtainEntry(t, i))] else t
  }

  // ---------------------------------------------------------------- the table invariant

  /**
   Entries without socket hold no locks, the others end in an unreleased lock; the last
   entry has a socket; no socket has two entries; a released lock does not wait.
   */
  predicate ValidTable(t: Table) {
    && (forall i :: 0 <= i < |t| ==> ValidEntry(t[i]))
    && (t != [] ==> t[|t| - 1].socket.Some?)
    && (forall i, j :: 0 <= i < j < |t| && t[i].socket.Some? ==> t[i].socket != t[j].socket)
  }

  predicate ValidEntry(e: Entry) {
    && (e.socket.None? <==> e.locks == [])
    && (e.locks != [] ==> !e.locks[|e.locks| - 1].released)
    && (forall k :: 0 <= k < |e.locks| ==> !(e.locks[k].released && e.locks[k].waiting))
  }

  /** Mutual exclusion among granted locks of different sockets on one server. */
  ghost predicate Exclusive(t: Table) {
    forall a: Handle, b: Handle ::
      Granted(t, a) && Granted(t, b) && a.entry != b.entry && t[a.entry].server == t[b.entry].server
      ==> !Conflict(LockAt(t, a), LockAt(t, b))
  }

  /** Every waiting lock is blocked by another entry or its socket has an event to come. */
  ghost predicate NoLostWakeup(t: Table, events: multiset<Socket>) {
    forall w: Handle :: Waits(t, w) ==>
      Blocked(t, w.entry, LockAt(t, w)) || (t[w.entry].socket.Some? && t[w.entry].socket.value in events)
  }

  /** What a live handle of one table finds in another: the same lock of the same socket. */
  predicate SameLock(t: Table, t': Table, h: Handle) {
    && Live(t, h) && Live(t', h)
    && t[h.entry].socket == t'[h.entry].socket
    && t[h.entry].server == t'[h.entry].server
    && LockAt(t, h).(waiting := false) == LockAt(t', h).(waiting := false)
  }

  /** All handles live in `t` except those in `gone` are live in `t'`, and only they and those in `fresh'` are. */
  ghost predicate Carries(t: Table, t': Table, gone: set<Handle>, fresh': set<Handle>) {
    && (forall h: Handle :: Live(t, h) && h !in gone ==> SameLock(t, t', h))
    && (forall h: Handle :: Live(t', h) ==> h in fresh' || (Live(t, h) && h !in gone))
  }

  // ---------------------------------------------------------------- Lock

  lemma ReplaceEntryValid(t: Table, i: nat, e: Entry)
    requires ValidTable(t) && i < |t|
    requires ValidEntry(e) && (e.socket == t[i].socket || (e.socket.None? && i + 1 < |t|))
    ensures ValidTable(t[i := e])
  {
    var t' := t[i := e];
    forall j | 0 <= j < |t'| ensures ValidEntry(t'[j]) {}
  }

  lemma PushValid(t: Table, s: Socket, server: Server, l: LockInfo)
    requires ValidTable(t) && !l.released
    ensures var i := FindSocket(t, s); ValidTable(Push(GetOrCreate(t, s, server), i, l))
  {
    var i := FindSocket(t, s);
    if i < |t| {
      ReplaceEntryValid(t, i, t[i].(locks := t[i].locks + [l]));
    } else {
      assert [] + [l] == [l];
      assert Push(GetOrCreate(t, s, server), i, l) == t + [Entry(server, Some(s), [l])];
    }
  }

  /** The new handle is fresh and every live handle still finds its lock unchanged. */
  lemma LockValid(t: Table, s: Socket, server: Server, reason: Reason, path: Path, inclusive: bool)
    requires ValidTable(t)
    ensures var (t', h) := LockSpec(t, s, server, reason, path, inclusive);
            && ValidTable(t')
            && !Live(t, h) && Live(t', h) && t'[h.entry].socket == Some(s)
            && LockAt(t', h).(waiting := false) == LockInfo(path, reason, inclusive, false, false)
            && Carries(t, t', {}, {h})
            && (forall g: Handle :: Live(t, g) ==> LockAt(t', g) == LockAt(t, g))
  {
    var i := FindSocket(t, s);
    var t1 := GetOrCreate(t, s, server);
    var (t', h) := LockSpec(t, s, server, reason, path, inclusive);
    PushValid(t, s, server, LockAt(t', h));
    forall g: Handle | Live(t, g) ensures SameLock(t, t', g) && LockAt(t', g) == LockAt(t, g) {
      assert t1[g.entry] == t[g.entry];
    }
    forall g: Handle | Live(t', g) ensures g == h || Live(t, g) {
      if g.entry != i {
        assert t'[g.entry] == t1[g.entry];
      }
    }
  }

  lemma NewLockExclusive(t: Table, t': Table, h: Handle)
    requires Exclusive(t) && Carries(t, t', {}, {h}) && Live(t', h)
    requires forall g: Handle :: Live(t, g) ==> LockAt(t', g) == LockAt(t, g)
    requires forall o: Handle :: Granted(t', h) && Blocks(t, o, h.entry, LockAt(t', h)) ==> t[o.entry].server != t'[h.entry].server
    ensures Exclusive(t')
  {
    forall a: Handle, b: Handle
      | Granted(t', a) && Granted(t', b) && a.entry != b.entry && t'[a.entry].server == t'[b.entry].server
      ensures !Conflict(LockAt(t', a), LockAt(t', b))
    {
      if a != h && b != h {
        assert SameLock(t, t', a) && SameLock(t, t', b) && Granted(t, a) && Granted(t, b);
      } else {
        var o := if a == h then b else a;
        assert SameLock(t, t', o) && Granted(t, o);
        assert !Blocks(t, o, h.entry, LockAt(t', h));
      }
    }
  }

  lemma LockExclusive(t: Table, s: Socket, server: Server, reason: Reason, path: Path, inclusive: bool)
    requires ValidTable(t) && Exclusive(t)
    ensures Exclusive(LockSpec(t, s, server, reason, path, inclusive).0)
  {
    var i := FindSocket(t, s);
    var t1 := GetOrCreate(t, s, server);
    var (t', h) := LockSpec(t, s, server, reason, path, inclusive);
    LockValid(t, s, server, reason, path, inclusive);
    forall o: Handle | Granted(t', h) && Blocks(t, o, i, LockAt(t', h)) ensures t[o.entry].server != t'[i].server {
      assert t1[o.entry] == t[o.entry];
      assert Blocks(t1, o, i, LockAt(t', h));
    }
    NewLockExclusive(t, t', h);
  }

  /** A lock that is made to wait has a granted lock in its way. */
  lemma LockNoLostWakeup(t: Table, s: Socket, server: Server, reason: Reason, path: Path, inclusive: bool,
                         events: multiset<Socket>)
    requires ValidTable(t) && NoLostWakeup(t, events)
    ensures NoLostWakeup(LockSpec(t, s, server, reason, path, inclusive).0, events)
  {
    var i := FindSocket(t, s);
    var t1 := GetOrCreate(t, s, server);
    var (t', h) := LockSpec(t, s, server, reason, path, inclusive);
    LockValid(t, s, server, reason, path, inclusive);
    if LockAt(t', h).waiting {
      var asked := LockInfo(path, reason, inclusive, false, false);
      var b: Handle :| Blocks(t1, b, i, asked) && t1[b.entry].server == t1[i].server;
      assert t1[b.entry] == t[b.entry];
      assert Blocks(t', b, h.entry, LockAt(t', h));
    }
    NewLockNoLostWakeup(t, t', h, events);
  }

  lemma NewLockNoLostWakeup(t: Table, t': Table, h: Handle, events: multiset<Socket>)
    requires NoLostWakeup(t, events) && Carries(t, t', {}, {h}) && Live(t', h)
    requires forall g: Handle :: Live(t, g) ==> LockAt(t', g) == LockAt(t, g)
    requires LockAt(t', h).waiting ==> Blocked(t', h.entry, LockAt(t', h))
    ensures NoLostWakeup(t', events)
  {
    forall w: Handle | Waits(t', w) && w != h
      ensures Blocked(t', w.entry, LockAt(t', w)) || (t'[w.entry].socket.Some? && t'[w.entry].socket.value in events)
    {
      assert SameLock(t, t', w) && Waits(t, w);
      if Blocked(t, w.entry, LockAt(t, w)) {
        var b: Handle :| Blocks(t, b, w.entry, LockAt(t, w));
        assert SameLock(t, t', b);
        assert Blocks(t', b, w.entry, LockAt(t', w));
      }
    }
  }

  // ---------------------------------------------------------------- Unlock

  /** The last lock of the last entry goes: the entry and the empty ones before it are dropped. */
  lemma UnlockLastEntry(t: Table, h: Handle)
    requires ValidTable(t) && Live(t, h) && h.entry + 1 == |t|
    requires forall k :: 0 <= k < |t[h.entry].locks| && k != h.lock ==> t[h.entry].locks[k].released
    ensures var t' := TrimEntries(t[..h.entry]);
            && ValidTable(t')
            && forall g: Handle :: Live(t', g) <==> Live(t, g) && g != h
  {
    var t' := TrimEntries(t[..h.entry]);
    assert forall k :: 0 <= k < |t'| ==> t'[k] == t[k];
    forall g: Handle | Live(t, g) && g != h ensures Live(t', g) {
      assert t[..h.entry][g.entry].socket.Some?;
    }
  }

  /** The locks of one entry change but the other live ones stay where they are. */
  lemma ShrinkEntry(t: Table, h: Handle, e: Entry)
    requires ValidTable(t) && Live(t, h)
    requires ValidEntry(e) && e.server == t[h.entry].server
    requires e.socket == t[h.entry].socket || (e.socket.None? && h.entry + 1 < |t|)
    requires forall k :: 0 <= k < |e.locks| ==> k < |t[h.entry].locks| && (e.locks[k] == t[h.entry].locks[k] || (k == h.lock && e.locks[k].released))
    requires h.lock < |e.locks| ==> e.locks[h.lock].released
    requires forall k :: |e.locks| <= k < |t[h.entry].locks| && k != h.lock ==> t[h.entry].locks[k].released
    ensures var t' := t[h.entry := e];
            && ValidTable(t')
            && forall g: Handle :: Live(t', g) <==> Live(t, g) && g != h
  {
    ReplaceEntryValid(t, h.entry, e);
  }

  /** Releasing a handle invalidates no other handle, whatever compaction it causes. */
  lemma UnlockValid(t: Table, h: Handle)
    requires ValidTable(t) && Live(t, h)
    ensures ValidTable(UnlockSpec(t, h))
    ensures Carries(t, UnlockSpec(t, h), {h}, {})
    ensures forall g: Handle :: Live(t, g) && g != h ==> LockAt(UnlockSpec(t, h), g) == LockAt(t, g)
  {
    var t' := UnlockSpec(t, h);
    var e := t[h.entry];
    if h.lock + 1 == |e.locks| {
      var rest := e.locks[..h.lock];
      var ls := TrimLocks(rest);
      assert forall k :: |ls| <= k < h.lock ==> rest[k] == e.locks[k];
      if ls == [] && h.entry + 1 == |t| {
        UnlockLastEntry(t, h);
        assert forall k :: 0 <= k < |t'| ==> t'[k] == t[k];
      } else {
        ShrinkEntry(t, h, t'[h.entry]);
      }
    } else {
      ShrinkEntry(t, h, t'[h.entry]);
    }
    forall g: Handle | Live(t, g) && g != h ensures SameLock(t, t', g) && LockAt(t', g) == LockAt(t, g) {}
  }

  /** All live handles but `h` find their locks as they were, and there are no new ones. */
  ghost predicate AllBut(t: Table, t': Table, h: Handle) {
    && (forall g: Handle :: Live(t, g) && g != h ==> SameLock(t, t', g) && LockAt(t', g) == LockAt(t, g))
    && (forall g: Handle :: Live(t', g) ==> Live(t, g) && g != h)
  }

  lemma UnlockLeaves(t: Table, h: Handle)
    requires ValidTable(t) && Live(t, h)
    ensures AllBut(t, UnlockSpec(t, h), h)
  {
    UnlockValid(t, h);
  }

  lemma FewerExclusive(t: Table, t': Table, h: Handle)
    requires Exclusive(t) && AllBut(t, t', h)
    ensures Exclusive(t')
  {
    forall a: Handle, b: Handle
      | Granted(t', a) && Granted(t', b) && a.entry != b.entry && t'[a.entry].server == t'[b.entry].server
      ensures !Conflict(LockAt(t', a), LockAt(t', b))
    {
      assert SameLock(t, t', a) && SameLock(t, t', b);
      assert Granted(t, a) && Granted(t, b);
    }
  }

  lemma UnlockExclusive(t: Table, h: Handle)
    requires ValidTable(t) && Live(t, h) && Exclusive(t)
    ensures Exclusive(UnlockSpec(t, h))
  {
    UnlockLeaves(t, h);
    FewerExclusive(t, UnlockSpec(t, h), h);
  }

  lemma {:induction false} WakeupReachesAll(t: Table, w: Handle)
    requires Waits(t, w) && t[w.entry].socket.Some?
    ensures t[w.entry].socket.value in WakeupSpec(t)
  {
    var last := |t| - 1;
    if w.entry < last {
      assert LockAt(t[..last], w) == LockAt(t, w);
      WakeupReachesAll(t[..last], w);
    } else {
      assert t[last].locks[w.lock].waiting;
    }
  }

  function UnlockEvents(t: Table, h: Handle): multiset<Socket>
    requires InTable(t, h)
  {
    if LockAt(t, h).waiting then multiset{} else WakeupSpec(UnlockSpec(t, h))
  }

  /** A lock that waits blocks nobody: without it, the others are blocked as before. */
  lemma StillBlocked(t: Table, t': Table, h: Handle, w: Handle)
    requires AllBut(t, t', h) && Live(t, h) && LockAt(t, h).waiting && Waits(t', w)
    requires Blocked(t, w.entry, LockAt(t, w))
    ensures Blocked(t', w.entry, LockAt(t', w))
  {
    var b: Handle :| Blocks(t, b, w.entry, LockAt(t, w));
    assert b != h && SameLock(t, t', b);
    assert Blocks(t', b, w.entry, LockAt(t', w));
  }

  lemma WaitsBefore(t: Table, t': Table, h: Handle, w: Handle)
    requires AllBut(t, t', h) && Waits(t', w)
    ensures w != h && Waits(t, w) && LockAt(t', w) == LockAt(t, w) && t'[w.entry].socket == t[w.entry].socket
  {
    assert SameLock(t, t', w);
  }

  /** Releasing a granted lock wakes every waiting socket; dropping a waiting one unblocks nobody. */
  lemma UnlockNoLostWakeup(t: Table, h: Handle, events: multiset<Socket>)
    requires ValidTable(t) && Live(t, h) && NoLostWakeup(t, events)
    ensures NoLostWakeup(UnlockSpec(t, h), events + UnlockEvents(t, h))
  {
    UnlockLeaves(t, h);
    UnlockValid(t, h);
    var t' := UnlockSpec(t, h);
    forall w: Handle | Waits(t', w)
      ensures || Blocked(t', w.entry, LockAt(t', w))
              || (t'[w.entry].socket.Some? && t'[w.entry].socket.value in events + UnlockEvents(t, h))
    {
      WaitsBefore(t, t', h, w);
      if !LockAt(t, h).waiting {
        assert ValidEntry(t'[w.entry]);
        WakeupReachesAll(t', w);
      } else if Blocked(t, w.entry, LockAt(t, w)) {
        StillBlocked(t, t', h, w);
      }
    }
  }

  // ---------------------------------------------------------------- ObtainWaiting

  /** The locks of an entry stay in place; some may stop waiting. */
  predicate Relaxed(ls: seq<LockInfo>, ls': seq<LockInfo>) {
    && |ls| == |ls'|
    && forall k :: 0 <= k < |ls| ==> ls'[k] == ls[k] || (ls[k].waiting && ls'[k] == ls[k].(waiting := false))
  }

  lemma RelaxEntryValid(t: Table, i: nat, ls: seq<LockInfo>)
    requires ValidTable(t) && i < |t| && Relaxed(t[i].locks, ls)
    ensures var t' := t[i := t[i].(locks := ls)];
            && ValidTable(t')
            && (forall h: Handle :: Live(t, h) <==> Live(t', h))
            && (forall h: Handle :: Live(t, h) ==> SameLock(t, t', h))
            && (forall h: Handle :: Granted(t, h) ==> Granted(t', h))
  {
    assert ValidEntry(t[i]);
    ReplaceEntryValid(t, i, t[i].(locks := ls));
  }

  /** Obtaining moves no lock and takes none back. */
  lemma ObtainValid(t: Table, s: Socket)
    requires ValidTable(t)
    ensures ValidTable(ObtainSpec(t, s))
    ensures Carries(t, ObtainSpec(t, s), {}, {})
    ensures forall g: Handle :: Granted(t, g) ==> Granted(ObtainSpec(t, s), g)
  {
    var i := FindSocket(t, s);
    if i < |t| {
      RelaxEntryValid(t, i, ObtainEntry(t, i));
    }
  }

  /** What is granted after serving was granted before, or waited and had nothing in its way. */
  lemma ObtainGrants(t: Table, s: Socket, h: Handle)
    requires ValidTable(t) && Granted(ObtainSpec(t, s), h)
    ensures Live(t, h) && SameLock(t, ObtainSpec(t, s), h)
    ensures Granted(t, h) || (h.entry == FindSocket(t, s) && !Blocked(t, h.entry, LockAt(t, h)))
  {
    ObtainValid(t, s);
  }

  /** A lock that was granted before does not conflict with one that serving grants. */
  lemma OldAndNewGrant(t: Table, i: nat, o: Handle, n: Handle, l: LockInfo)
    requires InTable(t, n) && n.entry == i && !Blocked(t, i, LockAt(t, n)) && Granted(t, o) && o.entry != i
    requires l.reason == LockAt(t, n).reason && l.path == LockAt(t, n).path && l.inclusive == LockAt(t, n).inclusive
    ensures !Conflict(LockAt(t, o), l) && !Conflict(l, LockAt(t, o))
  {
    assert !Blocks(t, o, i, LockAt(t, n));
  }

  lemma ObtainPairExclusive(t: Table, s: Socket, a: Handle, b: Handle)
    requires ValidTable(t) && Exclusive(t)
    requires Granted(ObtainSpec(t, s), a) && Granted(ObtainSpec(t, s), b) && a.entry != b.entry
    requires ObtainSpec(t, s)[a.entry].server == ObtainSpec(t, s)[b.entry].server
    ensures !Conflict(LockAt(ObtainSpec(t, s), a), LockAt(ObtainSpec(t, s), b))
  {
    ObtainGrants(t, s, a);
    ObtainGrants(t, s, b);
    var t' := ObtainSpec(t, s);
    if !Granted(t, a) {
      OldAndNewGrant(t, a.entry, b, a, LockAt(t', a));
    } else if !Granted(t, b) {
      OldAndNewGrant(t, b.entry, a, b, LockAt(t', b));
    } else {
      assert !Conflict(LockAt(t, a), LockAt(t, b));
    }
  }

  lemma ObtainExclusive(t: Table, s: Socket)
    requires ValidTable(t) && Exclusive(t)
    ensures Exclusive(ObtainSpec(t, s))
  {
    var t' := ObtainSpec(t, s);
    forall a: Handle, b: Handle
      | Granted(t', a) && Granted(t', b) && a.entry != b.entry && t'[a.entry].server == t'[b.entry].server
      ensures !Conflict(LockAt(t', a), LockAt(t', b))
    {
      ObtainPairExclusive(t, s, a, b);
    }
  }

  /** After an event is served, what still waits at that socket is blocked by a granted lock. */
  lemma ObtainNoLostWakeup(t: Table, s: Socket, events: multiset<Socket>)
    requires ValidTable(t) && NoLostWakeup(t, events)
    ensures NoLostWakeup(ObtainSpec(t, s), events - multiset{s})
    ensures forall w: Handle :: Waits(ObtainSpec(t, s), w) && t[w.entry].socket == Some(s) ==>
              Blocked(ObtainSpec(t, s), w.entry, LockAt(ObtainSpec(t, s), w))
  {
    ObtainValid(t, s);
    var i := FindSocket(t, s);
    var t' := ObtainSpec(t, s);
    forall w: Handle | Waits(t', w)
      ensures || Blocked(t', w.entry, LockAt(t', w))
              || (t'[w.entry].socket.Some? && t'[w.entry].socket != Some(s)
                  && t'[w.entry].socket.value in events - multiset{s})
    {
      assert Live(t, w) && SameLock(t, t', w) && Waits(t, w);
      if w.entry == i {
        assert LockAt(t', w) == LockAt(t, w);
        assert Blocked(t, i, LockAt(t, w));
      }
      if Blocked(t, w.entry, LockAt(t, w)) {
        var b: Handle :| Blocks(t, b, w.entry, LockAt(t, w));
        assert Granted(t', b) && SameLock(t, t', b);
        assert Blocks(t', b, w.entry, LockAt(t', w));
      }
    }
  }
}
