/**
 The lock manager as it works in place: one vector of entries, scanned and compacted by
 loops. Each method is proved against the operation on table values of the same meaning.
 */
module OpLockManager {
  import opened Optional
  import opened ServerPath
  import opened OpLockTable

  class OpLockManager {
    var socketLocks: seq<Entry>
    /** The events sent to control sockets and not yet taken by their event loops. */
    var events: multiset<Socket>

    constructor ()
      ensures socketLocks == [] && events == multiset{} && ValidTable(socketLocks)
    {
      socketLocks := [];
      events := multiset{};
    }

    method GetOrCreate(s: Socket, server: Server) returns (index: nat)
      modifies this`socketLocks
      ensures index == FindSocket(old(socketLocks), s)
      ensures socketLocks == OpLockTable.GetOrCreate(old(socketLocks), s, server)
      ensures index < |socketLocks|
    {
      var i := 0;
      while i < |socketLocks|
        invariant 0 <= i <= |socketLocks|
        invariant forall k :: 0 <= k < i ==> socketLocks[k].socket != Some(s)
        invariant socketLocks == old(socketLocks)
      {
        if socketLocks[i].socket == Some(s) {
          return i;
        }
        i := i + 1;
      }
      socketLocks := socketLocks + [Entry(server, Some(s), [])];
      return |socketLocks| - 1;
    }

    /** The inner loop of both checks: does a granted lock of entry `i` conflict with `l`, a lock of another entry? */
    method EntryBlocks(i: nat, index: nat, l: LockInfo) returns (blocked: bool)
      requires i < |socketLocks| && i != index
      ensures blocked <==> exists b: Handle :: b.entry == i && Blocks(socketLocks, b, index, l)
    {
      var locks := socketLocks[i].locks;
      var k := 0;
      while k < |locks|
        invariant 0 <= k <= |locks|
        invariant forall b: Handle :: b.entry == i && b.lock < k ==> !Blocks(socketLocks, b, index, l)
      {
        var o := locks[k];
        if !(l.reason != o.reason || o.waiting || o.released) {
          if o.path == l.path || (o.inclusive && IsSubdirOf(l.path, o.path, false, false)) {
            assert Blocks(socketLocks, Handle(i, k), index, l);
            return true;
          }
          if l.inclusive && IsSubdirOf(o.path, l.path, false, false) {
            assert Blocks(socketLocks, Handle(i, k), index, l);
            return true;
          }
        }
        k := k + 1;
      }
      return false;
    }

    /** The check of a new lock of entry `index` against the other entries for the same server. */
    method CheckNew(index: nat, l: LockInfo) returns (waiting: bool)
      requires index < |socketLocks| && DistinctSocket(socketLocks, index)
      ensures waiting == BlockedOnServer(socketLocks, index, l)
    {
      var s := socketLocks[index].socket;
      var i := 0;
      while i < |socketLocks|
        invariant 0 <= i <= |socketLocks|
        invariant forall b: Handle :: b.entry < i && Blocks(socketLocks, b, index, l) ==>
                    socketLocks[b.entry].server != socketLocks[index].server
      {
        if socketLocks[i].socket != s && socketLocks[i].server == socketLocks[index].server {
          waiting := EntryBlocks(i, index, l);
          if waiting {
            return true;
          }
        }
        i := i + 1;
      }
      return false;
    }

    method Lock(s: Socket, server: Server, reason: Reason, path: Path, inclusive: bool) returns (h: Handle)
      requires ValidTable(socketLocks)
      modifies this`socketLocks
      ensures (socketLocks, h) == LockSpec(old(socketLocks), s, server, reason, path, inclusive)
      ensures ValidTable(socketLocks)
    {
      LockValid(socketLocks, s, server, reason, path, inclusive);
      OwnSocketOnce(socketLocks, s, server);
      var index := GetOrCreate(s, server);
      var info := LockInfo(path, reason, inclusive, false, false);
      var waiting := CheckNew(index, info);
      h := Handle(index, |socketLocks[index].locks|);
      socketLocks := Push(socketLocks, index, info.(waiting := waiting));
    }

    /** Releases the lock and compacts; unless the lock was waiting, the waiting sockets are woken. */
    method Unlock(h: Handle)
      requires ValidTable(socketLocks) && Live(socketLocks, h)
      modifies this
      ensures socketLocks == UnlockSpec(old(socketLocks), h)
      ensures events == old(events) + UnlockEvents(old(socketLocks), h)
      ensures ValidTable(socketLocks)
    {
      UnlockValid(socketLocks, h);
      var wasWaiting := socketLocks[h.entry].locks[h.lock].waiting;
      var locks := socketLocks[h.entry].locks;
      if h.lock + 1 == |locks| {
        locks := locks[..|locks| - 1];
        while locks != [] && locks[|locks| - 1].released
          invariant TrimLocks(locks) == TrimLocks(old(socketLocks)[h.entry].locks[..h.lock])
        {
          locks := locks[..|locks| - 1];
        }
        assert locks == TrimLocks(old(socketLocks)[h.entry].locks[..h.lock]);
        socketLocks := socketLocks[h.entry := socketLocks[h.entry].(locks := locks)];
        if locks == [] {
          if h.entry + 1 == |socketLocks| {
            socketLocks := socketLocks[..|socketLocks| - 1];
            assert socketLocks == old(socketLocks)[..h.entry];
            while socketLocks != [] && socketLocks[|socketLocks| - 1].socket.None?
              invariant TrimEntries(socketLocks) == TrimEntries(old(socketLocks)[..h.entry])
              invariant events == old(events)
            {
              socketLocks := socketLocks[..|socketLocks| - 1];
            }
          } else {
            socketLocks := socketLocks[h.entry := socketLocks[h.entry].(socket := None)];
          }
        }
      } else {
        locks := locks[h.lock := locks[h.lock].(waiting := false)];
        locks := locks[h.lock := locks[h.lock].(released := true)];
        ghost var before := old(socketLocks)[h.entry].locks;
        assert locks == before[h.lock := before[h.lock].(waiting := false, released := true)];
        socketLocks := socketLocks[h.entry := socketLocks[h.entry].(locks := locks)];
      }
      assert socketLocks == UnlockSpec(old(socketLocks), h);
      if !wasWaiting {
        Wakeup();
      }
    }

    method HasWaiting(locks: seq<LockInfo>) returns (waiting: bool)
      ensures waiting == AnyWaiting(locks)
    {
      for k := 0 to |locks|
        invariant forall j :: 0 <= j < k ==> !locks[j].waiting
      {
        if locks[k].waiting {
          return true;
        }
      }
      return false;
    }

    method WakeupOne(e: Entry)
      requires ValidEntry(e)
      modifies this`events
      ensures events == old(events) + WakeupEntry(e)
    {
      var waiting := HasWaiting(e.locks);
      if waiting {
        events := events + multiset{e.socket.value};
      }
    }

    /** Sends one event to each socket with a waiting lock; only entries with a socket have one. */
    method Wakeup()
      requires ValidTable(socketLocks)
      modifies this`events
      ensures events == old(events) + WakeupSpec(socketLocks)
    {
      ghost var before := events;
      var t := socketLocks;
      var i := 0;
      while i < |t|
        invariant 0 <= i <= |t| && events == before + WakeupSpec(t[..i])
      {
        WakeupUpTo(before, t, i);
        WakeupOne(t[i]);
        i := i + 1;
      }
      assert t[..i] == t;
    }

    /** The check of one waiting lock against all other entries. */
    method CheckWaiting(index: nat, l: LockInfo) returns (free: bool)
      requires index < |socketLocks|
      ensures free == !Blocked(socketLocks, index, l)
    {
      var i := 0;
      while i < |socketLocks|
        invariant 0 <= i <= |socketLocks|
        invariant forall b: Handle :: b.entry < i ==> !Blocks(socketLocks, b, index, l)
      {
        if i != index {
          var blocked := EntryBlocks(i, index, l);
          if blocked {
            return false;
          }
        }
        i := i + 1;
      }
      return true;
    }

    /** Serves an event of a socket: tries to obtain each of its waiting locks. */
    method ObtainWaiting(s: Socket) returns (obtained: bool)
      requires ValidTable(socketLocks)
      modifies this`socketLocks
      ensures socketLocks == ObtainSpec(old(socketLocks), s)
      ensures obtained <==> exists h: Handle :: Waits(old(socketLocks), h) && !Waits(socketLocks, h)
      ensures ValidTable(socketLocks)
    {
      ghost var t0 := socketLocks;
      ObtainValid(t0, s);
      obtained := false;
      var i := 0;
      while i < |socketLocks|
        invariant 0 <= i <= |socketLocks| == |t0|
        invariant forall k :: i <= k < |t0| ==> socketLocks[k] == t0[k]
        invariant FindSocket(t0, s) >= i ==> socketLocks == t0
        invariant FindSocket(t0, s) < i ==> socketLocks == ObtainSpec(t0, s)
        invariant obtained <==> socketLocks != t0
      {
        if socketLocks[i].socket == Some(s) {
          assert FindSocket(t0, s) == i;
          var got := ObtainEntryInPlace(i);
          obtained := obtained || got;
        }
        i := i + 1;
      }
      ObtainChanges(t0, s);
    }

    method ObtainEntryInPlace(i: nat) returns (obtained: bool)
      requires i < |socketLocks|
      modifies this`socketLocks
      ensures socketLocks == old(socketLocks)[i := old(socketLocks)[i].(locks := ObtainEntry(old(socketLocks), i))]
      ensures obtained <==> socketLocks != old(socketLocks)
    {
      ghost var t0 := socketLocks;
      ghost var goal := ObtainEntry(t0, i);
      obtained := false;
      var k := 0;
      while k < |socketLocks[i].locks|
        invariant i < |t0| == |socketLocks| && 0 <= k <= |goal| == |socketLocks[i].locks|
        invariant socketLocks == t0[i := t0[i].(locks := socketLocks[i].locks)]
        invariant forall j :: 0 <= j < |goal| ==> socketLocks[i].locks[j] == if j < k then goal[j] else t0[i].locks[j]
        invariant obtained <==> exists j :: 0 <= j < k && goal[j] != t0[i].locks[j]
      {
        var l := socketLocks[i].locks[k];
        if l.waiting {
          var free := CheckWaiting(i, l);
          SameBlockers(t0, socketLocks, i, l);
          if free {
            socketLocks := socketLocks[i := socketLocks[i].(locks := socketLocks[i].locks[k := l.(waiting := false)])];
            obtained := true;
          }
        }
        k := k + 1;
      }
      assert socketLocks[i].locks == goal;
      assert !obtained ==> goal == t0[i].locks;
    }

    /** Whether a lock object's lock waits. If not, nothing granted on its server conflicts with it. */
    method WaitingHandle(h: Handle) returns (waiting: bool)
      requires Live(socketLocks, h)
      ensures waiting <==> Waits(socketLocks, h)
      ensures !waiting && Exclusive(socketLocks) ==>
                forall o: Handle :: Granted(socketLocks, o) && o.entry != h.entry
                                    && socketLocks[o.entry].server == socketLocks[h.entry].server
                                    ==> !Conflict(LockAt(socketLocks, o), LockAt(socketLocks, h))
    {
      waiting := socketLocks[h.entry].locks[h.lock].waiting;
      assert !waiting ==> Granted(socketLocks, h);
    }

    method WaitingSocket(s: Socket) returns (waiting: bool)
      requires ValidTable(socketLocks)
      ensures waiting <==> exists h: Handle :: Waits(socketLocks, h) && socketLocks[h.entry].socket == Some(s)
    {
      var i := 0;
      while i < |socketLocks|
        invariant 0 <= i <= |socketLocks|
        invariant forall h: Handle :: h.entry < i && Waits(socketLocks, h) ==> socketLocks[h.entry].socket != Some(s)
      {
        if socketLocks[i].socket == Some(s) {
          var k := 0;
          while k < |socketLocks[i].locks|
            invariant 0 <= k <= |socketLocks[i].locks|
            invariant forall j :: 0 <= j < k ==> !socketLocks[i].locks[j].waiting
          {
            if socketLocks[i].locks[k].waiting {
              assert ValidEntry(socketLocks[i]) && Waits(socketLocks, Handle(i, k));
              return true;
            }
            k := k + 1;
          }
        }
        i := i + 1;
      }
      return false;
    }
  }

  /** No other entry has this entry's socket. */
  predicate DistinctSocket(t: Table, index: nat)
    requires index < |t|
  {
    forall i :: 0 <= i < |t| && i != index ==> t[i].socket != t[index].socket
  }

  lemma OwnSocketOnce(t: Table, s: Socket, server: Server)
    requires ValidTable(t)
    ensures var i := FindSocket(t, s); i < |GetOrCreate(t, s, server)| && DistinctSocket(GetOrCreate(t, s, server), i)
  {}

  lemma WakeupUpTo(before: multiset<Socket>, t: Table, i: nat)
    requires i < |t|
    ensures before + WakeupSpec(t[..i + 1]) == (before + WakeupSpec(t[..i])) + WakeupEntry(t[i])
  {
    assert t[..i + 1][..i] == t[..i];
  }

  /** Blocking depends on the other entries only. */
  lemma SameBlockers(t: Table, t': Table, i: nat, l: LockInfo)
    requires |t| == |t'| && i < |t| && t' == t[i := t'[i]]
    ensures Blocked(t, i, l) == Blocked(t', i, l)
  {
    forall b: Handle ensures Blocks(t, b, i, l) == Blocks(t', b, i, l) {}
  }

  lemma ObtainChanges(t: Table, s: Socket)
    requires ValidTable(t)
    ensures ObtainSpec(t, s) != t <==> exists h: Handle :: Waits(t, h) && !Waits(ObtainSpec(t, s), h)
  {
    var t' := ObtainSpec(t, s);
    var i := FindSocket(t, s);
    if i < |t| && !(exists h: Handle :: Waits(t, h) && !Waits(t', h)) {
      forall k | 0 <= k < |t[i].locks| ensures t'[i].locks[k] == t[i].locks[k] {
        if t[i].locks[k].waiting {
          assert ValidEntry(t[i]) && Waits(t, Handle(i, k)) && Waits(t', Handle(i, k));
        }
      }
      assert t'[i].locks == t[i].locks;
      assert t' == t;
    }
  }

  /** A lock object: it owns a lock while it has a manager. */
  class OpLock {
    var mgr: OpLockManager?
    var handle: Handle

    constructor (m: OpLockManager, h: Handle)
      ensures mgr == m && handle == h
    {
      mgr := m;
      handle := h;
    }

    ghost predicate Holds()
      reads this, mgr
    {
      mgr != null ==> ValidTable(mgr.socketLocks) && Live(mgr.socketLocks, handle)
    }

    /** Whether the lock still waits; an object without a lock does not. */
    method Waiting() returns (waiting: bool)
      requires Holds()
      ensures waiting <==> mgr != null && Waits(mgr.socketLocks, handle)
    {
      if mgr != null {
        waiting := mgr.WaitingHandle(handle);
      } else {
        waiting := false;
      }
    }

    method Destroy()
      requires Holds()
      modifies this, mgr
      ensures mgr == null
      ensures old(mgr) != null ==>
                && old(mgr).socketLocks == UnlockSpec(old(mgr.socketLocks), old(handle))
                && old(mgr).events == old(mgr.events) + UnlockEvents(old(mgr.socketLocks), old(handle))
                && ValidTable(old(mgr).socketLocks)
    {
      if mgr != null {
        mgr.Unlock(handle);
        mgr := null;
      }
    }

    /** Move assignment: gives up the own lock, takes over the other's. A self-move does nothing. */
    method MoveFrom(op: OpLock)
      requires Holds() && op.Holds()
      modifies this, mgr, op
      ensures this == op ==> unchanged(this) && (old(mgr) != null ==> unchanged(old(mgr)))
      ensures this != op ==> op.mgr == null && mgr == old(op.mgr) && handle == old(op.handle)
      ensures old(mgr != op.mgr || handle != op.handle) ==> Holds()
      ensures this != op && old(mgr) != null ==>
                && old(mgr).socketLocks == UnlockSpec(old(mgr.socketLocks), old(handle))
                && old(mgr).events == old(mgr.events) + UnlockEvents(old(mgr.socketLocks), old(handle))
    {
      if this != op {
        if mgr != null {
          UnlockLeaves(mgr.socketLocks, handle);
          mgr.Unlock(handle);
        }
        mgr := op.mgr;
        handle := op.handle;
        op.mgr := null;
      }
    }
  }
}
