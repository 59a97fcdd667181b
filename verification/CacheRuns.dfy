/** Whole runs of the directory cache. */
module CacheRuns {
  import opened Optional
  import opened ServerPath
  import opened ListingEntries
  import opened CacheState
  import opened CacheInvariant
  import opened CacheKeeps

  // ---------------------------------------------------------------- what is at a position

  predicate Holds(servers: seq<ServerEntry>, content: string, d: Dir) {
    exists si :: 0 <= si < |servers| && servers[si].content == content && d in servers[si].dirs
  }

  /** A cached directory is what a lookup finds. */
  lemma HeldIsFound(c: Cache, server: Server, d: Dir)
    requires Consistent(c) && Holds(c.servers, server.content, d)
    ensures DirAt(c, server, d.path) == Some(d)
  {
    var si :| 0 <= si < |c.servers| && c.servers[si].content == server.content && d in c.servers[si].dirs;
    var k :| 0 <= k < |c.servers[si].dirs| && c.servers[si].dirs[k] == d;
    assert FindServer(c.servers, server.content) == si;
    FoundExactly(c.servers[si].dirs, d.path);
    assert HasDir(c.servers[si].dirs, d.path);
    SamePlace(c.servers[si].dirs, k, LowerBound(c.servers[si].dirs, d.path));
  }

  lemma SamePlace(dirs: seq<Dir>, i: nat, k: nat)
    requires Sorted(dirs) && i < |dirs| && k < |dirs| && dirs[i].path == dirs[k].path
    ensures i == k
  {
    PathOrder(dirs[i].path, dirs[k].path, dirs[i].path);
  }

  lemma DropDirHolds(servers: seq<ServerEntry>, si: nat, i: nat, content: string, d: Dir)
    requires si < |servers| && i < |servers[si].dirs| && Holds(servers, content, d)
    requires Position(content, d.path) != Position(servers[si].content, servers[si].dirs[i].path)
    ensures Holds(DropDir(servers, si, i), content, d)
  {
    var k :| 0 <= k < |servers| && servers[k].content == content && d in servers[k].dirs;
    var dirs := servers[si].dirs;
    var dirs' := dirs[..i] + dirs[i + 1..];
    if k == si {
      var j :| 0 <= j < |dirs| && dirs[j] == d;
      assert dirs'[if j < i then j else j - 1] == d;
      assert servers[si := servers[si].(dirs := dirs')][si].dirs == dirs';
    } else if dirs' == [] {
      var servers' := servers[..si] + servers[si + 1..];
      assert servers'[if k < si then k else k - 1] == servers[k];
    } else {
      assert servers[si := servers[si].(dirs := dirs')][k] == servers[k];
    }
  }

  lemma EvictHolds(c: Cache, content: string, d: Dir)
    requires Consistent(c) && c.lru != [] && Holds(c.servers, content, d) && Position(content, d.path) != c.lru[0]
    ensures Holds(Evict(c).servers, content, d)
  {
    var pos := c.lru[0];
    assert Cached(c.servers, pos);
    FoundCached(c, pos.content, pos.path);
    var si := FindServer(c.servers, pos.content);
    DropDirHolds(c.servers, si, LowerBound(c.servers[si].dirs, pos.path), content, d);
  }

  /** The most recently used directory survives pruning. */
  lemma {:induction false} PruneHolds(c: Cache, content: string, d: Dir)
    requires Consistent(c) && c.lru != [] && c.lru[|c.lru| - 1] == Position(content, d.path) && Holds(c.servers, content, d)
    ensures Holds(Prune(c).servers, content, d)
    decreases |c.lru|
  {
    if OverLimit(|c.lru|, c.total) {
      EvictHolds(c, content, d);
      EvictKeeps(c);
      PruneHolds(Evict(c), content, d);
    }
  }

  // ---------------------------------------------------------------- storing

  predicate Refused(c: Cache, server: Server, path: Path) {
    var si := FindServer(c.servers, server.content);
    si < |c.servers| && Clashes(c.servers[si].dirs, path)
  }

  predicate UsedLast(c: Cache, pos: Position) {
    c.lru != [] && c.lru[|c.lru| - 1] == pos
  }

  lemma InsertHolds(c: Cache, si: nat, d: Dir)
    requires si < |c.servers|
    ensures Holds(Insert(c, si, d).servers, c.servers[si].content, d)
  {
    var i := LowerBound(c.servers[si].dirs, d.path);
    InsertedAt(c.servers[si].dirs, i, d, i);
    var servers' := Insert(c, si, d).servers;
    assert servers'[si].dirs[i] == d;
  }

  lemma {:induction false} PruneLost(c: Cache)
    ensures Prune(c).lost == c.lost
    decreases |c.lru|
  {
    if OverLimit(|c.lru|, c.total) {
      PruneLost(Evict(c));
    }
  }

  lemma PrunedInsert(c: Cache, si: nat, d: Dir, server: Server)
    requires Consistent(c) && si < |c.servers| && server.content == c.servers[si].content
    requires !Found(c.servers[si].dirs, d.path) && !Clashes(c.servers[si].dirs, d.path)
    ensures var c' := Prune(Insert(c, si, d));
            && Valid(c') && !OverLimit(|c'.lru|, c'.total) && c'.lost == c.lost
            && DirAt(c', server, d.path) == Some(d) && UsedLast(c', Position(server.content, d.path))
  {
    var c1 := Insert(c, si, d);
    InsertKeeps(c, si, d);
    InsertHolds(c, si, d);
    PruneKeeps(c1);
    TouchExactly(c.lru, Position(server.content, d.path));
    PruneHolds(c1, server.content, d);
    PruneDropsOldest(c1);
    PruneLost(c1);
    HeldIsFound(Prune(c1), server, d);
  }

  lemma PrunedRefuse(c: Cache, si: nat, d: Dir)
    requires Consistent(c) && si < |c.servers| && Clashes(c.servers[si].dirs, d.path)
    ensures var c' := Prune(Refuse(c, si, d));
            Valid(c') && !OverLimit(|c'.lru|, c'.total) && c'.lost == c.lost + |d.entries|
  {
    RefuseKeeps(c, si, d);
    PruneKeeps(Refuse(c, si, d));
    PruneLost(Refuse(c, si, d));
  }

  lemma OverwriteHolds(c: Cache, si: nat, d: Dir, server: Server)
    requires Consistent(c) && si < |c.servers| && Found(c.servers[si].dirs, d.path) && server.content == c.servers[si].content
    ensures Consistent(Overwrite(c, si, d)) && DirAt(Overwrite(c, si, d), server, d.path) == Some(d)
    ensures UsedLast(Overwrite(c, si, d), Position(server.content, d.path))
  {
    OverwriteKeeps(c, si, d);
    var (c', i) := (Overwrite(c, si, d), LowerBound(c.servers[si].dirs, d.path));
    assert c'.servers[si].dirs[i] == d;
    HeldIsFound(c', server, d);
  }

  lemma StoreAtKeeps(c: Cache, si: nat, d: Dir, server: Server)
    requires Valid(c) && si < |c.servers| && server.content == c.servers[si].content
    ensures var (c', dirs) := (StoreAt(c, si, d), c.servers[si].dirs);
            && Valid(c')
            && (!Clashes(dirs, d.path) ==> DirAt(c', server, d.path) == Some(d) && UsedLast(c', Position(server.content, d.path)))
            && (!Found(dirs, d.path) ==> !OverLimit(|c'.lru|, c'.total))
            && c'.lost == c.lost + (if Clashes(dirs, d.path) then |d.entries| else 0)
  {
    if Found(c.servers[si].dirs, d.path) {
      OverwriteHolds(c, si, d, server);
      OverwriteKeeps(c, si, d);
    } else if Clashes(c.servers[si].dirs, d.path) {
      PrunedRefuse(c, si, d);
    } else {
      PrunedInsert(c, si, d, server);
    }
  }

  /** After a store the listing is there and used last, unless it was refused; a new directory brings the cache
      within its limits; only a refused listing is lost. */
  lemma StoreKeeps(c: Cache, d: Dir, server: Server)
    requires Valid(c)
    ensures var (c', pos) := (Store(c, d, server), Position(server.content, d.path));
            && Valid(c')
            && (!Refused(c, server, d.path) ==> DirAt(c', server, d.path) == Some(d) && UsedLast(c', pos))
            && (!Cached(c.servers, pos) ==> !OverLimit(|c'.lru|, c'.total))
            && c'.lost == c.lost + (if Refused(c, server, d.path) then |d.entries| else 0)
  {
    var c1 := c.(servers := WithServer(c.servers, server.content));
    var si := FindServer(c1.servers, server.content);
    WithServerConsistent(c, server.content);
    StoreAtKeeps(c1, si, d, server);
    FoundCached(c1, server.content, d.path);
    WithServerKeeps(c.servers, server.content, Position(server.content, d.path));
    RefusedAt(c, server, d.path);
  }

  lemma RefusedAt(c: Cache, server: Server, path: Path)
    ensures var servers := WithServer(c.servers, server.content);
            Refused(c, server, path) <==> Clashes(servers[FindServer(servers, server.content)].dirs, path)
  {
    var servers := WithServer(c.servers, server.content);
    var si := FindServer(servers, server.content);
    if FindServer(c.servers, server.content) == |c.servers| {
      assert servers[|c.servers|].dirs == [];
      assert si == |c.servers|;
    }
  }

  // ---------------------------------------------------------------- runs

  datatype Request =
    | StoreListing(d: Dir, server: Server)
    | LookupDir(server: Server, path: Path, allowUnsure: bool)
    | EditFile(server: Server, path: Path, edit: Edit)
    | InvalidatedFile(server: Server, path: Path, file: string, isPath: bool)
    | RemovedDir(server: Server, path: Path, file: string)
    | InvalidatedServer(server: Server)
    | Renamed(server: Server, path: Path, file: string, pathTo: Path, fileTo: string)
    | OwnerChanged(server: Server, path: Path, file: string, owner: string)

  function Served(c: Cache, r: Request): Cache {
    match r
    case StoreListing(d, server) => Store(c, d, server)
    case LookupDir(server, path, allowUnsure) => Lookup(c, server, path, allowUnsure).0
    case EditFile(server, path, edit) => EditCache(c, server, path, edit)
    case InvalidatedFile(server, path, file, isPath) => InvalidateFile(c, server, path, file, isPath)
    case RemovedDir(server, path, file) => RemoveDir(c, server, path, file)
    case InvalidatedServer(server) => InvalidateServer(c, server)
    case Renamed(server, path, file, pathTo, fileTo) => Rename(c, server, path, file, pathTo, fileTo)
    case OwnerChanged(server, path, file, owner) => UpdateOwnerGroup(c, server, path, file, owner)
  }

  function Run(rs: seq<Request>): Cache {
    if rs == [] then EmptyCache() else Served(Run(rs[..|rs| - 1]), rs[|rs| - 1])
  }

  /** What was last stored for a directory, read off the requests. */
  function LastStored(rs: seq<Request>, pos: Position): Option<Dir> {
    if rs == [] then None
    else
      var r := rs[|rs| - 1];
      if r.StoreListing? && Position(r.server.content, r.d.path) == pos then Some(r.d)
      else LastStored(rs[..|rs| - 1], pos)
  }

  /** The files of listings that were refused. */
  function LostFiles(rs: seq<Request>): nat {
    if rs == [] then 0
    else
      var (before, r) := (rs[..|rs| - 1], rs[|rs| - 1]);
      LostFiles(before) + (if r.StoreListing? && Refused(Run(before), r.server, r.d.path) then |r.d.entries| else 0)
  }

  lemma {:induction false} PruneStored(c: Cache)
    ensures Prune(c).stored == c.stored
    decreases |c.lru|
  {
    if OverLimit(|c.lru|, c.total) {
      PruneStored(Evict(c));
    }
  }

  lemma StoreRecords(c: Cache, d: Dir, server: Server)
    ensures Store(c, d, server).stored == c.stored[Position(server.content, d.path) := d]
  {
    var c1 := c.(servers := WithServer(c.servers, server.content));
    var si := FindServer(c1.servers, server.content);
    if Clashes(c1.servers[si].dirs, d.path) {
      PruneStored(Refuse(c1, si, d));
    } else if !Found(c1.servers[si].dirs, d.path) {
      PruneStored(Insert(c1, si, d));
    }
  }

  predicate SameHistory(c: Cache, c': Cache) {
    c'.stored == c.stored && c'.lost == c.lost
  }

  lemma EditHistory(c: Cache, server: Server, path: Path, edit: Edit)
    ensures SameHistory(c, EditCache(c, server, path, edit))
  {}

  lemma RemoveDirHistory(c: Cache, server: Server, path: Path, file: string)
    ensures SameHistory(c, RemoveDir(c, server, path, file))
  {
    EditHistory(DropBelow(c, server.content, CacheState.Child(path, file)), server, path, Remove(file));
  }

  lemma RenameWithinHistory(c: Cache, server: Server, path: Path, fileFrom: string, fileTo: string)
    ensures SameHistory(c, RenameWithin(c, server, path, fileFrom, fileTo))
  {
    EditHistory(c, server, path, Remove(fileTo));
    var c1 := RemoveFile(c, server, path, fileTo);
    var c2 := RemoveDir(c1, server, path, fileFrom);
    RemoveDirHistory(c1, server, path, fileFrom);
    RemoveDirHistory(c2, server, path, fileTo);
    EditHistory(RemoveDir(c2, server, path, fileTo), server, path, Update(fileTo, true, DirType, -1, ""));
  }

  lemma RenameAcrossHistory(c: Cache, server: Server, d: Dir, fileFrom: string, pathTo: Path, fileTo: string)
    ensures SameHistory(c, RenameAcross(c, server, d, fileFrom, pathTo, fileTo))
  {
    RemoveDirHistory(c, server, d.path, fileFrom);
    EditHistory(c, server, d.path, Remove(fileFrom));
    EditHistory(RemoveDir(c, server, d.path, fileFrom), server, pathTo, Update(fileTo, true, DirType, -1, ""));
    EditHistory(RemoveFile(c, server, d.path, fileFrom), server, pathTo, Update(fileTo, true, FileType, -1, ""));
  }

  lemma RenameHistory(c: Cache, server: Server, pathFrom: Path, fileFrom: string, pathTo: Path, fileTo: string)
    ensures SameHistory(c, Rename(c, server, pathFrom, fileFrom, pathTo, fileTo))
  {
    var (c1, found) := Lookup(c, server, pathFrom, true);
    RenameWithinHistory(c1, server, pathFrom, fileFrom, fileTo);
    if found.Some? {
      RenameAcrossHistory(c1, server, found.value, fileFrom, pathTo, fileTo);
    }
  }

  lemma LookupHistory(c: Cache, server: Server, path: Path, allowUnsure: bool)
    ensures SameHistory(c, Lookup(c, server, path, allowUnsure).0)
  {}

  lemma InvalidateFileHistory(c: Cache, server: Server, path: Path, file: string, isPath: bool)
    ensures SameHistory(c, InvalidateFile(c, server, path, file, isPath))
  {
    EditHistory(c, server, path, Invalidate(file, server.caseSensitive));
  }

  lemma InvalidateServerHistory(c: Cache, server: Server)
    ensures SameHistory(c, InvalidateServer(c, server))
  {}

  lemma OwnerHistory(c: Cache, server: Server, path: Path, file: string, owner: string)
    ensures SameHistory(c, UpdateOwnerGroup(c, server, path, file, owner))
  {
    LookupHistory(c, server, path, true);
    InvalidateServerHistory(Lookup(c, server, path, true).0, server);
  }

  /** Only a store changes the history. */
  lemma HistoryChanges(c: Cache, r: Request)
    requires !r.StoreListing?
    ensures SameHistory(c, Served(c, r))
  {
    match r {
      case LookupDir(server, path, allowUnsure) => LookupHistory(c, server, path, allowUnsure);
      case EditFile(server, path, edit) => EditHistory(c, server, path, edit);
      case InvalidatedFile(server, path, file, isPath) => InvalidateFileHistory(c, server, path, file, isPath);
      case RemovedDir(server, path, file) => RemoveDirHistory(c, server, path, file);
      case InvalidatedServer(server) => InvalidateServerHistory(c, server);
      case Renamed(server, path, file, pathTo, fileTo) => RenameHistory(c, server, path, file, pathTo, fileTo);
      case OwnerChanged(server, path, file, owner) => OwnerHistory(c, server, path, file, owner);
    }
  }

  lemma ServedKeeps(c: Cache, r: Request)
    requires Valid(c)
    ensures Valid(Served(c, r))
  {
    match r {
      case StoreListing(d, server) => StoreKeeps(c, d, server);
      case LookupDir(server, path, allowUnsure) => LookupKeeps(c, server, path, allowUnsure);
      case EditFile(server, path, edit) => EditKeeps(c, server, path, edit);
      case InvalidatedFile(server, path, file, isPath) => InvalidateFileKeeps(c, server, path, file, isPath);
      case RemovedDir(server, path, file) => RemoveDirKeeps(c, server, path, file);
      case InvalidatedServer(server) => InvalidateServerKeeps(c, server);
      case Renamed(server, path, file, pathTo, fileTo) => RenameKeeps(c, server, path, file, pathTo, fileTo);
      case OwnerChanged(server, path, file, owner) => UpdateOwnerGroupKeeps(c, server, path, file, owner);
    }
  }

  /** After any run the recently-used list and the cached directories are in bijection, there are at most
      50000 of them, and the count of files is their number plus those of the refused listings. */
  lemma {:induction false} RunKeeps(rs: seq<Request>)
    ensures Valid(Run(rs)) && Run(rs).lost == LostFiles(rs)
    decreases |rs|
  {
    if rs == [] {
      assert forall pos :: !Cached([], pos);
    } else {
      var (c, r) := (Run(rs[..|rs| - 1]), rs[|rs| - 1]);
      RunKeeps(rs[..|rs| - 1]);
      ServedKeeps(c, r);
      if r.StoreListing? { StoreKeeps(c, r.d, r.server); } else { HistoryChanges(c, r); }
    }
  }

  lemma {:induction false} RunRecords(rs: seq<Request>, pos: Position)
    ensures var stored := Run(rs).stored;
            if pos in stored then LastStored(rs, pos) == Some(stored[pos]) else LastStored(rs, pos) == None
    decreases |rs|
  {
    if rs != [] {
      var (c, r) := (Run(rs[..|rs| - 1]), rs[|rs| - 1]);
      RunRecords(rs[..|rs| - 1], pos);
      if r.StoreListing? { StoreRecords(c, r.d, r.server); } else { HistoryChanges(c, r); }
    }
  }

  /** A listing that is returned as certain has the entries that were last stored for that server and path:
      same names in the same order, same sizes, same kinds; only owners may differ. */
  lemma CertainListingIsLastStored(rs: seq<Request>, server: Server, path: Path)
    ensures var found := Lookup(Run(rs), server, path, false).1;
            found.Some? ==>
              var last := LastStored(rs, Position(server.content, path));
              last.Some? && found.value.path == path && SameEntries(found.value.entries, last.value.entries)
              && found.value.listed == last.value.listed
  {
    RunKeeps(rs);
    RunRecords(rs, Position(server.content, path));
    LookupFaithful(Run(rs), server, path, false);
  }

  /** The count is exact, as the destructor asserts, if and only if no refused listing had files;
      that is so when no listing without a path is stored. */
  lemma CountExactly(rs: seq<Request>)
    ensures Run(rs).total == TotalSize(Run(rs).servers) <==> LostFiles(rs) == 0
    ensures (forall i :: 0 <= i < |rs| && rs[i].StoreListing? ==> !IsEmpty(rs[i].d.path)) ==> LostFiles(rs) == 0
  {
    RunKeeps(rs);
    if forall i :: 0 <= i < |rs| && rs[i].StoreListing? ==> !IsEmpty(rs[i].d.path) {
      NothingLost(rs);
    }
  }

  /** When a listing is refused: it has no path, and the server has a cached listing without a path of another type. */
  lemma RefusedExactly(c: Cache, server: Server, path: Path)
    requires Valid(c)
    ensures var si := FindServer(c.servers, server.content);
            Refused(c, server, path) <==>
              && IsEmpty(path) && !Cached(c.servers, Position(server.content, path))
              && si < |c.servers| && exists i :: 0 <= i < |c.servers[si].dirs| && IsEmpty(c.servers[si].dirs[i].path)
  {
    var si := FindServer(c.servers, server.content);
    FoundCached(c, server.content, path);
    if si < |c.servers| {
      ClashExactly(c.servers[si].dirs, path);
      FoundExactly(c.servers[si].dirs, path);
    }
  }

  lemma {:induction false} NothingLost(rs: seq<Request>)
    requires forall i :: 0 <= i < |rs| && rs[i].StoreListing? ==> !IsEmpty(rs[i].d.path)
    ensures LostFiles(rs) == 0
    decreases |rs|
  {
    if rs != [] {
      var (before, r) := (rs[..|rs| - 1], rs[|rs| - 1]);
      assert forall i :: 0 <= i < |before| ==> before[i] == rs[i];
      NothingLost(before);
      RunKeeps(before);
      if r.StoreListing? { RefusedExactly(Run(before), r.server, r.d.path); }
    }
  }

  lemma RefusedSecond(c: Cache, d1: Dir, d2: Dir, server: Server)
    requires Valid(c) && DirAt(c, server, d1.path) == Some(d1)
    requires IsEmpty(d1.path) && IsEmpty(d2.path) && d1.path != d2.path
    ensures Refused(c, server, d2.path)
  {
    RefusedExactly(c, server, d2.path);
    FoundCached(c, server.content, d1.path);
    FoundCached(c, server.content, d2.path);
    var dirs := c.servers[FindServer(c.servers, server.content)].dirs;
    assert Found(dirs, d1.path);
  }

  /** The refused family is real: of two listings without a path, of different types, the second is lost. */
  lemma SecondEmptyPathIsLost(c: Cache, d1: Dir, d2: Dir, server: Server)
    requires Valid(c) && !Refused(c, server, d1.path)
    requires IsEmpty(d1.path) && IsEmpty(d2.path) && d1.path != d2.path
    ensures Store(Store(c, d1, server), d2, server).lost == c.lost + |d2.entries|
  {
    StoreKeeps(c, d1, server);
    var c1 := Store(c, d1, server);
    RefusedSecond(c1, d1, d2, server);
    StoreKeeps(c1, d2, server);
  }
}
