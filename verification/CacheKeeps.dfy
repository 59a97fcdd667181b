/** Each operation on the directory cache keeps the invariant. */
module CacheKeeps {
  import opened Optional
  import opened ServerPath
  import opened ListingEntries
  import opened CacheState
  import opened CacheInvariant

  // ---------------------------------------------------------------- one server changes

  lemma CachedAt(servers: seq<ServerEntry>, si: nat, pos: Position)
    requires Distinct(servers) && si < |servers| && servers[si].content == pos.content
    ensures Cached(servers, pos) <==> HasDir(servers[si].dirs, pos.path)
  {}

  /** Other servers are not affected. */
  lemma ReplaceDirs(servers: seq<ServerEntry>, si: nat, dirs: seq<Dir>, pos: Position)
    requires Distinct(servers) && si < |servers|
    ensures var servers' := servers[si := servers[si].(dirs := dirs)];
            && Distinct(servers')
            && (Cached(servers', pos) <==> if pos.content == servers[si].content then HasDir(dirs, pos.path) else Cached(servers, pos))
  {
    var servers' := servers[si := servers[si].(dirs := dirs)];
    if pos.content == servers[si].content {
      CachedAt(servers', si, pos);
    } else if Cached(servers, pos) {
      var k :| 0 <= k < |servers| && servers[k].content == pos.content && HasDir(servers[k].dirs, pos.path);
      assert servers'[k] == servers[k];
    }
  }

  lemma RemoveServer(servers: seq<ServerEntry>, si: nat, pos: Position)
    requires Distinct(servers) && si < |servers|
    ensures var servers' := servers[..si] + servers[si + 1..];
            && Distinct(servers')
            && (Cached(servers', pos) <==> pos.content != servers[si].content && Cached(servers, pos))
  {
    var servers' := servers[..si] + servers[si + 1..];
    forall k | 0 <= k < |servers'| ensures servers'[k] == servers[if k < si then k else k + 1] {}
    if pos.content != servers[si].content && Cached(servers, pos) {
      var k :| 0 <= k < |servers| && servers[k].content == pos.content && HasDir(servers[k].dirs, pos.path);
      assert servers'[if k < si then k else k - 1] == servers[k];
    }
  }

  predicate SamePaths(a: seq<Dir>, b: seq<Dir>) {
    |a| == |b| && forall i :: 0 <= i < |a| ==> a[i].path == b[i].path
  }

  lemma SamePathsHas(a: seq<Dir>, b: seq<Dir>, path: Path)
    requires SamePaths(a, b)
    ensures HasDir(a, path) <==> HasDir(b, path)
    ensures Sorted(a) ==> Sorted(b)
  {
    if HasDir(a, path) {
      var i :| 0 <= i < |a| && a[i].path == path;
      assert b[i].path == path;
    }
    if HasDir(b, path) {
      var i :| 0 <= i < |b| && b[i].path == path;
      assert a[i].path == path;
    }
  }

  /** The same elements, in another order. */
  ghost predicate Reordered(lru: seq<Position>, lru': seq<Position>) {
    NoDup(lru') && |lru'| == |lru| && forall p :: p in lru' <==> p in lru
  }

  /** An operation that changes the contents of a server's directories and the order of use. */
  lemma ContentsChange(c: Cache, si: nat, dirs: seq<Dir>, lru: seq<Position>)
    requires Consistent(c) && si < |c.servers|
    requires SamePaths(c.servers[si].dirs, dirs) && FaithfulDirs(c.servers[si].content, dirs, c.stored)
    requires Reordered(c.lru, lru)
    ensures Consistent(c.(servers := c.servers[si := c.servers[si].(dirs := dirs)], lru := lru,
                          total := c.total + Size(dirs) - Size(c.servers[si].dirs)))
  {
    var servers' := c.servers[si := c.servers[si].(dirs := dirs)];
    TotalReplaced(c.servers, si, dirs);
    SamePathsHas(c.servers[si].dirs, dirs, Path(Unix, None));
    forall pos ensures pos in lru <==> Cached(servers', pos) {
      ReplaceDirs(c.servers, si, dirs, pos);
      SamePathsHas(c.servers[si].dirs, dirs, pos.path);
      if pos.content == c.servers[si].content { CachedAt(c.servers, si, pos); }
    }
    ReplaceDirs(c.servers, si, dirs, Position("", Path(Unix, None)));
  }

  /** A directory that is used moves to the end of the list. */
  lemma UseReorders(servers: seq<ServerEntry>, lru: seq<Position>, pos: Position)
    requires LruExact(servers, lru) && Cached(servers, pos)
    ensures Reordered(lru, Touch(lru, pos)) && LruExact(servers, Touch(lru, pos))
  {
    TouchExactly(lru, pos);
  }

  // ---------------------------------------------------------------- lookup

  lemma FoundCached(c: Cache, content: string, path: Path)
    requires Consistent(c)
    ensures var si := FindServer(c.servers, content);
            Cached(c.servers, Position(content, path)) <==> si < |c.servers| && Found(c.servers[si].dirs, path)
  {
    var si := FindServer(c.servers, content);
    if si < |c.servers| {
      CachedAt(c.servers, si, Position(content, path));
      FoundExactly(c.servers[si].dirs, path);
    }
  }

  lemma LookupKeeps(c: Cache, server: Server, path: Path, allowUnsure: bool)
    requires Consistent(c)
    ensures var (c', found) := Lookup(c, server, path, allowUnsure);
            && Consistent(c') && |c'.lru| == |c.lru| && c'.servers == c.servers
            && (found.Some? ==> found.value.path == path && Cached(c.servers, Position(server.content, path)))
            && (Cached(c.servers, Position(server.content, path)) ==>
                  c'.lru != [] && c'.lru[|c'.lru| - 1] == Position(server.content, path))
  {
    FoundCached(c, server.content, path);
    if Cached(c.servers, Position(server.content, path)) {
      UseReorders(c.servers, c.lru, Position(server.content, path));
      TouchExactly(c.lru, Position(server.content, path));
    }
  }

  // ---------------------------------------------------------------- edits

  /** Which entries are marked, position by position. */
  lemma {:induction false} MarkNamedExactly(entries: seq<Direntry>, noCase: bool, name: string, stop: bool, k: nat)
    requires k < |entries|
    ensures MarkNamed(entries, noCase, name, stop)[k]
         == if (stop && k == FirstNamed(entries, name))
               || (SameName(noCase, name, entries[k].name) && (!stop || k < FirstNamed(entries, name)))
            then Mark(entries[k]) else entries[k]
    decreases |entries|
  {
    if k > 0 && !(stop && entries[0].name == name) {
      MarkNamedExactly(entries[1..], noCase, name, stop, k - 1);
    }
  }

  /** A pass edits exactly the directories it concerns. */
  lemma {:induction false} EditDirsExactly(edit: Edit, path: Path, dirs: seq<Dir>, k: nat)
    requires k < |dirs|
    ensures |EditDirs(edit, path, dirs)| == |dirs|
    ensures EditDirs(edit, path, dirs)[k] == if Concerns(edit, path, dirs[k]) then Edited(edit, dirs[k]) else dirs[k]
    decreases |dirs|
  {
    if |dirs| > 1 {
      EditDirsExactly(edit, path, dirs[1..], if k > 0 then k - 1 else 0);
    }
  }

  lemma EditedUnsure(edit: Edit, d: Dir)
    ensures Edited(edit, d).path == d.path && Edited(edit, d).listed == d.listed && Unsure(Edited(edit, d))
  {
    var flags := Edited(edit, d).flags;
    assert exists f :: f in flags && f in UnsureFlags() by {
      match edit {
        case Update(file, mayCreate, kind, size, owner) =>
          assert FileChanged in flags || DirChanged in flags || Invalid in flags || DirAdded in flags || FileAdded in flags || Unknown in flags;
        case Remove(file) => assert DirRemoved in flags || FileRemoved in flags || Invalid in flags;
        case Invalidate(file, cmpCase) => assert Unknown in flags;
      }
    }
    var f :| f in flags && f in UnsureFlags();
    assert f in flags * UnsureFlags();
  }

  lemma {:induction false} EditDirsFaithful(edit: Edit, path: Path, content: string, dirs: seq<Dir>, stored: map<Position, Dir>)
    requires FaithfulDirs(content, dirs, stored)
    ensures SamePaths(dirs, EditDirs(edit, path, dirs)) && FaithfulDirs(content, EditDirs(edit, path, dirs), stored)
    decreases |dirs|
  {
    if dirs != [] {
      EditDirsFaithful(edit, path, content, dirs[1..], stored);
      EditedUnsure(edit, dirs[0]);
      assert FaithfulDir(content, dirs[0], stored);
    }
  }

  lemma {:induction false} EditLruReorders(edit: Edit, path: Path, content: string, dirs: seq<Dir>, lru: seq<Position>)
    requires NoDup(lru) && forall i :: 0 <= i < |dirs| ==> Position(content, dirs[i].path) in lru
    ensures Reordered(lru, EditLru(edit, path, content, dirs, lru))
    decreases |dirs|
  {
    if dirs != [] {
      var pos := Position(content, dirs[0].path);
      TouchExactly(lru, pos);
      EditLruReorders(edit, path, content, dirs[1..], if Concerns(edit, path, dirs[0]) then Touch(lru, pos) else lru);
    }
  }

  lemma DirsInLru(c: Cache, si: nat)
    requires Consistent(c) && si < |c.servers|
    ensures forall i :: 0 <= i < |c.servers[si].dirs| ==> Position(c.servers[si].content, c.servers[si].dirs[i].path) in c.lru
  {
    forall i | 0 <= i < |c.servers[si].dirs| ensures Position(c.servers[si].content, c.servers[si].dirs[i].path) in c.lru {
      assert HasDir(c.servers[si].dirs, c.servers[si].dirs[i].path);
    }
  }

  lemma EditKeeps(c: Cache, server: Server, path: Path, edit: Edit)
    requires Consistent(c)
    ensures Consistent(EditCache(c, server, path, edit)) && |EditCache(c, server, path, edit).lru| == |c.lru|
  {
    var si := FindServer(c.servers, server.content);
    if si < |c.servers| {
      EditDirsFaithful(edit, path, server.content, c.servers[si].dirs, c.stored);
      DirsInLru(c, si);
      EditLruReorders(edit, path, server.content, c.servers[si].dirs, c.lru);
      ContentsChange(c, si, EditDirs(edit, path, c.servers[si].dirs),
                     EditLru(edit, path, server.content, c.servers[si].dirs, c.lru));
    }
  }

  lemma {:induction false} DistrustFaithful(dirs: seq<Dir>, path: Path, noCase: bool, content: string, stored: map<Position, Dir>)
    requires FaithfulDirs(content, dirs, stored)
    ensures var dirs' := Distrust(dirs, path, noCase);
            SamePaths(dirs, dirs') && FaithfulDirs(content, dirs', stored) && Size(dirs') == Size(dirs)
    decreases |dirs|
  {
    if dirs != [] {
      DistrustFaithful(dirs[1..], path, noCase, content, stored);
      assert FaithfulDir(content, dirs[0], stored);
      var d := dirs[0].(flags := dirs[0].flags + {Unknown});
      assert Unknown in d.flags * UnsureFlags();
      assert Distrust(dirs, path, noCase)[1..] == Distrust(dirs[1..], path, noCase);
    }
  }

  lemma InvalidateFileKeeps(c: Cache, server: Server, path: Path, file: string, isPath: bool)
    requires Consistent(c)
    ensures var c' := InvalidateFile(c, server, path, file, isPath); Consistent(c') && |c'.lru| == |c.lru|
  {
    var si := FindServer(c.servers, server.content);
    if si < |c.servers| {
      var edit := Invalidate(file, server.caseSensitive);
      EditKeeps(c, server, path, edit);
      var c1 := EditCache(c, server, path, edit);
      if NamesDir(edit, path, c.servers[si].dirs) && isPath {
        DistrustFaithful(c1.servers[si].dirs, path, !server.caseSensitive, server.content, c1.stored);
        ContentsChange(c1, si, Distrust(c1.servers[si].dirs, path, !server.caseSensitive), c1.lru);
      }
    }
  }

  // ---------------------------------------------------------------- eviction

  lemma DroppedAt(dirs: seq<Dir>, i: nat, k: nat)
    requires i < |dirs| && k < |dirs| - 1
    ensures (dirs[..i] + dirs[i + 1..])[k] == dirs[if k < i then k else k + 1]
  {}

  lemma DropSorted(dirs: seq<Dir>, i: nat, path: Path)
    requires Sorted(dirs) && i < |dirs|
    ensures Sorted(dirs[..i] + dirs[i + 1..])
    ensures HasDir(dirs[..i] + dirs[i + 1..], path) <==> HasDir(dirs, path) && path != dirs[i].path
  {
    var dirs' := dirs[..i] + dirs[i + 1..];
    forall a, b | 0 <= a < b < |dirs'| ensures PathLess(dirs'[a].path, dirs'[b].path) {
      DroppedAt(dirs, i, a);
      DroppedAt(dirs, i, b);
    }
    DroppedHas(dirs, i, path);
  }

  lemma DroppedHas(dirs: seq<Dir>, i: nat, path: Path)
    requires Sorted(dirs) && i < |dirs|
    ensures HasDir(dirs[..i] + dirs[i + 1..], path) <==> HasDir(dirs, path) && path != dirs[i].path
  {
    var dirs' := dirs[..i] + dirs[i + 1..];
    if HasDir(dirs, path) && path != dirs[i].path {
      var k :| 0 <= k < |dirs| && dirs[k].path == path;
      DroppedAt(dirs, i, if k < i then k else k - 1);
    }
    if HasDir(dirs', path) {
      var k :| 0 <= k < |dirs'| && dirs'[k].path == path;
      DroppedAt(dirs, i, k);
      PathOrder(path, path, path);
      var j := if k < i then k else k + 1;
      assert if j < i then PathLess(dirs[j].path, dirs[i].path) else PathLess(dirs[i].path, dirs[j].path);
    }
  }

  lemma ReplacedShape(servers: seq<ServerEntry>, si: nat, dirs: seq<Dir>)
    requires Distinct(servers) && AllSorted(servers) && si < |servers| && Sorted(dirs)
    ensures var servers' := servers[si := servers[si].(dirs := dirs)]; Distinct(servers') && AllSorted(servers')
  {}

  lemma RemovedShape(servers: seq<ServerEntry>, si: nat)
    requires Distinct(servers) && AllSorted(servers) && si < |servers|
    ensures var servers' := servers[..si] + servers[si + 1..]; Distinct(servers') && AllSorted(servers')
  {
    var servers' := servers[..si] + servers[si + 1..];
    forall k | 0 <= k < |servers'| ensures servers'[k] == servers[if k < si then k else k + 1] {}
  }

  lemma DropDirShape(servers: seq<ServerEntry>, si: nat, i: nat)
    requires Distinct(servers) && AllSorted(servers) && si < |servers| && i < |servers[si].dirs|
    ensures var servers' := DropDir(servers, si, i);
            && Distinct(servers') && AllSorted(servers')
            && TotalSize(servers') == TotalSize(servers) - |servers[si].dirs[i].entries|
  {
    var (dirs, dirs') := (servers[si].dirs, servers[si].dirs[..i] + servers[si].dirs[i + 1..]);
    DropSorted(dirs, i, dirs[i].path);
    SizeReplaced(dirs, i, dirs[i]);
    TotalReplaced(servers, si, dirs');
    if dirs' == [] { RemovedShape(servers, si); } else { ReplacedShape(servers, si, dirs'); }
  }

  /** The directory is gone, and nothing else. */
  lemma DropDirCached(servers: seq<ServerEntry>, si: nat, i: nat, pos: Position)
    requires Distinct(servers) && AllSorted(servers) && si < |servers| && i < |servers[si].dirs|
    ensures Cached(DropDir(servers, si, i), pos)
       <==> Cached(servers, pos) && pos != Position(servers[si].content, servers[si].dirs[i].path)
  {
    var dirs' := servers[si].dirs[..i] + servers[si].dirs[i + 1..];
    DropSorted(servers[si].dirs, i, pos.path);
    if pos.content == servers[si].content { CachedAt(servers, si, pos); }
    if dirs' == [] {
      assert !HasDir(dirs', pos.path);
      RemoveServer(servers, si, pos);
    } else {
      ReplaceDirs(servers, si, dirs', pos);
    }
  }

  lemma DropDirFaithful(servers: seq<ServerEntry>, si: nat, i: nat, stored: map<Position, Dir>)
    requires si < |servers| && i < |servers[si].dirs| && Faithful(servers, stored)
    ensures Faithful(DropDir(servers, si, i), stored)
  {
    var dirs' := servers[si].dirs[..i] + servers[si].dirs[i + 1..];
    assert FaithfulDirs(servers[si].content, dirs', stored);
  }

  lemma TailNoDup(lru: seq<Position>)
    requires NoDup(lru) && lru != []
    ensures NoDup(lru[1..]) && forall p :: p in lru[1..] <==> p in lru && p != lru[0]
  {
    assert lru == [lru[0]] + lru[1..];
  }

  lemma EvictKeeps(c: Cache)
    requires Consistent(c) && c.lru != []
    ensures Consistent(Evict(c)) && Evict(c).lru == c.lru[1..] && Evict(c).stored == c.stored
  {
    var pos := c.lru[0];
    assert Cached(c.servers, pos);
    FoundCached(c, pos.content, pos.path);
    var si := FindServer(c.servers, pos.content);
    var i := LowerBound(c.servers[si].dirs, pos.path);
    TailNoDup(c.lru);
    forall p ensures p in c.lru[1..] <==> Cached(DropDir(c.servers, si, i), p) {
      DropDirCached(c.servers, si, i, p);
    }
    DropDirShape(c.servers, si, i);
    DropDirFaithful(c.servers, si, i, c.stored);
  }

  lemma TailOfTail(lru: seq<Position>, n: nat)
    requires n < |lru|
    ensures lru[1..][|lru| - 1 - n..] == lru[|lru| - n..]
  {}

  /** Pruning drops only the least recently used, and always keeps the last hundred. */
  lemma {:induction false} PruneDropsOldest(c: Cache)
    ensures var lru := Prune(c).lru;
            |lru| <= |c.lru| && lru == c.lru[|c.lru| - |lru|..] && (|c.lru| <= 100 || |lru| >= 100)
    decreases |c.lru|
  {
    if OverLimit(|c.lru|, c.total) {
      assert Evict(c).lru == c.lru[1..];
      PruneDropsOldest(Evict(c));
      TailOfTail(c.lru, |Prune(c).lru|);
    }
  }

  /** Pruning reaches the limits. */
  lemma {:induction false} PruneKeeps(c: Cache)
    requires Consistent(c)
    ensures Consistent(Prune(c)) && !OverLimit(|Prune(c).lru|, Prune(c).total)
    decreases |c.lru|
  {
    if OverLimit(|c.lru|, c.total) {
      EvictKeeps(c);
      PruneKeeps(Evict(c));
    }
  }

  // ---------------------------------------------------------------- storing

  lemma NewServer(servers: seq<ServerEntry>, content: string, pos: Position)
    requires forall i :: 0 <= i < |servers| ==> servers[i].content != content
    ensures var servers' := servers + [ServerEntry(content, [])];
            && TotalSize(servers') == TotalSize(servers)
            && (Cached(servers', pos) <==> Cached(servers, pos))
  {
    var e := ServerEntry(content, []);
    var servers' := servers + [e];
    TotalOfConcat(servers, [e]);
    assert [e][1..] == [];
    forall si | 0 <= si < |servers| ensures servers'[si] == servers[si] {}
  }

  lemma WithServerKeeps(servers: seq<ServerEntry>, content: string, pos: Position)
    requires Distinct(servers) && AllSorted(servers)
    ensures var servers' := WithServer(servers, content);
            && Distinct(servers') && AllSorted(servers') && TotalSize(servers') == TotalSize(servers)
            && (Cached(servers', pos) <==> Cached(servers, pos))
  {
    if FindServer(servers, content) == |servers| {
      NewServer(servers, content, pos);
    }
  }

  lemma WithServerConsistent(c: Cache, content: string)
    requires Consistent(c)
    ensures Consistent(c.(servers := WithServer(c.servers, content)))
  {
    forall pos ensures pos in c.lru <==> Cached(WithServer(c.servers, content), pos) {
      WithServerKeeps(c.servers, content, pos);
    }
    WithServerKeeps(c.servers, content, Position("", Path(Unix, None)));
  }

  /** A new listing is recorded; no cached directory but the one at its path is concerned. */
  lemma RecordKeeps(servers: seq<ServerEntry>, stored: map<Position, Dir>, pos: Position, d: Dir)
    requires Faithful(servers, stored) && !Cached(servers, pos)
    ensures Faithful(servers, stored[pos := d])
  {
    forall si | 0 <= si < |servers| ensures FaithfulDirs(servers[si].content, servers[si].dirs, stored[pos := d]) {
      forall i | 0 <= i < |servers[si].dirs| ensures FaithfulDir(servers[si].content, servers[si].dirs[i], stored[pos := d]) {
        assert FaithfulDir(servers[si].content, servers[si].dirs[i], stored);
        assert HasDir(servers[si].dirs, servers[si].dirs[i].path);
      }
    }
  }

  lemma InsertedAt(dirs: seq<Dir>, i: nat, d: Dir, k: nat)
    requires i <= |dirs| && k <= |dirs|
    ensures |Inserted(dirs, i, d)| == |dirs| + 1
    ensures Inserted(dirs, i, d)[k] == if k < i then dirs[k] else if k == i then d else dirs[k - 1]
  {}

  lemma InsertedSorted(dirs: seq<Dir>, i: nat, d: Dir)
    requires Sorted(dirs) && i <= |dirs|
    requires forall k :: 0 <= k < i ==> PathLess(dirs[k].path, d.path)
    requires forall k :: i <= k < |dirs| ==> PathLess(d.path, dirs[k].path)
    ensures Sorted(Inserted(dirs, i, d))
  {
    var dirs' := Inserted(dirs, i, d);
    forall a, b | 0 <= a < b < |dirs'| ensures PathLess(dirs'[a].path, dirs'[b].path) {
      InsertedAt(dirs, i, d, a);
      InsertedAt(dirs, i, d, b);
    }
  }

  lemma InsertedHas(dirs: seq<Dir>, i: nat, d: Dir, path: Path)
    requires i <= |dirs|
    ensures HasDir(Inserted(dirs, i, d), path) <==> HasDir(dirs, path) || path == d.path
  {
    var dirs' := Inserted(dirs, i, d);
    if HasDir(dirs, path) {
      var k :| 0 <= k < |dirs| && dirs[k].path == path;
      InsertedAt(dirs, i, d, if k < i then k else k + 1);
    }
    if path == d.path {
      InsertedAt(dirs, i, d, i);
    }
    if HasDir(dirs', path) {
      var k :| 0 <= k < |dirs'| && dirs'[k].path == path;
      InsertedAt(dirs, i, d, k);
    }
  }

  lemma InsertSorted(dirs: seq<Dir>, d: Dir)
    requires Sorted(dirs) && !Found(dirs, d.path) && !Clashes(dirs, d.path)
    ensures Sorted(Inserted(dirs, LowerBound(dirs, d.path), d))
  {
    var i := LowerBound(dirs, d.path);
    forall k | i <= k < |dirs| ensures PathLess(d.path, dirs[k].path) { BehindLowerBound(dirs, d.path, k); }
    InsertedSorted(dirs, i, d);
  }

  lemma InsertedFaithful(content: string, dirs: seq<Dir>, i: nat, d: Dir, stored: map<Position, Dir>)
    requires i <= |dirs| && FaithfulDirs(content, dirs, stored) && FaithfulDir(content, d, stored)
    ensures FaithfulDirs(content, Inserted(dirs, i, d), stored)
  {
    var dirs' := Inserted(dirs, i, d);
    forall k | 0 <= k < |dirs'| ensures FaithfulDir(content, dirs'[k], stored) { InsertedAt(dirs, i, d, k); }
  }

  /** A listing for a directory that was not cached, before pruning. */
  lemma InsertKeeps(c: Cache, si: nat, d: Dir)
    requires Consistent(c) && si < |c.servers| && !Found(c.servers[si].dirs, d.path) && !Clashes(c.servers[si].dirs, d.path)
    ensures Consistent(Insert(c, si, d))
  {
    var (dirs, pos) := (c.servers[si].dirs, Position(c.servers[si].content, d.path));
    var i := LowerBound(dirs, d.path);
    var dirs' := Inserted(dirs, i, d);
    var servers' := c.servers[si := c.servers[si].(dirs := dirs')];
    InsertSorted(dirs, d);
    SizeInserted(dirs, i, d);
    TotalReplaced(c.servers, si, dirs');
    TouchExactly(c.lru, pos);
    forall p ensures p in Touch(c.lru, pos) <==> Cached(servers', p) {
      ReplaceDirs(c.servers, si, dirs', p);
      InsertedHas(dirs, i, d, p.path);
      if p.content == pos.content { CachedAt(c.servers, si, p); }
    }
    ReplaceDirs(c.servers, si, dirs', pos);
    CachedAt(c.servers, si, pos);
    FoundExactly(dirs, d.path);
    RecordKeeps(c.servers, c.stored, pos, d);
    InsertedFaithful(pos.content, dirs, i, d, c.stored[pos := d]);
  }

  /** A new listing for a cached directory. */
  lemma OverwriteKeeps(c: Cache, si: nat, d: Dir)
    requires Consistent(c) && si < |c.servers| && Found(c.servers[si].dirs, d.path)
    ensures Consistent(Overwrite(c, si, d)) && |Overwrite(c, si, d).lru| == |c.lru|
  {
    var (dirs, pos) := (c.servers[si].dirs, Position(c.servers[si].content, d.path));
    var i := LowerBound(dirs, d.path);
    assert HasDir(dirs, d.path);
    UseReorders(c.servers, c.lru, pos);
    SizeReplaced(dirs, i, d);
    OverwriteFaithful(c, si, d);
    TotalReplaced(c.servers, si, dirs[i := d]);
    SamePathsHas(dirs, dirs[i := d], d.path);
    forall p ensures p in Touch(c.lru, pos) <==> Cached(c.servers[si := c.servers[si].(dirs := dirs[i := d])], p) {
      ReplaceDirs(c.servers, si, dirs[i := d], p);
      SamePathsHas(dirs, dirs[i := d], p.path);
      if p.content == pos.content { CachedAt(c.servers, si, p); }
    }
  }

  lemma OverwriteFaithful(c: Cache, si: nat, d: Dir)
    requires Consistent(c) && si < |c.servers| && Found(c.servers[si].dirs, d.path)
    ensures var (dirs, pos) := (c.servers[si].dirs, Position(c.servers[si].content, d.path));
            Faithful(c.servers[si := c.servers[si].(dirs := dirs[LowerBound(dirs, d.path) := d])], c.stored[pos := d])
  {
    var (dirs, pos) := (c.servers[si].dirs, Position(c.servers[si].content, d.path));
    var i := LowerBound(dirs, d.path);
    var (servers', stored') := (c.servers[si := c.servers[si].(dirs := dirs[i := d])], c.stored[pos := d]);
    forall sk | 0 <= sk < |servers'| ensures FaithfulDirs(servers'[sk].content, servers'[sk].dirs, stored') {
      forall k | 0 <= k < |servers'[sk].dirs| ensures FaithfulDir(servers'[sk].content, servers'[sk].dirs[k], stored') {
        if sk != si || k != i {
          assert FaithfulDir(c.servers[sk].content, c.servers[sk].dirs[k], c.stored);
          PathOrder(d.path, d.path, d.path);
        }
      }
    }
  }

  /** The set refuses the listing; it is counted all the same. */
  lemma RefuseKeeps(c: Cache, si: nat, d: Dir)
    requires Consistent(c) && si < |c.servers| && Clashes(c.servers[si].dirs, d.path)
    ensures Consistent(Refuse(c, si, d))
  {
    var (dirs, pos) := (c.servers[si].dirs, Position(c.servers[si].content, d.path));
    var i := LowerBound(dirs, d.path);
    assert HasDir(dirs, dirs[i].path);
    UseReorders(c.servers, c.lru, Position(pos.content, dirs[i].path));
    ClashExactly(dirs, d.path);
    CachedAt(c.servers, si, pos);
    RecordKeeps(c.servers, c.stored, pos, d);
  }

  // ---------------------------------------------------------------- dropping directories

  lemma {:induction false} KeptMembers(gone: Path, dirs: seq<Dir>)
    ensures forall d :: d in Kept(gone, dirs) <==> d in dirs && !Doomed(gone, d.path)
    ensures forall d :: d in Dropped(gone, dirs) <==> d in dirs && Doomed(gone, d.path)
    decreases |dirs|
  {
    if dirs != [] {
      KeptMembers(gone, dirs[1..]);
      assert dirs == [dirs[0]] + dirs[1..];
    }
  }

  lemma {:induction false} KeptSorted(gone: Path, dirs: seq<Dir>)
    requires Sorted(dirs)
    ensures Sorted(Kept(gone, dirs))
    decreases |dirs|
  {
    if dirs != [] {
      KeptSorted(gone, dirs[1..]);
      KeptMembers(gone, dirs[1..]);
      var rest := Kept(gone, dirs[1..]);
      forall k | 0 <= k < |rest| ensures PathLess(dirs[0].path, rest[k].path) {
        assert rest[k] in dirs[1..];
        var j :| 0 <= j < |dirs[1..]| && dirs[1..][j] == rest[k];
        assert dirs[j + 1] == rest[k];
      }
    }
  }

  lemma HasDirIn(dirs: seq<Dir>, path: Path)
    ensures HasDir(dirs, path) <==> exists d :: d in dirs && d.path == path
  {
    if HasDir(dirs, path) {
      var i :| 0 <= i < |dirs| && dirs[i].path == path;
      assert dirs[i] in dirs;
    }
  }

  lemma KeptHas(gone: Path, dirs: seq<Dir>, path: Path)
    ensures HasDir(Kept(gone, dirs), path) <==> HasDir(dirs, path) && !Doomed(gone, path)
    ensures HasDir(Dropped(gone, dirs), path) <==> HasDir(dirs, path) && Doomed(gone, path)
  {
    KeptMembers(gone, dirs);
    HasDirIn(dirs, path);
    HasDirIn(Kept(gone, dirs), path);
    HasDirIn(Dropped(gone, dirs), path);
  }

  lemma HasDirSplit(dirs: seq<Dir>, path: Path)
    requires dirs != []
    ensures HasDir(dirs, path) <==> path == dirs[0].path || HasDir(dirs[1..], path)
  {
    if HasDir(dirs, path) && path != dirs[0].path {
      var i :| 0 <= i < |dirs| && dirs[i].path == path;
      assert dirs[1..][i - 1].path == path;
    }
  }

  lemma {:induction false} ForgetExactly(content: string, dirs: seq<Dir>, lru: seq<Position>)
    requires NoDup(lru)
    ensures var lru' := Forget(content, dirs, lru);
            NoDup(lru') && |lru'| <= |lru| && forall p :: p in lru' <==> p in lru && !(p.content == content && HasDir(dirs, p.path))
    decreases |dirs|
  {
    if dirs != [] {
      var pos := Position(content, dirs[0].path);
      WithoutExactly(lru, pos);
      ForgetExactly(content, dirs[1..], Without(lru, pos));
      forall p: Position ensures HasDir(dirs, p.path) <==> p.path == dirs[0].path || HasDir(dirs[1..], p.path) {
        HasDirSplit(dirs, p.path);
      }
    }
  }

  lemma DropBelowExact(servers: seq<ServerEntry>, lru: seq<Position>, si: nat, gone: Path)
    requires Distinct(servers) && LruExact(servers, lru) && si < |servers|
    ensures var content := servers[si].content;
            LruExact(servers[si := servers[si].(dirs := Kept(gone, servers[si].dirs))],
                     Forget(content, Dropped(gone, servers[si].dirs), lru))
  {
    var (content, dirs) := (servers[si].content, Kept(gone, servers[si].dirs));
    ForgetExactly(content, Dropped(gone, servers[si].dirs), lru);
    forall p ensures p in Forget(content, Dropped(gone, servers[si].dirs), lru) <==> Cached(servers[si := servers[si].(dirs := dirs)], p) {
      ReplaceDirs(servers, si, dirs, p);
      KeptHas(gone, servers[si].dirs, p.path);
      if p.content == content { CachedAt(servers, si, p); }
    }
  }

  lemma KeptFaithful(content: string, gone: Path, dirs: seq<Dir>, stored: map<Position, Dir>)
    requires FaithfulDirs(content, dirs, stored)
    ensures FaithfulDirs(content, Kept(gone, dirs), stored)
  {
    KeptMembers(gone, dirs);
    var dirs' := Kept(gone, dirs);
    forall i | 0 <= i < |dirs'| ensures FaithfulDir(content, dirs'[i], stored) {
      assert dirs'[i] in dirs;
    }
  }

  lemma DropBelowKeeps(c: Cache, content: string, gone: Path)
    requires Consistent(c)
    ensures Consistent(DropBelow(c, content, gone)) && |DropBelow(c, content, gone).lru| <= |c.lru|
  {
    var si := FindServer(c.servers, content);
    if si < |c.servers| {
      var dirs := Kept(gone, c.servers[si].dirs);
      KeptSorted(gone, c.servers[si].dirs);
      KeptFaithful(content, gone, c.servers[si].dirs, c.stored);
      TotalReplaced(c.servers, si, dirs);
      ForgetExactly(content, Dropped(gone, c.servers[si].dirs), c.lru);
      DropBelowExact(c.servers, c.lru, si, gone);
      ReplaceDirs(c.servers, si, dirs, Position("", gone));
    }
  }

  /** Exactly the directories at or below the one that is gone are dropped. */
  lemma DropBelowExactly(c: Cache, content: string, gone: Path, pos: Position)
    requires Consistent(c)
    ensures Cached(DropBelow(c, content, gone).servers, pos)
       <==> Cached(c.servers, pos) && !(pos.content == content && Doomed(gone, pos.path))
  {
    var si := FindServer(c.servers, content);
    if si < |c.servers| {
      ReplaceDirs(c.servers, si, Kept(gone, c.servers[si].dirs), pos);
      KeptHas(gone, c.servers[si].dirs, pos.path);
      if pos.content == content { CachedAt(c.servers, si, pos); }
    }
  }

  lemma RemoveDirKeeps(c: Cache, server: Server, path: Path, file: string)
    requires Consistent(c)
    ensures Consistent(RemoveDir(c, server, path, file)) && |RemoveDir(c, server, path, file).lru| <= |c.lru|
  {
    DropBelowKeeps(c, server.content, CacheState.Child(path, file));
    EditKeeps(DropBelow(c, server.content, CacheState.Child(path, file)), server, path, Remove(file));
  }

  lemma OtherServersExact(servers: seq<ServerEntry>, lru: seq<Position>, si: nat)
    requires Distinct(servers) && LruExact(servers, lru) && si < |servers|
    ensures LruExact(servers[..si] + servers[si + 1..], Forget(servers[si].content, servers[si].dirs, lru))
  {
    var (content, dirs) := (servers[si].content, servers[si].dirs);
    ForgetExactly(content, dirs, lru);
    forall p ensures p in Forget(content, dirs, lru) <==> Cached(servers[..si] + servers[si + 1..], p) {
      RemoveServer(servers, si, p);
      if p.content == content { CachedAt(servers, si, p); }
    }
  }

  lemma WithoutServer(servers: seq<ServerEntry>, si: nat, stored: map<Position, Dir>)
    requires si < |servers| && AllSorted(servers) && Faithful(servers, stored)
    ensures AllSorted(servers[..si] + servers[si + 1..]) && Faithful(servers[..si] + servers[si + 1..], stored)
  {}

  lemma InvalidateServerKeeps(c: Cache, server: Server)
    requires Consistent(c)
    ensures Consistent(InvalidateServer(c, server)) && |InvalidateServer(c, server).lru| <= |c.lru|
  {
    var si := FindServer(c.servers, server.content);
    if si < |c.servers| {
      TotalReplaced(c.servers, si, []);
      OtherServersExact(c.servers, c.lru, si);
      ForgetExactly(server.content, c.servers[si].dirs, c.lru);
      WithoutServer(c.servers, si, c.stored);
      RemoveServer(c.servers, si, Position("", Path(Unix, None)));
    }
  }

  /** Exactly the directories of that server are dropped. */
  lemma InvalidateServerExactly(c: Cache, server: Server, pos: Position)
    requires Consistent(c)
    ensures Cached(InvalidateServer(c, server).servers, pos) <==> Cached(c.servers, pos) && pos.content != server.content
  {
    var si := FindServer(c.servers, server.content);
    if si < |c.servers| {
      RemoveServer(c.servers, si, pos);
    }
  }

  // ---------------------------------------------------------------- renaming

  lemma ReplaceKeeps(c: Cache, server: Server, d: Dir)
    requires Consistent(c) && FaithfulDir(server.content, d, c.stored)
    ensures Consistent(Replace(c, server, d)) && |Replace(c, server, d).lru| == |c.lru|
  {
    var si := FindServer(c.servers, server.content);
    if si < |c.servers| && Found(c.servers[si].dirs, d.path) {
      var i := LowerBound(c.servers[si].dirs, d.path);
      SizeReplaced(c.servers[si].dirs, i, d);
      assert Reordered(c.lru, c.lru);
      ContentsChange(c, si, c.servers[si].dirs[i := d], c.lru);
    }
  }

  lemma LookupFaithful(c: Cache, server: Server, path: Path, allowUnsure: bool)
    requires Consistent(c)
    ensures var found := Lookup(c, server, path, allowUnsure).1;
            found.Some? ==> found.value.path == path && FaithfulDir(server.content, found.value, c.stored)
                            && (!allowUnsure ==> !Unsure(found.value))
  {}

  lemma RenamedUnsure(d: Dir, i: nat, file: string)
    requires i < |d.entries|
    ensures Unsure(RenamedAt(d, i, file))
  {
    assert Unknown in RenamedAt(d, i, file).flags * UnsureFlags();
  }

  lemma RenameWithinKeeps(c: Cache, server: Server, path: Path, fileFrom: string, fileTo: string)
    requires Consistent(c)
    ensures var c' := RenameWithin(c, server, path, fileFrom, fileTo); Consistent(c') && |c'.lru| <= |c.lru|
  {
    EditKeeps(c, server, path, Remove(fileTo));
    var c1 := RemoveFile(c, server, path, fileTo);
    LookupFaithful(c1, server, path, true);
    if DirAt(c1, server, path).Some? {
      var d := DirAt(c1, server, path).value;
      var i := FirstNamed(d.entries, fileFrom);
      if i < |d.entries| {
        if d.entries[i].isDir {
          RemoveDirKeeps(c1, server, path, fileFrom);
          var c2 := RemoveDir(c1, server, path, fileFrom);
          RemoveDirKeeps(c2, server, path, fileTo);
          EditKeeps(RemoveDir(c2, server, path, fileTo), server, path, Update(fileTo, true, DirType, -1, ""));
        } else {
          RenamedUnsure(d, i, fileTo);
          ReplaceKeeps(c1, server, RenamedAt(d, i, fileTo));
        }
      }
    }
  }

  lemma RenameAcrossKeeps(c: Cache, server: Server, d: Dir, fileFrom: string, pathTo: Path, fileTo: string)
    requires Consistent(c)
    ensures var c' := RenameAcross(c, server, d, fileFrom, pathTo, fileTo); Consistent(c') && |c'.lru| <= |c.lru|
  {
    var i := FirstNamed(d.entries, fileFrom);
    if i < |d.entries| {
      if d.entries[i].isDir {
        RemoveDirKeeps(c, server, d.path, fileFrom);
        EditKeeps(RemoveDir(c, server, d.path, fileFrom), server, pathTo, Update(fileTo, true, DirType, -1, ""));
      } else {
        EditKeeps(c, server, d.path, Remove(fileFrom));
        EditKeeps(RemoveFile(c, server, d.path, fileFrom), server, pathTo, Update(fileTo, true, FileType, -1, ""));
      }
    }
  }

  lemma RenameKeeps(c: Cache, server: Server, pathFrom: Path, fileFrom: string, pathTo: Path, fileTo: string)
    requires Consistent(c)
    ensures var c' := Rename(c, server, pathFrom, fileFrom, pathTo, fileTo); Consistent(c') && |c'.lru| <= |c.lru|
  {
    LookupKeeps(c, server, pathFrom, true);
    var (c1, found) := Lookup(c, server, pathFrom, true);
    if found.None? {
      InvalidateServerKeeps(c1, server);
    } else if pathFrom == pathTo {
      RenameWithinKeeps(c1, server, pathFrom, fileFrom, fileTo);
    } else {
      RenameAcrossKeeps(c1, server, found.value, fileFrom, pathTo, fileTo);
    }
  }

  lemma OwnerFaithful(content: string, d: Dir, i: nat, owner: string, stored: map<Position, Dir>)
    requires i < |d.entries| && FaithfulDir(content, d, stored)
    ensures FaithfulDir(content, d.(entries := d.entries[i := d.entries[i].(ownerGroup := owner)]), stored)
  {}

  lemma UpdateOwnerGroupKeeps(c: Cache, server: Server, path: Path, file: string, owner: string)
    requires Consistent(c)
    ensures var c' := UpdateOwnerGroup(c, server, path, file, owner); Consistent(c') && |c'.lru| <= |c.lru|
  {
    LookupKeeps(c, server, path, true);
    LookupFaithful(c, server, path, true);
    var (c1, found) := Lookup(c, server, path, true);
    if found.Some? && FirstNamed(found.value.entries, file) < |found.value.entries| {
      var (d, i) := (found.value, FirstNamed(found.value.entries, file));
      OwnerFaithful(server.content, d, i, owner, c1.stored);
      ReplaceKeeps(c1, server, d.(entries := d.entries[i := d.entries[i].(ownerGroup := owner)]));
    } else {
      InvalidateServerKeeps(c1, server);
    }
  }
}
