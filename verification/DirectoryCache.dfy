/** The directory cache as the object it is: its lists and its count are updated in place. */
module DirectoryCache {
  import opened Optional
  import opened ServerPath
  import opened ListingEntries
  import Spec = CacheState
  import opened CacheState

  // ---------------------------------------------------------------- loops over entries

  method FindNamed(entries: seq<Direntry>, name: string) returns (i: nat)
    ensures i == FirstNamed(entries, name)
  {
    i := 0;
    assert entries[0..] == entries;
    while i < |entries| && entries[i].name != name
      invariant i <= |entries|
      invariant FirstNamed(entries, name) == i + FirstNamed(entries[i..], name)
    {
      assert entries[i..][0] == entries[i] && entries[i..][1..] == entries[i + 1..];
      i := i + 1;
    }
  }

  lemma Shift<T>(a: seq<T>, x: T, b: seq<T>)
    ensures a + ([x] + b) == (a + [x]) + b
  {}

  lemma MarkUnfold(entries: seq<Direntry>, i: nat, noCase: bool, name: string, stop: bool)
    requires i < |entries|
    ensures MarkNamed(entries[i..], noCase, name, stop)
         == if stop && entries[i].name == name then [Mark(entries[i])] + entries[i + 1..]
            else [if SameName(noCase, name, entries[i].name) then Mark(entries[i]) else entries[i]]
                 + MarkNamed(entries[i + 1..], noCase, name, stop)
    ensures FirstNamed(entries[i..], name) == if entries[i].name == name then 0 else 1 + FirstNamed(entries[i + 1..], name)
  {
    assert entries[i..][0] == entries[i] && entries[i..][1..] == entries[i + 1..];
  }

  method MarkEntries(entries: seq<Direntry>, noCase: bool, name: string) returns (r: seq<Direntry>)
    ensures r == MarkNamed(entries, noCase, name, false)
  {
    r := [];
    ghost var goal := MarkNamed(entries, noCase, name, false);
    assert entries[0..] == entries;
    for i := 0 to |entries|
      invariant r + MarkNamed(entries[i..], noCase, name, false) == goal
    {
      var e := if SameName(noCase, name, entries[i].name) then Mark(entries[i]) else entries[i];
      MarkUnfold(entries, i, noCase, name, false);
      Shift(r, e, MarkNamed(entries[i + 1..], noCase, name, false));
      r := r + [e];
    }
  }

  /** Marks what has that name in any case, up to the first entry of exactly that name. */
  method MarkUntil(entries: seq<Direntry>, name: string) returns (r: seq<Direntry>, i: nat)
    ensures r == MarkNamed(entries, true, name, true) && i == FirstNamed(entries, name)
  {
    r, i := [], 0;
    ghost var (goal, index) := (MarkNamed(entries, true, name, true), FirstNamed(entries, name));
    assert entries[0..] == entries;
    while i < |entries|
      invariant i <= |entries|
      invariant r + MarkNamed(entries[i..], true, name, true) == goal
      invariant index == i + FirstNamed(entries[i..], name)
    {
      MarkUnfold(entries, i, true, name, true);
      var e := entries[i];
      if SameName(true, name, e.name) {
        e := Mark(e);
        if entries[i].name == name {
          r := r + ([e] + entries[i + 1..]);
          return;
        }
      }
      Shift(r, e, MarkNamed(entries[i + 1..], true, name, true));
      r := r + [e];
      i := i + 1;
    }
  }

  method UpdateDir(d: Dir, file: string, mayCreate: bool, kind: Filetype, size: int, owner: string) returns (r: Dir)
    ensures r == Updated(d, file, mayCreate, kind, size, owner)
  {
    var entries, i := MarkUntil(d.entries, file);
    if i < |d.entries| {
      var oldKind := if d.entries[i].isDir then DirType else FileType;
      if kind != oldKind {
        r := d.(entries := entries, flags := d.flags + {Invalid});
      } else if kind == DirType {
        r := d.(entries := entries, flags := d.flags + {DirChanged});
      } else {
        r := d.(entries := entries, flags := d.flags + {FileChanged});
      }
    } else if kind != UnknownType && mayCreate {
      var e := Direntry(file, size, kind == DirType, false, true, "", owner);
      r := d.(entries := entries + [e], flags := d.flags + (if kind == DirType then {DirAdded, HasDirs} else {FileAdded}));
    } else {
      r := d.(entries := entries, flags := d.flags + {Unknown});
    }
  }

  method EditDir(edit: Edit, d: Dir) returns (r: Dir)
    ensures r == Edited(edit, d)
  {
    match edit {
      case Update(file, mayCreate, kind, size, owner) =>
        r := UpdateDir(d, file, mayCreate, kind, size, owner);
      case Remove(file) =>
        var i := FindNamed(d.entries, file);
        if i < |d.entries| {
          r := d.(entries := d.entries[..i] + d.entries[i + 1..],
                  flags := d.flags + {if d.entries[i].isDir then DirRemoved else FileRemoved});
        } else {
          var entries := MarkEntries(d.entries, true, file);
          r := d.(entries := entries, flags := d.flags + {Invalid});
        }
      case Invalidate(file, cmpCase) =>
        var entries := MarkEntries(d.entries, !cmpCase, file);
        r := d.(entries := entries, flags := d.flags + {Unknown});
    }
  }

  // ---------------------------------------------------------------- loops over directories

  method FindServerIndex(servers: seq<ServerEntry>, content: string) returns (i: nat)
    ensures i == FindServer(servers, content)
  {
    i := 0;
    while i < |servers| && servers[i].content != content
      invariant i <= |servers|
      invariant forall j :: 0 <= j < i ==> servers[j].content != content
    {
      i := i + 1;
    }
  }

  lemma EditUnfold(edit: Edit, path: Path, content: string, dirs: seq<Dir>, i: nat, lru: seq<Position>)
    requires i < |dirs|
    ensures var d := if Concerns(edit, path, dirs[i]) then Edited(edit, dirs[i]) else dirs[i];
            var rest := EditDirs(edit, path, dirs[i + 1..]);
            EditDirs(edit, path, dirs[i..]) == [d] + rest && Size(EditDirs(edit, path, dirs[i..])) == |d.entries| + Size(rest)
    ensures Size(dirs[i..]) == |dirs[i].entries| + Size(dirs[i + 1..])
    ensures ConcernsAny(edit, path, dirs[i..]) == (Concerns(edit, path, dirs[i]) || ConcernsAny(edit, path, dirs[i + 1..]))
    ensures EditLru(edit, path, content, dirs[i..], lru)
         == EditLru(edit, path, content, dirs[i + 1..],
                    if Concerns(edit, path, dirs[i]) then Touch(lru, Position(content, dirs[i].path)) else lru)
  {
    assert dirs[i..][0] == dirs[i] && dirs[i..][1..] == dirs[i + 1..];
    var d := if Concerns(edit, path, dirs[i]) then Edited(edit, dirs[i]) else dirs[i];
    assert ([d] + EditDirs(edit, path, dirs[i + 1..]))[1..] == EditDirs(edit, path, dirs[i + 1..]);
  }

  /** One pass of an edit: matching directories are edited and marked as used, in order. */
  method EditAll(edit: Edit, path: Path, content: string, dirs: seq<Dir>, lru: seq<Position>, total: int)
    returns (dirs': seq<Dir>, lru': seq<Position>, total': int, updated: bool)
    ensures dirs' == EditDirs(edit, path, dirs)
    ensures updated == ConcernsAny(edit, path, dirs)
    ensures lru' == EditLru(edit, path, content, dirs, lru)
    ensures total' == total + Size(EditDirs(edit, path, dirs)) - Size(dirs)
  {
    dirs', lru', total', updated := [], lru, total, false;
    ghost var goal := EditDirs(edit, path, dirs);
    ghost var (goalLru, goalTotal) := (EditLru(edit, path, content, dirs, lru), total + Size(goal) - Size(dirs));
    assert dirs[0..] == dirs;
    for i := 0 to |dirs|
      invariant dirs' + EditDirs(edit, path, dirs[i..]) == goal
      invariant EditLru(edit, path, content, dirs[i..], lru') == goalLru
      invariant total' + Size(EditDirs(edit, path, dirs[i..])) - Size(dirs[i..]) == goalTotal
      invariant (updated || ConcernsAny(edit, path, dirs[i..])) == ConcernsAny(edit, path, dirs)
    {
      EditUnfold(edit, path, content, dirs, i, lru');
      var d := dirs[i];
      if Concerns(edit, path, dirs[i]) {
        lru' := Touch(lru', Position(content, dirs[i].path));
        d := EditDir(edit, dirs[i]);
        total', updated := total' + |d.entries| - |dirs[i].entries|, true;
      }
      Shift(dirs', d, EditDirs(edit, path, dirs[i + 1..]));
      dirs' := dirs' + [d];
    }
  }

  lemma DropUnfold(gone: Path, content: string, dirs: seq<Dir>, i: nat, lru: seq<Position>)
    requires i < |dirs|
    ensures Doomed(gone, dirs[i].path) ==>
      && Kept(gone, dirs[i..]) == Kept(gone, dirs[i + 1..])
      && Forget(content, Dropped(gone, dirs[i..]), lru)
         == Forget(content, Dropped(gone, dirs[i + 1..]), Without(lru, Position(content, dirs[i].path)))
    ensures !Doomed(gone, dirs[i].path) ==>
      && Kept(gone, dirs[i..]) == [dirs[i]] + Kept(gone, dirs[i + 1..])
      && Dropped(gone, dirs[i..]) == Dropped(gone, dirs[i + 1..])
      && Size(Kept(gone, dirs[i..])) == |dirs[i].entries| + Size(Kept(gone, dirs[i + 1..]))
    ensures Size(dirs[i..]) == |dirs[i].entries| + Size(dirs[i + 1..])
  {
    assert dirs[i..][0] == dirs[i] && dirs[i..][1..] == dirs[i + 1..];
    assert ([dirs[i]] + Kept(gone, dirs[i + 1..]))[1..] == Kept(gone, dirs[i + 1..]);
    assert ([dirs[i]] + Dropped(gone, dirs[i + 1..]))[1..] == Dropped(gone, dirs[i + 1..]);
  }

  /** Erases the directories at or below one that is gone. */
  method DropDirs(gone: Path, content: string, dirs: seq<Dir>, lru: seq<Position>, total: int)
    returns (dirs': seq<Dir>, lru': seq<Position>, total': int)
    ensures dirs' == Kept(gone, dirs)
    ensures lru' == Forget(content, Dropped(gone, dirs), lru)
    ensures total' == total + Size(Kept(gone, dirs)) - Size(dirs)
  {
    dirs', lru', total' := [], lru, total;
    ghost var (goal, goalLru) := (Kept(gone, dirs), Forget(content, Dropped(gone, dirs), lru));
    ghost var goalTotal := total + Size(goal) - Size(dirs);
    assert dirs[0..] == dirs;
    for i := 0 to |dirs|
      invariant dirs' + Kept(gone, dirs[i..]) == goal
      invariant Forget(content, Dropped(gone, dirs[i..]), lru') == goalLru
      invariant total' + Size(Kept(gone, dirs[i..])) - Size(dirs[i..]) == goalTotal
    {
      DropUnfold(gone, content, dirs, i, lru');
      if Doomed(gone, dirs[i].path) {
        total' := total' - |dirs[i].entries|;
        lru' := Without(lru', Position(content, dirs[i].path));
      } else {
        Shift(dirs', dirs[i], Kept(gone, dirs[i + 1..]));
        dirs' := dirs' + [dirs[i]];
      }
    }
  }

  /** Takes all directories of a server out of the list and of the count. */
  method ForgetAll(content: string, dirs: seq<Dir>, lru: seq<Position>, total: int) returns (lru': seq<Position>, total': int)
    ensures lru' == Forget(content, dirs, lru) && total' == total - Size(dirs)
  {
    lru', total' := lru, total;
    assert dirs[0..] == dirs;
    for i := 0 to |dirs|
      invariant Forget(content, dirs[i..], lru') == Forget(content, dirs, lru)
      invariant total' - Size(dirs[i..]) == total - Size(dirs)
    {
      assert dirs[i..][0] == dirs[i] && dirs[i..][1..] == dirs[i + 1..];
      lru', total' := Without(lru', Position(content, dirs[i].path)), total' - |dirs[i].entries|;
    }
  }

  method DistrustAll(dirs: seq<Dir>, path: Path, noCase: bool) returns (dirs': seq<Dir>)
    ensures dirs' == Distrust(dirs, path, noCase)
  {
    dirs' := [];
    ghost var goal := Distrust(dirs, path, noCase);
    assert dirs[0..] == dirs;
    for i := 0 to |dirs|
      invariant dirs' + Distrust(dirs[i..], path, noCase) == goal
    {
      assert dirs[i..][0] == dirs[i] && dirs[i..][1..] == dirs[i + 1..];
      var d := dirs[i];
      if IsSubdirOf(d.path, path, noCase, true) {
        d := d.(flags := d.flags + {Unknown});
      }
      Shift(dirs', d, Distrust(dirs[i + 1..], path, noCase));
      dirs' := dirs' + [d];
    }
  }

  /** Whether a matching directory has a subdirectory of that name. */
  method FindNamedDir(edit: Edit, path: Path, dirs: seq<Dir>) returns (dir: bool)
    requires edit.Invalidate?
    ensures dir == NamesDir(edit, path, dirs)
  {
    dir := false;
    for i := 0 to |dirs|
      invariant dir <==> exists j, k :: 0 <= j < i && Concerns(edit, path, dirs[j]) && 0 <= k < |dirs[j].entries|
                           && dirs[j].entries[k].isDir && SameName(!edit.cmpCase, edit.file, dirs[j].entries[k].name)
    {
      if Concerns(edit, path, dirs[i]) {
        var here := HasNamedDir(dirs[i].entries, !edit.cmpCase, edit.file);
        dir := dir || here;
      }
    }
  }

  method HasNamedDir(entries: seq<Direntry>, noCase: bool, name: string) returns (dir: bool)
    ensures dir <==> exists k :: 0 <= k < |entries| && entries[k].isDir && SameName(noCase, name, entries[k].name)
  {
    dir := false;
    for i := 0 to |entries|
      invariant dir <==> exists k :: 0 <= k < i && entries[k].isDir && SameName(noCase, name, entries[k].name)
    {
      if SameName(noCase, name, entries[i].name) && entries[i].isDir {
        dir := true;
      }
    }
  }

  // ---------------------------------------------------------------- the cache

  datatype History = History(stored: map<Position, Dir>, lost: nat)

  class DirectoryCache {
    var servers: seq<ServerEntry>
    var lru: seq<Position>
    var total: int
    ghost var history: History

    ghost function State(): Cache
      reads this
    {
      Cache(servers, lru, total, history.stored, history.lost)
    }

    constructor ()
      ensures State() == EmptyCache()
    {
      servers, lru, total := [], [], 0;
      history := History(map[], 0);
    }

    method EvictFirst()
      requires lru != []
      modifies this
      ensures State() == Evict(old(State()))
    {
      var pos := lru[0];
      var si := FindServerIndex(servers, pos.content);
      lru := lru[1..];
      if si < |servers| && Found(servers[si].dirs, pos.path) {
        var i := LowerBound(servers[si].dirs, pos.path);
        total := total - |servers[si].dirs[i].entries|;
        servers := DropDir(servers, si, i);
      }
    }

    method PruneAll()
      modifies this
      ensures State() == Prune(old(State()))
    {
      while OverLimit(|lru|, total)
        invariant Prune(State()) == Prune(old(State()))
        decreases |lru|
      {
        EvictFirst();
      }
    }

    method CreateServerEntry(server: Server) returns (si: nat)
      modifies this`servers
      ensures servers == WithServer(old(servers), server.content) && si == FindServer(servers, server.content)
    {
      si := FindServerIndex(servers, server.content);
      if si == |servers| {
        servers := servers + [ServerEntry(server.content, [])];
        assert servers[si].content == server.content;
      }
    }

    method StoreListing(d: Dir, server: Server)
      modifies this
      ensures State() == Store(old(State()), d, server)
    {
      var si := CreateServerEntry(server);
      StoreInto(si, d);
    }

    method StoreInto(si: nat, d: Dir)
      requires si < |servers|
      modifies this
      ensures State() == StoreAt(old(State()), si, d)
    {
      var dirs, pos := servers[si].dirs, Position(servers[si].content, d.path);
      var i := LowerBound(dirs, d.path);
      total := total + |d.entries|;
      if Found(dirs, d.path) {
        history := history.(stored := history.stored[pos := d]);
        lru, total := Touch(lru, pos), total - |dirs[i].entries|;
        servers := servers[si := servers[si].(dirs := dirs[i := d])];
        return;
      }
      if Clashes(dirs, d.path) {
        history := History(history.stored[pos := d], history.lost + |d.entries|);
        lru := Touch(lru, Position(pos.content, dirs[i].path));
      } else {
        history := history.(stored := history.stored[pos := d]);
        servers := servers[si := servers[si].(dirs := Inserted(dirs, i, d))];
        lru := Touch(lru, pos);
      }
      PruneAll();
    }

    /** The directory at a path; it is outdated if it was retrieved longer ago than the time to live. */
    method LookupListing(server: Server, path: Path, allowUnsure: bool, now: int, ttl: int) returns (r: Option<Dir>, outdated: bool)
      modifies this
      ensures (State(), r) == Lookup(old(State()), server, path, allowUnsure)
      ensures outdated <==> r.Some? && now - r.value.listed > ttl
    {
      var si := FindServerIndex(servers, server.content);
      if si == |servers| || !Found(servers[si].dirs, path) {
        return None, false;
      }
      var d := servers[si].dirs[LowerBound(servers[si].dirs, path)];
      lru := Touch(lru, Position(server.content, path));
      if !allowUnsure && Unsure(d) {
        return None, false;
      }
      return Some(d), now - d.listed > ttl;
    }

    /** The pass that updating, removing and invalidating a file share. */
    method EditServer(server: Server, path: Path, edit: Edit) returns (known: bool, updated: bool)
      modifies this
      ensures State() == EditCache(old(State()), server, path, edit)
      ensures known == (FindServer(old(servers), server.content) < |old(servers)|)
      ensures updated <==> known && ConcernsAny(edit, path, old(servers)[FindServer(old(servers), server.content)].dirs)
    {
      var si := FindServerIndex(servers, server.content);
      if si == |servers| {
        return false, false;
      }
      known := true;
      var dirs;
      dirs, lru, total, updated := EditAll(edit, path, server.content, servers[si].dirs, lru, total);
      servers := servers[si := servers[si].(dirs := dirs)];
    }

    method UpdateFile(server: Server, path: Path, file: string, mayCreate: bool, kind: Filetype, size: int, owner: string)
      returns (updated: bool)
      modifies this
      ensures State() == Spec.UpdateFile(old(State()), server, path, file, mayCreate, kind, size, owner)
      ensures var si := FindServer(old(servers), server.content);
              updated <==> si < |old(servers)|
                           && ConcernsAny(Update(file, mayCreate, kind, size, owner), path, old(servers)[si].dirs)
    {
      var known;
      known, updated := EditServer(server, path, Update(file, mayCreate, kind, size, owner));
    }

    method RemoveFile(server: Server, path: Path, file: string) returns (known: bool)
      modifies this
      ensures State() == Spec.RemoveFile(old(State()), server, path, file)
      ensures known == (FindServer(old(servers), server.content) < |old(servers)|)
    {
      var updated;
      known, updated := EditServer(server, path, Remove(file));
    }

    method InvalidateFile(server: Server, path: Path, file: string, isPath: bool) returns (known: bool)
      modifies this
      ensures State() == Spec.InvalidateFile(old(State()), server, path, file, isPath)
      ensures known == (FindServer(old(servers), server.content) < |old(servers)|)
    {
      var si := FindServerIndex(servers, server.content);
      if si == |servers| {
        return false;
      }
      var edit := Invalidate(file, server.caseSensitive);
      var dir := FindNamedDir(edit, path, servers[si].dirs);
      var _, _ := EditServer(server, path, edit);
      known := true;
      if dir && isPath {
        var dirs := DistrustAll(servers[si].dirs, path, !server.caseSensitive);
        servers := servers[si := servers[si].(dirs := dirs)];
      }
    }

    method RemoveDir(server: Server, path: Path, file: string)
      modifies this
      ensures State() == Spec.RemoveDir(old(State()), server, path, file)
    {
      var si := FindServerIndex(servers, server.content);
      if si == |servers| {
        return;
      }
      var dirs;
      dirs, lru, total := DropDirs(CacheState.Child(path, file), server.content, servers[si].dirs, lru, total);
      servers := servers[si := servers[si].(dirs := dirs)];
      var _ := RemoveFile(server, path, file);
    }

    method InvalidateServer(server: Server)
      modifies this
      ensures State() == Spec.InvalidateServer(old(State()), server)
    {
      var si := FindServerIndex(servers, server.content);
      if si == |servers| {
        return;
      }
      lru, total := ForgetAll(server.content, servers[si].dirs, lru, total);
      servers := servers[..si] + servers[si + 1..];
    }

    method ReplaceListing(server: Server, d: Dir)
      modifies this
      ensures State() == Replace(old(State()), server, d)
    {
      var si := FindServerIndex(servers, server.content);
      if si < |servers| && Found(servers[si].dirs, d.path) {
        var i := LowerBound(servers[si].dirs, d.path);
        total := total + |d.entries| - |servers[si].dirs[i].entries|;
        servers := servers[si := servers[si].(dirs := servers[si].dirs[i := d])];
      }
    }

    /** The listing that a reference into the cache shows. */
    method ListingAt(server: Server, path: Path) returns (r: Option<Dir>)
      ensures r == DirAt(State(), server, path)
    {
      var si := FindServerIndex(servers, server.content);
      if si == |servers| || !Found(servers[si].dirs, path) {
        return None;
      }
      return Some(servers[si].dirs[LowerBound(servers[si].dirs, path)]);
    }

    method RenameSameDir(server: Server, path: Path, fileFrom: string, fileTo: string)
      modifies this
      ensures State() == RenameWithin(old(State()), server, path, fileFrom, fileTo)
    {
      var _ := RemoveFile(server, path, fileTo);
      var found := ListingAt(server, path);
      if found.None? {
        return;
      }
      var i := FindNamed(found.value.entries, fileFrom);
      if i == |found.value.entries| {
        return;
      }
      if found.value.entries[i].isDir {
        RemoveDir(server, path, fileFrom);
        RemoveDir(server, path, fileTo);
        var _ := UpdateFile(server, path, fileTo, true, DirType, -1, "");
      } else {
        ReplaceListing(server, RenamedAt(found.value, i, fileTo));
      }
    }

    method RenameOtherDir(server: Server, d: Dir, fileFrom: string, pathTo: Path, fileTo: string)
      modifies this
      ensures State() == RenameAcross(old(State()), server, d, fileFrom, pathTo, fileTo)
    {
      var i := FindNamed(d.entries, fileFrom);
      if i == |d.entries| {
        return;
      }
      if d.entries[i].isDir {
        RemoveDir(server, d.path, fileFrom);
        var _ := UpdateFile(server, pathTo, fileTo, true, DirType, -1, "");
      } else {
        var _ := RemoveFile(server, d.path, fileFrom);
        var _ := UpdateFile(server, pathTo, fileTo, true, FileType, -1, "");
      }
    }

    method Rename(server: Server, pathFrom: Path, fileFrom: string, pathTo: Path, fileTo: string)
      modifies this
      ensures State() == Spec.Rename(old(State()), server, pathFrom, fileFrom, pathTo, fileTo)
    {
      var si := FindServerIndex(servers, server.content);
      if si == |servers| {
        return;
      }
      var found, _ := LookupListing(server, pathFrom, true, 0, 0);
      if found.None? {
        InvalidateServer(server);
      } else if pathFrom == pathTo {
        RenameSameDir(server, pathFrom, fileFrom, fileTo);
      } else {
        RenameOtherDir(server, found.value, fileFrom, pathTo, fileTo);
      }
    }

    method UpdateOwnerGroup(server: Server, path: Path, file: string, owner: string)
      modifies this
      ensures State() == Spec.UpdateOwnerGroup(old(State()), server, path, file, owner)
    {
      var si := FindServerIndex(servers, server.content);
      if si == |servers| {
        return;
      }
      var found, _ := LookupListing(server, path, true, 0, 0);
      if found.Some? {
        var d := found.value;
        var i := FindNamed(d.entries, file);
        if i < |d.entries| {
          if !d.entries[i].isDir {
            ReplaceListing(server, d.(entries := d.entries[i := d.entries[i].(ownerGroup := owner)]));
          }
          return;
        }
      }
      InvalidateServer(server);
    }
  }
}
