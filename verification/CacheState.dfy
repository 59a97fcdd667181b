/**
 The directory cache as values: per server a list of directory listings sorted by path, one list of
 all cached directories from the least to the most recently used, and a running count of files.
 */
module CacheState {
  import opened Optional
  import opened ServerPath
  import opened ListingEntries

  /** `content` stands for all that two servers must share to have the same files. */
  datatype Server = Server(content: string, caseSensitive: bool)

  /** `listed` is when the listing was retrieved. */
  datatype Dir = Dir(path: Path, entries: seq<Direntry>, flags: set<Flag>, listed: int)

  datatype ServerEntry = ServerEntry(content: string, dirs: seq<Dir>)

  /** Which cached directory an element of the recently-used list refers to. */
  datatype Position = Position(content: string, path: Path)

  /** `stored` and `lost` are history: the last listing stored for each directory, and the
      number of files of listings that were counted but not kept. */
  datatype Cache = Cache(servers: seq<ServerEntry>, lru: seq<Position>, total: int,
                         stored: map<Position, Dir>, lost: nat)

  datatype Filetype = UnknownType | FileType | DirType

  function UnsureFlags(): set<Flag> {
    {FileAdded, FileRemoved, FileChanged, DirAdded, DirRemoved, DirChanged, Unknown, Invalid}
  }

  predicate Unsure(d: Dir) {
    d.flags * UnsureFlags() != {}
  }

  function EmptyCache(): Cache {
    Cache([], [], 0, map[], 0)
  }

  // ---------------------------------------------------------------- searching

  function Size(dirs: seq<Dir>): nat {
    if dirs == [] then 0 else |dirs[0].entries| + Size(dirs[1..])
  }

  function TotalSize(servers: seq<ServerEntry>): nat {
    if servers == [] then 0 else Size(servers[0].dirs) + TotalSize(servers[1..])
  }

  function FindServer(servers: seq<ServerEntry>, content: string): (i: nat)
    ensures i <= |servers|
    ensures i < |servers| ==> servers[i].content == content
    ensures forall j :: 0 <= j < i ==> servers[j].content != content
  {
    if servers == [] || servers[0].content == content then 0 else 1 + FindServer(servers[1..], content)
  }

  /** The first directory that does not precede `path`. */
  function LowerBound(dirs: seq<Dir>, path: Path): (i: nat)
    ensures i <= |dirs|
    ensures forall j :: 0 <= j < i ==> PathLess(dirs[j].path, path)
    ensures i < |dirs| ==> !PathLess(dirs[i].path, path)
  {
    if dirs == [] || !PathLess(dirs[0].path, path) then 0 else 1 + LowerBound(dirs[1..], path)
  }

  predicate Found(dirs: seq<Dir>, path: Path) {
    var i := LowerBound(dirs, path);
    i < |dirs| && dirs[i].path == path
  }

  /** A directory that the set takes for the same although its path differs. */
  predicate Clashes(dirs: seq<Dir>, path: Path) {
    var i := LowerBound(dirs, path);
    i < |dirs| && dirs[i].path != path && !PathLess(path, dirs[i].path)
  }

  // ---------------------------------------------------------------- recently used

  function Without(lru: seq<Position>, pos: Position): seq<Position> {
    if lru == [] then []
    else if lru[0] == pos then Without(lru[1..], pos)
    else [lru[0]] + Without(lru[1..], pos)
  }

  function Touch(lru: seq<Position>, pos: Position): seq<Position> {
    Without(lru, pos) + [pos]
  }

  predicate OverLimit(count: nat, total: int) {
    count > 50000 || (total > 1000000 && count > 1000) || (total > 5000000 && count > 100)
  }

  function DropDir(servers: seq<ServerEntry>, si: nat, i: nat): seq<ServerEntry>
    requires si < |servers| && i < |servers[si].dirs|
  {
    var dirs := servers[si].dirs[..i] + servers[si].dirs[i + 1..];
    if dirs == [] then servers[..si] + servers[si + 1..] else servers[si := servers[si].(dirs := dirs)]
  }

  /** Drops the least recently used directory, and its server if that was the last one. */
  function Evict(c: Cache): Cache
    requires c.lru != []
  {
    var pos := c.lru[0];
    var si := FindServer(c.servers, pos.content);
    if si == |c.servers| || !Found(c.servers[si].dirs, pos.path) then c.(lru := c.lru[1..])
    else
      var i := LowerBound(c.servers[si].dirs, pos.path);
      c.(servers := DropDir(c.servers, si, i), lru := c.lru[1..], total := c.total - |c.servers[si].dirs[i].entries|)
  }

  function Prune(c: Cache): Cache
    decreases |c.lru|
  {
    if OverLimit(|c.lru|, c.total) then Prune(Evict(c)) else c
  }

  // ---------------------------------------------------------------- storing and looking up

  function WithServer(servers: seq<ServerEntry>, content: string): (r: seq<ServerEntry>)
    ensures FindServer(r, content) < |r|
  {
    if FindServer(servers, content) < |servers| then servers
    else
      var r := servers + [ServerEntry(content, [])];
      assert r[|servers|].content == content;
      r
  }

  function Inserted(dirs: seq<Dir>, i: nat, d: Dir): seq<Dir>
    requires i <= |dirs|
  {
    dirs[..i] + [d] + dirs[i..]
  }

  /** A new listing for a cached directory. */
  function Overwrite(c: Cache, si: nat, d: Dir): Cache
    requires si < |c.servers| && Found(c.servers[si].dirs, d.path)
  {
    var (dirs, pos) := (c.servers[si].dirs, Position(c.servers[si].content, d.path));
    var i := LowerBound(dirs, d.path);
    c.(servers := c.servers[si := c.servers[si].(dirs := dirs[i := d])], lru := Touch(c.lru, pos),
       total := c.total + |d.entries| - |dirs[i].entries|, stored := c.stored[pos := d])
  }

  /** A listing for a directory that was not cached. */
  function Insert(c: Cache, si: nat, d: Dir): Cache
    requires si < |c.servers|
  {
    var (dirs, pos) := (c.servers[si].dirs, Position(c.servers[si].content, d.path));
    c.(servers := c.servers[si := c.servers[si].(dirs := Inserted(dirs, LowerBound(dirs, d.path), d))],
       lru := Touch(c.lru, pos), total := c.total + |d.entries|, stored := c.stored[pos := d])
  }

  /** A listing that the set does not take: it is counted, and another directory is marked as used. */
  function Refuse(c: Cache, si: nat, d: Dir): Cache
    requires si < |c.servers| && Clashes(c.servers[si].dirs, d.path)
  {
    var (dirs, content) := (c.servers[si].dirs, c.servers[si].content);
    c.(lru := Touch(c.lru, Position(content, dirs[LowerBound(dirs, d.path)].path)), total := c.total + |d.entries|,
       lost := c.lost + |d.entries|, stored := c.stored[Position(content, d.path) := d])
  }

  function StoreAt(c: Cache, si: nat, d: Dir): Cache
    requires si < |c.servers|
  {
    if Found(c.servers[si].dirs, d.path) then Overwrite(c, si, d)
    else if Clashes(c.servers[si].dirs, d.path) then Prune(Refuse(c, si, d))
    else Prune(Insert(c, si, d))
  }

  function Store(c: Cache, d: Dir, server: Server): Cache {
    var servers := WithServer(c.servers, server.content);
    StoreAt(c.(servers := servers), FindServer(servers, server.content), d)
  }

  /** The directory at a path, marked as used even if it is refused for being unsure. */
  function Lookup(c: Cache, server: Server, path: Path, allowUnsure: bool): (Cache, Option<Dir>) {
    var si := FindServer(c.servers, server.content);
    if si == |c.servers| || !Found(c.servers[si].dirs, path) then (c, None)
    else
      var d := c.servers[si].dirs[LowerBound(c.servers[si].dirs, path)];
      (c.(lru := Touch(c.lru, Position(server.content, path))), if !allowUnsure && Unsure(d) then None else Some(d))
  }

  // ---------------------------------------------------------------- edits

  datatype Edit =
    | Update(file: string, mayCreate: bool, kind: Filetype, size: int, owner: string)
    | Remove(file: string)
    | Invalidate(file: string, cmpCase: bool)

  function Mark(e: Direntry): Direntry {
    e.(unsure := true)
  }

  function FirstNamed(entries: seq<Direntry>, name: string): (i: nat)
    ensures i <= |entries|
    ensures i < |entries| ==> entries[i].name == name
    ensures forall j :: 0 <= j < i ==> entries[j].name != name
  {
    if entries == [] || entries[0].name == name then 0 else 1 + FirstNamed(entries[1..], name)
  }

  /** Marks the entries of that name; with `stop`, none behind the first of exactly that name. */
  function MarkNamed(entries: seq<Direntry>, noCase: bool, name: string, stop: bool): (r: seq<Direntry>)
    ensures |r| == |entries|
  {
    if entries == [] then []
    else if stop && entries[0].name == name then [Mark(entries[0])] + entries[1..]
    else [if SameName(noCase, name, entries[0].name) then Mark(entries[0]) else entries[0]]
         + MarkNamed(entries[1..], noCase, name, stop)
  }

  function Updated(d: Dir, file: string, mayCreate: bool, kind: Filetype, size: int, owner: string): Dir {
    var (i, entries) := (FirstNamed(d.entries, file), MarkNamed(d.entries, true, file, true));
    if i < |d.entries| then
      var changed := if kind != (if d.entries[i].isDir then DirType else FileType) then Invalid
                     else if kind == DirType then DirChanged else FileChanged;
      d.(entries := entries, flags := d.flags + {changed})
    else if kind != UnknownType && mayCreate then
      d.(entries := entries + [Direntry(file, size, kind == DirType, false, true, "", owner)],
         flags := d.flags + (if kind == DirType then {DirAdded, HasDirs} else {FileAdded}))
    else d.(entries := entries, flags := d.flags + {Unknown})
  }

  function Removed(d: Dir, file: string): Dir {
    var i := FirstNamed(d.entries, file);
    if i < |d.entries| then
      d.(entries := d.entries[..i] + d.entries[i + 1..],
         flags := d.flags + {if d.entries[i].isDir then DirRemoved else FileRemoved})
    else d.(entries := MarkNamed(d.entries, true, file, false), flags := d.flags + {Invalid})
  }

  function Edited(edit: Edit, d: Dir): Dir {
    match edit
    case Update(file, mayCreate, kind, size, owner) => Updated(d, file, mayCreate, kind, size, owner)
    case Remove(file) => Removed(d, file)
    case Invalidate(file, cmpCase) =>
      d.(entries := MarkNamed(d.entries, !cmpCase, file, false), flags := d.flags + {Unknown})
  }

  predicate Concerns(edit: Edit, path: Path, d: Dir) {
    if edit.Invalidate? && edit.cmpCase then path == d.path else SameNoCase(path, d.path)
  }

  predicate ConcernsAny(edit: Edit, path: Path, dirs: seq<Dir>) {
    dirs != [] && (Concerns(edit, path, dirs[0]) || ConcernsAny(edit, path, dirs[1..]))
  }

  /** One pass over a server's directories. */
  function EditDirs(edit: Edit, path: Path, dirs: seq<Dir>): seq<Dir> {
    if dirs == [] then []
    else [if Concerns(edit, path, dirs[0]) then Edited(edit, dirs[0]) else dirs[0]] + EditDirs(edit, path, dirs[1..])
  }

  function EditLru(edit: Edit, path: Path, content: string, dirs: seq<Dir>, lru: seq<Position>): seq<Position> {
    if dirs == [] then lru
    else EditLru(edit, path, content, dirs[1..],
                 if Concerns(edit, path, dirs[0]) then Touch(lru, Position(content, dirs[0].path)) else lru)
  }

  function EditCache(c: Cache, server: Server, path: Path, edit: Edit): Cache {
    var si := FindServer(c.servers, server.content);
    if si == |c.servers| then c
    else
      var dirs := c.servers[si].dirs;
      var dirs' := EditDirs(edit, path, dirs);
      c.(servers := c.servers[si := c.servers[si].(dirs := dirs')],
         lru := EditLru(edit, path, server.content, dirs, c.lru),
         total := c.total + Size(dirs') - Size(dirs))
  }

  function UpdateFile(c: Cache, server: Server, path: Path, file: string, mayCreate: bool, kind: Filetype,
                      size: int, owner: string): Cache {
    EditCache(c, server, path, Update(file, mayCreate, kind, size, owner))
  }

  function RemoveFile(c: Cache, server: Server, path: Path, file: string): Cache {
    EditCache(c, server, path, Remove(file))
  }

  /** Some directory that the edit concerns has a subdirectory of that name. */
  predicate NamesDir(edit: Edit, path: Path, dirs: seq<Dir>)
    requires edit.Invalidate?
  {
    exists i, k :: 0 <= i < |dirs| && Concerns(edit, path, dirs[i]) && 0 <= k < |dirs[i].entries|
                   && dirs[i].entries[k].isDir && SameName(!edit.cmpCase, edit.file, dirs[i].entries[k].name)
  }

  function Distrust(dirs: seq<Dir>, path: Path, noCase: bool): seq<Dir> {
    if dirs == [] then []
    else [if IsSubdirOf(dirs[0].path, path, noCase, true) then dirs[0].(flags := dirs[0].flags + {Unknown}) else dirs[0]]
         + Distrust(dirs[1..], path, noCase)
  }

  /** `isPath` says whether the path can be changed to the file. */
  function InvalidateFile(c: Cache, server: Server, path: Path, file: string, isPath: bool): Cache {
    var si := FindServer(c.servers, server.content);
    var edit := Invalidate(file, server.caseSensitive);
    if si == |c.servers| then c
    else
      var c1 := EditCache(c, server, path, edit);
      if NamesDir(edit, path, c.servers[si].dirs) && isPath then
        c1.(servers := c1.servers[si := c1.servers[si].(dirs := Distrust(c1.servers[si].dirs, path, !server.caseSensitive))])
      else c1
  }

  // ---------------------------------------------------------------- dropping

  function Child(path: Path, file: string): Path {
    if path.data.None? then path
    else path.(data := Some(path.data.value.(segments := path.data.value.segments + [file])))
  }

  /** At or below the directory that was removed. */
  predicate Doomed(gone: Path, path: Path) {
    !IsEmpty(gone) && (path == gone || IsSubdirOf(path, gone, true, false))
  }

  function Kept(gone: Path, dirs: seq<Dir>): seq<Dir> {
    if dirs == [] then [] else (if Doomed(gone, dirs[0].path) then [] else [dirs[0]]) + Kept(gone, dirs[1..])
  }

  function Dropped(gone: Path, dirs: seq<Dir>): seq<Dir> {
    if dirs == [] then [] else (if Doomed(gone, dirs[0].path) then [dirs[0]] else []) + Dropped(gone, dirs[1..])
  }

  /** Directories that are dropped leave the recently-used list. */
  function Forget(content: string, dirs: seq<Dir>, lru: seq<Position>): seq<Position> {
    if dirs == [] then lru else Forget(content, dirs[1..], Without(lru, Position(content, dirs[0].path)))
  }

  function DropBelow(c: Cache, content: string, gone: Path): Cache {
    var si := FindServer(c.servers, content);
    if si == |c.servers| then c
    else
      var dirs := Kept(gone, c.servers[si].dirs);
      c.(servers := c.servers[si := c.servers[si].(dirs := dirs)], lru := Forget(content, Dropped(gone, c.servers[si].dirs), c.lru),
         total := c.total + Size(dirs) - Size(c.servers[si].dirs))
  }

  function RemoveDir(c: Cache, server: Server, path: Path, file: string): Cache {
    RemoveFile(DropBelow(c, server.content, Child(path, file)), server, path, file)
  }

  function InvalidateServer(c: Cache, server: Server): Cache {
    var si := FindServer(c.servers, server.content);
    if si == |c.servers| then c
    else c.(servers := c.servers[..si] + c.servers[si + 1..], lru := Forget(server.content, c.servers[si].dirs, c.lru),
            total := c.total - Size(c.servers[si].dirs))
  }

  // ---------------------------------------------------------------- renaming

  function DirAt(c: Cache, server: Server, path: Path): Option<Dir> {
    Lookup(c, server, path, true).1
  }

  /** Replaces the directory at its path. */
  function Replace(c: Cache, server: Server, d: Dir): Cache {
    var si := FindServer(c.servers, server.content);
    if si == |c.servers| || !Found(c.servers[si].dirs, d.path) then c
    else
      var i := LowerBound(c.servers[si].dirs, d.path);
      c.(servers := c.servers[si := c.servers[si].(dirs := c.servers[si].dirs[i := d])],
         total := c.total + |d.entries| - |c.servers[si].dirs[i].entries|)
  }

  function RenamedAt(d: Dir, i: nat, file: string): Dir
    requires i < |d.entries|
  {
    d.(entries := d.entries[i := d.entries[i].(name := file, unsure := true)], flags := d.flags + {Unknown})
  }

  function RenameWithin(c: Cache, server: Server, path: Path, fileFrom: string, fileTo: string): Cache {
    var c1 := RemoveFile(c, server, path, fileTo);
    match DirAt(c1, server, path)
    case None => c1
    case Some(d) =>
      var i := FirstNamed(d.entries, fileFrom);
      if i == |d.entries| then c1
      else if d.entries[i].isDir then
        UpdateFile(RemoveDir(RemoveDir(c1, server, path, fileFrom), server, path, fileTo),
                   server, path, fileTo, true, DirType, -1, "")
      else Replace(c1, server, RenamedAt(d, i, fileTo))
  }

  function RenameAcross(c: Cache, server: Server, d: Dir, fileFrom: string, pathTo: Path, fileTo: string): Cache {
    var i := FirstNamed(d.entries, fileFrom);
    if i == |d.entries| then c
    else if d.entries[i].isDir then
      UpdateFile(RemoveDir(c, server, d.path, fileFrom), server, pathTo, fileTo, true, DirType, -1, "")
    else
      UpdateFile(RemoveFile(c, server, d.path, fileFrom), server, pathTo, fileTo, true, FileType, -1, "")
  }

  function Rename(c: Cache, server: Server, pathFrom: Path, fileFrom: string, pathTo: Path, fileTo: string): Cache {
    if FindServer(c.servers, server.content) == |c.servers| then c
    else
      var (c1, found) := Lookup(c, server, pathFrom, true);
      match found
      case None => InvalidateServer(c1, server)
      case Some(d) =>
        if pathFrom == pathTo then RenameWithin(c1, server, pathFrom, fileFrom, fileTo)
        else RenameAcross(c1, server, d, fileFrom, pathTo, fileTo)
  }

  function UpdateOwnerGroup(c: Cache, server: Server, path: Path, file: string, owner: string): Cache {
    var (c1, found) := Lookup(c, server, path, true);
    if FindServer(c.servers, server.content) == |c.servers| then c
    else if found.Some? && FirstNamed(found.value.entries, file) < |found.value.entries| then
      var (d, i) := (found.value, FirstNamed(found.value.entries, file));
      if d.entries[i].isDir then c1
      else Replace(c1, server, d.(entries := d.entries[i := d.entries[i].(ownerGroup := owner)]))
    else InvalidateServer(c1, server)
  }
}
