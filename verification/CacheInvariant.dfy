/** What every operation on the directory cache keeps. */
module CacheInvariant {
  import opened ServerPath
  import opened ListingEntries
  import opened CacheState

  // ---------------------------------------------------------------- the invariant

  predicate Distinct(servers: seq<ServerEntry>) {
    forall i, j :: 0 <= i < j < |servers| ==> servers[i].content != servers[j].content
  }

  predicate Sorted(dirs: seq<Dir>) {
    forall i, j :: 0 <= i < j < |dirs| ==> PathLess(dirs[i].path, dirs[j].path)
  }

  predicate AllSorted(servers: seq<ServerEntry>) {
    forall si :: 0 <= si < |servers| ==> Sorted(servers[si].dirs)
  }

  predicate HasDir(dirs: seq<Dir>, path: Path) {
    exists i :: 0 <= i < |dirs| && dirs[i].path == path
  }

  /** Some server has the directory in its list. */
  predicate Cached(servers: seq<ServerEntry>, pos: Position) {
    exists si :: 0 <= si < |servers| && servers[si].content == pos.content && HasDir(servers[si].dirs, pos.path)
  }

  predicate NoDup(lru: seq<Position>) {
    forall i, j :: 0 <= i < j < |lru| ==> lru[i] != lru[j]
  }

  /** The recently-used list and the cached directories are in bijection. */
  ghost predicate LruExact(servers: seq<ServerEntry>, lru: seq<Position>) {
    NoDup(lru) && forall pos :: pos in lru <==> Cached(servers, pos)
  }

  /** Equal but for the owner. */
  predicate SameEntry(a: Direntry, b: Direntry) {
    a.(ownerGroup := "") == b.(ownerGroup := "")
  }

  predicate SameEntries(a: seq<Direntry>, b: seq<Direntry>) {
    |a| == |b| && forall i :: 0 <= i < |a| ==> SameEntry(a[i], b[i])
  }

  /** A directory has the age of what was last stored for it, and shows that unless it is unsure. */
  predicate FaithfulDir(content: string, d: Dir, stored: map<Position, Dir>) {
    var pos := Position(content, d.path);
    pos in stored && d.listed == stored[pos].listed && (!Unsure(d) ==> SameEntries(d.entries, stored[pos].entries))
  }

  predicate FaithfulDirs(content: string, dirs: seq<Dir>, stored: map<Position, Dir>) {
    forall i :: 0 <= i < |dirs| ==> FaithfulDir(content, dirs[i], stored)
  }

  predicate Faithful(servers: seq<ServerEntry>, stored: map<Position, Dir>) {
    forall si :: 0 <= si < |servers| ==> FaithfulDirs(servers[si].content, servers[si].dirs, stored)
  }

  ghost predicate Consistent(c: Cache) {
    && Distinct(c.servers) && AllSorted(c.servers)
    && LruExact(c.servers, c.lru)
    && c.total == TotalSize(c.servers) + c.lost
    && Faithful(c.servers, c.stored)
  }

  ghost predicate Valid(c: Cache) {
    Consistent(c) && |c.lru| <= 50000
  }

  // ---------------------------------------------------------------- searching sorted directories

  /** In a sorted list a path is found exactly if it is there. */
  lemma FoundExactly(dirs: seq<Dir>, path: Path)
    requires Sorted(dirs)
    ensures Found(dirs, path) <==> HasDir(dirs, path)
  {
    var i := LowerBound(dirs, path);
    if HasDir(dirs, path) {
      var k :| 0 <= k < |dirs| && dirs[k].path == path;
      PathOrder(path, path, path);
      assert i <= k;
    }
  }

  /** What is behind the lower bound comes after the path, unless it is the same or clashes. */
  lemma BehindLowerBound(dirs: seq<Dir>, path: Path, k: nat)
    requires Sorted(dirs) && LowerBound(dirs, path) <= k < |dirs|
    requires !Found(dirs, path) && !Clashes(dirs, path)
    ensures PathLess(path, dirs[k].path)
  {
    var i := LowerBound(dirs, path);
    if i < k {
      PathOrder(path, dirs[i].path, dirs[k].path);
    }
  }

  /** The set refuses a path exactly if it is empty and an empty path of another type is cached. */
  lemma ClashExactly(dirs: seq<Dir>, path: Path)
    requires Sorted(dirs)
    ensures Clashes(dirs, path) <==> IsEmpty(path) && !HasDir(dirs, path) && exists i :: 0 <= i < |dirs| && IsEmpty(dirs[i].path)
  {
    var i := LowerBound(dirs, path);
    if i < |dirs| { PathOrder(dirs[i].path, path, path); }
    FoundExactly(dirs, path);
    if IsEmpty(path) && !HasDir(dirs, path) && exists k :: 0 <= k < |dirs| && IsEmpty(dirs[k].path) {
      var k :| 0 <= k < |dirs| && IsEmpty(dirs[k].path);
      assert i == 0;
    }
    if Clashes(dirs, path) {
      assert IsEmpty(dirs[i].path);
    }
  }

  // ---------------------------------------------------------------- the recently-used list

  lemma {:induction false} WithoutExactly(lru: seq<Position>, pos: Position)
    requires NoDup(lru)
    ensures NoDup(Without(lru, pos))
    ensures forall p :: p in Without(lru, pos) <==> p in lru && p != pos
    ensures |Without(lru, pos)| == |lru| - (if pos in lru then 1 else 0)
  {
    if lru != [] {
      WithoutExactly(lru[1..], pos);
      assert lru == [lru[0]] + lru[1..];
      assert lru[0] !in lru[1..];
    }
  }

  lemma TouchExactly(lru: seq<Position>, pos: Position)
    requires NoDup(lru)
    ensures NoDup(Touch(lru, pos))
    ensures forall p :: p in Touch(lru, pos) <==> p in lru || p == pos
    ensures |Touch(lru, pos)| == |lru| + (if pos in lru then 0 else 1)
    ensures Touch(lru, pos)[|Touch(lru, pos)| - 1] == pos
  {
    WithoutExactly(lru, pos);
  }

  // ---------------------------------------------------------------- sizes

  lemma {:induction false} SizeOfConcat(a: seq<Dir>, b: seq<Dir>)
    ensures Size(a + b) == Size(a) + Size(b)
  {
    if a == [] {
      assert a + b == b;
    } else {
      SizeOfConcat(a[1..], b);
      assert (a + b)[1..] == a[1..] + b;
    }
  }

  lemma {:induction false} TotalOfConcat(a: seq<ServerEntry>, b: seq<ServerEntry>)
    ensures TotalSize(a + b) == TotalSize(a) + TotalSize(b)
  {
    if a == [] {
      assert a + b == b;
    } else {
      TotalOfConcat(a[1..], b);
      assert (a + b)[1..] == a[1..] + b;
    }
  }

  lemma Cut<T>(s: seq<T>, i: nat)
    requires i < |s|
    ensures s == s[..i] + s[i..] && s[i..][0] == s[i] && s[i..][1..] == s[i + 1..]
  {}

  lemma TotalSplit(servers: seq<ServerEntry>, si: nat)
    requires si < |servers|
    ensures TotalSize(servers) == TotalSize(servers[..si]) + Size(servers[si].dirs) + TotalSize(servers[si + 1..])
  {
    Cut(servers, si);
    TotalOfConcat(servers[..si], servers[si..]);
  }

  lemma TotalReplaced(servers: seq<ServerEntry>, si: nat, dirs: seq<Dir>)
    requires si < |servers|
    ensures TotalSize(servers[si := servers[si].(dirs := dirs)]) == TotalSize(servers) - Size(servers[si].dirs) + Size(dirs)
    ensures TotalSize(servers[..si] + servers[si + 1..]) == TotalSize(servers) - Size(servers[si].dirs)
  {
    var servers' := servers[si := servers[si].(dirs := dirs)];
    TotalSplit(servers, si);
    TotalSplit(servers', si);
    assert servers'[..si] == servers[..si] && servers'[si + 1..] == servers[si + 1..];
    TotalOfConcat(servers[..si], servers[si + 1..]);
  }

  lemma SizeSplit(dirs: seq<Dir>, i: nat)
    requires i < |dirs|
    ensures Size(dirs) == Size(dirs[..i]) + |dirs[i].entries| + Size(dirs[i + 1..])
  {
    Cut(dirs, i);
    SizeOfConcat(dirs[..i], dirs[i..]);
  }

  lemma SizeReplaced(dirs: seq<Dir>, i: nat, d: Dir)
    requires i < |dirs|
    ensures Size(dirs[i := d]) == Size(dirs) - |dirs[i].entries| + |d.entries|
    ensures Size(dirs[..i] + dirs[i + 1..]) == Size(dirs) - |dirs[i].entries|
  {
    SizeSplit(dirs, i);
    SizeSplit(dirs[i := d], i);
    assert dirs[i := d][..i] == dirs[..i] && dirs[i := d][i + 1..] == dirs[i + 1..];
    SizeOfConcat(dirs[..i], dirs[i + 1..]);
  }

  lemma SizeInserted(dirs: seq<Dir>, i: nat, d: Dir)
    requires i <= |dirs|
    ensures Size(dirs[..i] + [d] + dirs[i..]) == Size(dirs) + |d.entries|
  {
    assert dirs == dirs[..i] + dirs[i..];
    SizeOfConcat(dirs[..i], dirs[i..]);
    SizeOfConcat(dirs[..i] + [d], dirs[i..]);
    SizeOfConcat(dirs[..i], [d]);
  }
}
