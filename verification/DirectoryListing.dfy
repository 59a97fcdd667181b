/**
 Directory listings: entries, flags, and two lazily built search maps from names to positions.
 Whatever is done to a listing, a lookup must answer as a scan of the entries would.
 */
module DirectoryListing {
  import opened ListingEntries
  import opened Optional
  import opened ServerPath

  /** A search map under construction holds the names of a first part of the entries, in order. */
  type NameMap = seq<(string, nat)>

  function Key(noCase: bool, name: string): string {
    if noCase then Fold(name) else name
  }

  /** What a scan would answer: some entry of that name, or that there is none. */
  predicate Answers(entries: seq<Direntry>, noCase: bool, name: string, r: Option<nat>) {
    match r
    case Some(i) => i < |entries| && Key(noCase, entries[i].name) == Key(noCase, name)
    case None => forall i :: 0 <= i < |entries| ==> Key(noCase, entries[i].name) != Key(noCase, name)
  }

  // ---------------------------------------------------------------- search maps

  /** The map is that of the first entries. */
  predicate Covers(table: NameMap, entries: seq<Direntry>, noCase: bool) {
    |table| <= |entries| && forall k :: 0 <= k < |table| ==> table[k] == (Key(noCase, entries[k].name), k)
  }

  predicate Agrees(m: Option<NameMap>, entries: seq<Direntry>, noCase: bool) {
    m.Some? ==> Covers(m.value, entries, noCase)
  }

  predicate HasKey(table: NameMap, key: string) {
    exists k :: 0 <= k < |table| && table[k].0 == key
  }

  /** What a search of the map may return: the value of any element with that key. */
  predicate MayReturn(table: NameMap, key: string, r: Option<nat>) {
    if r.Some? then (key, r.value) in table else !HasKey(table, key)
  }

  /** Entries are added until one has the key. */
  function Grown(entries: seq<Direntry>, noCase: bool, table: NameMap, key: string): (table': NameMap)
    ensures table <= table'
    decreases |entries| - |table|
  {
    if |table| >= |entries| then table
    else
      var entryKey := Key(noCase, entries[|table|].name);
      var more := table + [(entryKey, |table|)];
      if entryKey == key then more else Grown(entries, noCase, more, key)
  }

  function TableOf(m: Option<NameMap>): NameMap {
    if m.Some? then m.value else []
  }

  /** The map after a lookup. In a listing without entries none is made. */
  function Searched(entries: seq<Direntry>, noCase: bool, m: Option<NameMap>, name: string): Option<NameMap> {
    if entries == [] then m
    else if HasKey(TableOf(m), Key(noCase, name)) then Some(TableOf(m))
    else Some(Grown(entries, noCase, TableOf(m), Key(noCase, name)))
  }

  /** What a lookup may answer. */
  predicate MayAnswer(entries: seq<Direntry>, noCase: bool, m: Option<NameMap>, name: string, r: Option<nat>) {
    if entries == [] then r.None? else MayReturn(TableOf(Searched(entries, noCase, m, name)), Key(noCase, name), r)
  }

  lemma {:induction false} GrownCovers(entries: seq<Direntry>, noCase: bool, table: NameMap, key: string)
    requires Covers(table, entries, noCase) && !HasKey(table, key)
    ensures var table' := Grown(entries, noCase, table, key);
            Covers(table', entries, noCase) && (HasKey(table', key) || |table'| == |entries|)
    decreases |entries| - |table|
  {
    if |table| < |entries| {
      var entryKey := Key(noCase, entries[|table|].name);
      var more := table + [(entryKey, |table|)];
      if entryKey == key {
        assert more[|table|].0 == key;
      } else {
        GrownCovers(entries, noCase, more, key);
      }
    }
  }

  /** A lookup keeps a map that agrees with the entries, and then answers as a scan would. */
  lemma LookupIsScan(entries: seq<Direntry>, noCase: bool, m: Option<NameMap>, name: string, r: Option<nat>)
    requires Agrees(m, entries, noCase)
    ensures Agrees(Searched(entries, noCase, m, name), entries, noCase)
    ensures MayAnswer(entries, noCase, m, name, r) ==> Answers(entries, noCase, name, r)
  {
    if entries != [] {
      var key := Key(noCase, name);
      if !HasKey(TableOf(m), key) { GrownCovers(entries, noCase, TableOf(m), key); }
      var table := TableOf(Searched(entries, noCase, m, name));
      if r.None? && MayReturn(table, key, r) {
        forall i | 0 <= i < |entries| ensures Key(noCase, entries[i].name) != key {
          assert table[i].0 == Key(noCase, entries[i].name);
        }
      }
    }
  }

  // ---------------------------------------------------------------- runs

  /** A listing as a value. */
  datatype Indexed = Indexed(entries: seq<Direntry>, exact: Option<NameMap>, folded: Option<NameMap>)

  /** `LookedUp` is the cache's lookup: first exactly, then, if that finds nothing and it is asked for, without
      regard to case. `Marked` stands for any change to an entry but its name. */
  datatype Step =
    | Assigned(entries: seq<Direntry>)
    | Appended(e: Direntry)
    | Removed(i: nat)
    | Renamed(i: nat, name: string)
    | Marked(i: nat, e: Direntry)
    | Copied
    | LookedUp(name: string, alsoNoCase: bool)

  /** Clearing is skipped when the exact map was never built. */
  function Cleared(l: Indexed): Indexed {
    if l.exact.None? then l else l.(exact := None, folded := None)
  }

  function Found(l: Indexed, name: string, alsoNoCase: bool): Indexed {
    var l1 := l.(exact := Searched(l.entries, false, l.exact, name));
    if HasKey(TableOf(l1.exact), name) || !alsoNoCase then l1
    else l1.(folded := Searched(l.entries, true, l.folded, name))
  }

  function After(l: Indexed, s: Step): Indexed {
    match s
    case Assigned(entries) => Indexed(entries, None, None)
    case Appended(e) => l.(entries := l.entries + [e])
    case Removed(i) => if i < |l.entries| then Indexed(l.entries[..i] + l.entries[i + 1..], None, None) else l
    case Renamed(i, name) =>
      if i < |l.entries| then Cleared(l.(entries := l.entries[i := l.entries[i].(name := name, unsure := true)])) else l
    case Marked(i, e) =>
      if i < |l.entries| && e.name == l.entries[i].name then l.(entries := l.entries[i := e]) else l
    case Copied => l
    case LookedUp(name, alsoNoCase) => Found(l, name, alsoNoCase)
  }

  function Run(steps: seq<Step>): Indexed {
    if steps == [] then Indexed([], None, None) else After(Run(steps[..|steps| - 1]), steps[|steps| - 1])
  }

  /** Both maps agree with the entries, and there is no folded map without an exact one. */
  predicate InStep(l: Indexed) {
    Agrees(l.exact, l.entries, false) && Agrees(l.folded, l.entries, true) && (l.folded.Some? ==> l.exact.Some?)
  }

  lemma FoundKeeps(l: Indexed, name: string, alsoNoCase: bool)
    requires InStep(l)
    ensures InStep(Found(l, name, alsoNoCase))
  {
    LookupIsScan(l.entries, false, l.exact, name, None);
    LookupIsScan(l.entries, true, l.folded, name, None);
  }

  lemma StepKeeps(l: Indexed, s: Step)
    requires InStep(l)
    ensures InStep(After(l, s))
  {
    if s.LookedUp? {
      FoundKeeps(l, s.name, s.alsoNoCase);
    }
  }

  lemma {:induction false} RunKeeps(steps: seq<Step>)
    ensures InStep(Run(steps))
    decreases |steps|
  {
    if steps != [] {
      RunKeeps(steps[..|steps| - 1]);
      StepKeeps(Run(steps[..|steps| - 1]), steps[|steps| - 1]);
    }
  }

  /** After any run of changes, renames, copies and lookups, whatever the next lookup answers is what a scan
      would: exactly, and if that finds nothing, without regard to case. */
  lemma LookupsMatchScan(steps: seq<Step>, name: string, r: Option<nat>)
    ensures var l := Run(steps);
            && (MayAnswer(l.entries, false, l.exact, name, r) ==> Answers(l.entries, false, name, r))
            && (MayAnswer(l.entries, true, l.folded, name, r) ==> Answers(l.entries, true, name, r))
  {
    RunKeeps(steps);
    var l := Run(steps);
    LookupIsScan(l.entries, false, l.exact, name, r);
    LookupIsScan(l.entries, true, l.folded, name, r);
  }

  // ---------------------------------------------------------------- without the exact lookup first

  /** Whether every case-insensitive lookup can only answer as a scan would. */
  ghost predicate FoldedRight(l: Indexed) {
    forall name, r :: MayAnswer(l.entries, true, l.folded, name, r) ==> Answers(l.entries, true, name, r)
  }

  /** The order of lookups matters. Were a case-insensitive lookup ever made without an exact one before it, a
      rename would leave its map in place, and lookups would be right exactly if the map had not reached
      the entry or the folded name stayed the same. */
  lemma RenameWithoutExactMap(l: Indexed, i: nat, name: string)
    requires l.exact.None? && Agrees(l.folded, l.entries, true) && i < |l.entries|
    ensures FoldedRight(After(l, Renamed(i, name)))
       <==> l.folded.None? || |l.folded.value| <= i || Fold(l.entries[i].name) == Fold(name)
  {
    var l' := After(l, Renamed(i, name));
    if l.folded.None? || |l.folded.value| <= i || Fold(l.entries[i].name) == Fold(name) {
      assert Agrees(l'.folded, l'.entries, true);
      forall n, r | MayAnswer(l'.entries, true, l'.folded, n, r) ensures Answers(l'.entries, true, n, r) {
        LookupIsScan(l'.entries, true, l'.folded, n, r);
      }
    } else {
      OldNameAnswered(l, i, name);
    }
  }

  /** The old name may still be answered with the renamed entry. */
  lemma OldNameAnswered(l: Indexed, i: nat, name: string)
    requires l.exact.None? && l.folded.Some? && Agrees(l.folded, l.entries, true) && i < |l.folded.value|
    requires Fold(l.entries[i].name) != Fold(name)
    ensures var l' := After(l, Renamed(i, name));
            && MayAnswer(l'.entries, true, l'.folded, l.entries[i].name, Some(i))
            && !Answers(l'.entries, true, l.entries[i].name, Some(i))
  {
    var (table, key) := (l.folded.value, Fold(l.entries[i].name));
    assert table[i] == (key, i);
    assert HasKey(table, key);
  }

  // ---------------------------------------------------------------- in place

  /** The map's own search. */
  method FindInMap(m: NameMap, key: string) returns (r: Option<nat>)
    ensures MayReturn(m, key, r)
  {
    var k := 0;
    while k < |m|
      invariant 0 <= k <= |m|
      invariant forall j :: 0 <= j < k ==> m[j].0 != key
    {
      if m[k].0 == key {
        assert m[k] == (key, m[k].1);
        return Some(m[k].1);
      }
      k := k + 1;
    }
    return None;
  }

  lemma KeyAtEnd(table: NameMap, key: string, v: nat)
    ensures HasKey(table + [(key, v)], key) && (key, v) in table + [(key, v)]
  {
    var more := table + [(key, v)];
    assert more[|table|] == (key, v);
  }

  lemma NoKeyAtEnd(table: NameMap, key: string, other: string, v: nat)
    requires !HasKey(table, key) && other != key
    ensures !HasKey(table + [(other, v)], key)
  {}

  /** The lookup both variants share: ask the map, then extend it until the name turns up. */
  method FindFile(entries: seq<Direntry>, noCase: bool, m: Option<NameMap>, name: string)
    returns (m': Option<NameMap>, r: Option<nat>)
    requires m.Some? ==> |m.value| <= |entries|
    ensures m' == Searched(entries, noCase, m, name) && MayAnswer(entries, noCase, m, name, r)
  {
    if entries == [] {
      return m, None;
    }
    var table: NameMap := TableOf(m);
    var key := Key(noCase, name);
    r := FindInMap(table, key);
    if r.Some? {
      KeyFound(table, key, r.value);
      return Some(table), r;
    }
    if |table| == |entries| {
      return Some(table), None;
    }
    table, r := Extend(entries, noCase, table, key);
    return Some(table), r;
  }

  lemma KeyFound(table: NameMap, key: string, v: nat)
    requires (key, v) in table
    ensures HasKey(table, key)
  {
    var k :| 0 <= k < |table| && table[k] == (key, v);
  }

  method Extend(entries: seq<Direntry>, noCase: bool, start: NameMap, key: string) returns (table: NameMap, r: Option<nat>)
    requires |start| <= |entries| && !HasKey(start, key)
    ensures table == Grown(entries, noCase, start, key) && MayReturn(table, key, r)
  {
    table := start;
    var i := |table|;
    while i < |entries|
      invariant i == |table| <= |entries| && !HasKey(table, key)
      invariant Grown(entries, noCase, table, key) == Grown(entries, noCase, start, key)
    {
      var entryKey := Key(noCase, entries[i].name);
      if entryKey == key {
        KeyAtEnd(table, key, i);
        return table + [(entryKey, i)], Some(i);
      }
      NoKeyAtEnd(table, key, entryKey, i);
      table := table + [(entryKey, i)];
      i := i + 1;
    }
    return table, None;
  }

  class Listing {
    var entries: seq<Direntry>
    var flags: set<Flag>
    var exact: Option<NameMap>
    var folded: Option<NameMap>

    ghost function State(): Indexed
      reads this
    {
      Indexed(entries, exact, folded)
    }

    ghost predicate Valid()
      reads this
    {
      InStep(State())
    }

    constructor ()
      ensures Valid() && State() == Run([]) && flags == {}
    {
      entries, flags := [], {};
      exact, folded := None, None;
    }

    constructor Copy(other: Listing)
      requires other.Valid()
      ensures Valid() && State() == other.State() && flags == other.flags
    {
      entries, flags := other.entries, other.flags;
      exact, folded := other.exact, other.folded;
    }

    /** The flags about directories, permissions and owners describe the new entries exactly. */
    method Assign(es: seq<Direntry>)
      modifies this
      ensures Valid() && State() == Indexed(es, None, None)
      ensures flags - {HasDirs, HasPerms, HasUserGroup} == old(flags) - {HasDirs, HasPerms, HasUserGroup}
      ensures HasDirs in flags <==> exists i :: 0 <= i < |es| && es[i].isDir
      ensures HasPerms in flags <==> exists i :: 0 <= i < |es| && es[i].permissions != ""
      ensures HasUserGroup in flags <==> exists i :: 0 <= i < |es| && es[i].ownerGroup != ""
    {
      entries := es;
      flags := flags - {HasDirs, HasPerms, HasUserGroup};
      exact, folded := None, None;
      var i := 0;
      while i < |es|
        invariant 0 <= i <= |es| && entries == es && exact.None? && folded.None?
        invariant flags - {HasDirs, HasPerms, HasUserGroup} == old(flags) - {HasDirs, HasPerms, HasUserGroup}
        invariant HasDirs in flags <==> exists k :: 0 <= k < i && es[k].isDir
        invariant HasPerms in flags <==> exists k :: 0 <= k < i && es[k].permissions != ""
        invariant HasUserGroup in flags <==> exists k :: 0 <= k < i && es[k].ownerGroup != ""
      {
        flags := flags + FlagsOf(es[i]);
        i := i + 1;
      }
    }

    static function FlagsOf(e: Direntry): set<Flag> {
      (if e.isDir then {HasDirs} else {}) + (if e.permissions != "" then {HasPerms} else {})
      + (if e.ownerGroup != "" then {HasUserGroup} else {})
    }

    method Append(e: Direntry)
      requires Valid()
      modifies this`entries
      ensures Valid() && State() == After(old(State()), Appended(e))
    {
      entries := entries + [e];
    }

    method RemoveEntry(i: nat) returns (done: bool)
      requires Valid()
      modifies this
      ensures Valid() && State() == After(old(State()), Removed(i)) && done == (i < |old(entries)|)
      ensures !done ==> flags == old(flags)
      ensures done ==> flags == old(flags) + {if old(entries)[i].isDir then DirRemoved else FileRemoved}
    {
      if i >= |entries| {
        return false;
      }
      exact, folded := None, None;
      flags := flags + {if entries[i].isDir then DirRemoved else FileRemoved};
      entries := entries[..i] + entries[i + 1..];
      return true;
    }

    method FindFileCmpCase(name: string) returns (r: Option<nat>)
      requires Valid()
      modifies this`exact
      ensures Valid() && Answers(entries, false, name, r)
      ensures exact == Searched(entries, false, old(exact), name)
    {
      LookupIsScan(entries, false, exact, name, None);
      ghost var before := exact;
      exact, r := FindFile(entries, false, exact, name);
      LookupIsScan(entries, false, before, name, r);
    }

    /** Right whenever the map agrees with the entries. Made after an exact lookup it keeps the listing valid. */
    method FindFileCmpNoCase(name: string) returns (r: Option<nat>)
      requires Agrees(folded, entries, true)
      modifies this`folded
      ensures Agrees(folded, entries, true) && Answers(entries, true, name, r)
      ensures folded == Searched(entries, true, old(folded), name)
      ensures old(Valid()) && (exact.Some? || entries == []) ==> Valid()
    {
      LookupIsScan(entries, true, folded, name, None);
      ghost var before := folded;
      folded, r := FindFile(entries, true, folded, name);
      LookupIsScan(entries, true, before, name, r);
    }

    /** The cache's lookup of a file: an entry of exactly that name if there is one; otherwise, if asked for, one
        whose name differs in case only; otherwise none. */
    method LookupFile(name: string, alsoNoCase: bool) returns (r: Option<nat>, matchedCase: bool)
      requires Valid()
      modifies this`exact, this`folded
      ensures Valid() && State() == After(old(State()), LookedUp(name, alsoNoCase))
      ensures matchedCase <==> exists i :: 0 <= i < |entries| && entries[i].name == name
      ensures matchedCase ==> Answers(entries, false, name, r)
      ensures !matchedCase && alsoNoCase ==> Answers(entries, true, name, r)
      ensures !matchedCase && !alsoNoCase ==> r.None?
    {
      ghost var before := State();
      r := FindFileCmpCase(name);
      matchedCase := r.Some?;
      FoundInMap(before, name, r);
      if !matchedCase && alsoNoCase {
        r := FindFileCmpNoCase(name);
      }
    }

    method ClearFindMap()
      modifies this`exact, this`folded
      ensures State() == Cleared(old(State()))
    {
      if exact.None? {
        return;
      }
      exact, folded := None, None;
    }

    /** What the cache does to rename an entry: change the name, mark the entry, clear the maps. */
    method RenameEntry(i: nat, name: string)
      requires Valid() && i < |entries|
      modifies this
      ensures Valid() && State() == After(old(State()), Renamed(i, name))
      ensures flags == old(flags) + {Unknown}
    {
      StepKeeps(State(), Renamed(i, name));
      entries := entries[i := entries[i].(name := name, unsure := true)];
      flags := flags + {Unknown};
      ClearFindMap();
    }
  }

  /** Whether the exact lookup found something can be seen from its map. */
  lemma FoundInMap(l: Indexed, name: string, r: Option<nat>)
    requires InStep(l) && Answers(l.entries, false, name, r)
    ensures HasKey(TableOf(Searched(l.entries, false, l.exact, name)), name) <==> r.Some?
  {
    LookupIsScan(l.entries, false, l.exact, name, None);
    if !HasKey(TableOf(l.exact), name) { GrownCovers(l.entries, false, TableOf(l.exact), name); }
  }
}
