/** The remote recursive operation as the object it is: handlers that update the queue of directories in place. */
module RecursiveOperation {
  import opened Optional
  import opened ServerPath
  import Spec = RecursionSteps
  import opened RecursionSteps

  /** What was done so far; it takes no part in the control flow. */
  datatype Trace = Trace(finished: bool, log: seq<Issued>, visits: seq<NewDir>, begun: set<nat>,
                         processed: seq<Processed>, targets: set<Path>)

  /** One entry: a directory to visit, or a file to handle or to delete; and perhaps a change of mode. */
  method ProcessEntry(mode: Mode, path: Path, d: NewDir, e: DirEntry, under: set<nat>)
    returns (dirs: seq<NewDir>, commands: seq<Command>, files: seq<string>)
    ensures dirs == EntryDirs(mode, path, d, e, under)
    ensures commands == EntryCommands(mode, path, d, e)
    ensures files == EntryFiles(mode, d, e)
  {
    dirs, commands, files := [], [], [];
    if d.restricted.Some? {
      if e.name != d.restricted.value {
        return;
      }
    } else if e.filtered {
      return;
    }
    if e.isDir && (!e.isLink || mode != Delete) {
      if d.recurse {
        dirs := [Child(path, d, e, under)];
      }
    } else if mode == Transfer || mode == TransferFlatten {
      commands := [HandleFile(path, e.name)];
    } else if mode == Delete {
      files := [e.name];
    }
    if mode == Chmod && e.chmod {
      commands := commands + [ChangeMode(path, e.name)];
    }
  }

  /** One entry more at the front. */
  lemma OneEntryMore(mode: Mode, path: Path, d: NewDir, entries: seq<DirEntry>, under: set<nat>, queue: seq<NewDir>, i: nat)
    requires i < |entries|
    ensures Children(mode, path, d, entries[i..], under) + queue
            == EntryDirs(mode, path, d, entries[i], under) + (Children(mode, path, d, entries[i + 1..], under) + queue)
    ensures Commands(mode, path, d, entries[i..])
            == Commands(mode, path, d, entries[i + 1..]) + EntryCommands(mode, path, d, entries[i])
    ensures FilesToDelete(mode, d, entries[i..]) == FilesToDelete(mode, d, entries[i + 1..]) + EntryFiles(mode, d, entries[i])
  {
    assert entries[i..][0] == entries[i] && entries[i..][1..] == entries[i + 1..];
  }

  /** The loop over a listing's entries, from the last to the first. */
  method ProcessEntries(mode: Mode, path: Path, d: NewDir, entries: seq<DirEntry>, under: set<nat>, queue: seq<NewDir>)
    returns (dirs: seq<NewDir>, commands: seq<Command>)
    ensures dirs == Children(mode, path, d, entries, under) + queue
    ensures commands == EntriesCommands(mode, path, d, entries)
  {
    var files: seq<string>;
    dirs, commands, files := queue, [], [];
    var i := |entries|;
    assert entries[i..] == [];
    while i > 0
      invariant 0 <= i <= |entries|
      invariant dirs == Children(mode, path, d, entries[i..], under) + queue
      invariant commands == Commands(mode, path, d, entries[i..])
      invariant files == FilesToDelete(mode, d, entries[i..])
    {
      i := i - 1;
      OneEntryMore(mode, path, d, entries, under, queue, i);
      var ds, cs, fs := ProcessEntry(mode, path, d, entries[i], under);
      dirs, commands, files := ds + dirs, commands + cs, files + fs;
    }
    assert entries[0..] == entries;
    if mode == Delete && files != [] {
      commands := commands + [DeleteFiles(path, files)];
    }
  }

  class RemoteRecursiveOperation {
    var mode: Mode
    var roots: seq<Root>
    var trace: Trace

    ghost function State(): Op
      reads this
    {
      Op(mode, roots, trace.finished, trace.log, trace.visits, trace.begun, trace.processed, trace.targets)
    }

    constructor ()
      ensures State() == Op(NoMode, [], false, [], [], {}, [], {})
    {
      mode, roots := NoMode, [];
      trace := Trace(false, [], [], {}, [], {});
    }

    /** A root without start directory or with nothing to visit is not added. */
    method AddRecursionRoot(root: Root)
      modifies this`roots
      ensures roots == if root.dirs == [] || IsEmpty(root.startDir) then old(roots) else old(roots) + [root]
    {
      if root.dirs != [] && !IsEmpty(root.startDir) {
        roots := roots + [root];
      }
    }

    /** Starting twice, with nothing to do, or a change of mode without its data, has no effect. */
    method StartRecursiveOperation(m: Mode, haveChmodData: bool)
      modifies this
      ensures State() == if old(mode) != NoMode || old(roots) == [] || (m == Chmod && !haveChmodData) then old(State())
                         else Start(m, old(roots))
    {
      if mode != NoMode {
        return;
      }
      if m == Chmod && !haveChmodData {
        return;
      }
      if roots == [] {
        return;
      }
      mode := m;
      trace := Trace(false, [], [], {}, [], {});
      NextOperation();
    }

    method StopRecursiveOperation()
      modifies this
      ensures State() == Stop(old(State()))
    {
      mode := NoMode;
      roots := [];
    }

    method Issue(command: Command, under: set<nat>, ends: Option<nat>)
      modifies this`trace
      ensures trace == old(trace).(log := old(trace).log + [Issued(command, under, ends)])
    {
      trace := trace.(log := trace.log + [Issued(command, under, ends)]);
    }

    method PopDir() returns (d: NewDir)
      requires roots != [] && roots[0].dirs != []
      modifies this`roots
      ensures d == old(roots)[0].dirs[0] && State() == PopFront(old(State()))
    {
      d := roots[0].dirs[0];
      roots := roots[0 := roots[0].(dirs := roots[0].dirs[1..])];
    }

    method PushDir(d: NewDir)
      requires roots != []
      modifies this`roots
      ensures State() == PushFront(old(State()), [d])
    {
      roots := roots[0 := roots[0].(dirs := [d] + roots[0].dirs)];
    }

    method NextOperation()
      modifies this
      ensures State() == Spec.NextOperation(old(State()))
    {
      if mode == NoMode {
        return;
      }
      while roots != []
        invariant mode == old(mode)
        invariant Spec.NextOperation(State()) == Spec.NextOperation(old(State()))
        decreases |roots|
      {
        var listed := DrainFront();
        if listed {
          return;
        }
        roots := roots[1..];
      }
      StopRecursiveOperation();
      trace := trace.(finished := true);
    }

    /** The inner loop: removals are issued until a directory is to be listed or none is left. */
    method DrainFront() returns (listed: bool)
      requires mode != NoMode && roots != []
      modifies this
      ensures mode == old(mode) && |roots| == |old(roots)|
      ensures listed ==> State() == Spec.NextOperation(old(State()))
      ensures !listed ==> roots[0].dirs == [] && Spec.NextOperation(State()) == Spec.NextOperation(old(State()))
    {
      while roots[0].dirs != []
        invariant mode == old(mode) && |roots| == |old(roots)|
        invariant Spec.NextOperation(State()) == Spec.NextOperation(old(State()))
        decreases |roots[0].dirs|
      {
        var d := roots[0].dirs[0];
        if mode == Delete && !d.doVisit {
          Issue(RemoveDir(d.parent, d.subdir), d.under, Some(d.visit));
          d := PopDir();
        } else {
          Issue(List(d.parent, d.subdir, d.link != 0), d.under, None);
          return true;
        }
      }
      return false;
    }

    /** The visit gets its number, and when deleting the directory's removal is put in front. */
    method BeginVisit(d: NewDir)
      requires roots != []
      modifies this
      ensures State() == Begin(old(State()), d)
    {
      var visit := |trace.visits|;
      if mode == Delete && d.doVisit && d.subdir != "" {
        trace := trace.(visits := trace.visits + [d], begun := trace.begun + {visit});
        PushDir(d.(doVisit := false, visit := visit));
      } else {
        trace := trace.(visits := trace.visits + [d]);
        assert [] + roots[0].dirs == roots[0].dirs && trace.begun + {} == trace.begun;
        assert roots == roots[0 := roots[0].(dirs := [] + roots[0].dirs)];
      }
    }

    method EnterDirectory(d: NewDir, listing: Listing)
      requires roots != [] && trace.visits != []
      modifies this
      ensures State() == Enter(old(State()), d, listing, |old(trace).visits| - 1)
    {
      var root, under, commands := roots[0], d.under + {|trace.visits| - 1}, [HandleEmptyDirectory(listing.path)];
      var dirs := root.dirs;
      if listing.entries != [] || mode != Transfer {
        dirs, commands := ProcessEntries(mode, listing.path, d, listing.entries, under, root.dirs);
      } else {
        assert Children(mode, listing.path, d, listing.entries, under) + root.dirs == root.dirs;
      }
      trace := trace.(processed := trace.processed + [Processed(listing.path, root.startDir, root.allowParent, |roots|)],
                      log := trace.log + IssueAll(commands, under));
      roots := roots[0 := root.(visited := root.visited + {listing.path}, dirs := dirs)];
    }

    /** The listing of a directory in front arrived; it may not be the one asked for. */
    method ProcessDirectoryListing(listing: Listing)
      modifies this
      ensures State() == Step(old(State()), Success(listing))
    {
      if mode == NoMode || roots == [] {
        return;
      }
      if roots[0].dirs == [] {
        StopRecursiveOperation();
        return;
      }
      var d := PopDir();
      HandleListing(d, listing);
      NextOperation();
    }

    method HandleListing(d: NewDir, listing: Listing)
      requires roots != []
      modifies this
      ensures State() == Listed(old(State()), d, listing)
    {
      var place := PlaceOf(roots[0], listing.path, d);
      if place == Outside {
        return;
      }
      var d1 := Confine(place, listing.path, d);
      trace := trace.(targets := trace.targets + (if place == LinkTarget then {listing.path} else {}));
      var known := listing.path in roots[0].visited;
      BeginVisit(d1);
      if (d1.link != 0 && !d1.recurse) || known {
        return;
      }
      EnterDirectory(d1, listing);
    }

    /** A listing failed: a second try, unless the error is critical; then the directory is only removed. */
    method HandleListingFailed(cancelled: bool, critical: bool)
      modifies this
      ensures State() == Step(old(State()), if cancelled then Cancelled else Failure(critical))
    {
      if mode == NoMode || roots == [] {
        return;
      }
      if cancelled || roots[0].dirs == [] {
        StopRecursiveOperation();
        return;
      }
      var d := PopDir();
      if !critical && !d.secondTry {
        PushDir(d.(secondTry := true));
      } else {
        BeginVisit(d);
      }
      NextOperation();
    }

    method HandleLinkIsNotDir(connected: bool)
      modifies this
      ensures State() == Step(old(State()), NotADirectory(connected))
    {
      if mode == NoMode || roots == [] {
        return;
      }
      if roots[0].dirs == [] {
        StopRecursiveOperation();
        return;
      }
      var d := PopDir();
      if connected {
        if mode == Delete {
          if d.subdir != "" {
            Issue(DeleteFiles(d.parent, [d.subdir]), d.under, None);
          }
        } else if mode != ListOnly {
          Issue(HandleInvalidLink(d.parent, d.subdir), d.under, None);
        }
      }
      NextOperation();
    }
  }
}
