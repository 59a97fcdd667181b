/** Whole runs of the recursive operation: what holds after any sequence of replies. */
module RecursionRuns {
  import opened Optional
  import opened ServerPath
  import opened RecursionSteps
  import opened RecursionOrder

  // ---------------------------------------------------------------- roots

  /** The roots still waiting are the caller's, in order; the front one keeps its settings. */
  predicate Origin(roots: seq<Root>, given: seq<Root>) {
    && |roots| <= |given|
    && (roots != [] ==>
          var k := |given| - |roots|;
          && roots[1..] == given[k + 1..]
          && roots[0].startDir == given[k].startDir && roots[0].allowParent == given[k].allowParent)
  }

  predicate AllFresh(roots: seq<Root>) {
    forall i :: 0 <= i < |roots| ==> FreshRoot(roots[i])
  }

  // ---------------------------------------------------------------- containment

  /** `d` is a link that the caller queued. */
  predicate Given(d: NewDir, given: seq<Root>) {
    exists r, e :: r in given && e in r.dirs && e.link == 2 && e.parent == d.parent && e.subdir == d.subdir
  }

  predicate Confined(dirs: seq<NewDir>, targets: set<Path>, given: seq<Root>) {
    forall i :: 0 <= i < |dirs| ==> ConfinedDir(dirs[i], targets, given)
  }

  /** Below a link's target everything is confined to it, and only the caller's links have targets. */
  predicate ConfinedDir(d: NewDir, targets: set<Path>, given: seq<Root>) {
    && (d.startDir.Some? ==> d.startDir.value in targets)
    && (d.link == 2 ==> Given(d, given))
  }

  predicate TargetOf(t: Path, d: NewDir, given: seq<Root>) {
    d.link == 2 && Given(d, given) && (d.startDir == Some(t) || IsEmpty(t))
  }

  predicate CallerTargets(targets: set<Path>, visits: seq<NewDir>, given: seq<Root>) {
    forall t :: t in targets ==> exists v :: 0 <= v < |visits| && TargetOf(t, visits[v], given)
  }

  predicate Below(path: Path, targets: set<Path>) {
    exists t :: t in targets && (path == t || IsSubdirOf(path, t, false, false))
  }

  /** A processed listing lies inside its root or below the target of a link that the caller queued. */
  predicate Within(p: Processed, targets: set<Path>) {
    || IsSubdirOf(p.path, p.startDir, false, false)
    || (p.path == p.startDir && p.allowParent)
    || Below(p.path, targets)
  }

  /** The root a processed listing belongs to is one of the caller's. */
  predicate OfRoot(p: Processed, given: seq<Root>) {
    && 0 < p.serial <= |given|
    && p.startDir == given[|given| - p.serial].startDir && p.allowParent == given[|given| - p.serial].allowParent
  }

  predicate Contained(processed: seq<Processed>, targets: set<Path>, given: seq<Root>) {
    forall i :: 0 <= i < |processed| ==> Within(processed[i], targets) && OfRoot(processed[i], given)
  }

  lemma PlaceWithin(root: Root, d: NewDir, path: Path, targets: set<Path>, serial: nat)
    requires d.startDir.Some? ==> d.startDir.value in targets
    requires PlaceOf(root, path, d) != Outside
    requires PlaceOf(root, path, d) == LinkTarget ==> path in targets
    ensures Within(Processed(path, root.startDir, root.allowParent, serial), targets)
  {}

  // ---------------------------------------------------------------- once per root

  predicate Once(roots: seq<Root>, processed: seq<Processed>) {
    && (forall i, j :: 0 <= i < j < |processed| ==> processed[i].serial != processed[j].serial || processed[i].path != processed[j].path)
    && (forall i :: 0 <= i < |processed| ==> |roots| <= processed[i].serial)
    && (roots != [] ==> forall i :: 0 <= i < |processed| && processed[i].serial == |roots| ==> processed[i].path in roots[0].visited)
  }

  // ---------------------------------------------------------------- between handlers

  function Front(op: Op): seq<NewDir> {
    if op.roots == [] then [] else op.roots[0].dirs
  }

  /** What holds inside a handler, before the next operation is chosen. */
  ghost predicate Mid(op: Op, given: seq<Root>) {
    Core(op, given) && CallerTargets(op.targets, op.visits, given)
  }

  ghost predicate Core(op: Op, given: seq<Root>) {
    && Origin(op.roots, given)
    && Deletion(op.mode, Front(op), op.log, op.visits, op.begun)
    && Confined(Front(op), op.targets, given)
    && Contained(op.processed, op.targets, given)
    && Once(op.roots, op.processed)
    && !op.finished
  }

  /** What holds between two replies. */
  ghost predicate AtRest(op: Op, given: seq<Root>) {
    && LogOrdered(op.log, |op.visits|)
    && CallerTargets(op.targets, op.visits, given)
    && Contained(op.processed, op.targets, given)
    && Once([], op.processed)
    && (op.finished ==> op.mode == NoMode && Accounted([], op.log, op.begun, |op.visits|) && Named([], op.log, op.visits))
    && (op.mode != NoMode ==> Mid(op, given) && Front(op) != [] && Front(op)[0].doVisit)
  }

  lemma GivenRoot(given: seq<Root>, k: nat)
    requires AllFresh(given) && k < |given|
    ensures Confined(given[k].dirs, {}, given)
  {
    var r := given[k];
    forall i | 0 <= i < |r.dirs| ensures ConfinedDir(r.dirs[i], {}, given) {
      assert r in given && r.dirs[i] in r.dirs;
    }
  }

  lemma NextRoot(roots: seq<Root>, given: seq<Root>)
    requires Origin(roots, given) && AllFresh(given) && roots != []
    ensures Origin(roots[1..], given)
    ensures |roots| > 1 ==> FreshRoot(roots[1]) && Confined(roots[1].dirs, {}, given)
  {
    if |roots| > 1 {
      var k := |given| - |roots|;
      assert roots[1] == roots[1..][0] == given[k + 1];
      GivenRoot(given, k + 1);
      assert roots[1..][1..] == roots[2..] == given[k + 1..][1..] == given[k + 2..];
    }
  }

  /** A fresh root's directories extend the history of a finished one. */
  lemma FreshDeletion(mode: Mode, dirs: seq<NewDir>, log: seq<Issued>, visits: seq<NewDir>, begun: set<nat>)
    requires Deletion(mode, [], log, visits, begun) && forall i :: 0 <= i < |dirs| ==> FreshDir(dirs[i])
    ensures Deletion(mode, dirs, log, visits, begun)
  {
    PushDeletion(mode, dirs, [], log, visits, begun, {});
    assert dirs + [] == dirs;
  }

  lemma DropRoot(op: Op, given: seq<Root>)
    requires Mid(op, given) && AllFresh(given) && op.roots != [] && Front(op) == []
    ensures Mid(op.(roots := op.roots[1..]), given)
  {
    var op' := op.(roots := op.roots[1..]);
    NextRoot(op.roots, given);
    FreshDeletion(op.mode, Front(op'), op.log, op.visits, op.begun);
  }

  lemma RemoveMid(op: Op, given: seq<Root>)
    requires Mid(op, given) && Front(op) != [] && !Front(op)[0].doVisit
    ensures var d := Front(op)[0];
            Mid(PopFront(op).(log := op.log + [Issued(RemoveDir(d.parent, d.subdir), d.under, Some(d.visit))]), given)
  {
    RemoveDeletion(op.mode, Front(op), op.log, op.visits, op.begun);
  }

  lemma ListMid(op: Op, given: seq<Root>)
    requires Mid(op, given) && Front(op) != []
    ensures var d := Front(op)[0];
            Mid(op.(log := op.log + [Issued(List(d.parent, d.subdir, d.link != 0), d.under, None)]), given)
  {
    var d := Front(op)[0];
    var c := List(d.parent, d.subdir, d.link != 0);
    IssueDeletion(op.mode, Front(op), op.log, op.visits, op.begun, [c], d.under);
    assert IssueAll([c], d.under) == [Issued(c, d.under, None)];
  }

  lemma MidRests(op: Op, given: seq<Root>)
    requires Mid(op, given)
    requires op.mode != NoMode ==> Front(op) != [] && Front(op)[0].doVisit
    ensures AtRest(op, given)
  {}

  lemma {:induction false} NextKeeps(op: Op, given: seq<Root>)
    requires Mid(op, given) && AllFresh(given)
    ensures AtRest(NextOperation(op), given)
    decreases |op.roots|, |Front(op)|
  {
    if op.mode == NoMode {
      MidRests(op, given);
    } else if op.roots == [] {
    } else if Front(op) == [] {
      DropRoot(op, given);
      NextKeeps(op.(roots := op.roots[1..]), given);
    } else {
      var d := Front(op)[0];
      if op.mode == Delete && !d.doVisit {
        RemoveMid(op, given);
        NextKeeps(PopFront(op).(log := op.log + [Issued(RemoveDir(d.parent, d.subdir), d.under, Some(d.visit))]), given);
      } else {
        ListMid(op, given);
        MidRests(op.(log := op.log + [Issued(List(d.parent, d.subdir, d.link != 0), d.under, None)]), given);
      }
    }
  }

  // ---------------------------------------------------------------- the handlers

  /** The directory taken off: nothing above it is over, and it is confined. */
  ghost predicate Fit(op: Op, d: NewDir, given: seq<Root>) {
    && Untouched(d.under, op.log) && (forall v :: v in d.under ==> v < |op.visits|)
    && ConfinedDir(d, op.targets, given)
  }

  lemma PopMid(op: Op, given: seq<Root>)
    requires Mid(op, given) && Front(op) != [] && Front(op)[0].doVisit
    ensures Mid(PopFront(op), given) && Fit(PopFront(op), Front(op)[0], given)
  {
    PopDeletion(op.mode, Front(op), op.log, op.visits, op.begun);
  }

  /** A new visit, perhaps to the target of a link that the caller queued. */
  lemma MoreVisits(targets: set<Path>, more: set<Path>, visits: seq<NewDir>, d: NewDir, given: seq<Root>)
    requires CallerTargets(targets, visits, given) && forall t :: t in more ==> TargetOf(t, d, given)
    ensures CallerTargets(targets + more, visits + [d], given)
  {
    var visits' := visits + [d];
    forall t | t in targets + more ensures exists v :: 0 <= v < |visits'| && TargetOf(t, visits'[v], given) {
      if t in more {
        assert TargetOf(t, visits'[|visits|], given);
      } else {
        var v :| 0 <= v < |visits| && TargetOf(t, visits[v], given);
        assert TargetOf(t, visits'[v], given);
      }
    }
  }

  lemma BeginCore(op: Op, d: NewDir, given: seq<Root>)
    requires Core(op, given) && op.roots != [] && Fit(op, d, given)
    ensures Core(Begin(op, d), given)
    ensures Untouched(d.under + {|op.visits|}, op.log)
  {
    BeginDeletion(op.mode, d, Front(op), op.log, op.visits, op.begun);
  }

  lemma EnterDeletion(op: Op, ds: seq<NewDir>, cs: seq<Command>, d: NewDir, under: set<nat>)
    requires Deletion(op.mode, Front(op), op.log, op.visits, op.begun) && AllChildren(ds, d, under)
    requires Untouched(under, op.log) && forall v :: v in under ==> v < |op.visits|
    ensures Deletion(op.mode, ds + Front(op), op.log + IssueAll(cs, under), op.visits, op.begun)
  {
    IssueDeletion(op.mode, Front(op), op.log, op.visits, op.begun, cs, under);
    PushDeletion(op.mode, ds, Front(op), op.log + IssueAll(cs, under), op.visits, op.begun, under);
  }

  lemma ChildrenConfined(ds: seq<NewDir>, dirs: seq<NewDir>, d: NewDir, under: set<nat>, targets: set<Path>, given: seq<Root>)
    requires AllChildren(ds, d, under) && ConfinedDir(d, targets, given) && Confined(dirs, targets, given)
    ensures Confined(ds + dirs, targets, given)
  {}

  lemma EnterOnce(roots: seq<Root>, processed: seq<Processed>, given: seq<Root>, targets: set<Path>, p: Processed, ds: seq<NewDir>)
    requires Origin(roots, given) && Once(roots, processed) && Contained(processed, targets, given)
    requires roots != [] && p.path !in roots[0].visited && Within(p, targets)
    requires p == Processed(p.path, roots[0].startDir, roots[0].allowParent, |roots|)
    ensures var roots' := roots[0 := roots[0].(visited := roots[0].visited + {p.path}, dirs := ds)];
            Origin(roots', given) && Once(roots', processed + [p]) && Contained(processed + [p], targets, given)
  {}

  lemma EnterCore(op: Op, d: NewDir, listing: Listing, visit: nat, given: seq<Root>)
    requires Core(op, given) && op.roots != [] && ConfinedDir(d, op.targets, given)
    requires Untouched(d.under + {visit}, op.log) && forall v :: v in d.under + {visit} ==> v < |op.visits|
    requires listing.path !in op.roots[0].visited
    requires Within(Processed(listing.path, op.roots[0].startDir, op.roots[0].allowParent, |op.roots|), op.targets)
    ensures Core(Enter(op, d, listing, visit), given)
  {
    var under := d.under + {visit};
    var cs := ListingCommands(op.mode, listing.path, d, listing.entries);
    var ds := Children(op.mode, listing.path, d, listing.entries, under);
    var root := op.roots[0];
    ChildrenVisit(op.mode, listing.path, d, listing.entries, under);
    EnterDeletion(op, ds, cs, d, under);
    ChildrenConfined(ds, Front(op), d, under, op.targets, given);
    EnterOnce(op.roots, op.processed, given, op.targets,
              Processed(listing.path, root.startDir, root.allowParent, |op.roots|), ds + root.dirs);
    var op' := Enter(op, d, listing, visit);
    assert op'.roots == op.roots[0 := root.(visited := root.visited + {listing.path}, dirs := ds + root.dirs)];
  }

  lemma TargetsGrow(op: Op, d: NewDir, t: Path, given: seq<Root>)
    requires Mid(op, given) && Fit(op, d, given) && d.link == 2
    ensures var (op', d1) := (op.(targets := op.targets + {t}), Confine(LinkTarget, t, d));
            Core(op', given) && Fit(op', d1, given) && CallerTargets(op'.targets, op.visits + [d1], given)
  {
    var d1 := Confine(LinkTarget, t, d);
    assert Given(d1, given);
    MoreVisits(op.targets, {t}, op.visits, d1, given);
    ContainedGrows(op.processed, op.targets, op.targets + {t}, given);
  }

  lemma ContainedGrows(processed: seq<Processed>, targets: set<Path>, more: set<Path>, given: seq<Root>)
    requires Contained(processed, targets, given) && targets <= more
    ensures Contained(processed, more, given)
  {
    forall i | 0 <= i < |processed| ensures Within(processed[i], more) {
      if Below(processed[i].path, targets) {
        var t :| t in targets && (processed[i].path == t || IsSubdirOf(processed[i].path, t, false, false));
        assert t in more;
      }
    }
  }

  /** The listing is inside, or its path has just become a target. */
  lemma ListedInside(op: Op, d: NewDir, listing: Listing, given: seq<Root>)
    requires Core(op, given) && op.roots != [] && Fit(op, d, given)
    requires Within(Processed(listing.path, op.roots[0].startDir, op.roots[0].allowParent, |op.roots|), op.targets)
    ensures Core(Begin(op, d), given)
    ensures listing.path !in op.roots[0].visited ==> Core(Enter(Begin(op, d), d, listing, |op.visits|), given)
  {
    BeginCore(op, d, given);
    if listing.path !in op.roots[0].visited {
      EnterCore(Begin(op, d), d, listing, |op.visits|, given);
    }
  }

  lemma ListedMid(op: Op, d: NewDir, listing: Listing, given: seq<Root>)
    requires Mid(op, given) && op.roots != [] && Fit(op, d, given)
    ensures Mid(Listed(op, d, listing), given)
  {
    var place := PlaceOf(op.roots[0], listing.path, d);
    if place == LinkTarget {
      TargetsGrow(op, d, listing.path, given);
      var op1 := op.(targets := op.targets + {listing.path});
      PlaceWithin(op.roots[0], d, listing.path, op1.targets, |op.roots|);
      ListedInside(op1, Confine(place, listing.path, d), listing, given);
    } else if place == Inside {
      MoreVisits(op.targets, {}, op.visits, d, given);
      assert op.targets + {} == op.targets && op.(targets := op.targets) == op;
      PlaceWithin(op.roots[0], d, listing.path, op.targets, |op.roots|);
      ListedInside(op, d, listing, given);
    }
  }

  lemma FailedMid(op: Op, d: NewDir, critical: bool, given: seq<Root>)
    requires Mid(op, given) && op.roots != [] && Fit(op, d, given) && d.doVisit
    ensures Mid(ListingFailed(op, d, critical), given)
  {
    if !critical && !d.secondTry {
      var d' := d.(secondTry := true);
      assert Given(d, given) ==> Given(d', given);
      PushDeletion(op.mode, [d'], Front(op), op.log, op.visits, op.begun, d.under);
    } else {
      BeginCore(op, d, given);
      MoreVisits(op.targets, {}, op.visits, d, given);
      assert op.targets + {} == op.targets;
    }
  }

  lemma LinkMid(op: Op, d: NewDir, connected: bool, given: seq<Root>)
    requires Mid(op, given) && Fit(op, d, given)
    ensures Mid(LinkIsNotDir(op, d, connected), given)
  {
    var op' := LinkIsNotDir(op, d, connected);
    if op'.log != op.log {
      var c := op'.log[|op.log|].command;
      IssueDeletion(op.mode, Front(op), op.log, op.visits, op.begun, [c], d.under);
      assert IssueAll([c], d.under) == [Issued(c, d.under, None)];
    }
  }

  lemma StepKeeps(op: Op, reply: Reply, given: seq<Root>)
    requires AtRest(op, given) && AllFresh(given)
    ensures AtRest(Step(op, reply), given)
  {
    if op.mode != NoMode && !reply.Cancelled? {
      PopMid(op, given);
      var (op1, d) := (PopFront(op), Front(op)[0]);
      match reply {
        case Success(listing) => ListedMid(op1, d, listing, given);
        case Failure(critical) => FailedMid(op1, d, critical, given);
        case NotADirectory(connected) => LinkMid(op1, d, connected, given);
      }
      NextKeeps(Handled(op1, d, reply), given);
    }
  }

  lemma {:induction false} RunKeeps(mode: Mode, given: seq<Root>, replies: seq<Reply>)
    requires AllFresh(given)
    ensures AtRest(Run(mode, given, replies), given)
    decreases |replies|
  {
    if replies == [] {
      StartKeeps(mode, given);
    } else {
      RunKeeps(mode, given, replies[..|replies| - 1]);
      StepKeeps(Run(mode, given, replies[..|replies| - 1]), replies[|replies| - 1], given);
    }
  }

  lemma StartKeeps(mode: Mode, given: seq<Root>)
    requires AllFresh(given)
    ensures AtRest(Start(mode, given), given)
  {
    var op := Op(mode, given, false, [], [], {}, [], {});
    assert Deletion(mode, [], [], [], {});
    if given != [] { GivenRoot(given, 0); }
    FreshDeletion(mode, Front(op), [], [], {});
    NextKeeps(op, given);
  }

  // ---------------------------------------------------------------- theorems

  /** Nothing below a directory is touched, listed or queued once the directory's removal was issued. */
  lemma RemovalComesLast(mode: Mode, given: seq<Root>, replies: seq<Reply>, l: nat, v: nat)
    requires AllFresh(given)
    requires Ends(Run(mode, given, replies).log, l, v)
    ensures var op := Run(mode, given, replies);
            && (forall m :: l < m < |op.log| ==> v !in op.log[m].under)
            && (op.mode != NoMode ==> forall i :: 0 <= i < |Front(op)| ==> v !in Front(op)[i].under)
  {
    RunKeeps(mode, given, replies);
    var op := Run(mode, given, replies);
    forall m | l < m < |op.log| ensures v !in op.log[m].under {
      assert Untouched(op.log[m].under, op.log[..m]);
      assert op.log[..m][l] == op.log[l];
    }
  }

  /** When the operation finishes, exactly the visits that must end with a removal have ended, each once,
      and with the removal of their own directory. */
  lemma EveryDirectoryRemovedOnce(mode: Mode, given: seq<Root>, replies: seq<Reply>, v: nat)
    requires AllFresh(given) && Run(mode, given, replies).finished
    ensures var op := Run(mode, given, replies);
            && (v in op.begun <==> exists l: nat :: Ends(op.log, l, v))
            && (forall l: nat, m: nat :: Ends(op.log, l, v) && Ends(op.log, m, v) ==> l == m)
            && (forall l: nat :: Ends(op.log, l, v) ==>
                  v < |op.visits| && op.log[l].command == RemoveDir(op.visits[v].parent, op.visits[v].subdir))
  {
    RunKeeps(mode, given, replies);
  }

  lemma {:induction false} NextFrame(op: Op)
    ensures var op' := NextOperation(op);
            op'.visits == op.visits && op'.begun == op.begun && (op'.mode == op.mode || op'.mode == NoMode)
    decreases |op.roots|, |Front(op)|
  {
    if op.mode == NoMode || op.roots == [] {
    } else if Front(op) == [] {
      NextFrame(op.(roots := op.roots[1..]));
    } else if op.mode == Delete && !Front(op)[0].doVisit {
      var d := Front(op)[0];
      NextFrame(PopFront(op).(log := op.log + [Issued(RemoveDir(d.parent, d.subdir), d.under, Some(d.visit))]));
    }
  }

  predicate NeedsRemoval(mode: Mode, d: NewDir) {
    mode == Delete && d.doVisit && d.subdir != ""
  }

  ghost predicate BegunAre(mode: Mode, visits: seq<NewDir>, begun: set<nat>) {
    forall v: nat :: v in begun <==> v < |visits| && NeedsRemoval(mode, visits[v])
  }

  lemma BeginBegun(op: Op, d: NewDir)
    requires op.roots != [] && BegunAre(op.mode, op.visits, op.begun)
    ensures var op' := Begin(op, d); BegunAre(op.mode, op'.visits, op'.begun)
  {}

  lemma HandledBegun(op: Op, d: NewDir, reply: Reply)
    requires op.roots != [] && !reply.Cancelled? && BegunAre(op.mode, op.visits, op.begun)
    ensures var op' := Handled(op, d, reply);
            op'.mode == op.mode && BegunAre(op.mode, op'.visits, op'.begun)
  {
    if reply.Success? {
      var (place, path) := (PlaceOf(op.roots[0], reply.listing.path, d), reply.listing.path);
      if place != Outside {
        BeginBegun(op.(targets := op.targets + (if place == LinkTarget then {path} else {})), Confine(place, path, d));
      }
    } else if reply.Failure? {
      BeginBegun(op, d);
    }
  }

  lemma StepBegun(op: Op, reply: Reply, mode: Mode)
    requires (op.mode == mode || op.mode == NoMode) && BegunAre(mode, op.visits, op.begun)
    ensures var op' := Step(op, reply);
            (op'.mode == mode || op'.mode == NoMode) && BegunAre(mode, op'.visits, op'.begun)
  {
    if op.mode != NoMode && Front(op) != [] && !reply.Cancelled? {
      HandledBegun(PopFront(op), Front(op)[0], reply);
      NextFrame(Handled(PopFront(op), Front(op)[0], reply));
    }
  }

  /** The visits that must end with a removal are those of named directories in a deletion. */
  lemma {:induction false} BegunAreDeletions(mode: Mode, given: seq<Root>, replies: seq<Reply>)
    ensures var op := Run(mode, given, replies);
            (op.mode == mode || op.mode == NoMode) && BegunAre(mode, op.visits, op.begun)
    decreases |replies|
  {
    if replies == [] {
      NextFrame(Op(mode, given, false, [], [], {}, [], {}));
    } else {
      BegunAreDeletions(mode, given, replies[..|replies| - 1]);
      StepBegun(Run(mode, given, replies[..|replies| - 1]), replies[|replies| - 1], mode);
    }
  }

  /** Every processed listing lies inside the caller's root it belongs to, or below the target of a link
      that the caller queued. */
  lemma StaysInside(mode: Mode, given: seq<Root>, replies: seq<Reply>, i: nat)
    requires AllFresh(given) && i < |Run(mode, given, replies).processed|
    ensures var op := Run(mode, given, replies);
            && OfRoot(op.processed[i], given)
            && Within(op.processed[i], op.targets)
            && CallerTargets(op.targets, op.visits, given)
  {
    RunKeeps(mode, given, replies);
  }

  /** What becomes of an entry of a processed listing. */
  predicate Covered(mode: Mode, path: Path, d: NewDir, e: DirEntry, under: set<nat>,
                    dirs: seq<NewDir>, commands: seq<Command>, files: seq<string>) {
    && (Enters(mode, e) && d.recurse ==> Child(path, d, e, under) in dirs)
    && (!Enters(mode, e) && (mode == Transfer || mode == TransferFlatten) ==> HandleFile(path, e.name) in commands)
    && (!Enters(mode, e) && mode == Delete ==> e.name in files)
    && (mode == Chmod && e.chmod ==> ChangeMode(path, e.name) in commands)
  }

  /** Every entry that passes the filters is visited, handled, deleted or changed, as the mode asks. */
  lemma {:induction false} NoEntrySkipped(mode: Mode, path: Path, d: NewDir, entries: seq<DirEntry>, under: set<nat>, k: nat)
    requires k < |entries| && Selected(d, entries[k])
    ensures Covered(mode, path, d, entries[k], under, Children(mode, path, d, entries, under),
                    Commands(mode, path, d, entries), FilesToDelete(mode, d, entries))
    decreases |entries|
  {
    if k > 0 {
      NoEntrySkipped(mode, path, d, entries[1..], under, k - 1);
      assert entries[1..][k - 1] == entries[k];
    }
  }

  /** The entry that a queued directory, a command or a deleted name comes from. */
  predicate StemsFrom(mode: Mode, path: Path, d: NewDir, e: DirEntry, under: set<nat>, dir: Option<NewDir>, command: Option<Command>,
                      file: Option<string>) {
    && Selected(d, e)
    && (dir.Some? ==> Enters(mode, e) && dir.value == Child(path, d, e, under))
    && (command.Some? ==> (command.value == HandleFile(path, e.name) && !Enters(mode, e)) || command.value == ChangeMode(path, e.name))
    && (file.Some? ==> file.value == e.name && !Enters(mode, e))
  }

  /** Filtered entries are left alone: whatever is queued, issued or deleted stems from an entry that passes. */
  lemma {:induction false} NoOtherEntry(mode: Mode, path: Path, d: NewDir, entries: seq<DirEntry>, under: set<nat>)
    ensures forall c :: c in Children(mode, path, d, entries, under) ==>
              exists e :: e in entries && StemsFrom(mode, path, d, e, under, Some(c), None, None)
    ensures forall c :: c in Commands(mode, path, d, entries) ==>
              exists e :: e in entries && StemsFrom(mode, path, d, e, under, None, Some(c), None)
    ensures forall f :: f in FilesToDelete(mode, d, entries) ==>
              exists e :: e in entries && StemsFrom(mode, path, d, e, under, None, None, Some(f))
    decreases |entries|
  {
    if entries != [] {
      var (e, rest) := (entries[0], entries[1..]);
      NoOtherEntry(mode, path, d, rest, under);
      assert entries == [e] + rest;
      forall c | c in Children(mode, path, d, entries, under)
        ensures exists e :: e in entries && StemsFrom(mode, path, d, e, under, Some(c), None, None)
      {
        if c in Children(mode, path, d, rest, under) {
          var e' :| e' in rest && StemsFrom(mode, path, d, e', under, Some(c), None, None);
          assert e' in entries;
        } else {
          assert StemsFrom(mode, path, d, e, under, Some(c), None, None);
        }
      }
      forall c | c in Commands(mode, path, d, entries)
        ensures exists e :: e in entries && StemsFrom(mode, path, d, e, under, None, Some(c), None)
      {
        if c in Commands(mode, path, d, rest) {
          var e' :| e' in rest && StemsFrom(mode, path, d, e', under, None, Some(c), None);
          assert e' in entries;
        } else {
          assert StemsFrom(mode, path, d, e, under, None, Some(c), None);
        }
      }
      forall f | f in FilesToDelete(mode, d, entries)
        ensures exists e :: e in entries && StemsFrom(mode, path, d, e, under, None, None, Some(f))
      {
        if f in FilesToDelete(mode, d, rest) {
          var e' :| e' in rest && StemsFrom(mode, path, d, e', under, None, None, Some(f));
          assert e' in entries;
        } else {
          assert StemsFrom(mode, path, d, e, under, None, None, Some(f));
        }
      }
    }
  }

  /** No directory is processed twice for the same root. */
  lemma ProcessedOnce(mode: Mode, given: seq<Root>, replies: seq<Reply>, i: nat, j: nat)
    requires AllFresh(given) && i < j < |Run(mode, given, replies).processed|
    ensures var ps := Run(mode, given, replies).processed;
            ps[i].serial == ps[j].serial ==> ps[i].path != ps[j].path
  {
    RunKeeps(mode, given, replies);
  }
}
