/** The recursive operation ends whenever the server has finitely many directories, even if links make cycles. */
module RecursionEnds {
  import opened Optional
  import opened ServerPath
  import opened RecursionSteps
  import opened RecursionOrder
  import opened RecursionRuns

  /** A directory may still be listed twice and removed once. */
  function DirWeight(d: NewDir): nat {
    if !d.doVisit then 1 else if d.secondTry then 2 else 3
  }

  function Weight(dirs: seq<NewDir>): nat {
    if dirs == [] then 0 else DirWeight(dirs[0]) + Weight(dirs[1..])
  }

  function Unvisited(op: Op, world: set<Path>): nat {
    if op.roots == [] then 0 else |world - op.roots[0].visited|
  }

  /** Fewer roots, or fewer directories to enter, or less queued. */
  predicate Closer(op': Op, op: Op, world: set<Path>) {
    || |op'.roots| < |op.roots|
    || (|op'.roots| == |op.roots| && (Unvisited(op', world) < Unvisited(op, world)
        || (Unvisited(op', world) == Unvisited(op, world) && Weight(Front(op')) < Weight(Front(op)))))
  }

  predicate NoFarther(op': Op, op: Op, world: set<Path>) {
    Closer(op', op, world) || (|op'.roots| == |op.roots| && Unvisited(op', world) == Unvisited(op, world)
                               && Weight(Front(op')) == Weight(Front(op)))
  }

  lemma {:induction false} NextNoFarther(op: Op, world: set<Path>)
    requires op.mode != NoMode
    ensures NoFarther(NextOperation(op), op, world)
    ensures NextOperation(op).mode == NoMode ==> NextOperation(op).finished
    decreases |op.roots|, |Front(op)|
  {
    if op.roots == [] {
    } else if Front(op) == [] {
      NextNoFarther(op.(roots := op.roots[1..]), world);
    } else if op.mode == Delete && !Front(op)[0].doVisit {
      var d := Front(op)[0];
      var op' := PopFront(op).(log := op.log + [Issued(RemoveDir(d.parent, d.subdir), d.under, Some(d.visit))]);
      NextNoFarther(op', world);
      assert Weight(Front(op)) == 1 + Weight(Front(op'));
    }
  }

  lemma PushWeight(d: NewDir, dirs: seq<NewDir>)
    ensures Weight([d] + dirs) == DirWeight(d) + Weight(dirs)
  {
    assert ([d] + dirs)[1..] == dirs;
  }

  lemma VisitShrinks(world: set<Path>, visited: set<Path>, path: Path)
    requires path in world && path !in visited
    ensures |world - (visited + {path})| < |world - visited|
  {
    assert world - visited == (world - (visited + {path})) + {path};
  }

  lemma BeginWeight(op: Op, d: NewDir)
    requires op.roots != []
    ensures var op' := Begin(op, d);
            && Weight(Front(op')) <= 1 + Weight(Front(op))
            && op'.mode == op.mode && |op'.roots| == |op.roots| && op'.roots[0].visited == op.roots[0].visited
  {
    var ds := Marker(op.mode, d, |op.visits|);
    if ds == [] {
      assert ds + Front(op) == Front(op);
    } else {
      PushWeight(ds[0], Front(op));
      assert ds == [ds[0]];
    }
  }

  /** A directory was entered that was not visited, or less than `weight` is added to the queue. */
  predicate Progress(op': Op, op: Op, world: set<Path>, weight: nat) {
    && op'.mode == op.mode && |op'.roots| == |op.roots|
    && (Unvisited(op', world) < Unvisited(op, world)
        || (Unvisited(op', world) == Unvisited(op, world) && Weight(Front(op')) < weight + Weight(Front(op))))
  }

  lemma EnterShrinks(op: Op, d: NewDir, listing: Listing, visit: nat, world: set<Path>)
    requires op.roots != [] && listing.path in world && listing.path !in op.roots[0].visited
    ensures var op' := Enter(op, d, listing, visit);
            op'.mode == op.mode && |op'.roots| == |op.roots| && Unvisited(op', world) < Unvisited(op, world)
  {
    VisitShrinks(world, op.roots[0].visited, listing.path);
  }

  lemma ListedCloser(op: Op, d: NewDir, listing: Listing, world: set<Path>)
    requires op.roots != [] && d.doVisit && listing.path in world
    ensures Progress(Listed(op, d, listing), op, world, DirWeight(d))
  {
    var place := PlaceOf(op.roots[0], listing.path, d);
    if place != Outside {
      var d1 := Confine(place, listing.path, d);
      var op0 := op.(targets := op.targets + (if place == LinkTarget then {listing.path} else {}));
      BeginWeight(op0, d1);
      if !(d1.link != 0 && !d1.recurse) && listing.path !in op.roots[0].visited {
        EnterShrinks(Begin(op0, d1), d1, listing, |op.visits|, world);
      }
    }
  }

  lemma FailedCloser(op: Op, d: NewDir, critical: bool, world: set<Path>)
    requires op.roots != [] && d.doVisit
    ensures Progress(ListingFailed(op, d, critical), op, world, DirWeight(d))
  {
    if !critical && !d.secondTry {
      PushWeight(d.(secondTry := true), Front(op));
    } else {
      BeginWeight(op, d);
    }
  }

  /** Handling a reply about the directory `d`, already taken off. */
  lemma HandledCloser(op: Op, d: NewDir, reply: Reply, world: set<Path>)
    requires op.roots != [] && d.doVisit && !reply.Cancelled?
    requires reply.Success? ==> reply.listing.path in world
    ensures Progress(Handled(op, d, reply), op, world, DirWeight(d))
  {
    match reply {
      case Success(listing) => ListedCloser(op, d, listing, world);
      case Failure(critical) => FailedCloser(op, d, critical, world);
      case NotADirectory(connected) =>
    }
  }

  lemma StepCloser(op: Op, reply: Reply, world: set<Path>)
    requires op.mode != NoMode && Front(op) != [] && Front(op)[0].doVisit
    requires reply.Success? ==> reply.listing.path in world
    ensures Closer(Step(op, reply), op, world)
    ensures Step(op, reply).mode == NoMode && !reply.Cancelled? ==> Step(op, reply).finished
  {
    if !reply.Cancelled? {
      var (op1, d) := (PopFront(op), Front(op)[0]);
      HandledCloser(op1, d, reply, world);
      NextNoFarther(Handled(op1, d, reply), world);
      assert Weight(Front(op)) == DirWeight(d) + Weight(Front(op1));
    }
  }

  function Prefix(replies: nat -> Reply, n: nat): seq<Reply> {
    if n == 0 then [] else Prefix(replies, n - 1) + [replies(n - 1)]
  }

  /** The operation after `n` replies. */
  function At(mode: Mode, given: seq<Root>, replies: nat -> Reply, n: nat): Op {
    Run(mode, given, Prefix(replies, n))
  }

  lemma StepOfRun(mode: Mode, given: seq<Root>, replies: nat -> Reply, n: nat)
    ensures At(mode, given, replies, n + 1) == Step(At(mode, given, replies, n), replies(n))
  {
    var rs := Prefix(replies, n + 1);
    assert rs[..|rs| - 1] == Prefix(replies, n) && rs[|rs| - 1] == replies(n);
  }

  lemma ReplyCloser(mode: Mode, given: seq<Root>, replies: nat -> Reply, world: set<Path>, k: nat)
    requires AllFresh(given) && At(mode, given, replies, k).mode != NoMode
    requires replies(k).Success? ==> replies(k).listing.path in world
    ensures Closer(At(mode, given, replies, k + 1), At(mode, given, replies, k), world)
    ensures At(mode, given, replies, k + 1).mode == NoMode && !replies(k).Cancelled? ==> At(mode, given, replies, k + 1).finished
  {
    RunKeeps(mode, given, Prefix(replies, k));
    StepCloser(At(mode, given, replies, k), replies(k), world);
    StepOfRun(mode, given, replies, k);
  }

  /** From the `k`-th reply on; `op` is the operation then. */
  lemma {:induction false} EndsFrom(mode: Mode, given: seq<Root>, replies: nat -> Reply, world: set<Path>, k: nat, op: Op)
    returns (n: nat)
    requires AllFresh(given) && op == At(mode, given, replies, k)
    requires forall i :: replies(i).Success? ==> replies(i).listing.path in world
    ensures At(mode, given, replies, n).mode == NoMode
    ensures op.mode != NoMode && (forall i :: !replies(i).Cancelled?) ==> At(mode, given, replies, n).finished
    decreases |op.roots|, Unvisited(op, world), Weight(Front(op))
  {
    n := k;
    if op.mode != NoMode {
      ReplyCloser(mode, given, replies, world, k);
      var op' := At(mode, given, replies, k + 1);
      n := k + 1;
      if op'.mode != NoMode {
        n := EndsFrom(mode, given, replies, world, k + 1, op');
      }
    }
  }

  /** However the server answers, if its listings name finitely many directories the operation ends;
      and unless it is cancelled, it ends by finishing. */
  lemma OperationEnds(mode: Mode, given: seq<Root>, replies: nat -> Reply, world: set<Path>) returns (n: nat)
    requires AllFresh(given) && mode != NoMode
    requires forall i :: replies(i).Success? ==> replies(i).listing.path in world
    ensures Run(mode, given, Prefix(replies, n)).mode == NoMode
    ensures (forall i :: !replies(i).Cancelled?) ==> Run(mode, given, Prefix(replies, n)).finished
  {
    n := EndsFrom(mode, given, replies, world, 0, At(mode, given, replies, 0));
    assert Prefix(replies, 0) == [];
    NextNoFarther(Op(mode, given, false, [], [], {}, [], {}), world);
    if Run(mode, given, Prefix(replies, 0)).mode == NoMode {
      n := 0;
    }
  }
}
