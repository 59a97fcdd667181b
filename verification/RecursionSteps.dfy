/**
 The remote recursive operation as a step system. Directories to visit form a stack per root;
 the server's replies drive it. Every visit gets a number, and everything that stems from a
 listing carries the numbers of the visits it lies under, so that order can be stated.
 */
module RecursionSteps {
  import opened Optional
  import opened ServerPath

  datatype Mode = NoMode | Transfer | TransferFlatten | Delete | Chmod | ListOnly

  /** 0: no link, 1: link met during the operation, 2: link queued by the caller. */
  datatype NewDir = NewDir(parent: Path, subdir: string, restricted: Option<string>, startDir: Option<Path>,
                           link: nat, doVisit: bool, recurse: bool, secondTry: bool,
                           under: set<nat>, visit: nat)

  datatype Root = Root(startDir: Path, allowParent: bool, visited: set<Path>, dirs: seq<NewDir>)

  /** `filtered` and `chmod` stand for the name filters' and the permission rules' verdicts. */
  datatype DirEntry = DirEntry(name: string, isDir: bool, isLink: bool, filtered: bool, chmod: bool)

  datatype Listing = Listing(path: Path, entries: seq<DirEntry>)

  datatype Command =
    | List(parent: Path, subdir: string, asLink: bool)
    | RemoveDir(parent: Path, subdir: string)
    | DeleteFiles(path: Path, files: seq<string>)
    | ChangeMode(path: Path, name: string)
    | HandleFile(path: Path, name: string)
    | HandleEmptyDirectory(path: Path)
    | HandleInvalidLink(parent: Path, name: string)

  /** A command with the visits it lies under; for the removal of a directory also the visit it ends. */
  datatype Issued = Issued(command: Command, under: set<nat>, ends: Option<nat>)

  /** A listing that was processed, and the root it belonged to; roots are numbered from the last. */
  datatype Processed = Processed(path: Path, startDir: Path, allowParent: bool, serial: nat)

  /** The operation with its history: commands issued, the directories of the visits, the visits that must
      end with a removal, listings processed, targets of the caller's links. */
  datatype Op = Op(mode: Mode, roots: seq<Root>, finished: bool,
                   log: seq<Issued>, visits: seq<NewDir>, begun: set<nat>, processed: seq<Processed>, targets: set<Path>)

  datatype Reply =
    | Success(listing: Listing)
    | Failure(critical: bool)
    | NotADirectory(connected: bool)
    | Cancelled

  // ---------------------------------------------------------------- next operation

  function Stop(op: Op): Op {
    op.(mode := NoMode, roots := [])
  }

  /** Removes directories whose contents are done, drops finished roots, and lists the next directory. */
  function NextOperation(op: Op): Op
    decreases |op.roots|, if op.roots == [] then 0 else |op.roots[0].dirs|
  {
    if op.mode == NoMode then op
    else if op.roots == [] then Stop(op).(finished := true)
    else if op.roots[0].dirs == [] then NextOperation(op.(roots := op.roots[1..]))
    else
      var d := op.roots[0].dirs[0];
      if op.mode == Delete && !d.doVisit then
        NextOperation(PopFront(op).(log := op.log + [Issued(RemoveDir(d.parent, d.subdir), d.under, Some(d.visit))]))
      else
        op.(log := op.log + [Issued(List(d.parent, d.subdir, d.link != 0), d.under, None)])
  }

  function PopFront(op: Op): (op': Op)
    requires op.roots != [] && op.roots[0].dirs != []
    ensures |op'.roots| == |op.roots| && |op'.roots[0].dirs| == |op.roots[0].dirs| - 1
  {
    op.(roots := op.roots[0 := op.roots[0].(dirs := op.roots[0].dirs[1..])])
  }

  function PushFront(op: Op, dirs: seq<NewDir>): (op': Op)
    requires op.roots != []
    ensures |op'.roots| == |op.roots| && op'.roots[0].dirs == dirs + op.roots[0].dirs
  {
    op.(roots := op.roots[0 := op.roots[0].(dirs := dirs + op.roots[0].dirs)])
  }

  // ---------------------------------------------------------------- a listing arrives

  datatype Place = Inside | LinkTarget | Outside

  /** Where a listing lies: it may be processed inside the root, or as the target of a link the caller queued. */
  function PlaceOf(root: Root, path: Path, d: NewDir): Place {
    if d.startDir.Some? then (if IsSubdirOf(path, d.startDir.value, false, false) then Inside else Outside)
    else if IsSubdirOf(path, root.startDir, false, false) then Inside
    else if path == root.startDir && root.allowParent then Inside
    else if d.link == 2 then LinkTarget
    else Outside
  }

  /** Below a link's target, everything is confined to that target. */
  function Confine(place: Place, path: Path, d: NewDir): NewDir {
    if place == LinkTarget && !IsEmpty(path) then d.(startDir := Some(path)) else d
  }

  predicate Selected(d: NewDir, e: DirEntry) {
    if d.restricted.Some? then e.name == d.restricted.value else !e.filtered
  }

  predicate Enters(mode: Mode, e: DirEntry) {
    e.isDir && (!e.isLink || mode != Delete)
  }

  function Child(path: Path, d: NewDir, e: DirEntry, under: set<nat>): NewDir {
    NewDir(path, e.name, None, d.startDir, if e.isLink then 1 else 0, true, !e.isLink, false, under, 0)
  }

  function EntryDirs(mode: Mode, path: Path, d: NewDir, e: DirEntry, under: set<nat>): seq<NewDir> {
    if Selected(d, e) && Enters(mode, e) && d.recurse then [Child(path, d, e, under)] else []
  }

  /** The subdirectories to visit, in the order of the listing. */
  function Children(mode: Mode, path: Path, d: NewDir, entries: seq<DirEntry>, under: set<nat>): seq<NewDir> {
    if entries == [] then [] else EntryDirs(mode, path, d, entries[0], under) + Children(mode, path, d, entries[1..], under)
  }

  function EntryCommands(mode: Mode, path: Path, d: NewDir, e: DirEntry): seq<Command> {
    if !Selected(d, e) then []
    else (if !Enters(mode, e) && (mode == Transfer || mode == TransferFlatten) then [HandleFile(path, e.name)] else [])
         + (if mode == Chmod && e.chmod then [ChangeMode(path, e.name)] else [])
  }

  /** The commands for the entries, last entry first. */
  function Commands(mode: Mode, path: Path, d: NewDir, entries: seq<DirEntry>): seq<Command> {
    if entries == [] then []
    else Commands(mode, path, d, entries[1..]) + EntryCommands(mode, path, d, entries[0])
  }

  function EntryFiles(mode: Mode, d: NewDir, e: DirEntry): seq<string> {
    if Selected(d, e) && !Enters(mode, e) && mode == Delete then [e.name] else []
  }

  function FilesToDelete(mode: Mode, d: NewDir, entries: seq<DirEntry>): seq<string> {
    if entries == [] then [] else FilesToDelete(mode, d, entries[1..]) + EntryFiles(mode, d, entries[0])
  }

  /** The commands for the entries, then one to delete the files among them. */
  function EntriesCommands(mode: Mode, path: Path, d: NewDir, entries: seq<DirEntry>): seq<Command> {
    var files := FilesToDelete(mode, d, entries);
    Commands(mode, path, d, entries) + (if mode == Delete && files != [] then [DeleteFiles(path, files)] else [])
  }

  function ListingCommands(mode: Mode, path: Path, d: NewDir, entries: seq<DirEntry>): seq<Command> {
    if entries == [] && mode == Transfer then [HandleEmptyDirectory(path)] else EntriesCommands(mode, path, d, entries)
  }

  function IssueAll(commands: seq<Command>, under: set<nat>): seq<Issued> {
    seq(|commands|, i requires 0 <= i < |commands| => Issued(commands[i], under, None))
  }

  /** When deleting, the directory itself comes back behind its contents. */
  function Marker(mode: Mode, d: NewDir, visit: nat): seq<NewDir> {
    if mode == Delete && d.doVisit && d.subdir != "" then [d.(doVisit := false, visit := visit)] else []
  }

  /** A directory is entered: it counts as visited, and its contents are put in front. */
  function Enter(op: Op, d: NewDir, listing: Listing, visit: nat): Op
    requires op.roots != []
  {
    var root := op.roots[0];
    var under := d.under + {visit};
    var op1 := op.(roots := op.roots[0 := root.(visited := root.visited + {listing.path})],
                   processed := op.processed + [Processed(listing.path, root.startDir, root.allowParent, |op.roots|)],
                   log := op.log + IssueAll(ListingCommands(op.mode, listing.path, d, listing.entries), under));
    PushFront(op1, Children(op.mode, listing.path, d, listing.entries, under))
  }

  /** A visit begins: it gets a number, and when deleting the directory's removal is queued. */
  function Begin(op: Op, d: NewDir): Op
    requires op.roots != []
  {
    var visit := |op.visits|;
    var marker := Marker(op.mode, d, visit);
    PushFront(op.(visits := op.visits + [d], begun := op.begun + (if marker == [] then {} else {visit})), marker)
  }

  /** The front directory was listed; `d` is that directory, already taken off. */
  function Listed(op: Op, d: NewDir, listing: Listing): Op
    requires op.roots != []
  {
    var place := PlaceOf(op.roots[0], listing.path, d);
    if place == Outside then op else
    var d1 := Confine(place, listing.path, d);
    var op1 := Begin(op.(targets := op.targets + (if place == LinkTarget then {listing.path} else {})), d1);
    if (d1.link != 0 && !d1.recurse) || listing.path in op.roots[0].visited then op1
    else Enter(op1, d1, listing, |op.visits|)
  }

  function ListingFailed(op: Op, d: NewDir, critical: bool): Op
    requires op.roots != []
  {
    if !critical && !d.secondTry then PushFront(op, [d.(secondTry := true)]) else Begin(op, d)
  }

  function LinkIsNotDir(op: Op, d: NewDir, connected: bool): Op {
    if !connected then op
    else if op.mode == Delete then
      (if d.subdir == "" then op else op.(log := op.log + [Issued(DeleteFiles(d.parent, [d.subdir]), d.under, None)]))
    else if op.mode == ListOnly then op
    else op.(log := op.log + [Issued(HandleInvalidLink(d.parent, d.subdir), d.under, None)])
  }

  function Handled(op: Op, d: NewDir, reply: Reply): Op
    requires op.roots != [] && !reply.Cancelled?
  {
    match reply
    case Success(listing) => Listed(op, d, listing)
    case Failure(critical) => ListingFailed(op, d, critical)
    case NotADirectory(connected) => LinkIsNotDir(op, d, connected)
  }

  /** A reply arrives. Without an operation it is ignored; a root without directories stops it. */
  function Step(op: Op, reply: Reply): Op {
    if op.mode == NoMode || op.roots == [] then op
    else if reply.Cancelled? || op.roots[0].dirs == [] then Stop(op)
    else NextOperation(Handled(PopFront(op), op.roots[0].dirs[0], reply))
  }

  // ---------------------------------------------------------------- the start

  /** A root as the caller sets it up. */
  predicate FreshRoot(root: Root) {
    && root.visited == {}
    && forall i :: 0 <= i < |root.dirs| ==> FreshDir(root.dirs[i])
  }

  predicate FreshDir(d: NewDir) {
    d.doVisit && d.under == {} && d.startDir.None? && !d.secondTry && d.link != 1
  }

  function Start(mode: Mode, roots: seq<Root>): Op {
    NextOperation(Op(mode, roots, false, [], [], {}, [], {}))
  }

  function Run(mode: Mode, roots: seq<Root>, replies: seq<Reply>): Op {
    if replies == [] then Start(mode, roots)
    else Step(Run(mode, roots, replies[..|replies| - 1]), replies[|replies| - 1])
  }
}
