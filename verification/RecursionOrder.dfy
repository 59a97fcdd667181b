/** What every run of the recursive operation keeps: post-order removal, containment, no repetition. */
module RecursionOrder {
  import opened Optional
  import opened ServerPath
  import opened RecursionSteps

  // ---------------------------------------------------------------- removal comes last

  /** What is queued behind the removal of a directory does not lie under it. */
  predicate Ordered(dirs: seq<NewDir>) {
    forall a, b :: 0 <= a < b < |dirs| && !dirs[a].doVisit ==> dirs[a].visit !in dirs[b].under
  }

  predicate Known(dirs: seq<NewDir>, n: nat) {
    && (forall i, v :: 0 <= i < |dirs| && v in dirs[i].under ==> v < n)
    && (forall i :: 0 <= i < |dirs| && !dirs[i].doVisit ==> dirs[i].visit < n)
  }

  predicate Ends(log: seq<Issued>, l: nat, v: nat) {
    l < |log| && log[l].ends == Some(v)
  }

  /** Nothing lies under a directory whose removal was issued. */
  predicate Untouched(under: set<nat>, log: seq<Issued>) {
    forall l :: 0 <= l < |log| && log[l].ends.Some? ==> log[l].ends.value !in under
  }

  predicate LogOrdered(log: seq<Issued>, n: nat) {
    && (forall l :: 0 <= l < |log| ==> Untouched(log[l].under, log[..l]))
    && (forall l :: 0 <= l < |log| && log[l].ends.Some? ==> log[l].ends.value < n)
  }

  predicate PostOrder(dirs: seq<NewDir>, log: seq<Issued>, n: nat) {
    && Ordered(dirs) && Known(dirs, n)
    && (forall i :: 0 <= i < |dirs| ==> Untouched(dirs[i].under, log))
    && LogOrdered(log, n)
  }

  lemma PopKeeps(dirs: seq<NewDir>, log: seq<Issued>, n: nat)
    requires PostOrder(dirs, log, n) && dirs != []
    ensures PostOrder(dirs[1..], log, n)
  {}

  lemma LogGrows(log: seq<Issued>, e: Issued, n: nat)
    requires LogOrdered(log, n) && Untouched(e.under, log) && (e.ends.Some? ==> e.ends.value < n)
    ensures LogOrdered(log + [e], n)
  {
    var log' := log + [e];
    forall l | 0 <= l < |log'| ensures Untouched(log'[l].under, log'[..l]) {
      assert log'[..l] == log[..l];
      assert l == |log| ==> log[..l] == log;
    }
  }

  lemma IssueKeeps(dirs: seq<NewDir>, log: seq<Issued>, n: nat, c: Command, under: set<nat>)
    requires PostOrder(dirs, log, n) && Untouched(under, log)
    ensures PostOrder(dirs, log + [Issued(c, under, None)], n)
    ensures Untouched(under, log + [Issued(c, under, None)])
  {
    LogGrows(log, Issued(c, under, None), n);
  }

  lemma {:induction false} IssueAllKeeps(dirs: seq<NewDir>, log: seq<Issued>, n: nat, cs: seq<Command>, under: set<nat>)
    requires PostOrder(dirs, log, n) && Untouched(under, log)
    ensures PostOrder(dirs, log + IssueAll(cs, under), n)
    ensures Untouched(under, log + IssueAll(cs, under))
    decreases |cs|
  {
    if cs == [] {
      assert log + IssueAll(cs, under) == log;
    } else {
      var (init, c) := (cs[..|cs| - 1], cs[|cs| - 1]);
      IssueAllKeeps(dirs, log, n, init, under);
      IssueKeeps(dirs, log + IssueAll(init, under), n, c, under);
      assert log + IssueAll(cs, under) == (log + IssueAll(init, under)) + [Issued(c, under, None)];
    }
  }

  lemma RemoveKeeps(dirs: seq<NewDir>, log: seq<Issued>, n: nat)
    requires PostOrder(dirs, log, n) && dirs != [] && !dirs[0].doVisit
    ensures var d := dirs[0];
            PostOrder(dirs[1..], log + [Issued(RemoveDir(d.parent, d.subdir), d.under, Some(d.visit))], n)
  {
    var d := dirs[0];
    LogGrows(log, Issued(RemoveDir(d.parent, d.subdir), d.under, Some(d.visit)), n);
  }

  /** New directories to visit, lying under visits that are not over, are put in front. */
  lemma PushKeeps(ds: seq<NewDir>, dirs: seq<NewDir>, log: seq<Issued>, n: nat, under: set<nat>)
    requires PostOrder(dirs, log, n) && Untouched(under, log) && forall v :: v in under ==> v < n
    requires forall i :: 0 <= i < |ds| ==> ds[i].doVisit && ds[i].under == under
    ensures PostOrder(ds + dirs, log, n)
  {}

  lemma MarkerKeeps(mode: Mode, d: NewDir, dirs: seq<NewDir>, log: seq<Issued>, n: nat)
    requires PostOrder(dirs, log, n) && Untouched(d.under, log) && forall v :: v in d.under ==> v < n
    ensures PostOrder(Marker(mode, d, n) + dirs, log, n + 1)
    ensures Untouched(d.under + {n}, log)
  {}

  predicate ChildOf(c: NewDir, d: NewDir, under: set<nat>) {
    c.doVisit && !c.secondTry && c.under == under && c.startDir == d.startDir && c.link != 2
  }

  predicate AllChildren(ds: seq<NewDir>, d: NewDir, under: set<nat>) {
    forall i :: 0 <= i < |ds| ==> ChildOf(ds[i], d, under)
  }

  lemma {:induction false} ChildrenVisit(mode: Mode, path: Path, d: NewDir, entries: seq<DirEntry>, under: set<nat>)
    ensures AllChildren(Children(mode, path, d, entries, under), d, under)
    decreases |entries|
  {
    if entries != [] {
      ChildrenVisit(mode, path, d, entries[1..], under);
      assert Children(mode, path, d, entries, under)
          == EntryDirs(mode, path, d, entries[0], under) + Children(mode, path, d, entries[1..], under);
    }
  }

  // ---------------------------------------------------------------- each removal once

  predicate Queued(dirs: seq<NewDir>, i: nat, v: nat) {
    i < |dirs| && !dirs[i].doVisit && dirs[i].visit == v
  }

  /** A begun visit has its removal either queued or issued, never both and never twice. */
  ghost predicate Accounted(dirs: seq<NewDir>, log: seq<Issued>, begun: set<nat>, n: nat) {
    && (forall v :: v in begun ==> v < n && ((exists i: nat :: Queued(dirs, i, v)) || exists l: nat :: Ends(log, l, v)))
    && (forall i: nat, v :: Queued(dirs, i, v) ==> v in begun && forall l: nat :: !Ends(log, l, v))
    && (forall i: nat, j: nat, v :: Queued(dirs, i, v) && Queued(dirs, j, v) ==> i == j)
    && (forall l: nat, v :: Ends(log, l, v) ==> v in begun)
    && (forall l: nat, m: nat, v :: Ends(log, l, v) && Ends(log, m, v) ==> l == m)
  }

  /** A directory to visit is taken off; a visited one comes back as it was. */
  lemma PopAccounted(dirs: seq<NewDir>, log: seq<Issued>, begun: set<nat>, n: nat)
    requires Accounted(dirs, log, begun, n) && dirs != [] && dirs[0].doVisit
    ensures Accounted(dirs[1..], log, begun, n)
  {
    var rest := dirs[1..];
    forall i: nat, v ensures Queued(rest, i, v) <==> Queued(dirs, i + 1, v) {}
    forall v | v in begun ensures (exists i: nat :: Queued(rest, i, v)) || exists l: nat :: Ends(log, l, v) {
      if i: nat :| Queued(dirs, i, v) { assert Queued(rest, i - 1, v); }
    }
  }

  lemma RemoveAccounted(dirs: seq<NewDir>, log: seq<Issued>, begun: set<nat>, n: nat, e: Issued)
    requires Accounted(dirs, log, begun, n) && dirs != [] && !dirs[0].doVisit && e.ends == Some(dirs[0].visit)
    ensures Accounted(dirs[1..], log + [e], begun, n)
  {
    var (rest, log') := (dirs[1..], log + [e]);
    forall i: nat, v ensures Queued(rest, i, v) <==> Queued(dirs, i + 1, v) {}
    forall l: nat, v ensures Ends(log', l, v) <==> Ends(log, l, v) || (l == |log| && v == dirs[0].visit) {}
    assert Queued(dirs, 0, dirs[0].visit);
    forall v | v in begun ensures (exists i: nat :: Queued(rest, i, v)) || exists l: nat :: Ends(log', l, v) {
      if i: nat :| Queued(dirs, i, v) {
        if i > 0 { assert Queued(rest, i - 1, v); } else { assert Ends(log', |log|, v); }
      } else {
        var l: nat :| Ends(log, l, v);
        assert Ends(log', l, v);
      }
    }
  }

  lemma IssueAccounted(dirs: seq<NewDir>, log: seq<Issued>, begun: set<nat>, n: nat, es: seq<Issued>)
    requires Accounted(dirs, log, begun, n) && forall i :: 0 <= i < |es| ==> es[i].ends.None?
    ensures Accounted(dirs, log + es, begun, n)
  {
    forall l: nat, v ensures Ends(log + es, l, v) <==> Ends(log, l, v) {}
  }

  lemma PushAccounted(ds: seq<NewDir>, dirs: seq<NewDir>, log: seq<Issued>, begun: set<nat>, n: nat)
    requires Accounted(dirs, log, begun, n) && forall i :: 0 <= i < |ds| ==> ds[i].doVisit
    ensures Accounted(ds + dirs, log, begun, n)
  {
    var all := ds + dirs;
    forall i: nat, v ensures Queued(all, i, v) <==> i >= |ds| && Queued(dirs, i - |ds|, v) {}
    forall v | v in begun ensures (exists i: nat :: Queued(all, i, v)) || exists l: nat :: Ends(log, l, v) {
      if i: nat :| Queued(dirs, i, v) { assert Queued(all, i + |ds|, v); }
    }
  }

  lemma MarkerAccounted(m: NewDir, dirs: seq<NewDir>, log: seq<Issued>, begun: set<nat>, n: nat)
    requires Accounted(dirs, log, begun, n) && !m.doVisit && m.visit == n
    ensures Accounted([m] + dirs, log, begun + {n}, n + 1)
  {
    var all := [m] + dirs;
    forall i: nat, v ensures Queued(all, i, v) <==> (i == 0 && v == n) || (i > 0 && Queued(dirs, i - 1, v)) {}
    assert Queued(all, 0, n);
    forall v | v in begun ensures (exists i: nat :: Queued(all, i, v)) || exists l: nat :: Ends(log, l, v) {
      if i: nat :| Queued(dirs, i, v) { assert Queued(all, i + 1, v); }
    }
  }

  /** A removal names the directory whose visit it ends. */
  ghost predicate Named(dirs: seq<NewDir>, log: seq<Issued>, visits: seq<NewDir>) {
    && (forall i: nat, v: nat :: Queued(dirs, i, v) ==>
          v < |visits| && dirs[i].parent == visits[v].parent && dirs[i].subdir == visits[v].subdir && dirs[i].under == visits[v].under)
    && (forall l: nat, v: nat :: Ends(log, l, v) ==>
          v < |visits| && log[l].command == RemoveDir(visits[v].parent, visits[v].subdir) && log[l].under == visits[v].under)
  }

  lemma PopNamed(dirs: seq<NewDir>, log: seq<Issued>, visits: seq<NewDir>)
    requires Named(dirs, log, visits) && dirs != []
    ensures Named(dirs[1..], log, visits)
    ensures !dirs[0].doVisit ==>
      var d := dirs[0]; Named(dirs[1..], log + [Issued(RemoveDir(d.parent, d.subdir), d.under, Some(d.visit))], visits)
  {
    var rest := dirs[1..];
    forall i: nat, v ensures Queued(rest, i, v) <==> Queued(dirs, i + 1, v) {}
    if !dirs[0].doVisit {
      assert Queued(dirs, 0, dirs[0].visit);
      var d := dirs[0];
      var log' := log + [Issued(RemoveDir(d.parent, d.subdir), d.under, Some(d.visit))];
      forall l: nat, v ensures Ends(log', l, v) <==> Ends(log, l, v) || (l == |log| && v == d.visit) {}
    }
  }

  lemma IssueNamed(dirs: seq<NewDir>, log: seq<Issued>, visits: seq<NewDir>, es: seq<Issued>)
    requires Named(dirs, log, visits) && forall i :: 0 <= i < |es| ==> es[i].ends.None?
    ensures Named(dirs, log + es, visits)
  {
    forall l: nat, v ensures Ends(log + es, l, v) <==> Ends(log, l, v) {}
  }

  lemma PushNamed(ds: seq<NewDir>, dirs: seq<NewDir>, log: seq<Issued>, visits: seq<NewDir>)
    requires Named(dirs, log, visits) && forall i :: 0 <= i < |ds| ==> ds[i].doVisit
    ensures Named(ds + dirs, log, visits)
  {
    forall i: nat, v ensures Queued(ds + dirs, i, v) <==> i >= |ds| && Queued(dirs, i - |ds|, v) {}
  }

  lemma MarkerNamed(mode: Mode, d: NewDir, dirs: seq<NewDir>, log: seq<Issued>, visits: seq<NewDir>)
    requires Named(dirs, log, visits)
    ensures Named(Marker(mode, d, |visits|) + dirs, log, visits + [d])
  {
    var ds := Marker(mode, d, |visits|);
    forall i: nat, v ensures Queued(ds + dirs, i, v) <==> (ds != [] && i == 0 && v == |visits|) || (i >= |ds| && Queued(dirs, i - |ds|, v)) {}
  }

  // ---------------------------------------------------------------- the deletion invariant

  /** What holds of the front root's directories and the history, between any two handlers. */
  ghost predicate Deletion(mode: Mode, dirs: seq<NewDir>, log: seq<Issued>, visits: seq<NewDir>, begun: set<nat>) {
    && PostOrder(dirs, log, |visits|)
    && Accounted(dirs, log, begun, |visits|)
    && Named(dirs, log, visits)
    && (mode != Delete ==> forall i :: 0 <= i < |dirs| ==> dirs[i].doVisit)
  }

  lemma PopDeletion(mode: Mode, dirs: seq<NewDir>, log: seq<Issued>, visits: seq<NewDir>, begun: set<nat>)
    requires Deletion(mode, dirs, log, visits, begun) && dirs != [] && dirs[0].doVisit
    ensures Deletion(mode, dirs[1..], log, visits, begun)
    ensures Untouched(dirs[0].under, log) && forall v :: v in dirs[0].under ==> v < |visits|
  {
    PopKeeps(dirs, log, |visits|);
    PopAccounted(dirs, log, begun, |visits|);
    PopNamed(dirs, log, visits);
  }

  lemma RemoveDeletion(mode: Mode, dirs: seq<NewDir>, log: seq<Issued>, visits: seq<NewDir>, begun: set<nat>)
    requires Deletion(mode, dirs, log, visits, begun) && dirs != [] && !dirs[0].doVisit
    ensures var d := dirs[0];
            Deletion(mode, dirs[1..], log + [Issued(RemoveDir(d.parent, d.subdir), d.under, Some(d.visit))], visits, begun)
  {
    var d := dirs[0];
    RemoveKeeps(dirs, log, |visits|);
    RemoveAccounted(dirs, log, begun, |visits|, Issued(RemoveDir(d.parent, d.subdir), d.under, Some(d.visit)));
    PopNamed(dirs, log, visits);
  }

  lemma IssueDeletion(mode: Mode, dirs: seq<NewDir>, log: seq<Issued>, visits: seq<NewDir>, begun: set<nat>,
                      cs: seq<Command>, under: set<nat>)
    requires Deletion(mode, dirs, log, visits, begun) && Untouched(under, log)
    ensures Deletion(mode, dirs, log + IssueAll(cs, under), visits, begun)
    ensures Untouched(under, log + IssueAll(cs, under))
  {
    IssueAllKeeps(dirs, log, |visits|, cs, under);
    IssueAccounted(dirs, log, begun, |visits|, IssueAll(cs, under));
    IssueNamed(dirs, log, visits, IssueAll(cs, under));
  }

  lemma PushDeletion(mode: Mode, ds: seq<NewDir>, dirs: seq<NewDir>, log: seq<Issued>, visits: seq<NewDir>, begun: set<nat>,
                     under: set<nat>)
    requires Deletion(mode, dirs, log, visits, begun) && Untouched(under, log) && forall v :: v in under ==> v < |visits|
    requires forall i :: 0 <= i < |ds| ==> ds[i].doVisit && ds[i].under == under
    ensures Deletion(mode, ds + dirs, log, visits, begun)
  {
    PushKeeps(ds, dirs, log, |visits|, under);
    PushAccounted(ds, dirs, log, begun, |visits|);
    PushNamed(ds, dirs, log, visits);
  }

  lemma BeginDeletion(mode: Mode, d: NewDir, dirs: seq<NewDir>, log: seq<Issued>, visits: seq<NewDir>, begun: set<nat>)
    requires Deletion(mode, dirs, log, visits, begun)
    requires Untouched(d.under, log) && forall v :: v in d.under ==> v < |visits|
    ensures var ds := Marker(mode, d, |visits|);
            Deletion(mode, ds + dirs, log, visits + [d], begun + (if ds == [] then {} else {|visits|}))
    ensures Untouched(d.under + {|visits|}, log)
  {
    MarkerKeeps(mode, d, dirs, log, |visits|);
    MarkerNamed(mode, d, dirs, log, visits);
    var ds := Marker(mode, d, |visits|);
    if ds != [] {
      MarkerAccounted(ds[0], dirs, log, begun, |visits|);
      assert ds == [ds[0]];
    } else {
      assert ds + dirs == dirs;
      assert begun + {} == begun;
    }
  }
}
