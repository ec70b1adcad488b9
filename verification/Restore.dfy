// Restoring a recorded tree: obsolete paths go deepest first, then the
// recorded directories and then the recorded files and links are written.
module Restore {
  import opened Paths
  import opened Tree
  import opened Project
  import opened Manifest
  import opened Scan

  // Directories come first, and otherwise paths are in order.
  predicate EntryBefore(left: Entry, right: Entry) {
    if left.kind.KindDirectory? != right.kind.KindDirectory? then left.kind.KindDirectory?
    else !Less(right.path, left.path)
  }

  lemma EntryBeforeIsTotal()
    ensures TotalOrder(EntryBefore)
  {
    forall x: Entry, y: Entry, z: Entry
      ensures EntryBefore(x, y) || EntryBefore(y, x)
      ensures EntryBefore(x, y) && EntryBefore(y, z) ==> EntryBefore(x, z)
    {
      NotLess(x.path, y.path, z.path);
    }
  }

  ghost function SetOf(paths: seq<Path>): set<Path> {
    set p | p in paths
  }

  // The path and all that lies below it are among the paths to remove.
  ghost predicate Doomed(t: Tree, paths: set<Path>, p: Path) {
    p in paths && forall q :: q in t && Ancestor(p, q) ==> q in paths
  }

  ghost function DoomedAmong(t: Tree, paths: set<Path>, some: set<Path>): set<Path> {
    set p | p in some && Doomed(t, paths, p)
  }

  // What remains when these paths are removed, but no directory that holds
  // any other path.
  ghost function Kept(t: Tree, paths: set<Path>): Tree {
    t - DoomedAmong(t, paths, paths)
  }

  // Removes paths of the tree from the last one to the first. A directory goes
  // exactly when all that lies below it goes too.
  method RemoveObsolete(project: Project, obsolete: seq<Path>) returns (ok: bool, removed: nat)
    requires Closed(project.tree) && Ascending(obsolete)
    requires forall i :: 0 <= i < |obsolete| ==> obsolete[i] in project.tree
    modifies project
    ensures ok && Closed(project.tree)
    ensures project.tree == Kept(old(project.tree), SetOf(obsolete))
    ensures removed == |old(project.tree)| - |project.tree|
  {
    ghost var t := project.tree;
    ghost var paths := SetOf(obsolete);
    removed := 0;
    var index := |obsolete|;
    while index > 0
      invariant 0 <= index <= |obsolete| && Closed(project.tree)
      invariant project.tree == t - DoomedAmong(t, paths, SetOf(obsolete[index..]))
      invariant removed == |t| - |project.tree|
    {
      index := index - 1;
      var p := obsolete[index];
      ghost var before := project.tree;
      RemovesWhenDoomed(t, before, obsolete, index);
      var removal := project.RemovePath(p);
      if removal == NotEmpty {
        continue;
      }
      if removal != Removed {
        return false, removed;
      }
      OneLess(before, p);
      removed := removed + 1;
    }
    assert obsolete[0..] == obsolete;
    ok := true;
  }

  lemma OneLess(t: Tree, p: Path)
    requires p in t
    ensures |t - {p}| == |t| - 1
  {
    assert t == (t - {p})[p := t[p]];
  }

  lemma FirstOfRest(paths: seq<Path>, i: nat)
    requires Ascending(paths) && i < |paths|
    ensures SetOf(paths[i..]) == SetOf(paths[i + 1..]) + {paths[i]}
    ensures paths[i] !in paths[i + 1..]
  {
    assert paths[i..] == [paths[i]] + paths[i + 1..];
    LessIsTotal(paths[i], paths[i]);
    assert forall j :: i < j < |paths| ==> Less(paths[i], paths[j]);
  }

  lemma LaterByOrder(paths: seq<Path>, i: nat, j: nat)
    requires Ascending(paths) && i < |paths| && j < |paths| && Less(paths[i], paths[j])
    ensures i < j
  {
    LessIsTotal(paths[i], paths[j]);
  }

  lemma BelowIsLater(paths: seq<Path>, i: nat, q: Path)
    requires Ascending(paths) && i < |paths| && q in paths && Ancestor(paths[i], q)
    ensures q in paths[i + 1..]
  {
    AncestorIsLess(paths[i], q);
    var j :| 0 <= j < |paths| && paths[j] == q;
    LaterByOrder(paths, i, j);
    assert paths[i + 1..][j - i - 1] == q;
  }

  lemma DoomIsInherited(t: Tree, paths: set<Path>, p: Path, q: Path)
    requires Doomed(t, paths, p) && q in t && Ancestor(p, q)
    ensures Doomed(t, paths, q)
  {
    forall r | r in t && Ancestor(q, r)
      ensures r in paths
    {
      AncestorIsTransitive(p, q, r);
    }
  }

  // When all that lies below a path is dealt with, the path is empty exactly
  // when it is doomed.
  lemma EmptyWhenDoomed(t: Tree, t': Tree, paths: set<Path>, done: set<Path>, p: Path)
    requires Closed(t) && Closed(t') && t' == t - DoomedAmong(t, paths, done)
    requires p in t && p in paths && p !in done
    requires forall q :: q in paths && Ancestor(p, q) ==> q in done
    ensures p in t' && WayIsFree(t', p)
    ensures Doomed(t, paths, p) <==> !HasChildren(t', p)
    ensures t - DoomedAmong(t, paths, done + {p}) == if FullDirectory(t', p) then t' else t' - {p}
  {
    forall q | q in t && Ancestor(p, q)
      ensures Doomed(t, paths, p) ==> q !in t'
      ensures q !in paths ==> q in t'
    {
      if Doomed(t, paths, p) {
        DoomIsInherited(t, paths, p, q);
      }
    }
    assert DoomedAmong(t, paths, done + {p}) == DoomedAmong(t, paths, done) + if Doomed(t, paths, p) then {p} else {};
  }

  lemma RemovesWhenDoomed(t: Tree, t': Tree, paths: seq<Path>, i: nat)
    requires Closed(t) && Closed(t') && Ascending(paths) && i < |paths| && paths[i] in t
    requires t' == t - DoomedAmong(t, SetOf(paths), SetOf(paths[i + 1..]))
    ensures paths[i] in t' && WayIsFree(t', paths[i])
    ensures t - DoomedAmong(t, SetOf(paths), SetOf(paths[i..])) == if FullDirectory(t', paths[i]) then t'
            else t' - {paths[i]}
  {
    FirstOfRest(paths, i);
    forall q | q in SetOf(paths) && Ancestor(paths[i], q)
      ensures q in SetOf(paths[i + 1..])
    {
      BelowIsLater(paths, i, q);
    }
    EmptyWhenDoomed(t, t', SetOf(paths), SetOf(paths[i + 1..]), paths[i]);
  }

  // The names that writing the files of some entries frees in the end.
  ghost function FileTemporaries(m: Manifest): set<Path> {
    set i | 0 <= i < |m| && m[i].kind.KindFile? :: Temporary(m[i].path)
  }

  // The tree with the nodes of some entries, and without the temporary names of
  // its files.
  ghost function Overwritten(t: Tree, m: Manifest, objects: Objects): Tree {
    (t - FileTemporaries(m)) + TreeOf(m, objects)
  }

  // Every directory on the way to an entry comes before it or stays as it is, no
  // node of the tree lies below a file or link to write, and no temporary name
  // is taken by an entry or by a directory that is not empty.
  ghost predicate ReadyToWrite(t: Tree, ordered: Manifest, objects: Objects) {
    && UniquePaths(ordered) && ContentsStored(ordered, objects)
    && (forall i, a :: 0 <= i < |ordered| && Ancestor(a, ordered[i].path) ==>
          DirectoryBefore(ordered, i, a) || DirectoryStays(t, ordered, a))
    && (forall i, q :: 0 <= i < |ordered| && q in t && Ancestor(ordered[i].path, q) ==> ordered[i].kind.KindDirectory?)
    && (forall i :: 0 <= i < |ordered| && ordered[i].kind.KindFile? ==>
          !FullDirectory(t, Temporary(ordered[i].path)) && Temporary(ordered[i].path) !in PathSet(ordered))
  }

  ghost predicate DirectoryBefore(ordered: Manifest, i: int, a: Path) {
    exists j :: 0 <= j < i && j < |ordered| && ordered[j].path == a && ordered[j].kind.KindDirectory?
  }

  ghost predicate DirectoryStays(t: Tree, ordered: Manifest, a: Path) {
    a in t && t[a].Dir? && a !in PathSet(ordered) && a !in FileTemporaries(ordered)
  }

  // No path is touched but the recorded ones, their temporary names and
  // missing directories on the way.
  ghost predicate OnlyWrites(t: Tree, t': Tree, m: Manifest) {
    forall q :: q !in PathSet(m) && q !in Temporaries(m) ==>
      if q in t then q in t' && t'[q] == t[q]
      else q in t' ==> t'[q].Dir?
  }

  ghost function Temporaries(m: Manifest): set<Path> {
    set i | 0 <= i < |m| :: Temporary(m[i].path)
  }

  // Nothing may lie below a file or link, or below the temporary name of a file.
  predicate MayHold(entry: Entry, q: Path) {
    && (Ancestor(entry.path, q) ==> entry.kind.KindDirectory?)
    && (Ancestor(Temporary(entry.path), q) ==> !entry.kind.KindFile?)
  }

  // No node lies below a file or link of the done entries or below a temporary
  // name, but for the recorded paths and temporary names.
  ghost predicate NothingBelowFiles(t: Tree, done: Manifest, m: Manifest) {
    forall i, q :: 0 <= i < |done| && q in t && q !in PathSet(m) && q !in Temporaries(m) ==> MayHold(done[i], q)
  }

  lemma NothingBelowWritten(t: Tree, before: Tree, t': Tree, m: Manifest, i: nat)
    requires i < |m| && NothingBelowFiles(t, m[..i], m) && OnlyWrites(t, before, m) && OnlyWrites(t, t', m)
    requires Closed(before) && Closed(t') && Writable(before, m[i])
    requires m[i].path in t' && (t'[m[i].path].Dir? ==> m[i].kind.KindDirectory?)
    ensures NothingBelowFiles(t, m[..i + 1], m)
  {
    forall q | q in t && q !in PathSet(m) && q !in Temporaries(m)
      ensures MayHold(m[i], q)
    {
      assert q in before && q in t';
      if Ancestor(Temporary(m[i].path), q) {
        assert HasChildren(before, Temporary(m[i].path));
      }
    }
    assert forall k :: 0 <= k < i ==> m[..i + 1][k] == m[..i][k];
  }

  // Writes entries in order until one fails.
  method WriteEntries(project: Project, ordered: Manifest, objects: Objects) returns (ok: bool, written: nat)
    requires Closed(project.tree)
    modifies project
    ensures Closed(project.tree) && OnlyWrites(old(project.tree), project.tree, ordered)
    ensures ok ==> NothingBelowFiles(old(project.tree), ordered, ordered)
    ensures ReadyToWrite(old(project.tree), ordered, objects) ==>
      ok && written == |ordered| && project.tree == Overwritten(old(project.tree), ordered, objects)
  {
    hide OnlyWrites, ReadyToWrite, Closed, Writable, Placed, OnlyTouches, TreeOf, Overwritten, NothingBelowFiles;
    ghost var t := project.tree;
    ghost var ready := ReadyToWrite(t, ordered, objects);
    NothingIsWritten(t, ordered, objects);
    written := 0;
    while written < |ordered|
      invariant written <= |ordered| && Closed(project.tree)
      invariant OnlyWrites(t, project.tree, ordered)
      invariant NothingBelowFiles(t, ordered[..written], ordered)
      invariant ready ==> project.tree == Overwritten(t, ordered[..written], objects)
    {
      var entry := ordered[written];
      if ready {
        NextIsWritable(t, ordered, objects, written);
      }
      if !entry.kind.KindDirectory? && entry.digest !in objects {
        return false, written;
      }
      ghost var before := project.tree;
      ok := project.WriteEntry(entry, ContentOf(entry, objects));
      WritesCompose(t, before, project.tree, ordered, written);
      if !ok {
        return;
      }
      EntryIsPlaced(before, entry, ContentOf(entry, objects));
      NothingBelowWritten(t, before, project.tree, ordered, written);
      written := written + 1;
    }
    assert ordered[..|ordered|] == ordered;
    ok := true;
  }

  lemma NothingIsWritten(t: Tree, m: Manifest, objects: Objects)
    ensures OnlyWrites(t, t, m) && Overwritten(t, m[..0], objects) == t && NothingBelowFiles(t, m[..0], m)
  {
  }

  lemma EntryIsPlaced(t: Tree, entry: Entry, content: Content)
    ensures entry.path in Placed(t, entry, content) && Placed(t, entry, content)[entry.path] == NodeOf(entry, content)
  {
  }

  lemma WritesCompose(t: Tree, before: Tree, t': Tree, m: Manifest, i: nat)
    requires i < |m| && OnlyWrites(t, before, m) && OnlyTouches(before, t', m[i].path)
    ensures OnlyWrites(t, t', m)
  {
    assert m[i].path in PathSet(m) && Temporary(m[i].path) in Temporaries(m);
  }

  lemma PrefixIndex(ordered: Manifest, i: nat, p: Path)
    requires i <= |ordered|
    ensures p in Index(ordered[..i]) <==> exists j :: 0 <= j < i && ordered[j].path == p
    ensures UniquePaths(ordered) ==> forall j :: 0 <= j < i && ordered[j].path == p ==>
                                       Index(ordered[..i])[p] == ordered[j]
  {
    var front := ordered[..i];
    IndexHolds(front, p);
    if exists j :: 0 <= j < i && ordered[j].path == p {
      var j :| 0 <= j < i && ordered[j].path == p;
      assert front[j].path == p;
    }
    if UniquePaths(ordered) {
      forall j | 0 <= j < i && ordered[j].path == p
        ensures Index(front)[p] == ordered[j]
      {
        assert UniquePaths(front) && front[j] == ordered[j];
        IndexOfUnique(front, j);
      }
    }
  }

  // When all is ready, the next entry can be written and only adds its node.
  lemma NextIsWritable(t: Tree, ordered: Manifest, objects: Objects, i: nat)
    requires ReadyToWrite(t, ordered, objects) && i < |ordered|
    ensures var now := Overwritten(t, ordered[..i], objects);
            && Writable(now, ordered[i])
            && Placed(now, ordered[i], ContentOf(ordered[i], objects)) == Overwritten(t, ordered[..i + 1], objects)
    ensures ordered[i].kind.KindDirectory? || ordered[i].digest in objects
  {
    var now := Overwritten(t, ordered[..i], objects);
    if !ordered[i].kind.KindDirectory? {
      NothingBelow(t, ordered, objects, i, ordered[i].path);
    }
    if ordered[i].kind.KindFile? {
      TemporaryIsFree(t, ordered, objects, i);
    }
    ParentsAreWritten(t, ordered, objects, i);
    hide ReadyToWrite, ParentsExist, HasChildren, Writable, Placed, Overwritten, FullDirectory;
    FreePlace(now, ordered[i], ContentOf(ordered[i], objects));
    OverwrittenGrows(t, ordered, objects, i);
  }

  lemma ParentsAreWritten(t: Tree, ordered: Manifest, objects: Objects, i: nat)
    requires ReadyToWrite(t, ordered, objects) && i < |ordered|
    ensures ParentsExist(Overwritten(t, ordered[..i], objects), ordered[i].path)
    ensures ordered[i].kind.KindDirectory? || ordered[i].digest in objects
  {
    var now := Overwritten(t, ordered[..i], objects);
    forall a | Ancestor(a, ordered[i].path)
      ensures a in now && now[a].Dir?
    {
      assert DirectoryBefore(ordered, i, a) || DirectoryStays(t, ordered, a);
      PrefixIndex(ordered, i, a);
      FewerTemporaries(ordered, i);
    }
  }

  lemma FewerTemporaries(ordered: Manifest, i: nat)
    requires i <= |ordered|
    ensures FileTemporaries(ordered[..i]) <= FileTemporaries(ordered)
    ensures i < |ordered| ==>
      FileTemporaries(ordered[..i + 1]) ==
      FileTemporaries(ordered[..i]) + if ordered[i].kind.KindFile? then {Temporary(ordered[i].path)} else {}
  {
    assert forall j :: 0 <= j < i ==> ordered[..i][j] == ordered[j];
    if i < |ordered| {
      assert forall j :: 0 <= j < i + 1 ==> ordered[..i + 1][j] == ordered[j];
    }
  }

  // An entry with its parents in place and nothing in its way adds its node, and
  // frees its temporary name when it is a file.
  lemma FreePlace(now: Tree, entry: Entry, content: Content)
    requires ParentsExist(now, entry.path)
    requires entry.kind.KindDirectory? || !HasChildren(now, entry.path)
    requires entry.kind.KindFile? ==> !FullDirectory(now, Temporary(entry.path))
    ensures Writable(now, entry)
    ensures Placed(now, entry, content) ==
            (if entry.kind.KindFile? then now - {Temporary(entry.path)} else now)[entry.path := NodeOf(entry, content)]
  {
    assert WithDirectories(now, Ancestors(entry.path)) == now;
  }

  lemma OverwrittenGrows(t: Tree, ordered: Manifest, objects: Objects, i: nat)
    requires ReadyToWrite(t, ordered, objects) && i < |ordered|
    ensures var now, entry := Overwritten(t, ordered[..i], objects), ordered[i];
            Overwritten(t, ordered[..i + 1], objects) ==
            (if entry.kind.KindFile? then now - {Temporary(entry.path)}
             else now)[entry.path := NodeOf(entry, ContentOf(entry, objects))]
  {
    var entry := ordered[i];
    FewerTemporaries(ordered, i);
    TreeOfGrows(ordered, objects, i);
    PrefixIndex(ordered, i, Temporary(entry.path));
    var written := TreeOf(ordered[..i], objects);
    assert entry.kind.KindFile? ==> Temporary(entry.path) !in written;
    hide ReadyToWrite, TreeOf, FileTemporaries;
    WithoutThenOver(t, FileTemporaries(ordered[..i]), written, Temporary(entry.path), entry.path,
                    NodeOf(entry, ContentOf(entry, objects)));
  }

  lemma WithoutThenOver(t: Tree, gone: set<Path>, over: Tree, temporary: Path, p: Path, node: Node)
    ensures (t - gone) + over[p := node] == ((t - gone) + over)[p := node]
    ensures temporary !in over ==>
            (t - (gone + {temporary})) + over[p := node] == (((t - gone) + over) - {temporary})[p := node]
    ensures t - (gone + {}) == t - gone
  {
  }

  lemma TreeOfGrows(ordered: Manifest, objects: Objects, i: nat)
    requires i < |ordered|
    ensures TreeOf(ordered[..i + 1], objects)
         == TreeOf(ordered[..i], objects)[ordered[i].path := NodeOf(ordered[i], ContentOf(ordered[i], objects))]
  {
    assert ordered[..i + 1][..i] == ordered[..i];
  }

  // Nothing is written below a place that is no planned directory.
  lemma NothingBelow(t: Tree, ordered: Manifest, objects: Objects, i: nat, p: Path)
    requires ReadyToWrite(t, ordered, objects) && i < |ordered|
    requires !ordered[i].kind.KindDirectory?
             && (p == ordered[i].path || (ordered[i].kind.KindFile? && p == Temporary(ordered[i].path)))
    requires p == ordered[i].path || !HasChildren(t, p)
    ensures !HasChildren(Overwritten(t, ordered[..i], objects), p)
  {
    forall q | q in t || q in Index(ordered[..i])
      ensures !Ancestor(p, q)
    {
      PrefixIndex(ordered, i, q);
      if q in Index(ordered[..i]) {
        var k :| 0 <= k < i && ordered[k].path == q;
        RecordedIsNotBelow(t, ordered, objects, i, k, p);
      }
    }
  }

  lemma RecordedIsNotBelow(t: Tree, ordered: Manifest, objects: Objects, i: nat, k: nat, p: Path)
    requires ReadyToWrite(t, ordered, objects) && i < |ordered| && k < |ordered| && !ordered[i].kind.KindDirectory?
    requires p == ordered[i].path || (ordered[i].kind.KindFile? && p == Temporary(ordered[i].path))
    ensures !Ancestor(p, ordered[k].path)
  {
    if p == ordered[i].path {
      assert forall j :: 0 <= j < |ordered| && ordered[j].path == p ==> j == i;
    } else {
      assert p in FileTemporaries(ordered) && p !in PathSet(ordered);
    }
    assert !DirectoryBefore(ordered, k, p) && !DirectoryStays(t, ordered, p);
  }

  lemma TemporaryIsFree(t: Tree, ordered: Manifest, objects: Objects, i: nat)
    requires ReadyToWrite(t, ordered, objects) && i < |ordered| && ordered[i].kind.KindFile?
    ensures !FullDirectory(Overwritten(t, ordered[..i], objects), Temporary(ordered[i].path))
  {
    var p := Temporary(ordered[i].path);
    PrefixIndex(ordered, i, p);
    if !HasChildren(t, p) {
      NothingBelow(t, ordered, objects, i, p);
    }
  }

  // The recorded entries can all be written over what is kept: the recording is
  // a tree, its contents are stored, nothing kept lies below a recorded file or
  // link, and no temporary name is taken by an entry or a full directory.
  ghost predicate Restorable(kept: Tree, recorded: Manifest, objects: Objects) {
    && UniquePaths(recorded) && ClosedManifest(recorded) && ContentsStored(recorded, objects)
    && (forall i, q :: 0 <= i < |recorded| && q in kept && Ancestor(recorded[i].path, q) ==>
          recorded[i].kind.KindDirectory?)
    && (forall i :: 0 <= i < |recorded| && recorded[i].kind.KindFile? ==>
          !FullDirectory(kept, Temporary(recorded[i].path)) && Temporary(recorded[i].path) !in PathSet(recorded))
  }

  lemma OrderedIsReady(kept: Tree, recorded: Manifest, ordered: Manifest, objects: Objects)
    requires Restorable(kept, recorded, objects)
    requires multiset(recorded) == multiset(ordered) && SortedBy(EntryBefore, ordered)
    ensures ReadyToWrite(kept, ordered, objects)
  {
    UniqueByCount(recorded, ordered);
    SameElements(recorded, ordered);
    forall i | 0 <= i < |ordered|
      ensures exists j :: 0 <= j < |recorded| && recorded[j] == ordered[i]
    {
      assert ordered[i] in recorded;
    }
    forall i, a | 0 <= i < |ordered| && Ancestor(a, ordered[i].path)
      ensures DirectoryBefore(ordered, i, a)
    {
      ParentComesBefore(recorded, ordered, i, a);
    }
  }

  lemma ParentComesBefore(recorded: Manifest, ordered: Manifest, i: nat, a: Path)
    requires ClosedManifest(recorded) && SortedBy(EntryBefore, ordered)
    requires (forall e :: e in recorded <==> e in ordered) && i < |ordered| && Ancestor(a, ordered[i].path)
    ensures DirectoryBefore(ordered, i, a)
  {
    assert ordered[i] in recorded;
    var k :| 0 <= k < |recorded| && recorded[k] == ordered[i];
    IndexHolds(recorded, a);
    var parent := Index(recorded)[a];
    assert parent in ordered;
    var j :| 0 <= j < |ordered| && ordered[j] == parent;
    AncestorIsLess(a, ordered[i].path);
    assert i < j ==> EntryBefore(ordered[i], ordered[j]);
  }

  // Outside of the recorded paths and their temporary names, what the scan
  // leaves out stays as it is, and nothing but missing directories is added.
  ghost predicate OnlyRestores(t: Tree, t': Tree, rule: Rule, recorded: Manifest) {
    forall q :: q !in PathSet(recorded) && q !in Temporaries(recorded) ==>
      && (q in t && !Visible(t, rule, q) ==> q in t' && t'[q] == t[q])
      && (q in t' ==> t'[q].Dir? || (q in t && t'[q] == t[q]))
  }

  // The visible paths that are not recorded.
  ghost function ObsoletePaths(t: Tree, rule: Rule, recorded: Manifest): set<Path> {
    VisiblePaths(t, rule) - PathSet(recorded)
  }

  // The scan leaves out this node, and neither recording nor writing needs its place.
  ghost predicate LeftOut(t: Tree, rule: Rule, recorded: Manifest, q: Path) {
    q in t && !Visible(t, rule, q) && q !in PathSet(recorded) && q !in Temporaries(recorded)
  }

  // No left out node lies below a recorded file or link, or below the temporary
  // name of a recorded file.
  ghost predicate NothingInTheWay(t: Tree, rule: Rule, recorded: Manifest) {
    forall i, q :: 0 <= i < |recorded| && LeftOut(t, rule, recorded, q) ==> MayHold(recorded[i], q)
  }

  method FindObsolete(present: Manifest, recorded: Manifest) returns (obsolete: seq<Path>)
    requires UniquePaths(present)
    ensures SetOf(obsolete) == PathSet(present) - PathSet(recorded)
    ensures Ascending(obsolete)
  {
    var keep := Index(recorded);
    IndexKeys(recorded);
    var found: seq<Path> := [];
    for index := 0 to |present|
      invariant forall p :: p in found <==> exists i :: 0 <= i < index && present[i].path == p && p !in keep
      invariant forall i, j :: 0 <= i < j < |found| ==> found[i] != found[j]
    {
      var entry := present[index];
      if entry.path !in keep {
        found := found + [entry.path];
      }
    }
    obsolete := Sort(PathBefore, found);
    SortedIsAscending(found);
  }

  // Restores a recorded tree. When it can, it leaves exactly the recorded nodes
  // over what is kept. Whether it finishes or stops, it keeps what is left out.
  method RestoreTree(project: Project, recorded: Manifest, objects: Objects, rule: Rule, hash: Hash)
      returns (ok: bool, removed: nat, written: nat)
    requires Closed(project.tree) && ProperPaths(project.tree)
    modifies project
    ensures Closed(project.tree) && OnlyRestores(old(project.tree), project.tree, rule, recorded)
    ensures !Fits(old(project.tree), VisiblePaths(old(project.tree), rule)) ==> !ok && project.tree == old(project.tree)
    ensures ok ==> NothingInTheWay(old(project.tree), rule, recorded)
    ensures var t := old(project.tree);
            var kept := Kept(t, ObsoletePaths(t, rule, recorded));
            Fits(t, VisiblePaths(t, rule)) && Restorable(kept, recorded, objects) ==>
              ok && project.tree == Overwritten(kept, recorded, objects) && removed == |t| - |kept|
                  && written == |recorded|
  {
    hide Kept, Restorable, NothingInTheWay, NothingBelowFiles, Temporaries, FileTemporaries, Overwritten, Fits, TreeOf,
      OnlyRestores, OnlyWrites, Closed, ProperPaths, IsScan, Ascending;
    ghost var t := project.tree;
    ghost var kept := Kept(t, ObsoletePaths(t, rule, recorded));
    NothingIsRestored(t, rule, recorded);
    var scanned, present := Scan.Scan(project.tree, rule, hash);
    if !scanned {
      return false, 0, 0;
    }
    ScanFacts(t, rule, hash, present);
    var obsolete := FindObsolete(present, recorded);
    assert SetOf(obsolete) == ObsoletePaths(t, rule, recorded);
    forall i | 0 <= i < |obsolete|
      ensures obsolete[i] in project.tree
    {
      assert obsolete[i] in SetOf(obsolete);
    }
    ok, removed := RemoveObsolete(project, obsolete);
    var ordered := Sort(EntryBefore, recorded);
    EntryBeforeIsTotal();
    SortSorts(EntryBefore, recorded);
    SameElements(recorded, ordered);
    if Restorable(kept, recorded, objects) {
      OrderedIsReady(kept, recorded, ordered, objects);
      SameTree(kept, recorded, ordered, objects);
    }
    SameTemporaries(recorded, ordered);
    SameTemporaries(ordered, recorded);
    ok, written := WriteEntries(project, ordered, objects);
    if ok {
      NothingWasInTheWay(t, rule, recorded, ordered);
    }
    RestoresCompose(t, project.tree, rule, recorded, ordered);
  }

  lemma NothingIsRestored(t: Tree, rule: Rule, recorded: Manifest)
    ensures OnlyRestores(t, t, rule, recorded)
  {
  }

  lemma ScanFacts(t: Tree, rule: Rule, hash: Hash, present: Manifest)
    requires IsScan(t, rule, hash, present)
    ensures UniquePaths(present) && PathSet(present) == VisiblePaths(t, rule)
    ensures forall p :: p in PathSet(present) ==> p in t
  {
  }

  lemma SameTree(kept: Tree, recorded: Manifest, ordered: Manifest, objects: Objects)
    requires Restorable(kept, recorded, objects) && multiset(recorded) == multiset(ordered)
    ensures Overwritten(kept, ordered, objects) == Overwritten(kept, recorded, objects) && |ordered| == |recorded|
  {
    IndexOfPermutation(recorded, ordered);
    SameElements(recorded, ordered);
    SameFileTemporaries(recorded, ordered);
    SameFileTemporaries(ordered, recorded);
  }

  lemma SameFileTemporaries(m: Manifest, n: Manifest)
    requires forall e :: e in m <==> e in n
    ensures FileTemporaries(m) <= FileTemporaries(n)
  {
    forall i | 0 <= i < |m| && m[i].kind.KindFile?
      ensures Temporary(m[i].path) in FileTemporaries(n)
    {
      assert m[i] in n;
      var j :| 0 <= j < |n| && n[j] == m[i];
    }
  }

  lemma RestoresCompose(t: Tree, t': Tree, rule: Rule, recorded: Manifest, ordered: Manifest)
    requires OnlyWrites(Kept(t, ObsoletePaths(t, rule, recorded)), t', ordered)
    requires PathSet(ordered) == PathSet(recorded) && Temporaries(ordered) == Temporaries(recorded)
    ensures OnlyRestores(t, t', rule, recorded)
  {
    var kept := Kept(t, ObsoletePaths(t, rule, recorded));
    forall q | q !in PathSet(recorded) && q !in Temporaries(recorded)
      ensures q in t && !Visible(t, rule, q) ==> q in t' && t'[q] == t[q]
      ensures q in t' ==> t'[q].Dir? || (q in t && t'[q] == t[q])
    {
      assert if q in kept then q in t' && t'[q] == kept[q] else q in t' ==> t'[q].Dir?;
    }
  }

  lemma SameTemporaries(m: Manifest, n: Manifest)
    requires forall e :: e in m <==> e in n
    ensures Temporaries(m) <= Temporaries(n)
  {
    forall i | 0 <= i < |m|
      ensures Temporary(m[i].path) in Temporaries(n)
    {
      assert m[i] in n;
      var j :| 0 <= j < |n| && n[j] == m[i];
    }
  }

  lemma NothingWasInTheWay(t: Tree, rule: Rule, recorded: Manifest, ordered: Manifest)
    requires NothingBelowFiles(Kept(t, ObsoletePaths(t, rule, recorded)), ordered, ordered)
    requires PathSet(ordered) == PathSet(recorded) && Temporaries(ordered) == Temporaries(recorded)
    requires forall e :: e in recorded <==> e in ordered
    ensures NothingInTheWay(t, rule, recorded)
  {
    var kept := Kept(t, ObsoletePaths(t, rule, recorded));
    forall i, q | 0 <= i < |recorded| && LeftOut(t, rule, recorded, q)
      ensures MayHold(recorded[i], q)
    {
      assert recorded[i] in ordered && q in kept;
      var j :| 0 <= j < |ordered| && ordered[j] == recorded[i];
    }
  }
}
