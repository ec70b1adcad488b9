// Restoring a recorded tree and then the tree before: when it gives back
// exactly what was there, left out nodes included.
module RestoreBack {
  import opened Paths
  import opened Tree
  import opened Project
  import opened Manifest
  import opened Scan
  import opened Restore
  import opened RestoreLaws

  // The recording has a file or link at this path or above it, or has its
  // temporary name there.
  ghost predicate InPlaceOf(m: Manifest, q: Path) {
    exists i :: 0 <= i < |m| && TakesPlace(m[i], q)
  }

  predicate TakesPlace(entry: Entry, q: Path) {
    || (!entry.kind.KindDirectory? && (q == entry.path || Ancestor(entry.path, q)))
    || (entry.kind.KindFile? && (q == Temporary(entry.path) || Ancestor(Temporary(entry.path), q)))
  }

  // The tree that a restore leaves.
  ghost function AfterRestore(t: Tree, rule: Rule, m: Manifest, objects: Objects): Tree {
    Overwritten(Kept(t, ObsoletePaths(t, rule, m)), m, objects)
  }

  // What must hold of the first restore: each left out node is recorded just as it
  // is, or is in the place of no recorded file or link.
  ghost predicate HasRoom(t: Tree, rule: Rule, m: Manifest, objects: Objects) {
    forall q :: q in t && !Visible(t, rule, q) ==>
      if q in TreeOf(m, objects) then TreeOf(m, objects)[q] == t[q] else !InPlaceOf(m, q)
  }

  // No left out node has the temporary name of a visible file, or lies below it.
  ghost predicate NamesAreFree(t: Tree, rule: Rule) {
    forall p, q :: p in VisiblePaths(t, rule) && t[p].File? && q in t && !Visible(t, rule, q) ==>
      q != Temporary(p) && !Ancestor(Temporary(p), q)
  }

  ghost predicate UsableModes(t: Tree, rule: Rule) {
    forall p :: p in VisiblePaths(t, rule) && t[p].File? ==> t[p].mode != 0
  }

  // What must hold of the rules at the second restore: they see all that the first
  // one adds, and they leave out what was left out before, or something below it.
  ghost predicate SeesAdded(t: Tree, t1: Tree, rule: Rule) {
    forall q :: q in t1 && q !in t ==> Visible(t1, rule, q)
  }

  ghost predicate StillLeftOut(t: Tree, t1: Tree, rule: Rule, later: Rule) {
    forall q :: q in t && !Visible(t, rule, q) ==> HoldsUnseen(t1, later, q)
  }

  ghost predicate HoldsUnseen(t: Tree, rule: Rule, q: Path) {
    exists r :: r in t && OnTheWay(q, r) && !Visible(t, rule, r)
  }

  // A recording made under any rules, and a recording of the present tree.
  ghost predicate Recordings(t: Tree, rule: Rule, hash: Hash, objects: Objects, wanted: Manifest, back: Manifest) {
    && Closed(t) && HidesTemporaries(rule)
    && SoundRecording(wanted, objects) && NamesNoTemporaries(wanted)
    && IsScan(t, rule, hash, back) && HoldsContents(t, rule, hash, objects)
  }

  // What the tree after a restore has at a path.
  lemma NodeAfter(t: Tree, rule: Rule, m: Manifest, objects: Objects, q: Path)
    ensures q in TreeOf(m, objects) <==> q in PathSet(m)
    ensures var t1 := AfterRestore(t, rule, m, objects);
            && (q in PathSet(m) ==> q in t1 && t1[q] == TreeOf(m, objects)[q])
            && (q !in PathSet(m) && q in t1 ==> q in t && t1[q] == t[q] && q !in FileTemporaries(m))
            && (q !in PathSet(m) && q in t && !Visible(t, rule, q) && q !in FileTemporaries(m) ==> q in t1)
            && (q !in PathSet(m) && q in t && q !in FileTemporaries(m) && HoldsUnrecorded(t, rule, m, q) ==> q in t1)
            && (q !in PathSet(m) && q in t1 && Visible(t, rule, q) ==> HoldsUnrecorded(t, rule, m, q))
  {
    IndexKeys(m);
  }

  // Something below the path is no obsolete path.
  ghost predicate HoldsUnrecorded(t: Tree, rule: Rule, m: Manifest, q: Path) {
    exists r :: r in t && Ancestor(q, r) && r !in ObsoletePaths(t, rule, m)
  }

  lemma RecordedNode(t0: Tree, rule: Rule, hash: Hash, objects: Objects, m: Manifest, q: Path)
    requires Closed(t0) && IsScan(t0, rule, hash, m) && HoldsContents(t0, rule, hash, objects)
    ensures q in PathSet(m) <==> Visible(t0, rule, q)
    ensures q in PathSet(m) ==> q in TreeOf(m, objects) && TreeOf(m, objects)[q] == Rewritten(t0[q])
    ensures forall a :: q in PathSet(m) && Ancestor(a, q) ==> a in PathSet(m)
  {
    ScanRecordsVisibleTree(t0, rule, hash, m, objects);
    forall a | q in PathSet(m) && Ancestor(a, q)
      ensures a in PathSet(m)
    {
      AncestorIsVisible(t0, rule, a, q);
    }
  }

  // What stands in the way of a restore is in the place of a file or link, and
  // what is below such a place stands in the way.
  lemma InTheWayIsInPlace(t: Tree, rule: Rule, m: Manifest, q: Path)
    requires UniquePaths(m) && ClosedManifest(m) && NamesNoTemporaries(m)
    requires q in t && !Visible(t, rule, q)
    ensures LeftOut(t, rule, m, q) && (exists i :: 0 <= i < |m| && !MayHold(m[i], q)) ==> InPlaceOf(m, q)
    ensures InPlaceOf(m, q) && q !in PathSet(m) && q !in FileTemporaries(m) ==>
      LeftOut(t, rule, m, q) && exists i :: 0 <= i < |m| && !MayHold(m[i], q)
  {
    if i :| 0 <= i < |m| && !MayHold(m[i], q) {
      assert TakesPlace(m[i], q);
    }
    if InPlaceOf(m, q) && q !in PathSet(m) && q !in FileTemporaries(m) {
      var i :| 0 <= i < |m| && TakesPlace(m[i], q);
      assert m[i].path in PathSet(m) && (m[i].kind.KindFile? ==> Temporary(m[i].path) in FileTemporaries(m));
      assert !MayHold(m[i], q);
      if k :| 0 <= k < |m| && Temporary(m[k].path) == q {
        TemporaryHasSameParents(m[k].path);
        NothingBelowPlace(m, i, k);
      }
    }
  }

  // No recorded path lies below a recorded file or link or a temporary name.
  lemma NothingBelowPlace(m: Manifest, i: nat, k: nat)
    requires UniquePaths(m) && ClosedManifest(m) && NamesNoTemporaries(m) && i < |m| && k < |m|
    ensures Ancestor(m[i].path, m[k].path) ==> m[i].kind.KindDirectory?
    ensures !Ancestor(Temporary(m[i].path), m[k].path)
  {
    assert m[k].path in PathSet(m);
    if Ancestor(m[i].path, m[k].path) {
      RecordedMeansDirectory(m, i, m[k].path);
    }
  }

  lemma BackIsSound(t: Tree, rule: Rule, hash: Hash, objects: Objects, wanted: Manifest, back: Manifest)
    requires Recordings(t, rule, hash, objects, wanted, back)
    ensures UniquePaths(wanted) && ClosedManifest(wanted)
    ensures SoundRecording(back, objects) && NamesNoTemporaries(back) && UniquePaths(back) && ClosedManifest(back)
  {
    ScansAreSound(t, rule, hash, back, objects);
    ScansNameNoTemporaries(t, rule, hash, back);
  }

  lemma NoFreedName(m: Manifest, q: Path)
    ensures q in FileTemporaries(m) ==> InPlaceOf(m, q)
  {
    if i :| 0 <= i < |m| && m[i].kind.KindFile? && Temporary(m[i].path) == q {
      assert TakesPlace(m[i], q);
    }
  }

  // With free names, a left out node is in the place of no visible file or link.
  lemma RoomForOwnFiles(t: Tree, rule: Rule, hash: Hash, m: Manifest, q: Path)
    requires Closed(t) && IsScan(t, rule, hash, m) && q in t && !Visible(t, rule, q)
    ensures InPlaceOf(m, q) <==>
      exists p :: p in VisiblePaths(t, rule) && t[p].File? && (q == Temporary(p) || Ancestor(Temporary(p), q))
  {
    if p :| p in VisiblePaths(t, rule) && t[p].File? && (q == Temporary(p) || Ancestor(Temporary(p), q)) {
      assert p in PathSet(m);
      var i :| 0 <= i < |m| && m[i].path == p;
      assert TakesPlace(m[i], q);
    }
    if i :| 0 <= i < |m| && TakesPlace(m[i], q) {
      assert m[i].path in PathSet(m) && m[i] == EntryOf(m[i].path, t[m[i].path], hash);
    }
  }

  // With room for it, the first restore is not stopped.
  lemma RoomIsEnough(t: Tree, rule: Rule, m: Manifest, objects: Objects)
    requires UniquePaths(m) && ClosedManifest(m) && NamesNoTemporaries(m)
    ensures HasRoom(t, rule, m, objects) ==> NothingInTheWay(t, rule, m)
  {
    IndexKeys(m);
    hide UniquePaths, ClosedManifest, NamesNoTemporaries, InPlaceOf, MayHold, Visible;
    forall i, q | 0 <= i < |m| && HasRoom(t, rule, m, objects) && LeftOut(t, rule, m, q)
      ensures MayHold(m[i], q)
    {
      InTheWayIsInPlace(t, rule, m, q);
    }
  }

  // With free names, and when it sees what was added, the second one is not
  // stopped either.
  lemma WayBackIsFree(t: Tree, rule: Rule, later: Rule, hash: Hash, objects: Objects, wanted: Manifest, back: Manifest,
                      t1: Tree)
    requires Recordings(t, rule, hash, objects, wanted, back) && t1 == AfterRestore(t, rule, wanted, objects)
    requires NamesAreFree(t, rule) && SeesAdded(t, t1, later)
    ensures NothingInTheWay(t1, later, back)
  {
    BackIsSound(t, rule, hash, objects, wanted, back);
    hide AfterRestore, HoldsContents, UniquePaths, ClosedManifest, NamesNoTemporaries, InPlaceOf, MayHold, Visible;
    forall i, q | 0 <= i < |back| && LeftOut(t1, later, back, q)
      ensures MayHold(back[i], q)
    {
      InTheWayIsInPlace(t1, later, back, q);
      assert q in t && !Visible(t, rule, q);
      RoomForOwnFiles(t, rule, hash, back, q);
    }
  }

  // Then the two restores give back each node.
  lemma GivesBack(t: Tree, rule: Rule, later: Rule, hash: Hash, objects: Objects, wanted: Manifest, back: Manifest,
                  t1: Tree, q: Path)
    requires Recordings(t, rule, hash, objects, wanted, back) && t1 == AfterRestore(t, rule, wanted, objects)
    requires Closed(t1) && HasRoom(t, rule, wanted, objects) && NamesAreFree(t, rule) && UsableModes(t, rule)
    requires SeesAdded(t, t1, later) && StillLeftOut(t, t1, rule, later)
    ensures var t2 := AfterRestore(t1, later, back, objects);
            (q in t <==> q in t2) && (q in t ==> t2[q] == t[q])
  {
    RecordedNode(t, rule, hash, objects, back, q);
    NodeAfter(t1, later, back, objects, q);
    NodeAfter(t, rule, wanted, objects, q);
    if q in t && !Visible(t, rule, q) {
      RoomForOwnFiles(t, rule, hash, back, q);
      NoFreedName(wanted, q);
      NoFreedName(back, q);
      assert q in t1 && t1[q] == t[q];
      StaysLeftOut(t, rule, later, hash, objects, back, t1, q);
    }
    if q !in t && q in AfterRestore(t1, later, back, objects) {
      var r :| r in t1 && Ancestor(q, r) && r !in ObsoletePaths(t1, later, back);
      RecordedNode(t, rule, hash, objects, back, r);
    }
  }

  // What holds something unseen stays in the second restore.
  lemma StaysLeftOut(t: Tree, rule: Rule, later: Rule, hash: Hash, objects: Objects, back: Manifest, t1: Tree, q: Path)
    requires Closed(t) && IsScan(t, rule, hash, back) && HoldsContents(t, rule, hash, objects)
    requires q in t && !Visible(t, rule, q) && q in t1 && q !in FileTemporaries(back) && HoldsUnseen(t1, later, q)
    ensures q in AfterRestore(t1, later, back, objects)
  {
    RecordedNode(t, rule, hash, objects, back, q);
    NodeAfter(t1, later, back, objects, q);
    var r :| r in t1 && OnTheWay(q, r) && !Visible(t1, later, r);
    hide AfterRestore;
  }

  // When no restore is stopped and a left out node comes back, there was room for
  // it, its names were free, and the later rules leave it out too.
  lemma CameBack(t: Tree, rule: Rule, later: Rule, hash: Hash, objects: Objects, wanted: Manifest, back: Manifest,
                 t1: Tree, q: Path)
    requires Recordings(t, rule, hash, objects, wanted, back) && t1 == AfterRestore(t, rule, wanted, objects)
    requires Closed(t1) && HidesTemporaries(later)
    requires NothingInTheWay(t, rule, wanted) && NothingInTheWay(t1, later, back)
    requires var t2 := AfterRestore(t1, later, back, objects); q in t2 && q in t && t2[q] == t[q]
    requires !Visible(t, rule, q)
    ensures if q in TreeOf(wanted, objects) then TreeOf(wanted, objects)[q] == t[q] else !InPlaceOf(wanted, q)
    ensures !InPlaceOf(back, q)
    ensures HoldsUnseen(t1, later, q)
  {
    BackIsSound(t, rule, hash, objects, wanted, back);
    RecordedNode(t, rule, hash, objects, back, q);
    NodeAfter(t1, later, back, objects, q);
    NodeAfter(t, rule, wanted, objects, q);
    InTheWayIsInPlace(t, rule, wanted, q);
    if InPlaceOf(back, q) {
      NotInOwnPlace(t, rule, later, hash, objects, back, t1, q);
    }
    if Visible(t1, later, q) {
      var r :| r in t1 && Ancestor(q, r) && r !in ObsoletePaths(t1, later, back);
      RecordedNode(t, rule, hash, objects, back, r);
      assert !Visible(t1, later, r);
    }
  }

  // A node that stays in the second restore is in the place of none of its files.
  lemma NotInOwnPlace(t: Tree, rule: Rule, later: Rule, hash: Hash, objects: Objects, back: Manifest, t1: Tree, q: Path)
    requires Closed(t) && IsScan(t, rule, hash, back) && SoundRecording(back, objects) && NamesNoTemporaries(back)
    requires HidesTemporaries(later) && NothingInTheWay(t1, later, back)
    requires q in t && q in t1 && !Visible(t, rule, q) && q !in FileTemporaries(back)
    ensures !InPlaceOf(back, q)
  {
    RoomForOwnFiles(t, rule, hash, back, q);
    forall i | 0 <= i < |back|
      ensures !TakesPlace(back[i], q)
    {
      assert back[i].path in PathSet(back) && back[i] == EntryOf(back[i].path, t[back[i].path], hash);
      assert back[i].kind.KindFile? ==> Temporary(back[i].path) in FileTemporaries(back);
      if Ancestor(Temporary(back[i].path), q) {
        BelowTemporaryIsLeftOut(t1, later, back, objects, i, q);
        assert MayHold(back[i], q);
      }
    }
  }

  // Restoring a recording and then the tree before gives back exactly that tree,
  // left out nodes included, if and only if there is room for the recording, the
  // temporary names are free, every file to record may be used, and the rules of
  // the second restore see what the first one added and nothing that it left out.
  lemma BackAgain(t: Tree, rule: Rule, later: Rule, hash: Hash, objects: Objects, wanted: Manifest, back: Manifest,
                  t1: Tree)
    requires Recordings(t, rule, hash, objects, wanted, back) && t1 == AfterRestore(t, rule, wanted, objects)
    requires Closed(t1) && HidesTemporaries(later)
    ensures NothingInTheWay(t, rule, wanted) && NothingInTheWay(t1, later, back)
            && AfterRestore(t1, later, back, objects) == t <==>
            HasRoom(t, rule, wanted, objects) && NamesAreFree(t, rule) && UsableModes(t, rule)
            && SeesAdded(t, t1, later) && StillLeftOut(t, t1, rule, later)
  {
    hide *;
    var t2 := AfterRestore(t1, later, back, objects);
    if HasRoom(t, rule, wanted, objects) && NamesAreFree(t, rule) && UsableModes(t, rule)
       && SeesAdded(t, t1, later) && StillLeftOut(t, t1, rule, later) {
      BackIsSound(t, rule, hash, objects, wanted, back);
      RecordingFacts(t, rule, hash, objects, wanted, back);
      RoomIsEnough(t, rule, wanted, objects);
      WayBackIsFree(t, rule, later, hash, objects, wanted, back, t1);
      forall q
        ensures (q in t <==> q in t2) && (q in t ==> t2[q] == t[q])
      {
        GivesBack(t, rule, later, hash, objects, wanted, back, t1, q);
      }
      assert t2 == t;
    }
    if NothingInTheWay(t, rule, wanted) && NothingInTheWay(t1, later, back) && t2 == t {
      CameBackMeans(t, rule, later, hash, objects, wanted, back, t1);
    }
  }

  lemma RecordingFacts(t: Tree, rule: Rule, hash: Hash, objects: Objects, wanted: Manifest, back: Manifest)
    requires Recordings(t, rule, hash, objects, wanted, back)
    ensures SoundRecording(wanted, objects) && NamesNoTemporaries(wanted)
  {
  }

  lemma CameBackMeans(t: Tree, rule: Rule, later: Rule, hash: Hash, objects: Objects, wanted: Manifest, back: Manifest,
                      t1: Tree)
    requires Recordings(t, rule, hash, objects, wanted, back) && t1 == AfterRestore(t, rule, wanted, objects)
    requires Closed(t1) && HidesTemporaries(later)
    requires NothingInTheWay(t, rule, wanted) && NothingInTheWay(t1, later, back)
    requires AfterRestore(t1, later, back, objects) == t
    ensures HasRoom(t, rule, wanted, objects) && NamesAreFree(t, rule) && UsableModes(t, rule)
    ensures SeesAdded(t, t1, later) && StillLeftOut(t, t1, rule, later)
  {
    hide NothingInTheWay, InPlaceOf, HoldsUnseen, Visible, AfterRestore, IsScan, HoldsContents, TreeOf;
    forall q | q in t && !Visible(t, rule, q)
      ensures if q in TreeOf(wanted, objects) then TreeOf(wanted, objects)[q] == t[q] else !InPlaceOf(wanted, q)
      ensures HoldsUnseen(t1, later, q)
      ensures forall p :: p in VisiblePaths(t, rule) && t[p].File? ==> q != Temporary(p) && !Ancestor(Temporary(p), q)
    {
      CameBack(t, rule, later, hash, objects, wanted, back, t1, q);
      RoomForOwnFiles(t, rule, hash, back, q);
    }
    forall p | p in VisiblePaths(t, rule) && t[p].File?
      ensures t[p].mode != 0
    {
      RecordedNode(t, rule, hash, objects, back, p);
      NodeAfter(t1, later, back, objects, p);
    }
    BackIsSound(t, rule, hash, objects, wanted, back);
    forall q | q in t1 && q !in t
      ensures Visible(t1, later, q)
    {
      RecordedNode(t, rule, hash, objects, back, q);
      NodeAfter(t1, later, back, objects, q);
      NodeAfter(t, rule, wanted, objects, q);
      AddedIsNoTemporary(t, rule, hash, objects, wanted, back, q);
    }
  }

  // A recorded path is no temporary name.
  lemma AddedIsNoTemporary(t: Tree, rule: Rule, hash: Hash, objects: Objects, wanted: Manifest, back: Manifest, q: Path)
    requires Recordings(t, rule, hash, objects, wanted, back) && q in PathSet(wanted)
    ensures q !in FileTemporaries(back)
  {
  }

  // After the first restore a scan sees what is recorded, and else what it saw.
  lemma VisibleAfter(t: Tree, t0: Tree, rule: Rule, hash: Hash, objects: Objects, m: Manifest, t1: Tree, q: Path)
    requires Closed(t) && Closed(t0) && IsScan(t0, rule, hash, m) && HoldsContents(t0, rule, hash, objects)
    requires t1 == AfterRestore(t, rule, m, objects) && Closed(t1)
    ensures q in PathSet(m) ==> Visible(t1, rule, q)
    ensures q !in PathSet(m) && q in t1 ==> (Visible(t1, rule, q) <==> Visible(t, rule, q))
  {
    NodeAfter(t, rule, m, objects, q);
    RecordedNode(t0, rule, hash, objects, m, q);
    forall a | OnTheWay(a, q)
      ensures q in PathSet(m) ==> !Hidden(t1, rule, a)
      ensures q !in PathSet(m) && q in t1 ==> (Hidden(t1, rule, a) <==> Hidden(t, rule, a))
    {
      if q in PathSet(m) {
        NodeAfter(t, rule, m, objects, a);
        RecordedNode(t0, rule, hash, objects, m, a);
        assert !Hidden(t0, rule, a);
      }
    }
    hide AfterRestore, Hidden, IsScan, HoldsContents, Closed, TreeOf;
  }

  // A left out node that is recorded is a directory in the place of a file or link.
  lemma LeftOutInPlace(t: Tree, t0: Tree, rule: Rule, hash: Hash, objects: Objects, m: Manifest, q: Path)
    requires Closed(t) && Closed(t0) && DirectoriesToo(rule) && IsScan(t0, rule, hash, m)
             && HoldsContents(t0, rule, hash, objects)
    requires q in t && !Visible(t, rule, q) && q in PathSet(m)
    ensures t[q].Dir? && q in TreeOf(m, objects) && !TreeOf(m, objects)[q].Dir? && InPlaceOf(m, q)
  {
    RecordedNode(t0, rule, hash, objects, m, q);
    var a :| OnTheWay(a, q) && Hidden(t, rule, a);
    assert !Hidden(t0, rule, a);
    assert rule(q, false) ==> rule(q, true);
    var i :| 0 <= i < |m| && m[i].path == q;
    assert m[i] == EntryOf(q, t0[q], hash);
    assert TakesPlace(m[i], q);
  }

  // When the recording was made under the same rules, the second restore sees all
  // that was added, what is left out stays so, and room means that no left out
  // node is in the place of a recorded file or link.
  lemma UnderSameRules(t: Tree, t0: Tree, rule: Rule, hash: Hash, objects: Objects, m: Manifest, t1: Tree)
    requires Closed(t) && Closed(t0) && DirectoriesToo(rule) && HidesTemporaries(rule)
    requires IsScan(t0, rule, hash, m) && HoldsContents(t0, rule, hash, objects)
    requires t1 == AfterRestore(t, rule, m, objects) && Closed(t1)
    ensures SeesAdded(t, t1, rule) && (HasRoom(t, rule, m, objects) ==> StillLeftOut(t, t1, rule, rule))
    ensures HasRoom(t, rule, m, objects) <==> forall q :: q in t && !Visible(t, rule, q) ==> !InPlaceOf(m, q)
  {
    IndexKeys(m);
    hide AfterRestore, TreeOf, IsScan, HoldsContents, InPlaceOf, Visible, Closed, DirectoriesToo;
    forall q
      ensures q in t1 && q !in t ==> Visible(t1, rule, q)
      ensures q in t && !Visible(t, rule, q) && q in TreeOf(m, objects) ==>
        TreeOf(m, objects)[q] != t[q] && InPlaceOf(m, q)
      ensures q in t && !Visible(t, rule, q) && !InPlaceOf(m, q) ==> HoldsUnseen(t1, rule, q)
    {
      NodeAfter(t, rule, m, objects, q);
      VisibleAfter(t, t0, rule, hash, objects, m, t1, q);
      NoFreedName(m, q);
      if q in t && !Visible(t, rule, q) && q in PathSet(m) {
        LeftOutInPlace(t, t0, rule, hash, objects, m, q);
      }
    }
  }

  // Rules that leave out directories of one name, and all temporary names.
  predicate LeavesOutBuild(p: Path, isDirectory: bool) {
    (p == "build" && isDirectory) || (|p| >= |PARTIAL| && p[|p| - |PARTIAL|..] == PARTIAL)
  }

  lemma BuildRule()
    ensures HidesTemporaries(LeavesOutBuild) && DirectoriesToo(LeavesOutBuild)
  {
    forall p: Path, d: bool
      ensures LeavesOutBuild(Temporary(p), d)
    {
      assert Temporary(p)[|p|..] == PARTIAL;
    }
  }

  lemma BuildHasNoParent(a: Path)
    ensures !Ancestor(a, "build")
  {
    assert forall i :: 0 <= i < 5 ==> "build"[i] != '/';
  }

  // Rules that leave out files of that name too.
  predicate LeavesOutAllBuild(p: Path, isDirectory: bool) {
    p == "build" || LeavesOutBuild(p, isDirectory)
  }

  const BUILD: Path := "build"

  function BuildFile(content: Content): Tree {
    map[BUILD := File(content, DEFAULT_MODE)]
  }

  function BuildEntries(hash: Hash, content: Content): Manifest {
    [Entry(KindFile, DEFAULT_MODE, hash(content), BUILD)]
  }

  function BuildObjects(hash: Hash, content: Content): Objects {
    map[hash(content) := content]
  }

  lemma VisibleBuild(node: Node)
    ensures var t: Tree := map[BUILD := node];
            && VisiblePaths(t, LeavesOutBuild) == (if node.Dir? then {} else {BUILD})
            && VisiblePaths(t, LeavesOutAllBuild) == {} && VisiblePaths(map[], LeavesOutAllBuild) == {}
  {
    var t: Tree := map[BUILD := node];
    forall a {
      BuildHasNoParent(a);
    }
    assert OnTheWay(BUILD, BUILD) && (Hidden(t, LeavesOutBuild, BUILD) <==> node.Dir?)
           && Hidden(t, LeavesOutAllBuild, BUILD);
  }

  // The file was recorded while the rules left out directories of its name only.
  lemma BuildIsRecorded(hash: Hash, content: Content)
    ensures var wanted := BuildEntries(hash, content);
            && IsScan(BuildFile(content), LeavesOutBuild, hash, wanted) && PathSet(wanted) == {BUILD}
            && SoundRecording(wanted, BuildObjects(hash, content)) && NamesNoTemporaries(wanted)
            && TreeOf(wanted, BuildObjects(hash, content)) == BuildFile(content)
            && FileTemporaries(wanted) == {Temporary(BUILD)} && Temporary(BUILD) != BUILD
            && (forall q :: InPlaceOf(wanted, q) ==> q == BUILD || q == Temporary(BUILD) || q !in BuildFile(content))
  {
    var t0, wanted, objects := BuildFile(content), BuildEntries(hash, content), BuildObjects(hash, content);
    BuildRule();
    forall a {
      BuildHasNoParent(a);
    }
    VisibleBuild(t0[BUILD]);
    assert wanted[0].path in PathSet(wanted);
    assert IsScan(t0, LeavesOutBuild, hash, wanted);
    assert wanted[..0] == [] && Index(wanted) == map[BUILD := wanted[0]];
    ScansAreSound(t0, LeavesOutBuild, hash, wanted, objects);
    ScansNameNoTemporaries(t0, LeavesOutBuild, hash, wanted);
    assert Temporary(wanted[0].path) in FileTemporaries(wanted);
  }

  lemma EmptyIsRecorded(t: Tree, rule: Rule, hash: Hash, objects: Objects)
    requires VisiblePaths(t, rule) == {}
    ensures IsScan(t, rule, hash, []) && HoldsContents(t, rule, hash, objects)
    ensures PathSet([]) == {} && TreeOf([], objects) == map[] && FileTemporaries([]) == {}
    ensures NamesAreFree(t, rule) && UsableModes(t, rule)
  {
    IndexKeys([]);
    assert forall p :: Visible(t, rule, p) ==> p in VisiblePaths(t, rule);
  }

  // An empty directory that the rules leave out does not come back: the first
  // restore puts a file in its place, and the second one removes the file.
  lemma IgnoredDirectoryIsLost(hash: Hash, content: Content)
    ensures var t: Tree, wanted, objects := map[BUILD := Dir], BuildEntries(hash, content), BuildObjects(hash, content);
            var t1 := BuildFile(content);
            && IsScan(t1, LeavesOutBuild, hash, wanted)
            && Recordings(t, LeavesOutBuild, hash, objects, wanted, [])
            && NothingInTheWay(t, LeavesOutBuild, wanted) && AfterRestore(t, LeavesOutBuild, wanted, objects) == t1
            && NothingInTheWay(t1, LeavesOutBuild, []) && AfterRestore(t1, LeavesOutBuild, [], objects) == map[]
  {
    var t: Tree, wanted, objects := map[BUILD := Dir], BuildEntries(hash, content), BuildObjects(hash, content);
    BuildRule();
    BuildIsRecorded(hash, content);
    VisibleBuild(Dir);
    VisibleBuild(BuildFile(content)[BUILD]);
    EmptyIsRecorded(t, LeavesOutBuild, hash, objects);
    hide LeavesOutBuild, LeavesOutAllBuild, VisiblePaths, PathSet, TreeOf, FileTemporaries, SoundRecording,
      BuildEntries, Visible;
    BuildHasNoParent(BUILD);
    OneNode(t, BUILD);
    OneNode(BuildFile(content), BUILD);
    assert Kept(t, {}) == t && Doomed(BuildFile(content), {BUILD}, BUILD) && Kept(BuildFile(content), {BUILD}) == map[];
  }

  // A recording from before the rules left a file out adds it, and the way back
  // does not see it. All but the rules of the second restore was right.
  lemma AddedFileStays(hash: Hash, content: Content)
    ensures var t: Tree, wanted, objects := map[], BuildEntries(hash, content), BuildObjects(hash, content);
            var t1 := BuildFile(content);
            && IsScan(t1, LeavesOutBuild, hash, wanted)
            && Recordings(t, LeavesOutAllBuild, hash, objects, wanted, [])
            && HasRoom(t, LeavesOutAllBuild, wanted, objects) && NamesAreFree(t, LeavesOutAllBuild)
            && UsableModes(t, LeavesOutAllBuild) && !SeesAdded(t, t1, LeavesOutAllBuild)
            && NothingInTheWay(t, LeavesOutAllBuild, wanted)
            && AfterRestore(t, LeavesOutAllBuild, wanted, objects) == t1
            && NothingInTheWay(t1, LeavesOutAllBuild, []) && AfterRestore(t1, LeavesOutAllBuild, [], objects) == t1
  {
    var t: Tree, wanted, objects := map[], BuildEntries(hash, content), BuildObjects(hash, content);
    BuildRule();
    BuildIsRecorded(hash, content);
    VisibleBuild(BuildFile(content)[BUILD]);
    EmptyIsRecorded(t, LeavesOutAllBuild, hash, objects);
    EmptyIsRecorded(BuildFile(content), LeavesOutAllBuild, hash, objects);
    hide LeavesOutBuild, LeavesOutAllBuild, VisiblePaths, PathSet, TreeOf, FileTemporaries, SoundRecording,
      BuildEntries, NamesAreFree,
      UsableModes;
    assert Kept(t, {}) == t && Kept(BuildFile(content), {}) == BuildFile(content);
    assert BUILD in BuildFile(content) && !Visible(BuildFile(content), LeavesOutAllBuild, BUILD);
  }

  // A recording from before the rules left a file out replaces it, and no
  // checkpoint has a copy: the scan before the restore does not see it.
  lemma IgnoredFileIsReplaced(hash: Hash, mine: Content, content: Content)
    requires mine != content
    ensures var t, wanted, objects := BuildFile(mine), BuildEntries(hash, content), BuildObjects(hash, content);
            && IsScan(BuildFile(content), LeavesOutBuild, hash, wanted)
            && Recordings(t, LeavesOutAllBuild, hash, objects, wanted, [])
            && NothingInTheWay(t, LeavesOutAllBuild, wanted)
            && AfterRestore(t, LeavesOutAllBuild, wanted, objects) == BuildFile(content)
            && t[BUILD] != BuildFile(content)[BUILD] && !Visible(t, LeavesOutAllBuild, BUILD)
  {
    var t, wanted, objects := BuildFile(mine), BuildEntries(hash, content), BuildObjects(hash, content);
    BuildRule();
    BuildIsRecorded(hash, content);
    VisibleBuild(t[BUILD]);
    EmptyIsRecorded(t, LeavesOutAllBuild, hash, objects);
    hide LeavesOutBuild, LeavesOutAllBuild, VisiblePaths, PathSet, TreeOf, FileTemporaries, SoundRecording,
      BuildEntries, Visible;
    BuildHasNoParent(BUILD);
    OneNode(t, BUILD);
    assert Kept(t, {}) == t;
  }

  lemma OneNode(t: Tree, p: Path)
    requires t.Keys == {p} && !Ancestor(p, p)
    ensures !HasChildren(t, p)
  {
  }
}
