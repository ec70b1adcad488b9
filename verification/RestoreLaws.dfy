// What restoring means: when it succeeds, which tree it leaves, and what it
// never touches.
module RestoreLaws {
  import opened Paths
  import opened Tree
  import opened Project
  import opened Manifest
  import opened Scan
  import opened Restore

  // The contents of all recorded files and links are stored under their digests.
  ghost predicate HoldsContents(t: Tree, rule: Rule, hash: Hash, objects: Objects) {
    forall p :: p in VisiblePaths(t, rule) && !t[p].Dir? ==> Holds(objects, hash, ContentAt(t, p))
  }

  function ContentAt(t: Tree, p: Path): Content
    requires p in t
  {
    match t[p]
    case Dir => ""
    case File(content, _) => content
    case Link(target) => target
  }

  ghost predicate Holds(objects: Objects, hash: Hash, content: Content) {
    hash(content) in objects && objects[hash(content)] == content
  }

  // A file without any permission comes back with the usual ones.
  function Rewritten(node: Node): Node {
    if node.File? then File(node.content, WrittenMode(node.mode)) else node
  }

  ghost function VisibleTree(t: Tree, rule: Rule): Tree {
    map p | p in VisiblePaths(t, rule) :: t[p]
  }

  ghost function RewrittenTree(t: Tree, rule: Rule): Tree {
    map p | p in VisiblePaths(t, rule) :: Rewritten(t[p])
  }

  lemma ScanIndex(t: Tree, rule: Rule, hash: Hash, m: Manifest, p: Path)
    requires IsScan(t, rule, hash, m)
    ensures p in Index(m) <==> p in VisiblePaths(t, rule)
    ensures p in Index(m) ==> Index(m)[p] == EntryOf(p, t[p], hash)
  {
    IndexKeys(m);
    IndexHolds(m, p);
    if p in Index(m) {
      var i :| 0 <= i < |m| && m[i] == Index(m)[p];
    }
  }

  // The tree that a scan records is the visible part of the scanned tree.
  lemma ScanRecordsVisibleTree(t: Tree, rule: Rule, hash: Hash, m: Manifest, objects: Objects)
    requires IsScan(t, rule, hash, m) && HoldsContents(t, rule, hash, objects)
    ensures TreeOf(m, objects) == RewrittenTree(t, rule)
  {
    forall p
      ensures p in Index(m) <==> p in VisiblePaths(t, rule)
      ensures p in Index(m) ==> NodeOf(Index(m)[p], ContentOf(Index(m)[p], objects)) == Rewritten(t[p])
    {
      ScanIndex(t, rule, hash, m, p);
      if p in Index(m) && !t[p].Dir? {
        assert Holds(objects, hash, ContentAt(t, p));
      }
    }
  }

  // That tree is exactly the visible part if and only if no visible file is
  // without any permission.
  lemma RewrittenIsSame(t: Tree, rule: Rule)
    ensures RewrittenTree(t, rule) == VisibleTree(t, rule) <==>
      forall p :: p in VisiblePaths(t, rule) && t[p].File? ==> t[p].mode != 0
  {
    if RewrittenTree(t, rule) == VisibleTree(t, rule) {
      forall p | p in VisiblePaths(t, rule) && t[p].File?
        ensures t[p].mode != 0
      {
        assert RewrittenTree(t, rule)[p] == VisibleTree(t, rule)[p];
      }
    }
  }

  // What a recording must be to be restored at all.
  ghost predicate SoundRecording(recorded: Manifest, objects: Objects) {
    && UniquePaths(recorded) && ClosedManifest(recorded) && ContentsStored(recorded, objects)
    && forall i :: 0 <= i < |recorded| ==> Temporary(recorded[i].path) !in PathSet(recorded)
  }

  // The rules leave out every temporary name.
  ghost predicate HidesTemporaries(rule: Rule) {
    forall p, d :: rule(Temporary(p), d)
  }

  lemma ScansAreSound(t: Tree, rule: Rule, hash: Hash, m: Manifest, objects: Objects)
    requires Closed(t) && HidesTemporaries(rule)
    requires IsScan(t, rule, hash, m) && HoldsContents(t, rule, hash, objects)
    ensures SoundRecording(m, objects)
  {
    forall a, i | 0 <= i < |m| && Ancestor(a, m[i].path)
      ensures a in Index(m) && Index(m)[a].kind.KindDirectory?
    {
      AncestorIsVisible(t, rule, a, m[i].path);
      ScanIndex(t, rule, hash, m, a);
    }
    forall i | 0 <= i < |m| && !m[i].kind.KindDirectory?
      ensures m[i].digest in objects
    {
      assert m[i].path in PathSet(m);
      assert Holds(objects, hash, ContentAt(t, m[i].path));
    }
    ScansNameNoTemporaries(t, rule, hash, m);
  }

  // No recorded path is a temporary name or lies below one.
  ghost predicate NamesNoTemporaries(m: Manifest) {
    && (forall q :: Temporary(q) !in PathSet(m))
    && (forall p, q :: p in PathSet(m) ==> !Ancestor(Temporary(q), p))
  }

  lemma ScansNameNoTemporaries(t: Tree, rule: Rule, hash: Hash, m: Manifest)
    requires HidesTemporaries(rule) && IsScan(t, rule, hash, m)
    ensures NamesNoTemporaries(m)
  {
    forall p
      ensures Temporary(p) !in PathSet(m)
    {
      assert OnTheWay(Temporary(p), Temporary(p)) && Hidden(t, rule, Temporary(p));
    }
    forall p, q | p in PathSet(m)
      ensures !Ancestor(Temporary(q), p)
    {
      assert Visible(t, rule, p) && Hidden(t, rule, Temporary(q));
      assert !OnTheWay(Temporary(q), p);
    }
  }

  lemma AncestorIsVisible(t: Tree, rule: Rule, a: Path, p: Path)
    requires Closed(t) && p in t && Visible(t, rule, p) && Ancestor(a, p)
    ensures a in t && t[a].Dir? && Visible(t, rule, a)
  {
    forall b | OnTheWay(b, a)
      ensures !Hidden(t, rule, b)
    {
      if b != a {
        AncestorIsTransitive(b, a, p);
      }
      assert OnTheWay(b, p);
    }
  }

  // A sound recording can be restored if and only if no left out node lies
  // below a recorded file or link or below the temporary name of a file.
  lemma RestorableUnlessInTheWay(t: Tree, rule: Rule, recorded: Manifest, objects: Objects)
    requires Closed(t) && HidesTemporaries(rule) && SoundRecording(recorded, objects)
    ensures Restorable(Kept(t, ObsoletePaths(t, rule, recorded)), recorded, objects) <==>
            NothingInTheWay(t, rule, recorded)
  {
    var kept := Kept(t, ObsoletePaths(t, rule, recorded));
    if NothingInTheWay(t, rule, recorded) {
      forall i, q | 0 <= i < |recorded| && q in kept && Ancestor(recorded[i].path, q)
        ensures recorded[i].kind.KindDirectory?
      {
        KeptMeansDirectory(t, rule, recorded, i, q);
      }
      forall i | 0 <= i < |recorded| && recorded[i].kind.KindFile?
        ensures !HasChildren(kept, Temporary(recorded[i].path))
      {
        forall q | q in kept && Ancestor(Temporary(recorded[i].path), q)
          ensures false
        {
          BelowTemporaryIsLeftOut(t, rule, recorded, objects, i, q);
        }
      }
    } else {
      var i, q :| 0 <= i < |recorded| && LeftOut(t, rule, recorded, q) && !MayHold(recorded[i], q);
      assert q in kept;
      if Ancestor(Temporary(recorded[i].path), q) {
        assert OnTheWay(Temporary(recorded[i].path), Temporary(recorded[i].path));
        assert Hidden(t, rule, Temporary(recorded[i].path));
        assert FullDirectory(kept, Temporary(recorded[i].path)) by {
          assert HasChildren(kept, Temporary(recorded[i].path));
        }
      }
    }
  }

  // What lies below a temporary name is left out.
  lemma BelowTemporaryIsLeftOut(t: Tree, rule: Rule, recorded: Manifest, objects: Objects, i: nat, q: Path)
    requires HidesTemporaries(rule) && SoundRecording(recorded, objects)
    requires i < |recorded| && q in t && Ancestor(Temporary(recorded[i].path), q)
    ensures LeftOut(t, rule, recorded, q)
  {
    var temporary := Temporary(recorded[i].path);
    assert OnTheWay(temporary, q) && Hidden(t, rule, temporary);
    assert temporary !in PathSet(recorded);
    ParentIsRecorded(recorded, temporary, q);
    NoTemporaryBelow(recorded, temporary, q);
  }

  lemma KeptMeansDirectory(t: Tree, rule: Rule, recorded: Manifest, i: nat, q: Path)
    requires NothingInTheWay(t, rule, recorded) && UniquePaths(recorded) && ClosedManifest(recorded)
    requires i < |recorded| && q in Kept(t, ObsoletePaths(t, rule, recorded)) && Ancestor(recorded[i].path, q)
    ensures recorded[i].kind.KindDirectory?
  {
    var obsolete := ObsoletePaths(t, rule, recorded);
    if q !in obsolete {
      StaysMeansDirectory(t, rule, recorded, i, q);
    } else {
      assert !Doomed(t, obsolete, q);
      var r :| r in t && Ancestor(q, r) && r !in obsolete;
      AncestorIsTransitive(recorded[i].path, q, r);
      StaysMeansDirectory(t, rule, recorded, i, r);
    }
  }

  lemma StaysMeansDirectory(t: Tree, rule: Rule, recorded: Manifest, i: nat, q: Path)
    requires NothingInTheWay(t, rule, recorded) && UniquePaths(recorded) && ClosedManifest(recorded)
    requires i < |recorded| && q in t && q !in ObsoletePaths(t, rule, recorded) && Ancestor(recorded[i].path, q)
    ensures recorded[i].kind.KindDirectory?
  {
    if q in PathSet(recorded) {
      RecordedMeansDirectory(recorded, i, q);
    } else if k :| 0 <= k < |recorded| && Temporary(recorded[k].path) == q {
      TemporaryHasSameParents(recorded[k].path);
      RecordedMeansDirectory(recorded, i, recorded[k].path);
    } else {
      assert LeftOut(t, rule, recorded, q);
    }
  }

  lemma RecordedMeansDirectory(recorded: Manifest, i: nat, q: Path)
    requires UniquePaths(recorded) && ClosedManifest(recorded)
    requires i < |recorded| && q in PathSet(recorded) && Ancestor(recorded[i].path, q)
    ensures recorded[i].kind.KindDirectory?
  {
    var j :| 0 <= j < |recorded| && recorded[j].path == q;
    IndexOfUnique(recorded, i);
  }

  // When the scan sees the whole tree, nothing is in the way, and exactly the
  // recorded tree remains. Every path that is not recorded goes.
  lemma WholeTreeIsRestored(t: Tree, rule: Rule, recorded: Manifest, objects: Objects)
    requires Closed(t) && VisiblePaths(t, rule) == t.Keys && HidesTemporaries(rule) && SoundRecording(recorded, objects)
    ensures var kept := Kept(t, ObsoletePaths(t, rule, recorded));
            && Restorable(kept, recorded, objects)
            && Overwritten(kept, recorded, objects) == TreeOf(recorded, objects)
            && kept.Keys == t.Keys * PathSet(recorded)
  {
    var obsolete := ObsoletePaths(t, rule, recorded);
    var kept := Kept(t, obsolete);
    assert NothingInTheWay(t, rule, recorded);
    RestorableUnlessInTheWay(t, rule, recorded, objects);
    hide Restorable, NothingInTheWay, SoundRecording, HidesTemporaries, Visible;
    AllObsoleteIsDoomed(t, rule, recorded, objects);
    IndexKeys(recorded);
    TreeOfCovers(kept, TreeOf(recorded, objects));
  }

  lemma TreeOfCovers(kept: Tree, t: Tree)
    requires kept.Keys <= t.Keys
    ensures forall gone: set<Path> :: (kept - gone) + t == t
  {
  }

  lemma AllObsoleteIsDoomed(t: Tree, rule: Rule, recorded: Manifest, objects: Objects)
    requires VisiblePaths(t, rule) == t.Keys && SoundRecording(recorded, objects)
    ensures Kept(t, ObsoletePaths(t, rule, recorded)).Keys == t.Keys * PathSet(recorded)
  {
    var obsolete := ObsoletePaths(t, rule, recorded);
    hide UniquePaths, ContentsStored, Visible;
    forall p | p in obsolete
      ensures Doomed(t, obsolete, p)
    {
      forall q | q in t && Ancestor(p, q)
        ensures q in obsolete
      {
        ParentIsRecorded(recorded, p, q);
      }
    }
  }

  lemma ParentIsRecorded(recorded: Manifest, a: Path, p: Path)
    requires ClosedManifest(recorded) && Ancestor(a, p)
    ensures p in PathSet(recorded) ==> a in PathSet(recorded)
  {
    IndexKeys(recorded);
    if p in PathSet(recorded) {
      var i :| 0 <= i < |recorded| && recorded[i].path == p;
      assert a in Index(recorded);
    }
  }

  // The recorded nodes stand over a tree: each recorded path has its node; what
  // is left out is as it was, but for freed names; and another visible path is
  // there only if it is a directory that holds something left out.
  ghost predicate StandsOver(t: Tree, t': Tree, rule: Rule, recorded: Manifest, objects: Objects, gone: set<Path>) {
    && (forall q :: q in TreeOf(recorded, objects) ==> q in t' && t'[q] == TreeOf(recorded, objects)[q])
    && (forall q :: LeftOver(t, rule, recorded, gone, q) ==> q in t' && t'[q] == t[q])
    && (forall q :: q in t' && q !in PathSet(recorded) ==>
          q in t && t'[q] == t[q] && (Visible(t, rule, q) ==> HoldsLeftOut(t, t', rule, q)))
  }

  ghost predicate LeftOver(t: Tree, rule: Rule, recorded: Manifest, gone: set<Path>, q: Path) {
    q in t && !Visible(t, rule, q) && q !in PathSet(recorded) && q !in gone
  }

  ghost predicate HoldsLeftOut(t: Tree, t': Tree, rule: Rule, q: Path) {
    q in t && t[q].Dir? && exists r :: r in t && r in t' && Ancestor(q, r) && !Visible(t, rule, r)
  }

  lemma RecordedStandsOver(t: Tree, rule: Rule, recorded: Manifest, objects: Objects, gone: set<Path>)
    requires Closed(t) && SoundRecording(recorded, objects) && gone <= Temporaries(recorded)
    ensures StandsOver(t, (Kept(t, ObsoletePaths(t, rule, recorded)) - gone) +
                       TreeOf(recorded, objects), rule, recorded, objects, gone)
  {
    var t' := (Kept(t, ObsoletePaths(t, rule, recorded)) - gone) + TreeOf(recorded, objects);
    IndexKeys(recorded);
    hide Visible, SoundRecording, Closed, HoldsLeftOut, Doomed;
    forall q | q in t' && q !in PathSet(recorded) && Visible(t, rule, q)
      ensures HoldsLeftOut(t, t', rule, q)
    {
      KeptHoldsLeftOut(t, rule, recorded, objects, gone, q);
    }
  }

  lemma KeptHoldsLeftOut(t: Tree, rule: Rule, recorded: Manifest, objects: Objects, gone: set<Path>, q: Path)
    requires Closed(t) && SoundRecording(recorded, objects) && gone <= Temporaries(recorded)
    requires q in Kept(t, ObsoletePaths(t, rule, recorded)) && q !in PathSet(recorded) && Visible(t, rule, q)
    ensures HoldsLeftOut(t, (Kept(t, ObsoletePaths(t, rule, recorded)) - gone) + TreeOf(recorded, objects), rule, q)
  {
    var obsolete := ObsoletePaths(t, rule, recorded);
    var kept := Kept(t, obsolete);
    var t' := (kept - gone) + TreeOf(recorded, objects);
    assert q in obsolete && !Doomed(t, obsolete, q);
    var r :| r in t && Ancestor(q, r) && r !in obsolete;
    ParentIsRecorded(recorded, q, r);
    assert r in kept && !Visible(t, rule, r);
    NoTemporaryBelow(recorded, q, r);
    assert r in t';
  }

  // No temporary name lies below a path that is not recorded.
  lemma NoTemporaryBelow(recorded: Manifest, a: Path, q: Path)
    requires ClosedManifest(recorded) && a !in PathSet(recorded) && Ancestor(a, q)
    ensures q !in Temporaries(recorded)
  {
    if i :| 0 <= i < |recorded| && Temporary(recorded[i].path) == q {
      TemporaryHasSameParents(recorded[i].path);
      ParentIsRecorded(recorded, a, recorded[i].path);
    }
  }

  // Being a directory never saves a path from the rules.
  ghost predicate DirectoriesToo(rule: Rule) {
    forall p :: rule(p, false) ==> rule(p, true)
  }

  // Left out nodes survive every restore, whether it finishes or stops, unless
  // they are recorded or have a temporary name. One that finishes leaves them as
  // they were if and only if they are recorded just so, or are not recorded and
  // have no temporary name of a file.
  lemma LeftOutNodesSurvive(t: Tree, t': Tree, rule: Rule, m: Manifest, objects: Objects, q: Path)
    requires OnlyRestores(t, t', rule, m) && q in t && !Visible(t, rule, q)
    ensures q !in PathSet(m) && q !in Temporaries(m) ==> q in t' && t'[q] == t[q]
    ensures t' == Overwritten(Kept(t, ObsoletePaths(t, rule, m)), m, objects) ==>
      (q in t' && t'[q] == t[q] <==>
       if q in TreeOf(m, objects) then TreeOf(m, objects)[q] == t[q] else q !in FileTemporaries(m))
  {
    IndexKeys(m);
  }

  // So left out files and links survive every restore of a scan under the same
  // rules: such a scan has no entry for them.
  lemma LeftOutFilesSurvive(t: Tree, t': Tree, rule: Rule, t0: Tree, hash: Hash, m: Manifest, objects: Objects, q: Path)
    requires Closed(t) && Closed(t0) && IsScan(t0, rule, hash, m) && DirectoriesToo(rule)
    requires OnlyRestores(t, t', rule, m) && q in t && !t[q].Dir? && !Visible(t, rule, q) && q !in Temporaries(m)
    ensures q in t' && t'[q] == t[q]
  {
    var a :| OnTheWay(a, q) && Hidden(t, rule, a);
    assert rule(q, false) ==> rule(q, true);
    assert q in t0 ==> Hidden(t0, rule, a);
    LeftOutNodesSurvive(t, t', rule, m, objects, q);
  }
}
