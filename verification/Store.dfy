// The checkpoint store: stored contents by digest, one manifest text a
// checkpoint, and the current checkpoint.
module Store {
  import opened Wrappers
  import opened Paths
  import opened Tree
  import opened Project
  import opened Manifest
  import opened Scan
  import opened Restore
  import opened RestoreLaws
  import opened MergePlan
  import opened MergeWrites
  import opened Writing
  import opened MergeApply
  import opened MergeLaws
  import Changes
  import Merge3
  import ManifestText
  import Text
  import Identifiers

  // No two contents have one digest, and digests are plain texts.
  ghost predicate GoodHash(hash: Hash) {
    && ManifestText.PlainDigests(hash)
    && (forall c :: hash(c) != "")
    && (forall c, c' :: hash(c) == hash(c') ==> c == c')
  }

  // A working tree that a file system can hold.
  ghost predicate WorkingTree(t: Tree) {
    Closed(t) && ManifestText.RealTree(t)
  }

  // The text is the manifest of a tree whose contents are all stored.
  ghost predicate RecordsTree(rule: Rule, hash: Hash, objects: Objects, text: string, t: Tree) {
    && WorkingTree(t) && ManifestText.Parse(text).Some?
    && IsScan(t, rule, hash, ManifestText.Parse(text).value) && HoldsContents(t, rule, hash, objects)
  }

  // Some tree was recorded so, under the rules of that time. All rules leave out
  // the temporary names.
  ghost predicate Recording(hash: Hash, objects: Objects, text: string) {
    exists t, used :: HidesTemporaries(used) && RecordsTree(used, hash, objects, text, t)
  }

  // Every object has its digest, every checkpoint resolves, and the current
  // checkpoint, if there is one, is stored.
  ghost predicate Sound(hash: Hash, objects: Objects, snapshots: map<nat, string>, head: Option<nat>) {
    && (forall d :: d in objects ==> hash(objects[d]) == d)
    && (forall n :: n in snapshots ==> Recording(hash, objects, snapshots[n]))
    && (head.Some? ==> head.value in snapshots)
  }

  ghost predicate Includes(objects': Objects, objects: Objects) {
    forall d :: d in objects ==> d in objects' && objects'[d] == objects[d]
  }

  // More stored contents keep every recording.
  lemma RecordingKeeps(hash: Hash, objects: Objects, objects': Objects, text: string)
    requires Recording(hash, objects, text) && Includes(objects', objects)
    ensures Recording(hash, objects', text)
  {
    var t, used :| HidesTemporaries(used) && RecordsTree(used, hash, objects, text, t);
    MoreContents(t, used, hash, objects, objects');
    assert RecordsTree(used, hash, objects', text, t);
  }

  lemma MoreContents(t: Tree, rule: Rule, hash: Hash, objects: Objects, objects': Objects)
    requires HoldsContents(t, rule, hash, objects) && Includes(objects', objects)
    ensures HoldsContents(t, rule, hash, objects')
  {
    forall p | p in VisiblePaths(t, rule) && !t[p].Dir?
      ensures Holds(objects', hash, ContentAt(t, p))
    {
      assert Holds(objects, hash, ContentAt(t, p));
    }
  }

  // What a recording is good for.
  lemma RecordingIsSound(hash: Hash, objects: Objects, text: string)
    requires Recording(hash, objects, text)
    ensures ManifestText.Parse(text).Some?
    ensures var m := ManifestText.Parse(text).value;
            SoundRecording(m, objects) && NamesNoTemporaries(m)
  {
    var t, used :| HidesTemporaries(used) && RecordsTree(used, hash, objects, text, t);
    ScansAreSound(t, used, hash, ManifestText.Parse(text).value, objects);
    ScansNameNoTemporaries(t, used, hash, ManifestText.Parse(text).value);
  }

  // Storing reads a file again, and it may have changed since the scan.
  predicate Readable(later: Tree, entry: Entry) {
    match entry.kind
    case KindDirectory => true
    case KindFile => entry.path in later && later[entry.path].File?
    case KindLink => entry.path in later && later[entry.path].Link?
  }

  function Reread(node: Node, later: Tree, p: Path): Node {
    match node
    case Dir => Dir
    case File(_, mode) => if p in later && later[p].File? then File(later[p].content, mode) else node
    case Link(_) => if p in later && later[p].Link? then later[p] else node
  }

  // The scanned tree with the contents that were read afterwards.
  function Hybrid(t: Tree, later: Tree): Tree {
    map p | p in t :: Reread(t[p], later, p)
  }

  lemma HybridOfSame(t: Tree)
    ensures Hybrid(t, t) == t
  {
  }

  function Refreshed(entry: Entry, later: Tree, hash: Hash): Entry
    requires Readable(later, entry)
  {
    if entry.kind.KindDirectory? then entry else entry.(digest := hash(ContentAt(later, entry.path)))
  }

  ghost predicate Stored(entries: Manifest, stored: Manifest, later: Tree, hash: Hash, objects: Objects) {
    && |stored| == |entries|
    && forall i :: 0 <= i < |entries| ==>
         && Readable(later, entries[i]) && stored[i] == Refreshed(entries[i], later, hash)
         && (!entries[i].kind.KindDirectory? ==> Holds(objects, hash, ContentAt(later, entries[i].path)))
  }

  // The stored entries are the scan of the tree as it was read.
  lemma StoredIsScan(t: Tree, later: Tree, rule: Rule, hash: Hash, entries: Manifest, stored: Manifest,
                     objects: Objects)
    requires WorkingTree(t) && IsScan(t, rule, hash, entries) && Stored(entries, stored, later, hash, objects)
    ensures var read := Hybrid(t, later);
            WorkingTree(read) && IsScan(read, rule, hash, stored) && HoldsContents(read, rule, hash, objects)
  {
    var read := Hybrid(t, later);
    SameVisible(t, later, rule);
    forall i | 0 <= i < |entries|
      ensures stored[i].path == entries[i].path && entries[i].path in t
      ensures stored[i] == EntryOf(stored[i].path, read[stored[i].path], hash)
      ensures !read[stored[i].path].Dir? ==> ContentAt(read, stored[i].path) == ContentAt(later, entries[i].path)
    {
      assert entries[i] == EntryOf(entries[i].path, t[entries[i].path], hash);
    }
    assert PathSet(stored) == PathSet(entries);
    forall p | p in VisiblePaths(read, rule) && !read[p].Dir?
      ensures Holds(objects, hash, ContentAt(read, p))
    {
      assert p in PathSet(entries);
      var i :| 0 <= i < |entries| && entries[i].path == p;
      assert Stored(entries, stored, later, hash, objects);
    }
    RereadIsReal(t, later);
    hide Visible, Stored, ManifestText.RealTree, Closed;
    ScanHolds(read, rule, hash, stored);
  }

  lemma SameVisible(t: Tree, later: Tree, rule: Rule)
    ensures VisiblePaths(Hybrid(t, later), rule) == VisiblePaths(t, rule)
  {
    var read := Hybrid(t, later);
    assert forall p :: Hidden(read, rule, p) <==> Hidden(t, rule, p);
  }

  lemma RereadIsReal(t: Tree, later: Tree)
    requires WorkingTree(t)
    ensures WorkingTree(Hybrid(t, later))
  {
    hide Text.Split;
    var read := Hybrid(t, later);
    assert forall p :: p in read ==> p in t && (read[p].Dir? <==> t[p].Dir?);
    assert forall p :: p in read && read[p].File? ==> t[p].File? && read[p].mode == t[p].mode;
  }

  // Manifests of stored checkpoints.
  ghost function ManifestAt(snapshots: map<nat, string>, n: nat): Manifest
    requires n in snapshots && ManifestText.Parse(snapshots[n]).Some?
  {
    ManifestText.Parse(snapshots[n]).value
  }

  ghost predicate Referenced(snapshots: map<nat, string>, digest: string) {
    exists n :: n in snapshots && ManifestText.Parse(snapshots[n]).Some?
        && Mentions(ManifestText.Parse(snapshots[n]).value, digest)
  }

  ghost predicate Mentions(m: Manifest, digest: string) {
    digest != "" && exists i :: 0 <= i < |m| && m[i].digest == digest
  }

  // A new checkpoint: it is one behind the last one, it is the current one, and it
  // records the tree that was read.
  ghost predicate Taken(rule: Rule, hash: Hash, objects: Objects, before: map<nat, string>, snapshots: map<nat, string>,
                        head: Option<nat>, read: Tree, id: nat) {
    && (forall n :: n in before ==> n < id) && (if before == map[] then id == 1 else id - 1 in before)
    && id in snapshots && snapshots == before[id := snapshots[id]] && head == Some(id)
    && RecordsTree(rule, hash, objects, snapshots[id], read)
  }

  lemma TakenIsSound(rule: Rule, hash: Hash, objects: Objects, objects': Objects, before: map<nat, string>,
                     snapshots: map<nat, string>, head: Option<nat>, read: Tree, id: nat, old_head: Option<nat>)
    requires HidesTemporaries(rule) && Sound(hash, objects, before, old_head) && Includes(objects', objects)
    requires forall d :: d in objects' ==> hash(objects'[d]) == d
    requires Taken(rule, hash, objects', before, snapshots, head, read, id)
    ensures Sound(hash, objects', snapshots, head)
  {
    forall n | n in snapshots
      ensures Recording(hash, objects', snapshots[n])
    {
      if n != id {
        RecordingKeeps(hash, objects, objects', before[n]);
      }
    }
  }

  lemma MoreObjectsAreSound(hash: Hash, objects: Objects, objects': Objects, snapshots: map<nat, string>,
                            head: Option<nat>)
    requires Sound(hash, objects, snapshots, head) && Includes(objects', objects)
    requires forall d :: d in objects' ==> hash(objects'[d]) == d
    ensures Sound(hash, objects', snapshots, head)
  {
    forall n | n in snapshots
      ensures Recording(hash, objects', snapshots[n])
    {
      RecordingKeeps(hash, objects, objects', snapshots[n]);
    }
  }

  class Store {
    var objects: Objects
    var snapshots: map<nat, string>
    var head: Option<nat>
    // The ignore rules of the present configuration. They may change between two
    // commands.
    var rule: Rule
    const hash: Hash

    ghost predicate Valid()
      reads this
    {
      GoodHash(hash) && HidesTemporaries(rule) && Sound(hash, objects, snapshots, head)
    }

    constructor (rule: Rule, hash: Hash)
      requires GoodHash(hash) && HidesTemporaries(rule)
      ensures Valid() && objects == map[] && snapshots == map[] && head == None
      ensures this.rule == rule && this.hash == hash
    {
      this.rule, this.hash := rule, hash;
      objects, snapshots, head := map[], map[], None;
    }

    // Opens the store with the rules of the present configuration.
    method Reopen(now: Rule)
      requires Valid() && HidesTemporaries(now)
      modifies this`rule
      ensures Valid() && rule == now
    {
      hide GoodHash, Recording;
      rule := now;
    }

    // Stores a content under its digest, once.
    method WriteObject(content: Content) returns (digest: string)
      requires GoodHash(hash) && forall d :: d in objects ==> hash(objects[d]) == d
      modifies this`objects
      ensures digest == hash(content) && Holds(objects, hash, content) && Includes(objects, old(objects))
      ensures forall d :: d in objects ==> hash(objects[d]) == d
      ensures objects.Keys == old(objects).Keys + {digest}
    {
      digest := hash(content);
      if digest in objects {
        return;
      }
      objects := objects[digest := content];
    }

    // Stores the contents of all entries as they are when they are read.
    method StoreContents(entries: Manifest, later: Tree) returns (ok: bool, stored: Manifest)
      requires GoodHash(hash) && forall d :: d in objects ==> hash(objects[d]) == d
      modifies this`objects
      ensures Includes(objects, old(objects)) && forall d :: d in objects ==> hash(objects[d]) == d
      ensures ok <==> forall i :: 0 <= i < |entries| ==> Readable(later, entries[i])
      ensures ok ==> Stored(entries, stored, later, hash, objects)
    {
      stored := [];
      for index := 0 to |entries|
        invariant Includes(objects, old(objects)) && forall d :: d in objects ==> hash(objects[d]) == d
        invariant forall i :: 0 <= i < index ==> Readable(later, entries[i])
        invariant Stored(entries[..index], stored, later, hash, objects)
      {
        hide GoodHash, ContentAt;
        var entry := entries[index];
        ghost var before := objects;
        if !Readable(later, entry) {
          return false, stored;
        }
        if !entry.kind.KindDirectory? {
          var digest := WriteObject(ContentAt(later, entry.path));
        }
        StoredGrows(entries, index, stored, later, hash, before, objects);
        stored := stored + [Refreshed(entry, later, hash)];
      }
      assert entries[..|entries|] == entries;
      ok := true;
    }

    // Takes a checkpoint. The contents may have changed between the scan and
    // the reading; the checkpoint records what was read. An error leaves all
    // checkpoints as they are.
    method Take(tree: Tree, later: Tree) returns (id: Option<nat>)
      requires Valid() && WorkingTree(tree)
      modifies this`objects, this`snapshots, this`head
      ensures Valid() && Includes(objects, old(objects))
      ensures id.None? ==> snapshots == old(snapshots) && head == old(head)
      ensures id.Some? ==>
        Taken(rule, hash, objects, old(snapshots), snapshots, head, Hybrid(tree, later), id.value)
      ensures id.Some? <==> Fits(tree, VisiblePaths(tree, rule)) && StillThere(tree, later, rule)
      ensures later == tree ==> (id.Some? <==> Fits(tree, VisiblePaths(tree, rule)))
    {
      hide GoodHash, HidesTemporaries, Sound, IsScan, Fits, Stored, Taken, Hybrid, VisiblePaths, HoldsContents,
        StillThere;
      ghost var objects0 := objects;
      SoundParts(hash, objects, snapshots, head);
      ManifestText.RealTreeIsProper(tree);
      var ok, entries := Scan.Scan(tree, rule, hash);
      if !ok {
        return None;
      }
      var stored;
      ok, stored := StoreContents(entries, later);
      MoreObjectsAreSound(hash, objects0, objects, snapshots, head);
      AllReadable(tree, later, rule, hash, entries);
      NothingMoved(tree, rule);
      if !ok {
        return None;
      }
      StoredIsScan(tree, later, rule, hash, entries, stored, objects);
      var number := Commit(stored, Hybrid(tree, later));
      id := Some(number);
    }

    // Writes the manifest under the next number and makes it the current one.
    method Commit(entries: Manifest, ghost read: Tree) returns (id: nat)
      requires Valid() && WorkingTree(read) && IsScan(read, rule, hash, entries)
               && HoldsContents(read, rule, hash, objects)
      modifies this`snapshots, this`head
      ensures Valid() && Taken(rule, hash, objects, old(snapshots), snapshots, head, read, id)
    {
      hide GoodHash, HidesTemporaries, Sound, IsScan, Taken, WorkingTree, HoldsContents;
      var numbers := Identifiers.SortedNumbers(snapshots.Keys);
      var highest := if |numbers| > 0 then numbers[|numbers| - 1] else 0;
      id := highest + 1;
      var text := ManifestText.FormatManifest(entries);
      ReadBackTaken(rule, hash, objects, snapshots, read, entries, text, id, numbers);
      SoundParts(hash, objects, snapshots, head);
      snapshots := snapshots[id := text];
      head := Some(id);
      TakenIsSound(rule, hash, objects, objects, old(snapshots), snapshots, head, read, id, old(head));
    }

    // Removes a checkpoint, and the mark when it is the current one.
    method Remove(wanted: string) returns (removed: Option<nat>)
      requires Valid()
      modifies this`objects, this`snapshots, this`head
      ensures Valid() && objects == old(objects)
      ensures removed.None? ==> snapshots == old(snapshots) && head == old(head)
      ensures removed.None? <==> forall n :: n in old(snapshots) ==> !Identifiers.Names(wanted, n)
      ensures removed.Some? ==> removed.value in old(snapshots) && Identifiers.Names(wanted, removed.value)
      ensures removed.Some? ==> snapshots == old(snapshots) - {removed.value}
      ensures removed.Some? ==> head == if old(head) == removed then None else old(head)
    {
      removed := Identifiers.Resolve(snapshots.Keys, wanted);
      if removed.None? {
        return;
      }
      snapshots := snapshots - {removed.value};
      if head == removed {
        head := None;
      }
    }

    // Removes exactly the contents that no checkpoint mentions.
    method Prune() returns (removed: nat)
      requires Valid()
      modifies this`objects
      ensures Valid()
      ensures forall d :: d in objects <==> d in old(objects) && Referenced(snapshots, d)
      ensures forall d :: d in objects ==> objects[d] == old(objects)[d]
      ensures removed == |old(objects)| - |objects|
    {
      hide GoodHash, HidesTemporaries, Sound, Referenced;
      var referenced := References();
      ghost var before := objects;
      removed := 0;
      var rest := objects.Keys;
      while rest != {}
        invariant rest <= before.Keys && removed == |before| - |objects|
        invariant forall d :: d in objects <==> d in before && (d in rest || d in referenced)
        invariant forall d :: d in objects ==> objects[d] == before[d]
        decreases |rest|
      {
        hide Sound, Referenced, GoodHash;
        var digest :| digest in rest;
        rest := rest - {digest};
        if digest !in referenced {
          OneObjectLess(objects, digest);
          objects := objects - {digest};
          removed := removed + 1;
        }
      }
      PruneIsSound(hash, before, objects, snapshots, head);
    }

    // The digests of all stored manifests.
    method References() returns (referenced: set<string>)
      requires Valid()
      ensures forall d :: d in referenced <==> Referenced(snapshots, d)
    {
      hide GoodHash, RecordsTree;
      SoundParts(hash, objects, snapshots, head);
      referenced := {};
      var rest := snapshots.Keys;
      while rest != {}
        invariant rest <= snapshots.Keys
        invariant forall d :: d in referenced <==>
          exists n :: n in snapshots && n !in rest && ManifestText.Parse(snapshots[n]).Some?
            && Mentions(ManifestText.Parse(snapshots[n]).value, d)
        decreases |rest|
      {
        hide Sound, ManifestText.Parse, Mentions;
        var number :| number in rest;
        rest := rest - {number};
        var manifest := ManifestText.ParseManifest(snapshots[number]);
        var digests := Digests(manifest.value);
        referenced := referenced + digests;
      }
    }

    // Resolves a checkpoint and makes sure that all its contents are stored.
    // Of a stored checkpoint they always are.
    method Restorable(wanted: string) returns (id: Option<nat>, recorded: Manifest)
      requires Valid()
      ensures id.None? <==> forall n :: n in snapshots ==> !Identifiers.Names(wanted, n)
      ensures id.Some? ==> id.value in snapshots && Identifiers.Names(wanted, id.value)
      ensures id.Some? ==> ManifestText.Parse(snapshots[id.value]) == Some(recorded)
    {
      hide GoodHash, HidesTemporaries, Sound, Identifiers.Names, ManifestText.Parse;
      recorded := [];
      id := Identifiers.Resolve(snapshots.Keys, wanted);
      if id.None? {
        return;
      }
      SoundParts(hash, objects, snapshots, head);
      var parsed := ManifestText.ParseManifest(snapshots[id.value]);
      recorded := parsed.value;
      RecordingStores(hash, objects, snapshots[id.value]);
      for index := 0 to |recorded| {
        if !recorded[index].kind.KindDirectory? && recorded[index].digest !in objects {
          return None, [];
        }
      }
    }

    // Writes the recorded tree and makes the checkpoint the current one.
    method WriteTree(project: Project, id: nat, recorded: Manifest) returns (ok: bool, removed: nat, written: nat)
      requires Valid() && WorkingTree(project.tree)
      requires id in snapshots && ManifestText.Parse(snapshots[id]) == Some(recorded)
      modifies project, this`head
      ensures Valid() && Closed(project.tree) && head == if ok then Some(id) else old(head)
      ensures Restored(old(project.tree), project.tree, rule, recorded, objects, ok, removed, written)
    {
      hide GoodHash, HidesTemporaries, Sound, Restored, RestoreLaws.SoundRecording;
      ghost var t := project.tree;
      SoundParts(hash, objects, snapshots, head);
      RecordingIsSound(hash, objects, snapshots[id]);
      ManifestText.RealTreeIsProper(project.tree);
      ok, removed, written := RestoreTree(project, recorded, objects, rule, hash);
      RestoreMeaning(t, project.tree, rule, recorded, objects, ok, removed, written);
      if ok {
        SetHead(id);
      }
    }

    method SetHead(id: nat)
      requires Valid() && id in snapshots
      modifies this`head
      ensures Valid() && head == Some(id)
    {
      hide GoodHash, HidesTemporaries, Recording;
      head := Some(id);
    }

    // Takes an automatic checkpoint and restores a stored one.
    method Restore(project: Project, wanted: string) returns (result: RestoreResult)
      requires Valid() && WorkingTree(project.tree)
      modifies this`objects, this`snapshots, this`head, project
      ensures Valid() && Closed(project.tree) && Includes(objects, old(objects))
      ensures result.automatic.None? ==>
              !result.ok && project.tree == old(project.tree) && snapshots == old(snapshots) && head == old(head)
      ensures result.automatic.None? <==>
        (forall n :: n in old(snapshots) ==> !Identifiers.Names(wanted, n))
        || !Fits(old(project.tree), VisiblePaths(old(project.tree), rule))
      ensures result.automatic.Some? ==>
        Taken(rule, hash, objects, old(snapshots), snapshots, result.automatic, old(project.tree),
              result.automatic.value)
      ensures result.automatic.Some? ==>
        && result.id in old(snapshots) && Identifiers.Names(wanted, result.id)
        && ManifestText.Parse(snapshots[result.id]).Some?
        && Restored(old(project.tree), project.tree, rule, ManifestAt(snapshots, result.id), objects, result.ok,
                    result.removed, result.written)
        && head == if result.ok then Some(result.id) else result.automatic
    {
      hide GoodHash, HidesTemporaries, Sound, Restored, Taken, WorkingTree, Identifiers.Names, ManifestText.Parse,
        Includes, Fits, VisiblePaths;
      IncludesSelf(objects);
      var id, recorded := Restorable(wanted);
      if id.None? {
        WorkingTreeIsProper(project.tree);
        return RestoreResult(false, 0, None, 0, 0);
      }
      HybridOfSame(project.tree);
      ghost var before := snapshots;
      var automatic := Take(project.tree, project.tree);
      if automatic.None? {
        WorkingTreeIsProper(project.tree);
        return RestoreResult(false, 0, None, 0, 0);
      }
      TakenKeeps(rule, hash, objects, before, snapshots, head, project.tree, automatic.value, id.value);
      var ok, removed, written := WriteTree(project, id.value, recorded);
      result := RestoreResult(ok, id.value, automatic, removed, written);
    }

    // The current checkpoint, or the last one when none is current.
    method DiffTarget() returns (target: Option<nat>)
      requires Valid()
      ensures target.Some? ==> IsTarget(snapshots, head, target.value)
      ensures target.None? <==> snapshots == map[]
    {
      hide GoodHash, HidesTemporaries, Recording;
      if head.Some? {
        return head;
      }
      var numbers := Identifiers.SortedNumbers(snapshots.Keys);
      assert forall n :: n in snapshots ==> n in numbers;
      if |numbers| == 0 {
        return None;
      }
      target := Some(numbers[|numbers| - 1]);
    }

    // Restores without a checkpoint of the present tree. It starts exactly when
    // the tree has no change from the stored checkpoint that it was at; and the
    // restore then has its usual meaning, whether it finishes or stops.
    method RestoreWithoutAutomatic(project: Project, wanted: string)
        returns (result: RestoreResult, ghost starts: bool, ghost target: nat, ghost ours: Manifest)
      requires Valid() && WorkingTree(project.tree)
      modifies this`head, project
      ensures Valid() && Closed(project.tree)
      ensures (exists n :: n in snapshots && Identifiers.Names(wanted, n))
              && Fits(old(project.tree), VisiblePaths(old(project.tree), rule)) ==>
        && IsScan(old(project.tree), rule, hash, ours)
        && IsTarget(snapshots, old(head), target) && ManifestText.Parse(snapshots[target]).Some?
        && (starts <==> SameEverywhere(ManifestAt(snapshots, target), ours))
      ensures starts ==>
        && Fits(old(project.tree), VisiblePaths(old(project.tree), rule))
        && result.id in snapshots && Identifiers.Names(wanted, result.id)
        && ManifestText.Parse(snapshots[result.id]).Some?
        && Restored(old(project.tree), project.tree, rule, ManifestAt(snapshots, result.id), objects,
                    result.ok, result.removed, result.written)
        && head == if result.ok then Some(result.id) else old(head)
      ensures !starts ==> !result.ok && project.tree == old(project.tree) && head == old(head)
    {
      hide GoodHash, HidesTemporaries, Sound, Restored, Identifiers.Names, ManifestText.Parse, Fits, VisiblePaths,
        IsScan,
        SameEverywhere, Changes.Differences, Changes.Empty, WorkingTree;
      ours, target, starts := [], 0, false;
      result := RestoreResult(false, 0, None, 0, 0);
      WorkingTreeIsProper(project.tree);
      var id, recorded := Restorable(wanted);
      if id.None? {
        return;
      }
      SoundParts(hash, objects, snapshots, head);
      var found := DiffTarget();
      if found.None? {
        return;
      }
      target := found.value;
      var previous := ManifestText.ParseManifest(snapshots[found.value]);
      var scanned, present := Scan.Scan(project.tree, rule, hash);
      if !scanned {
        return;
      }
      ours := present;
      var changes := Changes.Compare(previous.value, present);
      RecordingIsUnique(hash, objects, snapshots[found.value]);
      ScanIsUnique(project.tree, rule, hash, present);
      Changes.EmptyIffSame(previous.value, present, changes);
      NoChanges(previous.value, present);
      if !Changes.Empty(changes) {
        return;
      }
      starts := true;
      var ok, removed, written := WriteTree(project, id.value, recorded);
      result := RestoreResult(ok, id.value, None, removed, written);
    }

    // The base of a merge: the one that is asked for, or the current one. It
    // must not be the checkpoint to merge.
    method MergeBase(theirs: nat, wanted: string) returns (base: Option<nat>)
      requires Valid()
      ensures base.Some? ==> base.value in snapshots && base.value != theirs && IsBase(head, wanted, base.value)
      ensures base.None? ==> forall n :: n in snapshots && IsBase(head, wanted, n) ==> n == theirs
    {
      hide GoodHash, HidesTemporaries, Recording, Identifiers.Names;
      var found;
      if wanted == "" {
        found := head;
      } else {
        found := Identifiers.Resolve(snapshots.Keys, wanted);
        BaseIsUnique(head, wanted, found);
      }
      base := if found == Some(theirs) then None else found;
    }

    // Merges a stored checkpoint into the working tree.
    method Merge(project: Project, wanted: string, baseWanted: string, isText: Content -> bool, labels: Merge3.Labels)
        returns (result: MergeResult, ghost ours: Manifest)
      requires Valid() && WorkingTree(project.tree)
      modifies this`objects, this`snapshots, this`head, project
      ensures Valid() && Closed(project.tree) && Includes(objects, old(objects))
      ensures result.automatic.Some? ==>
        Taken(rule, hash, objects, old(snapshots), snapshots, head, old(project.tree), result.automatic.value)
      ensures result.automatic.None? ==>
              project.tree == old(project.tree) && snapshots == old(snapshots) && head == old(head)
      ensures result.planned ==>
        && result.theirs in old(snapshots) && result.base in old(snapshots) && result.theirs != result.base
        && Identifiers.Names(wanted, result.theirs)
        && ManifestText.Parse(old(snapshots)[result.theirs]).Some?
        && ManifestText.Parse(old(snapshots)[result.base]).Some?
        && Merged(Setting(old(project.tree), objects, isText, labels), project.tree, rule, hash,
                  ManifestAt(old(snapshots), result.base), ours, ManifestAt(old(snapshots), result.theirs), result.plan,
                      result.ok)
      ensures result.planned <==>
        CanMerge(old(snapshots), old(head), wanted, baseWanted)
            && Fits(old(project.tree), VisiblePaths(old(project.tree), rule))
      ensures result.ok || result.automatic.Some? ==> result.planned
    {
      hide GoodHash, HidesTemporaries, Sound, Taken, WorkingTree, Identifiers.Names, ManifestText.Parse, Includes,
        Fits, VisiblePaths,
        Merged, IsScan, PlansAll, ProperPlan, Hybrid, Applied, LeavesAlone, DropsAreFiles, AfterPlan, PlannedWrites,
        ContentsThere, CanWrite, NamesNoTemporaries, ContentsStored, Closed, ProperPaths, CanMerge;
      ours := [];
      result := MergeResult(false, false, 0, 0, [], None);
      IncludesSelf(objects);
      WorkingTreeIsProper(project.tree);
      var theirsId := Identifiers.Resolve(snapshots.Keys, wanted);
      if theirsId.None? {
        MergeIsPossible(snapshots, head, wanted, baseWanted, theirsId, None);
        return;
      }
      var baseId := MergeBase(theirsId.value, baseWanted);
      MergeIsPossible(snapshots, head, wanted, baseWanted, theirsId, baseId);
      if baseId.None? {
        return;
      }
      SoundParts(hash, objects, snapshots, head);
      RecordingForMerge(hash, objects, snapshots[theirsId.value]);
      RecordingForMerge(hash, objects, snapshots[baseId.value]);
      var base := ManifestText.ParseManifest(snapshots[baseId.value]);
      var theirs := ManifestText.ParseManifest(snapshots[theirsId.value]);
      var ok, plan;
      ok, plan, ours := PlanTree(project.tree, base.value, theirs.value, objects, isText, labels, rule, hash);
      if !ok {
        return;
      }
      ghost var setting := Setting(project.tree, objects, isText, labels);
      if |plan| == 0 {
        EmptyPlanIsMerged(setting, rule, hash, base.value, ours, theirs.value);
        return MergeResult(true, true, theirsId.value, baseId.value, [], None), ours;
      }
      HybridOfSame(project.tree);
      var automatic := Take(project.tree, project.tree);
      result := MergeResult(true, false, theirsId.value, baseId.value, plan, automatic);
      if automatic.None? {
        return;
      }
      MorePlan(setting, objects, rule, hash, base.value, ours, theirs.value, plan);
      MoreStored(theirs.value, setting.objects, objects);
      ok := ApplyMergePlan(project, plan, objects);
      result := MergeResult(true, ok, theirsId.value, baseId.value, plan, automatic);
      MergedMeaning(setting.(objects := objects), project.tree, rule, hash, base.value, ours, theirs.value, plan, ok);
    }
  }

  // The checkpoint that the tree is compared with: the current one, or the last.
  ghost predicate IsTarget(snapshots: map<nat, string>, head: Option<nat>, n: nat) {
    n in snapshots && if head.Some? then n == head.value else forall m :: m in snapshots ==> m <= n
  }

  // The checkpoint is the base that is asked for, or the current one.
  ghost predicate IsBase(head: Option<nat>, wanted: string, n: nat) {
    if wanted == "" then head == Some(n) else Identifiers.Names(wanted, n)
  }

  lemma BaseIsUnique(head: Option<nat>, wanted: string, found: Option<nat>)
    requires wanted != "" && found.Some? ==> Identifiers.Names(wanted, found.value)
    ensures wanted != "" && found.Some? ==> forall n :: IsBase(head, wanted, n) <==> n == found.value
  {
    if wanted != "" && found.Some? {
      forall n | IsBase(head, wanted, n)
        ensures n == found.value
      {
        Identifiers.NamesAreUnique(wanted, n, found.value);
      }
    }
  }

  // Both checkpoints of a merge are stored and different.
  ghost predicate CanMerge(snapshots: map<nat, string>, head: Option<nat>, wanted: string, baseWanted: string) {
    exists theirs, base ::
      && theirs in snapshots && Identifiers.Names(wanted, theirs)
      && base in snapshots && IsBase(head, baseWanted, base) && base != theirs
  }

  lemma MergeIsPossible(snapshots: map<nat, string>, head: Option<nat>, wanted: string, baseWanted: string,
                        theirs: Option<nat>, base: Option<nat>)
    requires if theirs.Some? then theirs.value in snapshots && Identifiers.Names(wanted, theirs.value)
             else forall n :: n in snapshots ==> !Identifiers.Names(wanted, n)
    requires theirs.Some? ==>
      if base.Some? then base.value in snapshots && IsBase(head, baseWanted, base.value) && base.value != theirs.value
      else forall n :: n in snapshots && IsBase(head, baseWanted, n) ==> n == theirs.value
    ensures CanMerge(snapshots, head, wanted, baseWanted) <==> theirs.Some? && base.Some?
  {
    hide IsBase, Identifiers.Names;
    forall n | theirs.Some? && Identifiers.Names(wanted, n)
      ensures n == theirs.value
    {
      Identifiers.NamesAreUnique(wanted, n, theirs.value);
    }
  }

  datatype MergeResult =
    MergeResult(planned: bool, ok: bool, theirs: nat, base: nat, plan: Plan, automatic: Option<nat>)

  // What a merge does to the tree. It never disturbs a path that the plan leaves
  // alone. In any tree, changed or not, it finishes if and only if each directory
  // above a path to write is there, missing or planned and nothing lies below a
  // file or link to write or below its temporary name. It then leaves the planned
  // tree, and every recorded path ends where the three manifests say. The
  // unchanged tree of the base takes theirs without conflicts, if and only if no
  // changed file or link of theirs is blocked; theirs then stands over what is
  // left out.
  ghost predicate Merged(setting: Setting, t': Tree, rule: Rule, hash: Hash, base: Manifest, ours: Manifest,
                         theirs: Manifest, plan: Plan, ok: bool) {
    && IsScan(setting.tree, rule, hash, ours)
    && PlansAll(setting, base, ours, theirs, plan) && LeavesAlone(setting.tree, t', plan)
    && (ok <==> CanWrite(setting.tree, PlannedWrites(plan, setting.objects)))
    && (ok ==> t' == AfterPlan(setting.tree, plan, setting.objects) && EndsRight(setting, t', base, ours, theirs))
    && (TreeIsBase(setting, rule, base, ours, theirs) ==>
          && (ok <==> !Blocked(setting.tree, ours, theirs))
          && (forall i :: 0 <= i < |plan| ==> plan[i].conflicts == 0)
          && (ok ==> TakesTheirs(setting, t', rule, hash, ours, theirs, plan)))
  }

  lemma MergedMeaning(setting: Setting, t': Tree, rule: Rule, hash: Hash, base: Manifest, ours: Manifest,
                      theirs: Manifest, plan: Plan, ok: bool)
    requires Closed(setting.tree) && HidesTemporaries(rule) && IsScan(setting.tree, rule, hash, ours)
    requires PlansAll(setting, base, ours, theirs, plan) && ProperPlan(plan) && NamesNoTemporaries(theirs)
    requires ContentsStored(theirs, setting.objects)
    requires LeavesAlone(setting.tree, t', plan)
    requires ok ==>
      Applied(setting.tree, t', plan, setting.objects) && t' == AfterPlan(setting.tree, plan, setting.objects)
    requires var ready := ContentsThere(plan, setting.objects)
                          && CanWrite(setting.tree, PlannedWrites(plan, setting.objects));
             (ok ==> ready) && (ready && DropsAreFiles(setting.tree, plan) ==> ok)
    ensures Merged(setting, t', rule, hash, base, ours, theirs, plan, ok)
  {
    hide IsScan, PlansAll, ProperPlan, Applied, LeavesAlone, DropsAreFiles, AfterPlan, PlannedWrites, ContentsThere,
      CanWrite, NamesNoTemporaries, Closed, HidesTemporaries, EndsRight, TreeIsBase, Blocked, TakesTheirs;
    MergeMeaning(setting, t', ok, rule, hash, base, ours, theirs, plan);
  }

  lemma EmptyPlanIsMerged(setting: Setting, rule: Rule, hash: Hash, base: Manifest, ours: Manifest, theirs: Manifest)
    requires Closed(setting.tree) && HidesTemporaries(rule) && IsScan(setting.tree, rule, hash, ours)
    requires PlansAll(setting, base, ours, theirs, []) && ProperPlan([]) && NamesNoTemporaries(theirs)
    requires ContentsStored(theirs, setting.objects)
    ensures Merged(setting, setting.tree, rule, hash, base, ours, theirs, [], true)
  {
    hide *;
    EmptyPlan(setting.tree, setting.objects);
    ContentsAreThere(setting, base, ours, theirs, []);
    MergedMeaning(setting, setting.tree, rule, hash, base, ours, theirs, [], true);
  }

  lemma RecordingForMerge(hash: Hash, objects: Objects, text: string)
    requires Recording(hash, objects, text)
    ensures ManifestText.Parse(text).Some?
    ensures var m := ManifestText.Parse(text).value; NamesNoTemporaries(m) && ContentsStored(m, objects)
  {
    hide Recording, ManifestText.Parse;
    RecordingIsSound(hash, objects, text);
  }

  lemma MorePlan(setting: Setting, objects: Objects, rule: Rule, hash: Hash, base: Manifest, ours: Manifest,
                 theirs: Manifest, plan: Plan)
    requires IsScan(setting.tree, rule, hash, ours)
    requires PlansAll(setting, base, ours, theirs, plan) && Includes(objects, setting.objects)
    requires ContentsStored(base, setting.objects) && ContentsStored(theirs, setting.objects)
    ensures PlansAll(setting.(objects := objects), base, ours, theirs, plan)
  {
    hide PlansAll, IsScan, ContentsStored;
    PlanKeepsWithMore(setting, objects, rule, hash, base, ours, theirs, plan);
  }

  lemma MoreStored(m: Manifest, objects: Objects, objects': Objects)
    requires ContentsStored(m, objects) && Includes(objects', objects)
    ensures ContentsStored(m, objects')
  {
  }

  datatype RestoreResult = RestoreResult(ok: bool, id: nat, automatic: Option<nat>, removed: nat, written: nat)

  // What a restore does to the tree. It never disturbs what is left out; it
  // succeeds if and only if no left out node lies below a recorded file or link
  // or below the temporary name of a file; and then exactly the recorded nodes
  // stand over what is kept. A tree without left out nodes becomes the recorded one.
  ghost predicate Restored(t: Tree, t': Tree, rule: Rule, recorded: Manifest, objects: Objects,
                           ok: bool, removed: nat, written: nat) {
    var kept := Kept(t, ObsoletePaths(t, rule, recorded));
    && OnlyRestores(t, t', rule, recorded)
    && (!Fits(t, VisiblePaths(t, rule)) ==> !ok && t' == t)
    && (Fits(t, VisiblePaths(t, rule)) ==> (ok <==> NothingInTheWay(t, rule, recorded)))
    && (ok ==> t' == Overwritten(kept, recorded, objects) && removed == |t| - |kept| && written == |recorded|)
    && (ok ==> StandsOver(t, t', rule, recorded, objects, FileTemporaries(recorded)))
    && (Fits(t, VisiblePaths(t, rule)) && VisiblePaths(t, rule) == t.Keys ==>
          ok && t' == TreeOf(recorded, objects) && kept.Keys == t.Keys * PathSet(recorded))
  }

  lemma RestoreMeaning(t: Tree, t': Tree, rule: Rule, recorded: Manifest, objects: Objects,
                       ok: bool, removed: nat, written: nat)
    requires Closed(t) && HidesTemporaries(rule) && RestoreLaws.SoundRecording(recorded, objects)
    requires OnlyRestores(t, t', rule, recorded)
    requires !Fits(t, VisiblePaths(t, rule)) ==> !ok && t' == t
    requires ok ==> NothingInTheWay(t, rule, recorded)
    requires var kept := Kept(t, ObsoletePaths(t, rule, recorded));
             Fits(t, VisiblePaths(t, rule)) && Restore.Restorable(kept, recorded, objects) ==>
               ok && t' == Overwritten(kept, recorded, objects) && removed == |t| - |kept| && written == |recorded|
    ensures Restored(t, t', rule, recorded, objects, ok, removed, written)
  {
    hide Fits, Restore.Restorable, NothingInTheWay, OnlyRestores, Kept, TreeOf, Overwritten, RestoreLaws.SoundRecording,
      Closed, HidesTemporaries, VisiblePaths, Temporaries, ObsoletePaths, PathSet, StandsOver;
    RestorableUnlessInTheWay(t, rule, recorded, objects);
    RestoredStandsOver(t, rule, recorded, objects);
    if VisiblePaths(t, rule) == t.Keys {
      WholeTreeIsRestored(t, rule, recorded, objects);
    }
  }

  lemma RestoredStandsOver(t: Tree, rule: Rule, recorded: Manifest, objects: Objects)
    requires Closed(t) && RestoreLaws.SoundRecording(recorded, objects)
    ensures StandsOver(t, Overwritten(Kept(t, ObsoletePaths(t, rule, recorded)), recorded, objects), rule, recorded,
                       objects,
                       FileTemporaries(recorded))
  {
    RecordedStandsOver(t, rule, recorded, objects, FileTemporaries(recorded));
  }

  lemma RecordingStores(hash: Hash, objects: Objects, text: string)
    requires Recording(hash, objects, text)
    ensures ManifestText.Parse(text).Some? && ContentsStored(ManifestText.Parse(text).value, objects)
  {
    var t, used :| HidesTemporaries(used) && RecordsTree(used, hash, objects, text, t);
    ScanStores(t, used, hash, ManifestText.Parse(text).value, objects);
  }

  lemma RecordingIsUnique(hash: Hash, objects: Objects, text: string)
    requires Recording(hash, objects, text)
    ensures ManifestText.Parse(text).Some? && UniquePaths(ManifestText.Parse(text).value)
  {
    var t, used :| HidesTemporaries(used) && RecordsTree(used, hash, objects, text, t);
    ScanIsUnique(t, used, hash, ManifestText.Parse(text).value);
  }

  lemma ScanIsUnique(t: Tree, rule: Rule, hash: Hash, m: Manifest)
    requires IsScan(t, rule, hash, m)
    ensures UniquePaths(m)
  {
  }

  lemma NoChanges(previous: Manifest, current: Manifest)
    ensures SameEverywhere(previous, current) <==> forall p :: SameSignature(At(previous, p), At(current, p))
  {
  }

  lemma ScanStores(t: Tree, rule: Rule, hash: Hash, m: Manifest, objects: Objects)
    requires IsScan(t, rule, hash, m) && HoldsContents(t, rule, hash, objects)
    ensures ContentsStored(m, objects)
  {
    forall i | 0 <= i < |m| && !m[i].kind.KindDirectory?
      ensures m[i].digest in objects
    {
      assert m[i].path in PathSet(m) && m[i] == EntryOf(m[i].path, t[m[i].path], hash);
      assert Holds(objects, hash, ContentAt(t, m[i].path));
    }
  }

  lemma IncludesSelf(objects: Objects)
    ensures Includes(objects, objects)
  {
  }

  lemma WorkingTreeIsProper(t: Tree)
    requires WorkingTree(t)
    ensures Closed(t) && ProperPaths(t)
  {
    ManifestText.RealTreeIsProper(t);
  }

  lemma TakenKeeps(rule: Rule, hash: Hash, objects: Objects, before: map<nat, string>, snapshots: map<nat, string>,
                   head: Option<nat>, read: Tree, id: nat, n: nat)
    requires Taken(rule, hash, objects, before, snapshots, head, read, id) && n in before
    ensures n in snapshots && snapshots[n] == before[n] && head == Some(id)
  {
  }

  method Digests(m: Manifest) returns (digests: set<string>)
    ensures forall d :: d in digests <==> Mentions(m, d)
  {
    digests := {};
    for index := 0 to |m|
      invariant forall d :: d in digests <==> d != "" && exists i :: 0 <= i < index && m[i].digest == d
    {
      if m[index].digest != "" {
        digests := digests + {m[index].digest};
      }
    }
  }

  lemma OneObjectLess(objects: Objects, digest: string)
    requires digest in objects
    ensures |objects - {digest}| == |objects| - 1
  {
    assert objects == (objects - {digest})[digest := objects[digest]];
  }

  lemma SoundParts(hash: Hash, objects: Objects, snapshots: map<nat, string>, head: Option<nat>)
    requires Sound(hash, objects, snapshots, head)
    ensures forall d :: d in objects ==> hash(objects[d]) == d
    ensures forall n :: n in snapshots ==>
              ManifestText.Parse(snapshots[n]).Some? && Recording(hash, objects, snapshots[n])
    ensures head.Some? ==> head.value in snapshots
  {
    hide RecordsTree;
    forall n | n in snapshots
      ensures ManifestText.Parse(snapshots[n]).Some?
    {
      RecordingReads(hash, objects, snapshots[n]);
    }
  }

  lemma RecordingReads(hash: Hash, objects: Objects, text: string)
    requires Recording(hash, objects, text)
    ensures ManifestText.Parse(text).Some?
  {
    var t, used :| HidesTemporaries(used) && RecordsTree(used, hash, objects, text, t);
  }

  // Every scanned file or link still has its kind when its content is read.
  ghost predicate StillThere(t: Tree, later: Tree, rule: Rule) {
    forall p :: p in VisiblePaths(t, rule) ==>
      && (t[p].File? ==> p in later && later[p].File?)
      && (t[p].Link? ==> p in later && later[p].Link?)
  }

  lemma NothingMoved(t: Tree, rule: Rule)
    ensures StillThere(t, t, rule)
  {
  }

  lemma AllReadable(t: Tree, later: Tree, rule: Rule, hash: Hash, entries: Manifest)
    requires IsScan(t, rule, hash, entries)
    ensures (forall i :: 0 <= i < |entries| ==> Readable(later, entries[i])) <==> StillThere(t, later, rule)
  {
    forall i | 0 <= i < |entries|
      ensures entries[i].path in VisiblePaths(t, rule)
              && entries[i] == EntryOf(entries[i].path, t[entries[i].path], hash)
    {
      assert entries[i].path in PathSet(entries);
    }
    forall p | p in VisiblePaths(t, rule)
      ensures exists i :: 0 <= i < |entries| && entries[i].path == p
    {
      assert p in PathSet(entries);
    }
    hide IsScan, Visible;
  }

  lemma ReadBackTaken(rule: Rule, hash: Hash, objects: Objects, before: map<nat, string>, read: Tree, stored: Manifest,
                      text: string, id: nat, numbers: seq<nat>)
    requires WorkingTree(read) && IsScan(read, rule, hash, stored) && HoldsContents(read, rule, hash, objects)
    requires GoodHash(hash) && text == ManifestText.FormatLines(stored)
    requires forall n :: n in numbers <==> n in before
    requires forall i, j :: 0 <= i < j < |numbers| ==> numbers[i] < numbers[j]
    requires id == 1 + if |numbers| > 0 then numbers[|numbers| - 1] else 0
    ensures Taken(rule, hash, objects, before, before[id := text], Some(id), read, id)
  {
    ManifestText.ScansReadBack(read, rule, hash, stored);
    hide ManifestText.Parse, ManifestText.FormatLines, IsScan, HoldsContents, WorkingTree;
    forall n | n in before
      ensures n < id
    {
      var i :| 0 <= i < |numbers| && numbers[i] == n;
    }
    assert |numbers| > 0 ==> numbers[|numbers| - 1] in numbers;
    assert |numbers| == 0 ==> before == map[];
    assert before[id := text] == before[id := before[id := text][id]];
    assert RecordsTree(rule, hash, objects, before[id := text][id], read);
  }

  // Every recording keeps the contents that it mentions.
  lemma PruneIsSound(hash: Hash, objects: Objects, objects': Objects, snapshots: map<nat, string>,
                     head: Option<nat>)
    requires GoodHash(hash) && Sound(hash, objects, snapshots, head)
    requires forall d :: d in objects' <==> d in objects && Referenced(snapshots, d)
    requires forall d :: d in objects' ==> objects'[d] == objects[d]
    ensures Sound(hash, objects', snapshots, head)
  {
    forall n | n in snapshots
      ensures Recording(hash, objects', snapshots[n])
    {
      var t, used :| HidesTemporaries(used) && RecordsTree(used, hash, objects, snapshots[n], t);
      forall d | d in objects && Mentions(ManifestText.Parse(snapshots[n]).value, d)
        ensures d in objects' && objects'[d] == objects[d]
      {
        assert Referenced(snapshots, d);
      }
      MentionedIsEnough(t, used, hash, objects, objects', ManifestText.Parse(snapshots[n]).value);
      assert RecordsTree(used, hash, objects', snapshots[n], t);
    }
  }

  lemma MentionedIsEnough(t: Tree, rule: Rule, hash: Hash, objects: Objects, objects': Objects, m: Manifest)
    requires GoodHash(hash) && IsScan(t, rule, hash, m) && HoldsContents(t, rule, hash, objects)
    requires forall d :: d in objects && Mentions(m, d) ==> d in objects' && objects'[d] == objects[d]
    ensures HoldsContents(t, rule, hash, objects')
  {
    forall p | p in VisiblePaths(t, rule) && !t[p].Dir?
      ensures Holds(objects', hash, ContentAt(t, p))
    {
      var digest := hash(ContentAt(t, p));
      assert Holds(objects, hash, ContentAt(t, p));
      assert p in PathSet(m);
      var i :| 0 <= i < |m| && m[i].path == p;
      assert m[i] == EntryOf(p, t[p], hash) && m[i].digest == digest;
      assert Mentions(m, digest);
    }
  }

  lemma StoredGrows(entries: Manifest, i: nat, stored: Manifest, later: Tree, hash: Hash, objects: Objects,
                    objects': Objects)
    requires i < |entries| && Stored(entries[..i], stored, later, hash, objects) && Includes(objects', objects)
    requires Readable(later, entries[i])
    requires !entries[i].kind.KindDirectory? ==> Holds(objects', hash, ContentAt(later, entries[i].path))
    ensures Stored(entries[..i + 1], stored + [Refreshed(entries[i], later, hash)], later, hash, objects')
  {
    var front := entries[..i];
    hide ContentAt, Refreshed;
    forall k | 0 <= k < i + 1
      ensures entries[..i + 1][k] == if k < i then front[k] else entries[i]
      ensures k < i && !front[k].kind.KindDirectory? ==> Holds(objects', hash, ContentAt(later, front[k].path))
    {
      if k < i {
        assert Readable(later, front[k]);
        assert !front[k].kind.KindDirectory? ==> Holds(objects, hash, ContentAt(later, front[k].path));
      }
    }
  }
}
