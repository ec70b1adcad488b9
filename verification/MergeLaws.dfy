// What a merge means: where each path ends, and that an unchanged tree takes
// exactly the other side.
module MergeLaws {
  import opened Wrappers
  import opened Paths
  import opened Tree
  import opened Project
  import opened Manifest
  import opened Scan
  import opened Restore
  import opened RestoreLaws
  import opened MergePlan
  import opened MergeWrites
  import opened Writing
  import opened MergeApply
  import Lines
  import Blocks
  import Diff
  import Merge3

  lemma AtHolds(m: Manifest, p: Path)
    ensures At(m, p).Some? ==> At(m, p).value.path == p && At(m, p).value in m
    ensures At(m, p).Some? <==> p in PathSet(m)
  {
    IndexHolds(m, p);
    IndexKeys(m);
  }

  lemma PlannedPath(setting: Setting, base: Manifest, ours: Manifest, theirs: Manifest, plan: Plan, i: nat)
    requires PlansAll(setting, base, ours, theirs, plan) && i < |plan|
    ensures var p := plan[i].path;
            && Plans(setting, p, At(base, p), At(ours, p), At(theirs, p), Some(plan[i]))
            && (At(base, p).Some? || At(ours, p).Some? || At(theirs, p).Some?)
  {
    var p := plan[i].path;
    assert PlannedAt(setting, base, ours, theirs, p, Some(plan[i]));
  }

  lemma PlanIsProper(setting: Setting, base: Manifest, ours: Manifest, theirs: Manifest, plan: Plan)
    requires PlansAll(setting, base, ours, theirs, plan)
    requires NamesNoTemporaries(base) && NamesNoTemporaries(ours) && NamesNoTemporaries(theirs)
    ensures ProperPlan(plan)
  {
    forall i, j | 0 <= i < j < |plan|
      ensures plan[i].path != plan[j].path
    {
      LessIsTotal(plan[i].path, plan[j].path);
    }
    forall i | 0 <= i < |plan|
      ensures plan[i].action.WriteEntry? ==> plan[i].action.entry.path == plan[i].path
      ensures forall q :: plan[i].path != Temporary(q) && !Ancestor(Temporary(q), plan[i].path)
    {
      var p := plan[i].path;
      PlannedPath(setting, base, ours, theirs, plan, i);
      AtHolds(base, p);
      AtHolds(ours, p);
      AtHolds(theirs, p);
    }
  }

  // The node that a recorded entry becomes.
  ghost predicate HoldsEntry(t: Tree, p: Path, entry: Entry, objects: Objects) {
    && p in t
    && (entry.kind.KindDirectory? || entry.digest in objects)
    && t[p] == NodeOf(entry, ContentOf(entry, objects))
  }

  ghost predicate SameNode(t: Tree, t': Tree, p: Path) {
    p in t' && p in t && t'[p] == t[p]
  }

  // Where a path of any of the three manifests ends. A side that did not change
  // takes the other side; two different changes keep ours, restore a removed
  // path or merge the texts.
  ghost predicate Outcome(setting: Setting, t': Tree, p: Path, base: Option<Entry>, ours: Option<Entry>,
                          theirs: Option<Entry>) {
    var t := setting.tree;
    if SameSignature(theirs, base) || SameSignature(ours, theirs) then
      if ours.Some? then SameNode(t, t', p) else p in t' ==> t'[p].Dir? || SameNode(t, t', p)
    else if SameSignature(ours, base) then
      if theirs.Some? then HoldsEntry(t', p, theirs.value, setting.objects)
      else p in t' ==> base.value.kind.KindDirectory? && t'[p].Dir? && HasChildren(t', p)
    else if ours.None? then HoldsEntry(t', p, theirs.value, setting.objects)
    else if theirs.None? || ours.value.kind != theirs.value.kind || ours.value.kind.KindLink? then SameNode(t, t', p)
    else HoldsMerge(setting, t', p, base, ours.value, theirs.value)
  }

  // The path holds the merged lines of the three texts and the merged mode, or
  // ours when one of them is no text.
  ghost predicate HoldsMerge(setting: Setting, t': Tree, p: Path, base: Option<Entry>, ours: Entry, theirs: Entry) {
    exists item :: PlansFile(setting, p, base, ours, theirs, item) && HoldsFile(setting.tree, t', p, item)
  }

  ghost predicate HoldsFile(t: Tree, t': Tree, p: Path, item: PlanItem) {
    if item.action.WriteLines? then
      p in t' && t'[p] ==
          File(Lines.Join(item.action.lines, item.action.trailingNewline), WrittenMode(item.action.mode))
    else SameNode(t, t', p)
  }

  // After a merge without an error every recorded path ends where the three
  // manifests say.
  lemma EveryPathEndsRight(setting: Setting, t': Tree, rule: Rule, hash: Hash, base: Manifest, ours: Manifest,
                           theirs: Manifest, plan: Plan, p: Path)
    requires IsScan(setting.tree, rule, hash, ours) && PlansAll(setting, base, ours, theirs, plan) && ProperPlan(plan)
    requires Applied(setting.tree, t', plan, setting.objects) && LeavesAlone(setting.tree, t', plan)
    requires forall q :: p != Temporary(q)
    ensures Outcome(setting, t', p, At(base, p), At(ours, p), At(theirs, p))
  {
    AtHolds(ours, p);
    assert p !in TemporaryPaths(plan);
    if i :| 0 <= i < |plan| && plan[i].path == p {
      PlannedEnds(setting, t', base, ours, theirs, plan, i);
      OursIsThere(setting.tree, rule, hash, ours, p);
    } else {
      assert PlannedAt(setting, base, ours, theirs, p, None);
      OursIsThere(setting.tree, rule, hash, ours, p);
      assert Untouched(plan, p) && p !in DroppedPaths(plan);
      hide Applied, PlansAll, ProperPlan, PlansFile, IsScan, NodeOf;
    }
  }

  lemma OursIsThere(t: Tree, rule: Rule, hash: Hash, ours: Manifest, p: Path)
    requires IsScan(t, rule, hash, ours)
    ensures At(ours, p).Some? ==> p in t && At(ours, p).value == EntryOf(p, t[p], hash)
  {
    ScanIndex(t, rule, hash, ours, p);
  }

  lemma PlannedEnds(setting: Setting, t': Tree, base: Manifest, ours: Manifest, theirs: Manifest, plan: Plan, i: nat)
    requires PlansAll(setting, base, ours, theirs, plan) && ProperPlan(plan) && i < |plan|
    requires At(ours, plan[i].path).Some? ==> plan[i].path in setting.tree
    requires Applied(setting.tree, t', plan, setting.objects) && LeavesAlone(setting.tree, t', plan)
    requires forall q :: plan[i].path != Temporary(q)
    ensures var p := plan[i].path; Outcome(setting, t', p, At(base, p), At(ours, p), At(theirs, p))
  {
    var p := plan[i].path;
    var item := plan[i];
    PlannedPath(setting, base, ours, theirs, plan, i);
    AtHolds(base, p);
    if Writes(item) {
      assert HoldsItem(t', item, setting.objects);
    } else if item.action.Delete? {
      assert p in DroppedPaths(plan);
    } else {
      assert Untouched(plan, p) && p !in DroppedPaths(plan);
    }
    hide Applied, LeavesAlone, PlansAll, ProperPlan, MergedLines;
    ItemEnds(setting, t', p, At(base, p), At(ours, p), At(theirs, p), item);
  }

  lemma ItemEnds(setting: Setting, t': Tree, p: Path, base: Option<Entry>, ours: Option<Entry>, theirs: Option<Entry>,
                 item: PlanItem)
    requires Plans(setting, p, base, ours, theirs, Some(item))
    requires Writes(item) ==> HoldsItem(t', item, setting.objects)
    requires DropsFile(item) ==> p !in t'
    requires item.action.Delete? && p in t' ==> t'[p].Dir? && HasChildren(t', p)
    requires item.action.Keep? && ours.Some? ==> SameNode(setting.tree, t', p)
    ensures Outcome(setting, t', p, base, ours, theirs)
  {
    hide MergedLines, HasChildren;
    assert item.action.WriteLines? || item.action.Keep? ==> HoldsFile(setting.tree, t', p, item) || ours.None?;
  }

  // Both trees have this node, but for mode bits that are no permissions.
  predicate AlikeNodes(node: Node, other: Node) {
    match (node, other)
    case (Dir, Dir) => true
    case (File(content, mode), File(content', mode')) => content == content' && mode % 512 == mode' % 512
    case (Link(target), Link(target')) => target == target'
    case _ => false
  }

  // Two scans have the same entry at a path exactly when the trees look alike there:
  // both show no node, or the same kind of node with the same content.
  lemma SameMeansAlike(t: Tree, t': Tree, rule: Rule, rule': Rule, hash: Hash, m: Manifest, m': Manifest, p: Path)
    requires IsScan(t, rule, hash, m) && IsScan(t', rule', hash, m')
    requires forall c, c' :: hash(c) == hash(c') ==> c == c'
    ensures SameSignature(At(m, p), At(m', p)) <==>
            if p in VisiblePaths(t, rule) && p in VisiblePaths(t', rule') then AlikeNodes(t[p], t'[p])
            else p !in VisiblePaths(t, rule) && p !in VisiblePaths(t', rule')
  {
    ScanIndex(t, rule, hash, m, p);
    ScanIndex(t', rule', hash, m', p);
    hide IsScan, Visible;
  }

  // The working tree is the base: every path has the same entry in both.
  ghost predicate SameEverywhere(base: Manifest, ours: Manifest) {
    forall p :: SameSignature(At(base, p), At(ours, p))
  }

  // A file or link that theirs changed has a node of the tree below it, left out
  // or not, or such a file has one below its temporary name.
  ghost predicate Blocked(t: Tree, ours: Manifest, theirs: Manifest) {
    exists i, q :: 0 <= i < |theirs| && q in t && !SameSignature(At(ours, theirs[i].path), Some(theirs[i]))
        && !MayHold(theirs[i], q)
  }

  // All that a merge into the unchanged tree of its base is given.
  ghost predicate Unchanged(setting: Setting, rule: Rule, hash: Hash, base: Manifest, ours: Manifest, theirs: Manifest,
                            plan: Plan) {
    var t := setting.tree;
    && Closed(t) && HidesTemporaries(rule) && IsScan(t, rule, hash, ours)
    && SameEverywhere(base, ours) && SoundRecording(theirs, setting.objects) && NamesNoTemporaries(theirs)
    && PlansAll(setting, base, ours, theirs, plan) && ProperPlan(plan)
  }

  // Such a plan only writes theirs and removes what theirs has not.
  lemma UnchangedItem(setting: Setting, rule: Rule, hash: Hash, base: Manifest, ours: Manifest, theirs: Manifest,
                      plan: Plan, i: nat)
    requires Unchanged(setting, rule, hash, base, ours, theirs, plan) && i < |plan|
    ensures var p := plan[i].path;
            && plan[i].conflicts == 0
            && (At(theirs, p).Some? ==> plan[i].action == WriteEntry(At(theirs, p).value))
            && (At(theirs, p).None? ==> At(base, p).Some? && plan[i].action == Delete(At(base, p).value))
            && !SameSignature(At(ours, p), At(theirs, p))
  {
    var p := plan[i].path;
    PlannedPath(setting, base, ours, theirs, plan, i);
    assert SameSignature(At(base, p), At(ours, p));
  }

  // A path that theirs has is in the plan, or the tree has it just so.
  lemma TheirPath(setting: Setting, rule: Rule, hash: Hash, base: Manifest, ours: Manifest, theirs: Manifest,
                  plan: Plan, p: Path)
    requires Unchanged(setting, rule, hash, base, ours, theirs, plan)
    ensures (exists i :: 0 <= i < |plan| && plan[i].path == p) || SameSignature(At(ours, p), At(theirs, p))
  {
    if forall i :: 0 <= i < |plan| ==> plan[i].path != p {
      assert PlannedAt(setting, base, ours, theirs, p, None);
      assert SameSignature(At(base, p), At(ours, p));
    }
  }

  // What an entry to write is, in a merge into an unchanged tree.
  lemma EntryIsTheirs(setting: Setting, rule: Rule, hash: Hash, base: Manifest, ours: Manifest, theirs: Manifest,
                      plan: Plan, j: nat)
      returns (k: nat)
    requires Unchanged(setting, rule, hash, base, ours, theirs, plan) && j < |PlannedEntries(plan)|
    ensures ComesFrom(plan, j, k) && plan[k].action.WriteEntry?
    ensures var e := PlannedEntries(plan)[j];
            e.path == plan[k].path && At(theirs, e.path) == Some(e) && e in theirs && plan[k].action.entry == e
  {
    Steps(plan);
    k := EntryFrom(plan, j);
    UnchangedItem(setting, rule, hash, base, ours, theirs, plan, k);
    AtHolds(theirs, plan[k].path);
  }

  lemma EntriesAreUnique(plan: Plan, theirs: Manifest)
    requires ProperPlan(plan)
    ensures UniquePaths(PlannedEntries(plan))
  {
    var all := PlannedEntries(plan);
    forall i, j | 0 <= i < j < |all|
      ensures all[i].path != all[j].path
    {
      TwoWrites(plan, i, j);
    }
  }

  // The path is written exactly when an entry has it.
  lemma EntryPaths(plan: Plan)
    requires ProperPlan(plan)
    ensures PathSet(PlannedEntries(plan)) == WrittenPaths(plan)
  {
    var all := PlannedEntries(plan);
    forall j | 0 <= j < |all|
      ensures all[j].path in WrittenPaths(plan)
    {
      var k := EntryFrom(plan, j);
    }
    forall k | 0 <= k < |plan| && Writes(plan[k])
      ensures plan[k].path in PathSet(all)
    {
      WrittenIsEntry(plan, k);
      assert all[PlaceOf(plan, k, WritesDirectory(plan[k]))].path == plan[k].path;
    }
  }

  // Every directory above an entry is written before it or stays.
  lemma ParentIsReady(setting: Setting, rule: Rule, hash: Hash, base: Manifest, ours: Manifest, theirs: Manifest,
                      plan: Plan, j: nat, a: Path)
    requires Unchanged(setting, rule, hash, base, ours, theirs, plan) && j < |PlannedEntries(plan)|
    requires Ancestor(a, PlannedEntries(plan)[j].path)
    ensures DirectoryBefore(PlannedEntries(plan), j, a) || DirectoryStays(setting.tree, PlannedEntries(plan), a)
  {
    hide Unchanged, IsScan;
    PlanOfUnchanged(setting, rule, hash, base, ours, theirs, plan);
    var k := EntryIsTheirs(setting, rule, hash, base, ours, theirs, plan, j);
    var e := PlannedEntries(plan)[j];
    ParentInTheirs(theirs, setting.objects, e, a);
    TheirPath(setting, rule, hash, base, ours, theirs, plan, a);
    if d :| 0 <= d < |plan| && plan[d].path == a {
      UnchangedItem(setting, rule, hash, base, ours, theirs, plan, d);
      AtHolds(theirs, a);
      AncestorIsLess(a, e.path);
      InOrder(plan, d, k);
      WrittenIsEntry(plan, d);
      DirectoriesAreFirst(plan, PlaceOf(plan, d, true), j, d, k);
      assert PlannedEntries(plan)[PlaceOf(plan, d, true)] == plan[d].action.entry;
    } else {
      OursIsThere(setting.tree, rule, hash, ours, a);
      EntryPaths(plan);
      AtHolds(theirs, a);
      assert a !in FileTemporaries(PlannedEntries(plan));
    }
  }

  lemma ParentInTheirs(theirs: Manifest, objects: Objects, e: Entry, a: Path)
    requires SoundRecording(theirs, objects) && e in theirs && Ancestor(a, e.path)
    ensures At(theirs, a).Some? && At(theirs, a).value.kind.KindDirectory?
  {
    var i :| 0 <= i < |theirs| && theirs[i] == e;
  }

  // Nothing stands in the way of the writes of a plan without merged texts.
  ghost predicate ReadyToMerge(t: Tree, plan: Plan, objects: Objects) {
    (forall i :: 0 <= i < |plan| ==> !plan[i].action.WriteLines?) && ReadyToWrite(t, PlannedEntries(plan), objects)
  }

  // Each of these writes is then made, and together they put the entries over
  // the tree.
  lemma {:induction false} ReadyIsWritable(t: Tree, plan: Plan, objects: Objects, n: nat)
    requires ReadyToMerge(t, plan, objects) && n <= |PlannedEntries(plan)|
    ensures var front := PlannedWrites(plan, objects)[..n];
            AllWritable(t, front) && AfterWrites(t, front) == Overwritten(t, PlannedEntries(plan)[..n], objects)
  {
    hide Writable, Placed, TreeOf, Overwritten, WriteOrder, ReadyToWrite;
    var entries, writes := PlannedEntries(plan), PlannedWrites(plan, objects);
    if n == 0 {
      NoneOver(t, objects);
      assert entries[..0] == [] && writes[..0] == [];
    } else {
      ReadyIsWritable(t, plan, objects, n - 1);
      NextIsWritable(t, entries, objects, n - 1);
      ContentToPlace(t, plan, objects, n - 1);
      assert writes[..n][..n - 1] == writes[..n - 1];
    }
  }

  lemma NoneOver(t: Tree, objects: Objects)
    ensures Overwritten(t, [], objects) == t
  {
  }

  lemma ContentToPlace(t: Tree, plan: Plan, objects: Objects, j: nat)
    requires ReadyToMerge(t, plan, objects) && j < |PlannedEntries(plan)|
    ensures PlannedWrites(plan, objects)[j] ==
            ToWrite(PlannedEntries(plan)[j], ContentOf(PlannedEntries(plan)[j], objects))
  {
    var k := EntryFrom(plan, j);
    hide WriteOrder;
    assert PlannedEntries(plan)[j].kind.KindDirectory? || PlannedEntries(plan)[j].digest in objects;
  }

  // When no changed file or link is blocked, all writes can be made.
  lemma UnchangedIsReady(setting: Setting, rule: Rule, hash: Hash, base: Manifest, ours: Manifest, theirs: Manifest,
                         plan: Plan)
    requires Unchanged(setting, rule, hash, base, ours, theirs, plan) && !Blocked(setting.tree, ours, theirs)
    ensures ReadyToMerge(setting.tree, plan, setting.objects)
  {
    var t := setting.tree;
    var all := PlannedEntries(plan);
    EntriesAreUnique(plan, theirs);
    EntryPaths(plan);
    forall i | 0 <= i < |plan|
      ensures !plan[i].action.WriteLines?
    {
      UnchangedItem(setting, rule, hash, base, ours, theirs, plan, i);
    }
    forall j | 0 <= j < |all|
      ensures all[j].kind.KindDirectory? || all[j].digest in setting.objects
      ensures forall q :: q in t ==> MayHold(all[j], q)
      ensures Temporary(all[j].path) !in PathSet(all)
    {
      var k := EntryIsTheirs(setting, rule, hash, base, ours, theirs, plan, j);
      UnchangedItem(setting, rule, hash, base, ours, theirs, plan, k);
      EntryIsReady(setting, ours, theirs, all[j]);
      assert Temporary(plan[k].path) == Temporary(all[j].path);
    }
    forall j, a | 0 <= j < |all| && Ancestor(a, all[j].path)
      ensures DirectoryBefore(all, j, a) || DirectoryStays(t, all, a)
    {
      ParentIsReady(setting, rule, hash, base, ours, theirs, plan, j, a);
    }
    hide Unchanged, PlannedEntries, DirectoryBefore, DirectoryStays, Blocked;
    WritesAreReady(t, all, setting.objects);
  }

  lemma WritesAreReady(t: Tree, all: Manifest, objects: Objects)
    requires UniquePaths(all)
    requires forall j :: 0 <= j < |all| ==> all[j].kind.KindDirectory? || all[j].digest in objects
    requires forall j, q :: 0 <= j < |all| && q in t ==> MayHold(all[j], q)
    requires forall j :: 0 <= j < |all| ==> Temporary(all[j].path) !in PathSet(all)
    requires forall j, a :: 0 <= j < |all| && Ancestor(a, all[j].path) ==>
               DirectoryBefore(all, j, a) || DirectoryStays(t, all, a)
    ensures ReadyToWrite(t, all, objects)
  {
    forall j | 0 <= j < |all| && all[j].kind.KindFile?
      ensures !HasChildren(t, Temporary(all[j].path))
    {
      assert forall q :: q in t ==> MayHold(all[j], q);
    }
  }

  lemma EntryIsReady(setting: Setting, ours: Manifest, theirs: Manifest, e: Entry)
    requires SoundRecording(theirs, setting.objects) && e in theirs && !Blocked(setting.tree, ours, theirs)
    requires !SameSignature(At(ours, e.path), Some(e))
    ensures e.kind.KindDirectory? || e.digest in setting.objects
    ensures forall q :: q in setting.tree ==> MayHold(e, q)
  {
    var i :| 0 <= i < |theirs| && theirs[i] == e;
  }

  // The stored contents have their digests, and no two contents share one.
  ghost predicate SoundObjects(objects: Objects, hash: Hash) {
    && (forall d :: d in objects ==> hash(objects[d]) == d)
    && (forall c, c' :: hash(c) == hash(c') ==> c == c')
  }

  // Modes hold permission bits only, and no recorded file is without any.
  ghost predicate PlainModes(t: Tree, m: Manifest) {
    && (forall p :: p in t && t[p].File? ==> t[p].mode < 0x200)
    && (forall i :: 0 <= i < |m| && m[i].kind.KindFile? ==> 0 < m[i].mode < 0x200)
  }

  // A path with the same entry on both sides already holds the node of theirs.
  lemma SameEntrySameNode(setting: Setting, rule: Rule, hash: Hash, ours: Manifest, theirs: Manifest, p: Path)
    requires IsScan(setting.tree, rule, hash, ours) && SoundRecording(theirs, setting.objects)
    requires SoundObjects(setting.objects, hash) && PlainModes(setting.tree, theirs)
    requires At(theirs, p).Some? && SameSignature(At(ours, p), At(theirs, p))
    ensures p in setting.tree
    ensures setting.tree[p] == NodeOf(At(theirs, p).value, ContentOf(At(theirs, p).value, setting.objects))
  {
    OursIsThere(setting.tree, rule, hash, ours, p);
    AtHolds(theirs, p);
    var e := At(theirs, p).value;
    var i :| 0 <= i < |theirs| && theirs[i] == e;
    assert e.kind.KindDirectory? || e.digest in setting.objects;
    assert e.digest in setting.objects ==> hash(setting.objects[e.digest]) == e.digest;
  }

  // What is removed is what a restore of theirs would remove.
  lemma DroppedIsObsolete(setting: Setting, rule: Rule, hash: Hash, base: Manifest, ours: Manifest, theirs: Manifest,
                         plan: Plan, p: Path)
    requires Unchanged(setting, rule, hash, base, ours, theirs, plan)
    ensures p in DroppedPaths(plan) <==> p in ObsoletePaths(setting.tree, rule, theirs)
    ensures p in WrittenPaths(plan) ==> At(theirs, p).Some?
    ensures At(theirs, p).Some? ==> (p in WrittenPaths(plan) <==> !SameSignature(At(ours, p), At(theirs, p)))
  {
    ScanIndex(setting.tree, rule, hash, ours, p);
    AtHolds(theirs, p);
    TheirPath(setting, rule, hash, base, ours, theirs, plan, p);
    forall i | 0 <= i < |plan| && plan[i].path == p
      ensures At(theirs, p).Some? <==> Writes(plan[i])
      ensures At(theirs, p).None? <==> plan[i].action.Delete?
      ensures At(theirs, p).None? ==> p in VisiblePaths(setting.tree, rule)
      ensures !SameSignature(At(ours, p), At(theirs, p))
    {
      UnchangedItem(setting, rule, hash, base, ours, theirs, plan, i);
    }
    hide Unchanged, SameSignature, ProperPlan, PlansAll, Visible;
    if p in VisiblePaths(setting.tree, rule) && At(theirs, p).None? {
      assert exists i :: 0 <= i < |plan| && plan[i].path == p by {
        NotSame(At(ours, p), At(theirs, p));
      }
    }
  }

  lemma NotSame(left: Option<Entry>, right: Option<Entry>)
    ensures left.Some? && right.None? ==> !SameSignature(left, right)
  {
  }

  // The nodes of theirs. A path with the same entry on both sides is not written.
  ghost function TheirNodes(t: Tree, ours: Manifest, theirs: Manifest, objects: Objects): Tree {
    map p | p in TreeOf(theirs, objects) ::
      if p in t && SameSignature(At(ours, p), At(theirs, p)) then t[p] else TreeOf(theirs, objects)[p]
  }

  // Without files that nobody may use, these are exactly the recorded nodes.
  lemma TheirNodesAreRecorded(setting: Setting, rule: Rule, hash: Hash, ours: Manifest, theirs: Manifest)
    requires IsScan(setting.tree, rule, hash, ours) && SoundRecording(theirs, setting.objects)
    requires SoundObjects(setting.objects, hash) && PlainModes(setting.tree, theirs)
    ensures TheirNodes(setting.tree, ours, theirs, setting.objects) == TreeOf(theirs, setting.objects)
  {
    hide IsScan, SoundRecording, SoundObjects, PlainModes;
    IndexKeys(theirs);
    forall p | p in TreeOf(theirs, setting.objects) && SameSignature(At(ours, p), At(theirs, p))
      ensures p in setting.tree && setting.tree[p] == TreeOf(theirs, setting.objects)[p]
    {
      AtHolds(theirs, p);
      SameEntrySameNode(setting, rule, hash, ours, theirs, p);
    }
    hide SameSignature;
  }

  // What a merge of theirs leaves in the unchanged tree of its base: the tree
  // that a restore of theirs leaves, but that only changed paths are written.
  ghost function TheirsOver(t: Tree, rule: Rule, ours: Manifest, theirs: Manifest, plan: Plan, objects: Objects): Tree {
    (Kept(t, ObsoletePaths(t, rule, theirs)) - FileTemporaries(PlannedEntries(plan)))
    + TheirNodes(t, ours, theirs, objects)
  }

  // After all writes and removals exactly that tree is left.
  lemma UnchangedBecomesTheirs(setting: Setting, rule: Rule, hash: Hash, base: Manifest, ours: Manifest,
                               theirs: Manifest, plan: Plan)
    requires Unchanged(setting, rule, hash, base, ours, theirs, plan)
    ensures Kept(Overwritten(setting.tree, PlannedEntries(plan), setting.objects), DroppedPaths(plan)) ==
            TheirsOver(setting.tree, rule, ours, theirs, plan, setting.objects)
  {
    hide *;
    var t := setting.tree;
    var nodes := TheirNodes(t, ours, theirs, setting.objects);
    var all := PlannedEntries(plan);
    var w := Overwritten(t, all, setting.objects);
    var dropped := DroppedPaths(plan);
    forall p
      ensures p in dropped <==> p in ObsoletePaths(t, rule, theirs)
      ensures p !in nodes ==> (p in w <==> p in t && p !in FileTemporaries(all))
      ensures p !in nodes && p in w && p in t ==> w[p] == t[p]
      ensures p in nodes ==> p in w && w[p] == nodes[p] && p !in dropped
    {
      DroppedIsObsolete(setting, rule, hash, base, ours, theirs, plan, p);
      WherePathIs(setting, rule, hash, base, ours, theirs, plan, p);
    }
    assert dropped == ObsoletePaths(t, rule, theirs);
    forall p, q | p in dropped && Ancestor(p, q)
      ensures q in w <==> q in t
    {
      BelowDropped(setting, rule, hash, base, ours, theirs, plan, p, q);
    }
    KeptIsTheirs(t, w, dropped, FileTemporaries(all), nodes);
    Unfold(t, rule, ours, theirs, plan, setting.objects);
  }

  lemma Unfold(t: Tree, rule: Rule, ours: Manifest, theirs: Manifest, plan: Plan, objects: Objects)
    ensures TheirsOver(t, rule, ours, theirs, plan, objects) ==
            (Kept(t, ObsoletePaths(t, rule, theirs)) - FileTemporaries(PlannedEntries(plan)))
            + TheirNodes(t, ours, theirs, objects)
  {
  }

  // A path of theirs holds its node when all is written, and any other path is
  // as it was.
  lemma WherePathIs(setting: Setting, rule: Rule, hash: Hash, base: Manifest, ours: Manifest, theirs: Manifest,
                    plan: Plan, p: Path)
    requires Unchanged(setting, rule, hash, base, ours, theirs, plan)
    ensures var w := Overwritten(setting.tree, PlannedEntries(plan), setting.objects);
            var nodes := TheirNodes(setting.tree, ours, theirs, setting.objects);
            if p in nodes then
              p in w && w[p] == nodes[p] && p !in DroppedPaths(plan)
            else
              && (p in w <==> p in setting.tree && p !in FileTemporaries(PlannedEntries(plan)))
              && (p in w ==> w[p] == setting.tree[p])
  {
    hide Unchanged, SameSignature;
    var all := PlannedEntries(plan);
    AtHolds(theirs, p);
    IndexKeys(theirs);
    IndexKeys(all);
    PlanOfUnchanged(setting, rule, hash, base, ours, theirs, plan);
    EntryPaths(plan);
    DroppedIsObsolete(setting, rule, hash, base, ours, theirs, plan, p);
    if At(theirs, p).Some? {
      NodeIsTheirs(setting, rule, hash, base, ours, theirs, plan, p);
    }
    hide ProperPlan, PlannedEntries, FileTemporaries;
  }

  lemma PlanOfUnchanged(setting: Setting, rule: Rule, hash: Hash, base: Manifest, ours: Manifest, theirs: Manifest,
                        plan: Plan)
    requires Unchanged(setting, rule, hash, base, ours, theirs, plan)
    ensures ProperPlan(plan) && SoundRecording(theirs, setting.objects) && NamesNoTemporaries(theirs)
    ensures IsScan(setting.tree, rule, hash, ours)
  {
  }

  lemma BelowDropped(setting: Setting, rule: Rule, hash: Hash, base: Manifest, ours: Manifest, theirs: Manifest,
                     plan: Plan, p: Path, q: Path)
    requires Unchanged(setting, rule, hash, base, ours, theirs, plan)
    requires p in DroppedPaths(plan) && Ancestor(p, q)
    ensures q in Overwritten(setting.tree, PlannedEntries(plan), setting.objects) <==> q in setting.tree
  {
    hide Unchanged;
    var all := PlannedEntries(plan);
    PlanOfUnchanged(setting, rule, hash, base, ours, theirs, plan);
    DroppedIsObsolete(setting, rule, hash, base, ours, theirs, plan, p);
    DroppedIsObsolete(setting, rule, hash, base, ours, theirs, plan, q);
    AtHolds(theirs, p);
    MissingBelow(theirs, setting.objects, p, q);
    NoTemporaryBelow(theirs, p, q);
    EntriesOfTheirs(setting, rule, hash, base, ours, theirs, plan);
    EntryPaths(plan);
    IndexKeys(all);
    hide ProperPlan, PlannedEntries, FileTemporaries, SoundRecording;
  }

  lemma MissingBelow(theirs: Manifest, objects: Objects, p: Path, q: Path)
    requires SoundRecording(theirs, objects) && Ancestor(p, q) && At(theirs, p).None?
    ensures At(theirs, q).None?
  {
    AtHolds(theirs, q);
    if At(theirs, q).Some? {
      ParentInTheirs(theirs, objects, At(theirs, q).value, p);
    }
  }

  // The entries of such a plan are those of theirs.
  lemma EntriesOfTheirs(setting: Setting, rule: Rule, hash: Hash, base: Manifest, ours: Manifest, theirs: Manifest,
                        plan: Plan)
    requires Unchanged(setting, rule, hash, base, ours, theirs, plan)
    ensures FileTemporaries(PlannedEntries(plan)) <= Temporaries(theirs)
  {
    var all := PlannedEntries(plan);
    forall j | 0 <= j < |all|
      ensures Temporary(all[j].path) in Temporaries(theirs)
    {
      var k := EntryIsTheirs(setting, rule, hash, base, ours, theirs, plan, j);
      var i :| 0 <= i < |theirs| && theirs[i] == all[j];
    }
  }

  lemma KeptIsTheirs(t: Tree, w: Tree, dropped: set<Path>, gone: set<Path>, theirs: Tree)
    requires forall p :: p !in theirs ==> (p in w <==> p in t && p !in gone)
    requires forall p :: p !in theirs && p in w && p in t ==> w[p] == t[p]
    requires forall p :: p in theirs ==> p in w && w[p] == theirs[p] && p !in dropped
    requires forall p, q :: p in dropped && Ancestor(p, q) ==> (q in w <==> q in t)
    ensures Kept(w, dropped) == (Kept(t, dropped) - gone) + theirs
  {
    forall p | p in dropped
      ensures Doomed(w, dropped, p) <==> Doomed(t, dropped, p)
    {
    }
    KeptPaths(w, dropped);
    KeptPaths(t, dropped);
    hide Doomed, Kept;
  }

  lemma KeptPaths(w: Tree, dropped: set<Path>)
    ensures forall p :: p in Kept(w, dropped) <==> p in w && !(p in dropped && Doomed(w, dropped, p))
    ensures forall p :: p in Kept(w, dropped) ==> Kept(w, dropped)[p] == w[p]
  {
  }

  lemma NodeIsTheirs(setting: Setting, rule: Rule, hash: Hash, base: Manifest, ours: Manifest, theirs: Manifest,
                     plan: Plan, p: Path)
    requires Unchanged(setting, rule, hash, base, ours, theirs, plan)
    requires At(theirs, p).Some?
    ensures var w := Overwritten(setting.tree, PlannedEntries(plan), setting.objects);
            var nodes := TheirNodes(setting.tree, ours, theirs, setting.objects);
            p in w && p in nodes && w[p] == nodes[p]
  {
    hide Unchanged, IsScan, SameSignature;
    PlanOfUnchanged(setting, rule, hash, base, ours, theirs, plan);
    var all := PlannedEntries(plan);
    DroppedIsObsolete(setting, rule, hash, base, ours, theirs, plan, p);
    EntryPaths(plan);
    IndexKeys(all);
    IndexHolds(all, p);
    if p in WrittenPaths(plan) {
      var j :| 0 <= j < |all| && all[j] == Index(all)[p];
      var k := EntryIsTheirs(setting, rule, hash, base, ours, theirs, plan, j);
    } else {
      SameIsThere(setting, rule, hash, ours, theirs, p);
    }
    AtHolds(theirs, p);
    assert p !in FileTemporaries(all);
    hide *;
    NodeOver(setting.tree, all, ours, theirs, setting.objects, p);
  }

  lemma SameIsThere(setting: Setting, rule: Rule, hash: Hash, ours: Manifest, theirs: Manifest, p: Path)
    requires IsScan(setting.tree, rule, hash, ours)
    ensures At(theirs, p).Some? && SameSignature(At(ours, p), At(theirs, p)) ==> p in setting.tree
  {
    OursIsThere(setting.tree, rule, hash, ours, p);
  }

  lemma NodeOver(t: Tree, all: Manifest, ours: Manifest, theirs: Manifest, objects: Objects, p: Path)
    requires At(theirs, p).Some? && p !in FileTemporaries(all)
    requires p in Index(all) <==> !SameSignature(At(ours, p), At(theirs, p))
    requires if p in Index(all) then Index(all)[p] == At(theirs, p).value else p in t
    ensures p in Overwritten(t, all, objects) && p in TheirNodes(t, ours, theirs, objects)
    ensures Overwritten(t, all, objects)[p] == TheirNodes(t, ours, theirs, objects)[p]
  {
    hide SameSignature;
  }

  // A finished merge was not blocked.
  lemma AppliedIsNotBlocked(setting: Setting, t': Tree, rule: Rule, hash: Hash, base: Manifest, ours: Manifest,
                            theirs: Manifest, plan: Plan)
    requires Unchanged(setting, rule, hash, base, ours, theirs, plan)
             && Applied(setting.tree, t', plan, setting.objects)
    ensures !Blocked(setting.tree, ours, theirs)
  {
    var t := setting.tree;
    forall i, q | 0 <= i < |theirs| && q in t && !SameSignature(At(ours, theirs[i].path), Some(theirs[i]))
      ensures MayHold(theirs[i], q)
    {
      var p := theirs[i].path;
      IndexOfUnique(theirs, i);
      TheirPath(setting, rule, hash, base, ours, theirs, plan, p);
      var k :| 0 <= k < |plan| && plan[k].path == p;
      UnchangedItem(setting, rule, hash, base, ours, theirs, plan, k);
      if !MayHold(theirs[i], q) {
        BelowIsUntouched(setting, rule, hash, base, ours, theirs, plan, i, q);
      }
      assert Untouched(plan, q) ==> MayHold(EntryToWrite(plan[k]), q);
    }
  }

  // Theirs has nothing below its files, links and temporary names.
  lemma NothingBelowFile(theirs: Manifest, objects: Objects, i: nat, q: Path)
    requires SoundRecording(theirs, objects) && NamesNoTemporaries(theirs) && i < |theirs| && !MayHold(theirs[i], q)
    ensures At(theirs, q).None?
  {
    hide UniquePaths, Index;
    AtHolds(theirs, q);
    if q in PathSet(theirs) {
      RecordedMeansDirectory(theirs, i, q);
    }
  }

  lemma BelowIsUntouched(setting: Setting, rule: Rule, hash: Hash, base: Manifest, ours: Manifest, theirs: Manifest,
                         plan: Plan, i: nat, q: Path)
    requires Unchanged(setting, rule, hash, base, ours, theirs, plan) && i < |theirs| && !MayHold(theirs[i], q)
    ensures Untouched(plan, q)
  {
    DroppedIsObsolete(setting, rule, hash, base, ours, theirs, plan, q);
    NothingBelowFile(theirs, setting.objects, i, q);
    forall k | 0 <= k < |plan| && Writes(plan[k])
      ensures Temporary(plan[k].path) != q
    {
      var r := plan[k].path;
      DroppedIsObsolete(setting, rule, hash, base, ours, theirs, plan, r);
      if Temporary(r) == q {
        TemporaryHasSameParents(r);
        NothingBelowFile(theirs, setting.objects, i, r);
      }
    }
  }

  // Every recorded path ends where the manifests say.
  ghost predicate EndsRight(setting: Setting, t': Tree, base: Manifest, ours: Manifest, theirs: Manifest) {
    forall p :: (forall q :: p != Temporary(q)) ==> Outcome(setting, t', p, At(base, p), At(ours, p), At(theirs, p))
  }

  // The tree is its base, and theirs is a sound recording.
  ghost predicate TreeIsBase(setting: Setting, rule: Rule, base: Manifest, ours: Manifest,
                             theirs: Manifest) {
    && Fits(setting.tree, VisiblePaths(setting.tree, rule))
    && SameEverywhere(base, ours) && SoundRecording(theirs, setting.objects)
  }

  lemma AppliedEndsRight(setting: Setting, t': Tree, rule: Rule, hash: Hash, base: Manifest, ours: Manifest,
                         theirs: Manifest, plan: Plan)
    requires IsScan(setting.tree, rule, hash, ours) && PlansAll(setting, base, ours, theirs, plan) && ProperPlan(plan)
    requires Applied(setting.tree, t', plan, setting.objects) && LeavesAlone(setting.tree, t', plan)
    ensures EndsRight(setting, t', base, ours, theirs)
  {
    forall p | forall q :: p != Temporary(q)
      ensures Outcome(setting, t', p, At(base, p), At(ours, p), At(theirs, p))
    {
      EveryPathEndsRight(setting, t', rule, hash, base, ours, theirs, plan, p);
    }
  }

  // All that is known before a plan for the tree of its base is applied.
  lemma BasePlan(setting: Setting, rule: Rule, hash: Hash, base: Manifest, ours: Manifest, theirs: Manifest, plan: Plan)
    requires Closed(setting.tree) && HidesTemporaries(rule) && IsScan(setting.tree, rule, hash, ours)
    requires PlansAll(setting, base, ours, theirs, plan) && ProperPlan(plan) && NamesNoTemporaries(theirs)
    requires TreeIsBase(setting, rule, base, ours, theirs)
    ensures Unchanged(setting, rule, hash, base, ours, theirs, plan)
    ensures forall i :: 0 <= i < |plan| ==> plan[i].conflicts == 0
    ensures !Blocked(setting.tree, ours, theirs) ==>
      && CanWrite(setting.tree, PlannedWrites(plan, setting.objects))
      && AfterPlan(setting.tree, plan, setting.objects) ==
         TheirsOver(setting.tree, rule, ours, theirs, plan, setting.objects)
  {
    hide Blocked, ProperPlan, PlansAll, SoundRecording, Kept, TreeOf, Overwritten, CanWrite,
      TheirsOver, PlannedEntries, PlannedWrites, Hidden, Visible;
    forall i | 0 <= i < |plan|
      ensures plan[i].conflicts == 0
    {
      UnchangedItem(setting, rule, hash, base, ours, theirs, plan, i);
    }
    if !Blocked(setting.tree, ours, theirs) {
      UnchangedIsReady(setting, rule, hash, base, ours, theirs, plan);
      ReadyCanWrite(setting.tree, plan, setting.objects);
      UnchangedBecomesTheirs(setting, rule, hash, base, ours, theirs, plan);
    }
  }

  lemma ReadyCanWrite(t: Tree, plan: Plan, objects: Objects)
    requires Closed(t) && ProperPlan(plan) && ReadyToMerge(t, plan, objects)
    ensures CanWrite(t, PlannedWrites(plan, objects))
    ensures AfterWrites(t, PlannedWrites(plan, objects)) == Overwritten(t, PlannedEntries(plan), objects)
  {
    hide ReadyToMerge, ProperPlan, AfterWrites, AllWritable, CanWrite, Overwritten, Orderly;
    var entries, writes := PlannedEntries(plan), PlannedWrites(plan, objects);
    ReadyIsWritable(t, plan, objects, |entries|);
    assert entries[..|entries|] == entries && writes[..|entries|] == writes;
    WritesAreOrderly(plan, objects);
    AllAreWritten(t, writes);
  }

  // A plan only removes files and links that are there.
  lemma DropsAreThere(setting: Setting, rule: Rule, hash: Hash, base: Manifest, ours: Manifest, theirs: Manifest,
                      plan: Plan)
    requires IsScan(setting.tree, rule, hash, ours) && PlansAll(setting, base, ours, theirs, plan)
    ensures DropsAreFiles(setting.tree, plan)
  {
    forall i | 0 <= i < |plan| && DropsFile(plan[i])
      ensures plan[i].path in setting.tree && !setting.tree[plan[i].path].Dir?
    {
      var p := plan[i].path;
      PlannedPath(setting, base, ours, theirs, plan, i);
      OursIsThere(setting.tree, rule, hash, ours, p);
      hide PlansAll, IsScan, MergedLines;
    }
  }

  lemma ContentsAreThere(setting: Setting, base: Manifest, ours: Manifest, theirs: Manifest, plan: Plan)
    requires PlansAll(setting, base, ours, theirs, plan) && ContentsStored(theirs, setting.objects)
    ensures ContentsThere(plan, setting.objects)
  {
    forall i | 0 <= i < |plan| && Writes(plan[i])
      ensures ContentToWrite(plan[i], setting.objects).Some?
    {
      PlannedPath(setting, base, ours, theirs, plan, i);
      AtHolds(theirs, plan[i].path);
      hide PlansAll, MergedLines;
    }
  }

  lemma EmptyPlan(t: Tree, objects: Objects)
    requires Closed(t)
    ensures Applied(t, t, [], objects) && LeavesAlone(t, t, [])
    ensures CanWrite(t, PlannedWrites([], objects))
    ensures AfterPlan(t, [], objects) == t
  {
    assert DroppedPaths([]) == {} && PlannedWrites([], objects) == [];
    NothingToWrite(t);
  }

  // Scans the working tree and plans the merge of theirs.
  method PlanTree(t: Tree, base: Manifest, theirs: Manifest, objects: Objects, isText: Content -> bool,
                  labels: Merge3.Labels, rule: Rule, hash: Hash) returns (ok: bool, plan: Plan, ghost ours: Manifest)
    requires Closed(t) && ProperPaths(t) && HidesTemporaries(rule)
    requires NamesNoTemporaries(base) && NamesNoTemporaries(theirs)
    ensures ok <==> Fits(t, VisiblePaths(t, rule))
    ensures ok ==>
      IsScan(t, rule, hash, ours) && PlansAll(Setting(t, objects, isText, labels), base, ours, theirs, plan)
    ensures ok ==> ProperPlan(plan)
  {
    hide ProperPlan, PlansAll, IsScan, Fits, Closed, ProperPaths, NamesNoTemporaries, HidesTemporaries;
    var present;
    ok, present := Scan.Scan(t, rule, hash);
    ours := present;
    if !ok {
      return false, [], ours;
    }
    var setting := Setting(t, objects, isText, labels);
    plan := PlanManifests(setting, base, present, theirs);
    ScansNameNoTemporaries(t, rule, hash, ours);
    PlanIsProper(setting, base, ours, theirs, plan);
  }

  // What an applied merge means. It finishes if and only if all writes can be
  // made, and every recorded path then ends where the three manifests say. In the
  // unchanged tree of its base, a merge finishes if and only if no changed file or
  // link is blocked, and leaves theirs over what is left out.
  lemma MergeMeaning(setting: Setting, t': Tree, ok: bool, rule: Rule, hash: Hash, base: Manifest, ours: Manifest,
                     theirs: Manifest, plan: Plan)
    requires Closed(setting.tree) && HidesTemporaries(rule) && IsScan(setting.tree, rule, hash, ours)
    requires PlansAll(setting, base, ours, theirs, plan) && ProperPlan(plan) && NamesNoTemporaries(theirs)
    requires ContentsStored(theirs, setting.objects)
    requires LeavesAlone(setting.tree, t', plan)
    requires ok ==>
      Applied(setting.tree, t', plan, setting.objects) && t' == AfterPlan(setting.tree, plan, setting.objects)
    requires var ready := ContentsThere(plan, setting.objects)
                          && CanWrite(setting.tree, PlannedWrites(plan, setting.objects));
             (ok ==> ready) && (ready && DropsAreFiles(setting.tree, plan) ==> ok)
    ensures ok <==> CanWrite(setting.tree, PlannedWrites(plan, setting.objects))
    ensures ok ==> EndsRight(setting, t', base, ours, theirs)
    ensures TreeIsBase(setting, rule, base, ours, theirs) ==>
      && (ok <==> !Blocked(setting.tree, ours, theirs))
      && (forall i :: 0 <= i < |plan| ==> plan[i].conflicts == 0)
      && (ok ==> TakesTheirs(setting, t', rule, hash, ours, theirs, plan))
  {
    hide *;
    DropsAreThere(setting, rule, hash, base, ours, theirs, plan);
    ContentsAreThere(setting, base, ours, theirs, plan);
    if ok {
      AppliedEndsRight(setting, t', rule, hash, base, ours, theirs, plan);
    }
    if TreeIsBase(setting, rule, base, ours, theirs) {
      BasePlan(setting, rule, hash, base, ours, theirs, plan);
      if ok {
        AppliedIsNotBlocked(setting, t', rule, hash, base, ours, theirs, plan);
      }
      TheirsAreTaken(setting, rule, hash, base, ours, theirs, plan);
    }
  }

  // The tree has taken theirs: it is the tree that a restore of theirs leaves, but
  // that only changed paths are written. When no recorded file is without any
  // permission, all of theirs stands over what is left out, and without left out
  // nodes exactly theirs is there.
  ghost predicate TakesTheirs(setting: Setting, t': Tree, rule: Rule, hash: Hash, ours: Manifest, theirs: Manifest,
                              plan: Plan) {
    && t' == TheirsOver(setting.tree, rule, ours, theirs, plan, setting.objects)
    && (SoundObjects(setting.objects, hash) && PlainModes(setting.tree, theirs) ==>
          && StandsOver(setting.tree, t', rule, theirs, setting.objects, FileTemporaries(PlannedEntries(plan)))
          && (VisiblePaths(setting.tree, rule) == setting.tree.Keys ==> t' == TreeOf(theirs, setting.objects)))
  }

  lemma TheirsAreTaken(setting: Setting, rule: Rule, hash: Hash, base: Manifest, ours: Manifest, theirs: Manifest,
                       plan: Plan)
    requires Unchanged(setting, rule, hash, base, ours, theirs, plan)
    ensures TakesTheirs(setting, TheirsOver(setting.tree, rule, ours, theirs, plan, setting.objects), rule, hash, ours,
                        theirs, plan)
  {
    hide Unchanged, SoundObjects, PlainModes, TheirsOver, StandsOver, VisiblePaths;
    if SoundObjects(setting.objects, hash) && PlainModes(setting.tree, theirs) {
      WholeTreeBecomesTheirs(setting, rule, hash, base, ours, theirs, plan);
      TheirsStandsOver(setting, rule, hash, base, ours, theirs, plan);
    }
  }

  // Without left out nodes exactly theirs is left.
  lemma WholeTreeBecomesTheirs(setting: Setting, rule: Rule, hash: Hash, base: Manifest, ours: Manifest,
                               theirs: Manifest, plan: Plan)
    requires Unchanged(setting, rule, hash, base, ours, theirs, plan)
    requires SoundObjects(setting.objects, hash) && PlainModes(setting.tree, theirs)
    ensures VisiblePaths(setting.tree, rule) == setting.tree.Keys ==>
      TheirsOver(setting.tree, rule, ours, theirs, plan, setting.objects) == TreeOf(theirs, setting.objects)
  {
    TheirNodesAreRecorded(setting, rule, hash, ours, theirs);
    hide TheirNodes, PlainModes, SoundObjects;
    if VisiblePaths(setting.tree, rule) == setting.tree.Keys {
      AllObsoleteIsDoomed(setting.tree, rule, theirs, setting.objects);
      IndexKeys(theirs);
      TreeOfCovers(Kept(setting.tree, ObsoletePaths(setting.tree, rule, theirs)), TreeOf(theirs, setting.objects));
    }
  }

  // Such a merge leaves all of theirs over what is left out.
  lemma TheirsStandsOver(setting: Setting, rule: Rule, hash: Hash, base: Manifest, ours: Manifest, theirs: Manifest,
                         plan: Plan)
    requires Unchanged(setting, rule, hash, base, ours, theirs, plan)
    requires SoundObjects(setting.objects, hash) && PlainModes(setting.tree, theirs)
    ensures StandsOver(setting.tree, TheirsOver(setting.tree, rule, ours, theirs, plan, setting.objects), rule, theirs,
                       setting.objects, FileTemporaries(PlannedEntries(plan)))
  {
    TheirNodesAreRecorded(setting, rule, hash, ours, theirs);
    EntriesOfTheirs(setting, rule, hash, base, ours, theirs, plan);
    RecordedStandsOver(setting.tree, rule, theirs, setting.objects, FileTemporaries(PlannedEntries(plan)));
    hide Unchanged, PlainModes, SoundObjects, StandsOver, TheirNodes, Kept, TreeOf, PlannedEntries, FileTemporaries;
  }

  // Left out nodes survive every merge, whether it finishes or stops, unless theirs
  // changed an entry at their path or they have a temporary name. A merge that
  // finishes puts what theirs changed in their place.
  lemma LeftOutNodesSurviveMerge(setting: Setting, t': Tree, rule: Rule, hash: Hash, base: Manifest, ours: Manifest,
                                 theirs: Manifest, plan: Plan, q: Path)
    requires Closed(setting.tree) && IsScan(setting.tree, rule, hash, ours)
    requires PlansAll(setting, base, ours, theirs, plan) && LeavesAlone(setting.tree, t', plan)
    requires q in setting.tree && !Visible(setting.tree, rule, q)
    ensures (At(theirs, q).None? || SameSignature(At(theirs, q), At(base, q))) && q !in TemporaryPaths(plan) ==>
      q in t' && t'[q] == setting.tree[q]
    ensures At(theirs, q).Some? && !SameSignature(At(theirs, q), At(base, q)) && ProperPlan(plan)
            && Applied(setting.tree, t', plan, setting.objects) ==>
      HoldsEntry(t', q, At(theirs, q).value, setting.objects)
  {
    AtHolds(ours, q);
    AtHolds(theirs, q);
    PlanMeans(setting, base, ours, theirs, plan, q);
    if i :| 0 <= i < |plan| && plan[i].path == q {
      PlannedPath(setting, base, ours, theirs, plan, i);
      assert Writes(plan[i]) && Applied(setting.tree, t', plan, setting.objects) ==>
             HoldsItem(t', plan[i], setting.objects);
    }
  }

  // Planning with more stored contents plans the same.
  lemma PlanKeepsWithMore(setting: Setting, objects: Objects, rule: Rule, hash: Hash, base: Manifest, ours: Manifest,
                          theirs: Manifest, plan: Plan)
    requires IsScan(setting.tree, rule, hash, ours)
    requires PlansAll(setting, base, ours, theirs, plan)
    requires forall d :: d in setting.objects ==> d in objects && objects[d] == setting.objects[d]
    requires ContentsStored(base, setting.objects) && ContentsStored(theirs, setting.objects)
    ensures PlansAll(setting.(objects := objects), base, ours, theirs, plan)
  {
    forall p, item | PlannedAt(setting, base, ours, theirs, p, item)
      ensures PlannedAt(setting.(objects := objects), base, ours, theirs, p, item)
    {
      SameBlob(setting, objects, base, p);
      SameBlob(setting, objects, theirs, p);
      OursIsThere(setting.tree, rule, hash, ours, p);
      SamePlan(setting, objects, p, At(base, p), At(ours, p), At(theirs, p), item);
    }
    hide PlannedAt;
  }

  lemma SamePlan(setting: Setting, objects: Objects, p: Path, base: Option<Entry>, ours: Option<Entry>,
                 theirs: Option<Entry>, item: Option<PlanItem>)
    requires Plans(setting, p, base, ours, theirs, item)
    requires ours.Some? && ours.value.kind.KindDirectory? ==> ReadFile(setting.tree, p).None?
    requires theirs.Some? && !theirs.value.kind.KindDirectory? ==>
      Blob(objects, theirs.value.digest) == Blob(setting.objects, theirs.value.digest)
    requires base.Some? && !base.value.kind.KindDirectory? ==>
      Blob(objects, base.value.digest) == Blob(setting.objects, base.value.digest)
    ensures Plans(setting.(objects := objects), p, base, ours, theirs, item)
  {
    hide MergedLines, Blob, SameSignature, ResolveMode;
    SameMerges(setting, objects);
    var setting' := setting.(objects := objects);
    assert BaseLines(setting', base) == BaseLines(setting, base);
  }

  lemma SameMerges(setting: Setting, objects: Objects)
    ensures forall b, o, t, lines, n ::
      MergedLines(setting.(objects := objects), b, o, t, lines, n) <==> MergedLines(setting, b, o, t, lines, n)
  {
    hide Blocks.Aligned, Diff.LargestWhenClose, Merge3.MergeWith;
  }

  lemma SameBlob(setting: Setting, objects: Objects, m: Manifest, p: Path)
    requires ContentsStored(m, setting.objects)
    requires forall d :: d in setting.objects ==> d in objects && objects[d] == setting.objects[d]
    ensures At(m, p).Some? && !At(m, p).value.kind.KindDirectory? ==>
      Blob(objects, At(m, p).value.digest) == Blob(setting.objects, At(m, p).value.digest)
  {
    AtHolds(m, p);
    if At(m, p).Some? {
      var i :| 0 <= i < |m| && m[i] == At(m, p).value;
    }
  }

  // A directory in the base and in theirs that is a file in the working tree, and
  // a new file of theirs in it.
  const SPOT: Path := "a"
  const NEW: Path := "a/b"

  function SpotTree(node: Node): Tree {
    map[SPOT := node]
  }

  function NewTree(content: Content): Tree {
    map[SPOT := Dir, NEW := File(content, DEFAULT_MODE)]
  }

  function NewEntry(hash: Hash, content: Content): Entry {
    EntryOf(NEW, File(content, DEFAULT_MODE), hash)
  }

  lemma AboveNew(a: Path)
    ensures !Ancestor(a, SPOT) && (Ancestor(a, NEW) <==> a == SPOT)
    ensures Less(SPOT, NEW) && !HasBreak(SPOT) && !HasBreak(NEW)
  {
    assert NEW[..1] == SPOT && NEW[1..] == "/b";
  }

  lemma SpotIsSeen(t: Tree, rule: Rule, p: Path)
    requires forall d :: !rule(SPOT, d) && !rule(NEW, d)
    requires t.Keys <= {SPOT, NEW}
    ensures Visible(t, rule, p) <==> p in t
  {
    forall a {
      AboveNew(a);
    }
  }

  // The plan only adds the new file, and creating its parent fails: the merge
  // stops without a conflict, although all three trees are scanned whole.
  lemma NewFileBelowAFile(rule: Rule, hash: Hash, mine: Content, content: Content, setting: Setting)
    requires forall d :: !rule(SPOT, d) && !rule(NEW, d)
    requires setting.tree == SpotTree(File(mine, DEFAULT_MODE))
    ensures var base, ours := [EntryOf(SPOT, Dir, hash)], [EntryOf(SPOT, File(mine, DEFAULT_MODE), hash)];
            var theirs := [EntryOf(SPOT, Dir, hash), NewEntry(hash, content)];
            var plan := [PlanItem(NEW, WriteEntry(NewEntry(hash, content)), 0)];
            && IsScan(SpotTree(Dir), rule, hash, base) && IsScan(setting.tree, rule, hash, ours)
            && IsScan(NewTree(content), rule, hash, theirs)
            && PlansAll(setting, base, ours, theirs, plan)
            && !CanWrite(setting.tree, PlannedWrites(plan, setting.objects))
  {
    var base, ours := [EntryOf(SPOT, Dir, hash)], [EntryOf(SPOT, File(mine, DEFAULT_MODE), hash)];
    var theirs := [EntryOf(SPOT, Dir, hash), NewEntry(hash, content)];
    OneEntry(SpotTree(Dir), rule, hash, Dir);
    OneEntry(setting.tree, rule, hash, File(mine, DEFAULT_MODE));
    TwoEntries(rule, hash, content);
    NewFileIsPlanned(hash, mine, content, setting);
    NewFileIsStopped(setting.tree, PlanItem(NEW, WriteEntry(NewEntry(hash, content)), 0), setting.objects);
  }

  lemma OneEntry(t: Tree, rule: Rule, hash: Hash, node: Node)
    requires forall d :: !rule(SPOT, d) && !rule(NEW, d)
    requires t == SpotTree(node)
    ensures IsScan(t, rule, hash, [EntryOf(SPOT, node, hash)])
  {
    var m := [EntryOf(SPOT, node, hash)];
    assert m[0].path in PathSet(m);
    forall p {
      SpotIsSeen(t, rule, p);
    }
  }

  lemma TwoEntries(rule: Rule, hash: Hash, content: Content)
    requires forall d :: !rule(SPOT, d) && !rule(NEW, d)
    ensures IsScan(NewTree(content), rule, hash, [EntryOf(SPOT, Dir, hash), NewEntry(hash, content)])
  {
    var m := [EntryOf(SPOT, Dir, hash), NewEntry(hash, content)];
    AboveNew(SPOT);
    assert m[0].path in PathSet(m) && m[1].path in PathSet(m);
    forall p {
      SpotIsSeen(NewTree(content), rule, p);
    }
    hide Visible, Less, Ancestor;
  }

  lemma NewFileIsPlanned(hash: Hash, mine: Content, content: Content, setting: Setting)
    ensures PlansAll(setting, [EntryOf(SPOT, Dir, hash)], [EntryOf(SPOT, File(mine, DEFAULT_MODE), hash)],
                     [EntryOf(SPOT, Dir, hash), NewEntry(hash, content)],
                     [PlanItem(NEW, WriteEntry(NewEntry(hash, content)), 0)])
  {
    var base, ours := [EntryOf(SPOT, Dir, hash)], [EntryOf(SPOT, File(mine, DEFAULT_MODE), hash)];
    var theirs := [EntryOf(SPOT, Dir, hash), NewEntry(hash, content)];
    var item := PlanItem(NEW, WriteEntry(NewEntry(hash, content)), 0);
    assert base[..0] == [] && Index(base) == map[SPOT := base[0]];
    assert ours[..0] == [] && Index(ours) == map[SPOT := ours[0]];
    assert theirs[..1] == base && Index(theirs) == map[SPOT := theirs[0], NEW := theirs[1]];
    hide Index, PlansFile;
    assert PlannedAt(setting, base, ours, theirs, NEW, Some(item));
    forall p | p != NEW
      ensures PlannedAt(setting, base, ours, theirs, p, None)
    {
    }
    assert [item][0].path == NEW;
  }

  lemma NewFileIsStopped(t: Tree, item: PlanItem, objects: Objects)
    requires SPOT in t && !t[SPOT].Dir? && item.path == NEW && WritesFile(item) && EntryToWrite(item).path == NEW
    ensures !CanWrite(t, PlannedWrites([item], objects))
  {
    var writes := PlannedWrites([item], objects);
    AboveNew(SPOT);
    NextItem([item], 0, false);
    assert Selected([item], 0, true) == [] && Selected([item], 0, false) == [];
    assert Selected([item], 1, true) == [] && Selected([item], 1, false) == [item];
    assert writes[0].entry.path == NEW && !IsWritten(writes, SPOT);
  }
}
