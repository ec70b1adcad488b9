// Planning a merge: what to do at each path of base, ours and theirs.
module MergePlan {
  import opened Wrappers
  import opened Paths
  import opened Tree
  import opened Project
  import opened Manifest
  import opened Scan
  import opened Blocks
  import Diff
  import EditScript
  import Lines
  import Merge3
  import ManifestText

  datatype Action =
    | Keep
    | WriteEntry(entry: Entry)
    | WriteLines(lines: seq<EditScript.Line>, mode: nat, trailingNewline: bool)
    | Delete(entry: Entry)

  datatype PlanItem = PlanItem(path: Path, action: Action, conflicts: nat)

  type Plan = seq<PlanItem>

  // What planning needs to know besides the three manifests: the working tree,
  // the stored contents, and which contents are text.
  datatype Setting = Setting(tree: Tree, objects: Objects, isText: Content -> bool, labels: Merge3.Labels)

  function Lookup(index: map<Path, Entry>, p: Path): Option<Entry> {
    if p in index then Some(index[p]) else None
  }

  function At(m: Manifest, p: Path): Option<Entry> {
    Lookup(Index(m), p)
  }

  predicate SameSignature(left: Option<Entry>, right: Option<Entry>) {
    match (left, right)
    case (Some(l), Some(r)) =>
      l.kind == r.kind && ManifestText.Perm(l.mode) == ManifestText.Perm(r.mode) && l.digest == r.digest
    case (None, None) => true
    case _ => false
  }

  function ResolveMode(base: Option<Entry>, ourMode: nat, theirMode: nat): (mode: nat) {
    var our, their := ManifestText.Perm(ourMode), ManifestText.Perm(theirMode);
    if our == their then our
    else
      var baseMode := if base.Some? then ManifestText.Perm(base.value.mode) else our;
      if our == baseMode then their else our
  }

  // The mode of the side that changed it, and ours when both did. Without a base
  // our mode counts as the old one, so theirs wins.
  lemma ResolveModeMergesBits(base: Option<Entry>, ourMode: nat, theirMode: nat)
    requires ourMode < 0x200 && theirMode < 0x200 && (base.Some? ==> base.value.mode < 0x200)
    ensures var mode := ResolveMode(base, ourMode, theirMode);
            && (base.None? || ourMode == base.value.mode ==> mode == theirMode)
            && (base.Some? && ourMode != base.value.mode ==> mode == ourMode)
            && mode < 0x200
  {
  }

  function TextLines(isText: Content -> bool, data: Option<Content>): Option<seq<EditScript.Line>> {
    if data.Some? && isText(data.value) then Some(Lines.Split(data.value).0) else None
  }

  function ReadFile(t: Tree, p: Path): Option<Content> {
    if p in t && t[p].File? then Some(t[p].content) else None
  }

  function Blob(objects: Objects, digest: string): Option<Content> {
    if digest in objects then Some(objects[digest]) else None
  }

  function BaseLines(setting: Setting, base: Option<Entry>): seq<EditScript.Line> {
    if base.Some? && base.value.kind.KindFile? then
      match TextLines(setting.isText, Blob(setting.objects, base.value.digest))
      case Some(lines) => lines
      case None => []
    else []
  }

  // These are the merged lines of the three texts along some diffs of them, which
  // keep as many lines as possible when the texts are close.
  ghost predicate MergedLines(setting: Setting, base: seq<EditScript.Line>, ours: seq<EditScript.Line>,
                              theirs: seq<EditScript.Line>, lines: seq<EditScript.Line>, conflicts: nat) {
    && (exists o, t :: Aligned(base, ours, o) && Aligned(base, theirs, t)
          && Diff.LargestWhenClose(base, ours, o) && Diff.LargestWhenClose(base, theirs, t)
          && Merge3.MergeWith(base, ours, theirs, o, t, setting.labels) == Merge3.MergeResult(lines, conflicts))
    && (base == ours ==> lines == theirs && conflicts == 0)
    && (base == theirs || ours == theirs ==> lines == ours && conflicts == 0)
  }

  function Conflict(path: Path): PlanItem {
    PlanItem(path, Keep, 1)
  }

  // The plan of a file that both sides changed.
  ghost predicate PlansFile(setting: Setting, path: Path, base: Option<Entry>, ours: Entry, theirs: Entry,
                            item: PlanItem) {
    var ourData, theirData := ReadFile(setting.tree, path), Blob(setting.objects, theirs.digest);
    var ourLines, theirLines := TextLines(setting.isText, ourData), TextLines(setting.isText, theirData);
    if ourLines.None? || theirLines.None? then item == Conflict(path)
    else
      && item.path == path && item.action.WriteLines?
      && MergedLines(setting, BaseLines(setting, base), ourLines.value, theirLines.value, item.action.lines,
                     item.conflicts)
      && item.action.mode == ResolveMode(base, ours.mode, theirs.mode)
      && item.action.trailingNewline == (Lines.EndsWithNewline(ourData.value) || Lines.EndsWithNewline(theirData.value))
  }

  // What a merge does at a path: nothing where theirs did not change or made
  // the same change; theirs where ours did not change; and else a conflict that
  // restores a removed path, merges two texts or keeps ours.
  ghost predicate Plans(setting: Setting, path: Path, base: Option<Entry>, ours: Option<Entry>, theirs: Option<Entry>,
                        item: Option<PlanItem>) {
    if SameSignature(theirs, base) || SameSignature(ours, theirs) then item == None
    else if SameSignature(ours, base) then
      item == Some(PlanItem(path, if theirs.None? then (if base.Some? then Delete(base.value) else Keep)
                            else WriteEntry(theirs.value), 0))
    else if ours.None? then theirs.Some? && item == Some(PlanItem(path, WriteEntry(theirs.value), 1))
    else if theirs.None? || ours.value.kind != theirs.value.kind || ours.value.kind.KindLink? then
        item == Some(Conflict(path))
    else item.Some? && PlansFile(setting, path, base, ours.value, theirs.value, item.value)
  }

  method PlanMergedPath(setting: Setting, path: Path, base: Option<Entry>, ours: Option<Entry>, theirs: Option<Entry>)
      returns (item: Option<PlanItem>)
    ensures Plans(setting, path, base, ours, theirs, item)
  {
    if SameSignature(theirs, base) || SameSignature(ours, theirs) {
      return None;
    }
    if SameSignature(ours, base) {
      if theirs.None? {
        return Some(PlanItem(path, Delete(base.value), 0));
      }
      return Some(PlanItem(path, WriteEntry(theirs.value), 0));
    }
    if ours.None? {
      return Some(PlanItem(path, WriteEntry(theirs.value), 1));
    }
    if theirs.None? || ours.value.kind != theirs.value.kind || ours.value.kind.KindLink? {
      return Some(Conflict(path));
    }
    var planned := PlanMergedFile(setting, path, base, ours.value, theirs.value);
    item := Some(planned);
  }

  method PlanMergedFile(setting: Setting, path: Path, base: Option<Entry>, ours: Entry, theirs: Entry)
      returns (item: PlanItem)
    ensures PlansFile(setting, path, base, ours, theirs, item)
  {
    hide Aligned, Diff.LargestWhenClose, Merge3.MergeWith;
    var ourData := ReadFile(setting.tree, path);
    var ourLines := TextLines(setting.isText, ourData);
    var theirData := Blob(setting.objects, theirs.digest);
    var theirLines := TextLines(setting.isText, theirData);
    if ourLines.None? || theirLines.None? {
      return Conflict(path);
    }
    var merged, o, t := Merge3.Merge3(BaseLines(setting, base), ourLines.value, theirLines.value, setting.labels);
    assert MergedLines(setting, BaseLines(setting, base), ourLines.value, theirLines.value, merged.lines,
                       merged.conflicts);
    var trailingNewline := Lines.EndsWithNewline(ourData.value) || Lines.EndsWithNewline(theirData.value);
    item := PlanItem(path, WriteLines(merged.lines, ResolveMode(base, ours.mode, theirs.mode), trailingNewline),
                     merged.conflicts);
  }

  // The plan has the items of all paths of the three manifests, in order.
  ghost predicate PlansAll(setting: Setting, base: Manifest, ours: Manifest, theirs: Manifest, plan: Plan) {
    && (forall i, j :: 0 <= i < j < |plan| ==> Less(plan[i].path, plan[j].path))
    && (forall i :: 0 <= i < |plan| ==> PlannedAt(setting, base, ours, theirs, plan[i].path, Some(plan[i])))
    && (forall p :: (forall i :: 0 <= i < |plan| ==> plan[i].path != p) ==>
          PlannedAt(setting, base, ours, theirs, p, None))
  }

  ghost predicate PlannedAt(setting: Setting, base: Manifest, ours: Manifest, theirs: Manifest, p: Path,
                            item: Option<PlanItem>) {
    Plans(setting, p, Lookup(Index(base), p), Lookup(Index(ours), p), Lookup(Index(theirs), p), item)
  }

  lemma ItemHasPath(setting: Setting, path: Path, base: Option<Entry>, ours: Option<Entry>, theirs: Option<Entry>,
                    item: Option<PlanItem>)
    requires Plans(setting, path, base, ours, theirs, item)
    ensures item.Some? ==> item.value.path == path
  {
  }

  // The items planned so far are those of the first paths.
  ghost predicate PlansFirst(setting: Setting, base: Manifest, ours: Manifest, theirs: Manifest, plan: Plan,
                             paths: seq<Path>) {
    && (forall i, j :: 0 <= i < j < |plan| ==> Less(plan[i].path, plan[j].path))
    && (forall i :: 0 <= i < |plan| ==>
          PlannedAt(setting, base, ours, theirs, plan[i].path, Some(plan[i])) && plan[i].path in paths)
    && (forall p :: p in paths && (forall i :: 0 <= i < |plan| ==> plan[i].path != p) ==>
          PlannedAt(setting, base, ours, theirs, p, None))
  }

  lemma PlanGrows(setting: Setting, base: Manifest, ours: Manifest, theirs: Manifest, plan: Plan, paths: seq<Path>,
                  p: Path, item: Option<PlanItem>)
    requires PlansFirst(setting, base, ours, theirs, plan, paths) && PlannedAt(setting, base, ours, theirs, p, item)
    requires forall q :: q in paths ==> Less(q, p)
    ensures PlansFirst(setting, base, ours, theirs, if item.Some? then plan + [item.value] else plan, paths + [p])
  {
    ItemHasPath(setting, p, Lookup(Index(base), p), Lookup(Index(ours), p), Lookup(Index(theirs), p), item);
    hide PlannedAt, Less;
    if item.Some? {
      var plan' := plan + [item.value];
      forall i | 0 <= i < |plan'|
        ensures PlannedAt(setting, base, ours, theirs, plan'[i].path, Some(plan'[i])) && plan'[i].path in paths + [p]
        ensures i < |plan| ==> Less(plan'[i].path, p)
      {
        assert i < |plan| ==> plan'[i] == plan[i];
      }
      forall q | q in paths + [p] && forall i :: 0 <= i < |plan'| ==> plan'[i].path != q
        ensures PlannedAt(setting, base, ours, theirs, q, None)
      {
        assert plan'[|plan|].path == p && forall i :: 0 <= i < |plan| ==> plan'[i] == plan[i];
      }
    }
  }

  method SortedPaths(paths: set<Path>) returns (sorted: seq<Path>)
    ensures forall p :: p in sorted <==> p in paths
    ensures Ascending(sorted)
  {
    var rest := paths;
    var found: seq<Path> := [];
    while rest != {}
      invariant rest <= paths && forall p :: p in found <==> p in paths && p !in rest
      invariant forall i, j :: 0 <= i < j < |found| ==> found[i] != found[j]
      decreases |rest|
    {
      var p :| p in rest;
      rest := rest - {p};
      found := found + [p];
    }
    sorted := Sort(PathBefore, found);
    SortedIsAscending(found);
  }

  method PlanManifests(setting: Setting, base: Manifest, ours: Manifest, theirs: Manifest) returns (plan: Plan)
    ensures PlansAll(setting, base, ours, theirs, plan)
  {
    hide PlansFirst, PlannedAt, Less;
    var baseByPath, ourByPath, theirByPath := Index(base), Index(ours), Index(theirs);
    var paths := SortedPaths(baseByPath.Keys + ourByPath.Keys + theirByPath.Keys);
    plan := [];
    NothingPlanned(setting, base, ours, theirs);
    for index := 0 to |paths|
      invariant PlansFirst(setting, base, ours, theirs, plan, paths[..index])
    {
      var path := paths[index];
      var item := PlanMergedPath(setting, path, Lookup(baseByPath, path), Lookup(ourByPath, path),
                                 Lookup(theirByPath, path));
      PlannedHere(setting, base, ours, theirs, path, item);
      PlanGrows(setting, base, ours, theirs, plan, paths[..index], path, item);
      assert paths[..index + 1] == paths[..index] + [path];
      if item.Some? {
        plan := plan + [item.value];
      }
    }
    assert paths[..|paths|] == paths;
    AllPlanned(setting, base, ours, theirs, plan, paths);
  }

  lemma NothingPlanned(setting: Setting, base: Manifest, ours: Manifest, theirs: Manifest)
    ensures PlansFirst(setting, base, ours, theirs, [], [])
  {
  }

  lemma PlannedHere(setting: Setting, base: Manifest, ours: Manifest, theirs: Manifest, p: Path, item: Option<PlanItem>)
    requires Plans(setting, p, Lookup(Index(base), p), Lookup(Index(ours), p), Lookup(Index(theirs), p), item)
    ensures PlannedAt(setting, base, ours, theirs, p, item)
  {
  }

  lemma AllPlanned(setting: Setting, base: Manifest, ours: Manifest, theirs: Manifest, plan: Plan, paths: seq<Path>)
    requires PlansFirst(setting, base, ours, theirs, plan, paths)
    requires forall p :: p in paths <==> p in Index(base).Keys + Index(ours).Keys + Index(theirs).Keys
    ensures PlansAll(setting, base, ours, theirs, plan)
  {
  }

  // Base, ours and theirs all differ at a path.
  predicate AllDiffer(base: Option<Entry>, ours: Option<Entry>, theirs: Option<Entry>) {
    !SameSignature(ours, base) && !SameSignature(theirs, base) && !SameSignature(ours, theirs)
  }

  // What a plan does with a path.
  ghost predicate ActsOn(plan: Plan, p: Path) {
    exists i :: 0 <= i < |plan| && plan[i].path == p
  }

  // What a plan means for the two sides. A path is in it exactly when theirs
  // changed it and not just as ours did. Ours is only overwritten or removed
  // where it is the base; a removal is only planned where theirs removed the
  // path; and there is a conflict only where all three differ, and always then
  // but for two texts that merge cleanly.
  lemma PlanMeans(setting: Setting, base: Manifest, ours: Manifest, theirs: Manifest, plan: Plan, p: Path)
    requires PlansAll(setting, base, ours, theirs, plan)
    ensures ActsOn(plan, p) <==>
            !SameSignature(At(theirs, p), At(base, p)) && !SameSignature(At(ours, p), At(theirs, p))
    ensures forall i :: 0 <= i < |plan| && plan[i].path == p ==>
      var action := plan[i].action;
      && (action.Delete? <==> SameSignature(At(ours, p), At(base, p)) && At(theirs, p).None?)
      && (action.WriteEntry? ==> At(theirs, p) == Some(action.entry))
      && (action.WriteEntry? && At(ours, p).Some? ==> SameSignature(At(ours, p), At(base, p)))
      && (action.Keep? || action.WriteLines? ==> At(ours, p).Some?)
      && (plan[i].conflicts > 0 ==> AllDiffer(At(base, p), At(ours, p), At(theirs, p)))
      && (AllDiffer(At(base, p), At(ours, p), At(theirs, p)) ==> plan[i].conflicts > 0 || action.WriteLines?)
      && (action.Keep? ==> plan[i].conflicts == 1)
      && (action.WriteEntry? || action.Delete? ==>
            plan[i].conflicts == if AllDiffer(At(base, p), At(ours, p), At(theirs, p)) then 1 else 0)
  {
    hide MergedLines, SameSignature;
    Alike();
    if ActsOn(plan, p) {
      forall i | 0 <= i < |plan| && plan[i].path == p
        ensures PlannedAt(setting, base, ours, theirs, p, Some(plan[i]))
      {
        assert PlannedAt(setting, base, ours, theirs, plan[i].path, Some(plan[i]));
      }
    } else {
      assert PlannedAt(setting, base, ours, theirs, p, None);
    }
  }

  lemma Alike()
    ensures forall x, y :: SameSignature(x, y) <==> SameSignature(y, x)
    ensures forall x, y, z :: SameSignature(x, y) && SameSignature(y, z) ==> SameSignature(x, z)
    ensures SameSignature(None, None) && forall x :: SameSignature(x, None) ==> x == None
  {
  }
}
