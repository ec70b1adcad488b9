// Applying a merge plan: directories first, then files and links, and then the
// removals from the last path to the first.
module MergeApply {
  import opened Wrappers
  import opened Paths
  import opened Tree
  import opened Project
  import opened Manifest
  import opened Restore
  import opened MergePlan
  import opened MergeWrites
  import opened Writing
  import Lines

  ghost function WrittenPaths(plan: Plan): set<Path> {
    set i | 0 <= i < |plan| && Writes(plan[i]) :: plan[i].path
  }

  ghost function TemporaryPaths(plan: Plan): set<Path> {
    set i | 0 <= i < |plan| && Writes(plan[i]) :: Temporary(plan[i].path)
  }

  ghost function DroppedPaths(plan: Plan): set<Path> {
    set i | 0 <= i < |plan| && plan[i].action.Delete? :: plan[i].path
  }

  // The path is neither written nor a temporary name of a written path.
  ghost predicate Untouched(plan: Plan, q: Path) {
    q !in WrittenPaths(plan) && q !in TemporaryPaths(plan)
  }

  // Writing touches no other path, except that missing directories appear.
  ghost predicate OnlyPlanned(t: Tree, t': Tree, plan: Plan) {
    forall q :: Untouched(plan, q) ==> if q in t then q in t' && t'[q] == t[q] else q in t' ==> t'[q].Dir?
  }

  ghost predicate HoldsItem(t: Tree, item: PlanItem, objects: Objects)
    requires Writes(item)
  {
    && item.path in t && ContentToWrite(item, objects).Some?
    && t[item.path] == NodeOf(EntryToWrite(item), ContentToWrite(item, objects).value)
  }

  // The tree while a plan is being written. The paths done hold what they
  // should, and no other node was found below a written file or link.
  ghost predicate Written(t: Tree, t': Tree, plan: Plan, objects: Objects, done: set<Path>) {
    && Closed(t') && OnlyPlanned(t, t', plan)
    && (forall i :: 0 <= i < |plan| && Writes(plan[i]) && plan[i].path in done ==> HoldsItem(t', plan[i], objects))
    && (forall i, q :: 0 <= i < |plan| && Writes(plan[i]) && plan[i].path in done && q in t && Untouched(plan, q) ==>
          MayHold(EntryToWrite(plan[i]), q))
  }

  lemma WritingStarts(t: Tree, plan: Plan, objects: Objects)
    requires Closed(t)
    ensures Written(t, t, plan, objects, {})
  {
  }

  // A failing write keeps what is done, and a good one adds its path.
  lemma WritingGoesOn(t: Tree, before: Tree, t': Tree, plan: Plan, objects: Objects, done: set<Path>, i: nat, ok: bool)
    requires ProperPlan(plan) && i < |plan| && Writes(plan[i]) && plan[i].path !in done
    requires Written(t, before, plan, objects, done) && Closed(t') && OnlyTouches(before, t', plan[i].path)
    requires ok ==> HoldsItem(t', plan[i], objects) && Writable(before, EntryToWrite(plan[i]))
    ensures Written(t, t', plan, objects, if ok then done + {plan[i].path} else done)
  {
    var p := plan[i].path;
    assert p in WrittenPaths(plan) && Temporary(p) in TemporaryPaths(plan);
    assert OnlyPlanned(t, t', plan);
    forall k | 0 <= k < |plan| && Writes(plan[k]) && plan[k].path in done
      ensures HoldsItem(t', plan[k], objects)
    {
      assert HoldsItem(before, plan[k], objects);
      assert plan[k].path != p && plan[k].path != Temporary(p);
    }
    if ok {
      forall q | q in t && Untouched(plan, q)
        ensures MayHold(EntryToWrite(plan[i]), q)
      {
        assert q in before && q in t';
        assert Ancestor(p, q) ==> t'[p].Dir?;
        assert Ancestor(Temporary(p), q) ==> HasChildren(before, Temporary(p));
      }
    }
  }

  // The first writes are made, and each of them found what it needs.
  ghost predicate InProgress(t: Tree, t': Tree, writes: seq<ToWrite>, n: nat) {
    n <= |writes| && t' == AfterWrites(t, writes[..n]) && AllWritable(t, writes[..n])
  }

  lemma NoWriteYet(t: Tree, writes: seq<ToWrite>)
    ensures InProgress(t, t, writes, 0)
  {
  }

  lemma OneWriteMore(t: Tree, before: Tree, t': Tree, writes: seq<ToWrite>, n: nat)
    requires InProgress(t, before, writes, n) && n < |writes| && Writable(before, writes[n].entry)
    requires t' == Placed(before, writes[n].entry, writes[n].content)
    ensures InProgress(t, t', writes, n + 1)
  {
    assert writes[..n + 1][..n] == writes[..n];
    hide Writable, Placed;
  }

  lemma WriteFailed(t: Tree, before: Tree, writes: seq<ToWrite>, n: nat)
    requires InProgress(t, before, writes, n) && n < |writes| && !Writable(before, writes[n].entry)
    ensures !AllWritable(t, writes)
  {
    assert writes[..n + 1][..n] == writes[..n];
    hide Writable;
    StoppedEarly(t, writes, n + 1);
  }

  lemma {:induction false} StoppedEarly(t: Tree, writes: seq<ToWrite>, n: nat)
    requires n <= |writes| && !AllWritable(t, writes[..n])
    ensures !AllWritable(t, writes)
    decreases |writes|
  {
    if n == |writes| {
      assert writes[..n] == writes;
    } else {
      assert writes[..|writes| - 1][..n] == writes[..n];
      StoppedEarly(t, writes[..|writes| - 1], n);
    }
  }

  lemma AllWritten(t: Tree, t': Tree, writes: seq<ToWrite>, n: nat)
    requires InProgress(t, t', writes, n) && n == |writes|
    ensures t' == AfterWrites(t, writes) && AllWritable(t, writes)
  {
    assert writes[..n] == writes;
  }

  ghost function FirstPaths(plan: Plan, n: nat, directories: bool): set<Path> {
    set i | 0 <= i < |plan| && i < n
        && (if directories then WritesDirectory(plan[i]) else WritesFile(plan[i])) :: plan[i].path
  }

  lemma NextPath(plan: Plan, i: nat, directories: bool)
    requires ProperPlan(plan) && i < |plan|
    ensures var done := FirstPaths(plan, i, directories);
            && plan[i].path !in done && (WritesFile(plan[i]) ==> plan[i].path !in FirstPaths(plan, |plan|, true))
            && FirstPaths(plan, i + 1, directories)
            == if (if directories then WritesDirectory(plan[i]) else WritesFile(plan[i])) then done + {plan[i].path}
                else done
  {
  }

  lemma ItemIsPlaced(t: Tree, item: PlanItem, objects: Objects)
    requires Writes(item) && EntryToWrite(item).path == item.path && ContentToWrite(item, objects).Some?
    ensures HoldsItem(Placed(t, EntryToWrite(item), ContentToWrite(item, objects).value), item, objects)
  {
  }

  method WriteDirectories(project: Project, plan: Plan, ghost objects: Objects) returns (ok: bool)
    requires Closed(project.tree) && ProperPlan(plan)
    modifies project
    ensures Closed(project.tree) && OnlyPlanned(old(project.tree), project.tree, plan)
    ensures ok ==> Written(old(project.tree), project.tree, plan, objects, FirstPaths(plan, |plan|, true))
    ensures var writes := PlannedWrites(plan, objects);
            if ok then InProgress(old(project.tree), project.tree, writes, PlaceOf(plan, |plan|, true))
            else !AllWritable(old(project.tree), writes)
  {
    hide Writable, Placed, OnlyTouches, OnlyPlanned, InProgress, AllWritable, Closed, Written, HoldsItem, FirstPaths,
      PlaceOf, WriteOrder;
    ghost var t := project.tree;
    ghost var writes := PlannedWrites(plan, objects);
    NoneWritten(t, plan, objects);
    for index := 0 to |plan|
      invariant Written(t, project.tree, plan, objects, FirstPaths(plan, index, true))
      invariant InProgress(t, project.tree, writes, PlaceOf(plan, index, true))
    {
      var item := plan[index];
      NextPath(plan, index, true);
      NextItem(plan, index, true);
      WrittenFrame(t, project.tree, plan, objects, FirstPaths(plan, index, true));
      if WritesDirectory(item) {
        ghost var before, n := project.tree, PlaceOf(plan, index, true);
        ok := project.WriteEntry(item.action.entry, "");
        if ok {
          ItemIsPlaced(before, item, objects);
          OneWriteMore(t, before, project.tree, writes, n);
        }
        WritingGoesOn(t, before, project.tree, plan, objects, FirstPaths(plan, index, true), index, ok);
        WrittenFrame(t, project.tree, plan, objects,
                     if ok then FirstPaths(plan, index, true) + {item.path} else FirstPaths(plan, index, true));
        if !ok {
          WriteFailed(t, before, writes, n);
          return;
        }
      }
    }
    WrittenFrame(t, project.tree, plan, objects, FirstPaths(plan, |plan|, true));
    ok := true;
  }

  lemma NoneWritten(t: Tree, plan: Plan, objects: Objects)
    requires Closed(t)
    ensures Written(t, t, plan, objects, FirstPaths(plan, 0, true))
    ensures InProgress(t, t, PlannedWrites(plan, objects), PlaceOf(plan, 0, true))
  {
    WritingStarts(t, plan, objects);
    assert FirstPaths(plan, 0, true) == {};
    NoWriteYet(t, PlannedWrites(plan, objects));
  }

  lemma WrittenFrame(t: Tree, t': Tree, plan: Plan, objects: Objects, done: set<Path>)
    requires Written(t, t', plan, objects, done)
    ensures Closed(t') && OnlyPlanned(t, t', plan)
  {
  }

  method WriteMergedPath(project: Project, item: PlanItem, objects: Objects) returns (ok: bool)
    requires Closed(project.tree) && WritesFile(item) && EntryToWrite(item).path == item.path
    modifies project
    ensures Closed(project.tree) && OnlyTouches(old(project.tree), project.tree, item.path)
    ensures ok <==> ContentToWrite(item, objects).Some? && Writable(old(project.tree), EntryToWrite(item))
    ensures ok ==> project.tree == Placed(old(project.tree), EntryToWrite(item), ContentToWrite(item, objects).value)
  {
    hide Writable, Placed, Closed;
    match item.action {
      case WriteEntry(entry) =>
        if entry.digest !in objects {
          return false;
        }
        ok := project.WriteEntry(entry, objects[entry.digest]);
      case WriteLines(lines, mode, trailingNewline) =>
        ok := project.WriteEntry(Entry(KindFile, mode, "", item.path), Lines.Join(lines, trailingNewline));
    }
  }

  method WriteFiles(project: Project, plan: Plan, objects: Objects, ghost t: Tree) returns (ok: bool)
    requires ProperPlan(plan) && Written(t, project.tree, plan, objects, FirstPaths(plan, |plan|, true))
    requires InProgress(t, project.tree, PlannedWrites(plan, objects), PlaceOf(plan, |plan|, true))
    modifies project
    ensures Closed(project.tree) && OnlyPlanned(t, project.tree, plan)
    ensures ok ==>
      Written(t, project.tree, plan, objects, FirstPaths(plan, |plan|, true) + FirstPaths(plan, |plan|, false))
    ensures var writes := PlannedWrites(plan, objects);
            if ok then project.tree == AfterWrites(t, writes) && AllWritable(t, writes)
            else !ContentsThere(plan, objects) || !AllWritable(t, writes)
  {
    hide Writable, Placed, OnlyTouches, OnlyPlanned, InProgress, AllWritable, Closed, Written, HoldsItem, FirstPaths,
      PlaceOf, WriteOrder;
    ghost var first := FirstPaths(plan, |plan|, true);
    ghost var writes := PlannedWrites(plan, objects);
    NoFilesWritten(plan);
    Steps(plan);
    WrittenFrame(t, project.tree, plan, objects, first);
    for index := 0 to |plan|
      invariant Closed(project.tree) && OnlyPlanned(t, project.tree, plan)
      invariant Written(t, project.tree, plan, objects, first + FirstPaths(plan, index, false))
      invariant InProgress(t, project.tree, writes, PlaceOf(plan, index, false))
    {
      var item := plan[index];
      ghost var done := first + FirstPaths(plan, index, false);
      NextPath(plan, index, false);
      NextItem(plan, index, false);
      if WritesFile(item) {
        ghost var before, n := project.tree, PlaceOf(plan, index, false);
        ok := WriteMergedPath(project, item, objects);
        if ok {
          ItemIsPlaced(before, item, objects);
          OneWriteMore(t, before, project.tree, writes, n);
        }
        WritingGoesOn(t, before, project.tree, plan, objects, done, index, ok);
        WrittenFrame(t, project.tree, plan, objects, if ok then done + {item.path} else done);
        if !ok {
          if ContentToWrite(item, objects).Some? {
            WriteFailed(t, before, writes, n);
          }
          return;
        }
        OneMore(first, FirstPaths(plan, index, false), item.path);
      }
    }
    AllWritten(t, project.tree, writes, PlaceOf(plan, |plan|, false));
    ok := true;
  }

  lemma OneMore(s: set<Path>, t: set<Path>, p: Path)
    ensures s + t + {p} == s + (t + {p})
  {
  }

  lemma NoFilesWritten(plan: Plan)
    ensures var first := FirstPaths(plan, |plan|, true); first + FirstPaths(plan, 0, false) == first
  {
  }

  predicate ItemAfter(left: PlanItem, right: PlanItem) {
    !Less(left.path, right.path)
  }

  lemma ItemAfterIsTotal()
    ensures TotalOrder(ItemAfter)
  {
    forall x: PlanItem, y: PlanItem, z: PlanItem
      ensures ItemAfter(x, y) || ItemAfter(y, x)
      ensures ItemAfter(x, y) && ItemAfter(y, z) ==> ItemAfter(x, z)
    {
      NotLess(x.path, y.path, z.path);
      NotLess(z.path, y.path, x.path);
    }
  }

  ghost function PathsOf(items: seq<PlanItem>): set<Path> {
    set i | 0 <= i < |items| :: items[i].path
  }

  // The removals of the plan, the last path first.
  ghost predicate Removals(plan: Plan, drops: seq<PlanItem>) {
    && (forall item :: item in drops <==> item in plan && item.action.Delete?)
    && (forall i, j :: 0 <= i < j < |drops| ==> Less(drops[j].path, drops[i].path))
  }

  method SelectDrops(plan: Plan) returns (drops: seq<PlanItem>)
    requires ProperPlan(plan)
    ensures Removals(plan, drops)
  {
    var found: seq<PlanItem> := [];
    for index := 0 to |plan|
      invariant forall item :: item in found <==> item in plan[..index] && item.action.Delete?
      invariant forall i :: 0 <= i < |found| ==> found[i] in plan[..index]
      invariant forall i, j :: 0 <= i < j < |found| ==> Less(found[i].path, found[j].path)
    {
      hide Less;
      var item := plan[index];
      if item.action.Delete? {
        forall i | 0 <= i < |found|
          ensures Less(found[i].path, item.path)
        {
          assert found[i] in plan[..index];
          var k :| 0 <= k < |plan[..index]| && plan[..index][k] == found[i];
        }
        found := found + [item];
      }
    }
    drops := Sort(ItemAfter, found);
    ItemAfterIsTotal();
    SortSorts(ItemAfter, found);
    Reversed(found, drops);
  }

  lemma Reversed(found: seq<PlanItem>, drops: seq<PlanItem>)
    requires forall i, j :: 0 <= i < j < |found| ==> Less(found[i].path, found[j].path)
    requires SortedBy(ItemAfter, drops) && multiset(drops) == multiset(found)
    ensures forall item :: item in drops <==> item in found
    ensures forall i, j :: 0 <= i < j < |drops| ==> Less(drops[j].path, drops[i].path)
  {
    assert forall item :: item in found <==> item in multiset(found);
    assert forall item :: item in drops <==> item in multiset(drops);
    forall i, j | 0 <= i < |found| && 0 <= j < |found| && i != j
      ensures found[i].path != found[j].path
    {
      LessIsTotal(found[i].path, found[j].path);
    }
    forall i, j | 0 <= i < j < |drops|
      ensures Less(drops[j].path, drops[i].path)
    {
      assert ItemAfter(drops[i], drops[j]);
      LessIsTotal(drops[i].path, drops[j].path);
      assert drops[i] in found && drops[j] in found;
      if drops[i] == drops[j] {
        Twice(drops, i, j);
        Once(found, drops[i]);
      }
    }
  }

  // The state of removing: the paths done are gone unless something remains below.
  ghost predicate Dropping(w: Tree, t: Tree, all: set<Path>, done: set<Path>) {
    Closed(w) && Closed(t) && t == w - DoomedAmong(w, all, done)
  }

  // The removals of files and links find files and links.
  ghost predicate DropsAreFiles(t: Tree, plan: Plan) {
    forall i :: 0 <= i < |plan| && DropsFile(plan[i]) ==> plan[i].path in t && !t[plan[i].path].Dir?
  }

  method DropPaths(project: Project, plan: Plan) returns (ok: bool)
    requires Closed(project.tree) && ProperPlan(plan)
    modifies project
    ensures Closed(project.tree)
    ensures forall q :: q in project.tree ==> q in old(project.tree) && project.tree[q] == old(project.tree)[q]
    ensures forall q :: q in old(project.tree) && q !in DroppedPaths(plan) ==> q in project.tree
    ensures ok ==> project.tree == Kept(old(project.tree), DroppedPaths(plan))
    ensures ok ==> forall i :: 0 <= i < |plan| && DropsFile(plan[i]) ==> plan[i].path !in project.tree
    ensures DropsAreFiles(old(project.tree), plan) ==> ok
  {
    hide Dropping, DoomedAmong, Less;
    ghost var w := project.tree;
    ghost var all := DroppedPaths(plan);
    var drops := SelectDrops(plan);
    AllDrops(plan, drops);
    NothingDropped(w, all);
    for index := 0 to |drops|
      invariant Dropping(w, project.tree, all, PathsOf(drops[..index]))
      invariant forall i :: 0 <= i < index && DropsFile(drops[i]) ==> drops[i].path !in project.tree
    {
      var item := drops[index];
      ghost var before := project.tree;
      DropStep(w, before, plan, drops, index);
      DroppingFrame(w, before, all, PathsOf(drops[..index]));
      if item.action.entry.kind.KindDirectory? {
        RemoveKeepsClosed(project.tree, item.path);
        project.tree := Remove(project.tree, item.path).tree;
      } else {
        var removal := project.RemovePath(item.path);
        if removal != Removed {
          return false;
        }
      }
    }
    assert drops[..|drops|] == drops;
    DroppingFrame(w, project.tree, all, all);
    AllFilesGone(plan, drops, project.tree);
    ok := true;
  }

  lemma AllDrops(plan: Plan, drops: seq<PlanItem>)
    requires Removals(plan, drops)
    ensures PathsOf(drops) == DroppedPaths(plan)
    ensures forall i :: 0 <= i < |drops| ==> drops[i].action.Delete? && drops[i] in plan
  {
    forall i | 0 <= i < |drops|
      ensures drops[i] in plan && drops[i].path in DroppedPaths(plan)
    {
      assert drops[i] in drops;
      var k :| 0 <= k < |plan| && plan[k] == drops[i];
    }
    forall i | 0 <= i < |plan| && plan[i].action.Delete?
      ensures plan[i].path in PathsOf(drops)
    {
      assert plan[i] in drops;
      var k :| 0 <= k < |drops| && drops[k] == plan[i];
    }
  }

  lemma AllFilesGone(plan: Plan, drops: seq<PlanItem>, t: Tree)
    requires Removals(plan, drops)
    requires forall i :: 0 <= i < |drops| && DropsFile(drops[i]) ==> drops[i].path !in t
    ensures forall i :: 0 <= i < |plan| && DropsFile(plan[i]) ==> plan[i].path !in t
  {
    forall i | 0 <= i < |plan| && DropsFile(plan[i])
      ensures plan[i].path !in t
    {
      assert plan[i] in drops;
    }
  }

  lemma NothingDropped(w: Tree, all: set<Path>)
    requires Closed(w)
    ensures Dropping(w, w, all, PathsOf([]))
  {
  }

  lemma DroppingFrame(w: Tree, t: Tree, all: set<Path>, done: set<Path>)
    requires Dropping(w, t, all, done)
    ensures Closed(t) && t == w - DoomedAmong(w, all, done)
    ensures forall q :: q in t ==> q in w && t[q] == w[q]
    ensures forall q :: q in w && q !in all ==> q in t
    ensures done == all ==> t == Kept(w, all)
  {
  }

  lemma LaterIsDone(drops: seq<PlanItem>, i: nat, q: Path)
    requires forall i, j :: 0 <= i < j < |drops| ==> Less(drops[j].path, drops[i].path)
    requires i < |drops| && q in PathsOf(drops) && Ancestor(drops[i].path, q)
    ensures q in PathsOf(drops[..i])
  {
    AncestorIsLess(drops[i].path, q);
    var k :| 0 <= k < |drops| && drops[k].path == q;
    LessIsTotal(drops[i].path, q);
    assert k < i;
    assert drops[..i][k].path == q;
  }

  lemma DropStep(w: Tree, t: Tree, plan: Plan, drops: seq<PlanItem>, i: nat)
    requires Removals(plan, drops) && i < |drops| && PathsOf(drops) == DroppedPaths(plan)
    requires Dropping(w, t, DroppedPaths(plan), PathsOf(drops[..i]))
    ensures var p := drops[i].path;
            var t' := if FullDirectory(t, p) then t else t - {p};
            && Dropping(w, t', DroppedPaths(plan), PathsOf(drops[..i + 1]))
            && t' == Remove(t, p).tree
            && (p in w ==> p in t && WayIsFree(t, p))
  {
    var p := drops[i].path;
    var all := DroppedPaths(plan);
    var done := PathsOf(drops[..i]);
    assert drops[i] in drops;
    assert p in PathsOf(drops);
    NextDone(drops, i);
    forall q | q in all && Ancestor(p, q)
      ensures q in done
    {
      LaterIsDone(drops, i, q);
    }
    RemoveKeepsClosed(t, p);
    if p in w {
      EmptyWhenDoomed(w, t, all, done, p);
    } else {
      assert w - DoomedAmong(w, all, done + {p}) == w - DoomedAmong(w, all, done);
    }
  }

  lemma NextDone(drops: seq<PlanItem>, i: nat)
    requires forall i, j :: 0 <= i < j < |drops| ==> Less(drops[j].path, drops[i].path)
    requires i < |drops|
    ensures PathsOf(drops[..i + 1]) == PathsOf(drops[..i]) + {drops[i].path}
    ensures drops[i].path !in PathsOf(drops[..i])
  {
    assert drops[..i + 1] == drops[..i] + [drops[i]];
    forall p | p in PathsOf(drops[..i])
      ensures p in PathsOf(drops[..i + 1]) && p != drops[i].path
    {
      var k :| 0 <= k < i && drops[k].path == p;
      assert drops[..i + 1][k].path == p;
      LessIsTotal(drops[i].path, drops[k].path);
    }
    assert drops[..i + 1][i] == drops[i];
  }

  // What an applied plan leaves: every written path holds its node, dropped
  // files and links are gone, a dropped directory remains only to hold something
  // else, and nothing else was below a written file or a temporary name.
  ghost predicate Applied(t: Tree, t': Tree, plan: Plan, objects: Objects) {
    && (forall i :: 0 <= i < |plan| && Writes(plan[i]) ==> HoldsItem(t', plan[i], objects))
    && (forall i :: 0 <= i < |plan| && DropsFile(plan[i]) ==> plan[i].path !in t')
    && (forall q :: q in DroppedPaths(plan) && q in t' ==> t'[q].Dir? && HasChildren(t', q))
    && (forall i, q :: 0 <= i < |plan| && Writes(plan[i]) && q in t && Untouched(plan, q) ==>
          MayHold(EntryToWrite(plan[i]), q))
  }

  // Neither finishing nor stopping disturbs a path that the plan leaves alone.
  ghost predicate LeavesAlone(t: Tree, t': Tree, plan: Plan) {
    forall q :: Untouched(plan, q) ==>
      && (q in t && q !in DroppedPaths(plan) ==> q in t' && t'[q] == t[q])
      && (q in t' ==> t'[q].Dir? || (q in t && t'[q] == t[q]))
  }

  // The tree that all writes and removals of a plan leave.
  ghost function AfterPlan(t: Tree, plan: Plan, objects: Objects): Tree {
    Kept(AfterWrites(t, PlannedWrites(plan, objects)), DroppedPaths(plan))
  }

  // It finishes if and only if the contents are stored, each directory above a
  // path to write is there, missing or planned, and nothing lies below a file or
  // link to write or below its temporary name. It then leaves all writes made and
  // the removals done; a removed directory stays when it holds something else.
  method ApplyMergePlan(project: Project, plan: Plan, objects: Objects) returns (ok: bool)
    requires Closed(project.tree) && ProperPlan(plan)
    modifies project
    ensures Closed(project.tree) && LeavesAlone(old(project.tree), project.tree, plan)
    ensures ok ==> Applied(old(project.tree), project.tree, plan, objects)
    ensures ok ==> project.tree == AfterPlan(old(project.tree), plan, objects)
    ensures var ready := ContentsThere(plan, objects) && CanWrite(old(project.tree), PlannedWrites(plan, objects));
            (ok ==> ready) && (ready && DropsAreFiles(old(project.tree), plan) ==> ok)
  {
    hide AfterWrites, AllWritable, Kept, Written, FirstPaths, OnlyPlanned, Applied, LeavesAlone, CanWrite, Orderly,
      ContentsThere, ProperPlan, InProgress, Closed, PlannedWrites, DropsAreFiles;
    ghost var t, writes := project.tree, PlannedWrites(plan, objects);
    WritesAreOrderly(plan, objects);
    AllAreWritten(t, writes);
    ok := WriteDirectories(project, plan, objects);
    PlannedIsAlone(t, project.tree, project.tree, plan);
    if !ok {
      return;
    }
    ok := WriteFiles(project, plan, objects, t);
    PlannedIsAlone(t, project.tree, project.tree, plan);
    if !ok {
      return;
    }
    ghost var w := project.tree;
    DropsStayFiles(t, plan, objects);
    ok := DropPaths(project, plan);
    PlannedIsAlone(t, w, project.tree, plan);
    if ok {
      AllApplied(t, w, project.tree, plan, objects);
    }
    ContentsWereThere(t, w, plan, objects);
  }

  // Writing leaves the files and links to remove where they are.
  lemma DropsStayFiles(t: Tree, plan: Plan, objects: Objects)
    requires ProperPlan(plan)
    ensures DropsAreFiles(t, plan) ==> DropsAreFiles(AfterWrites(t, PlannedWrites(plan, objects)), plan)
  {
    hide AfterWrites, ProperPlan, PlannedWrites;
    if DropsAreFiles(t, plan) {
      forall i | 0 <= i < |plan| && DropsFile(plan[i])
        ensures var w := AfterWrites(t, PlannedWrites(plan, objects)); plan[i].path in w && !w[plan[i].path].Dir?
      {
        DropStays(t, plan, objects, i);
      }
    }
  }

  lemma DropStays(t: Tree, plan: Plan, objects: Objects, i: nat)
    requires ProperPlan(plan) && i < |plan| && plan[i].action.Delete? && plan[i].path in t
    ensures var w := AfterWrites(t, PlannedWrites(plan, objects));
            plan[i].path in w && w[plan[i].path] == t[plan[i].path]
  {
    var writes := PlannedWrites(plan, objects);
    var p := plan[i].path;
    forall j | 0 <= j < |writes|
      ensures writes[j].entry.path != p && Temporary(writes[j].entry.path) != p
    {
      var k := EntryFrom(plan, j);
      hide WriteOrder, PlaceOf;
    }
    WritesAreOrderly(plan, objects);
    PathAfterWrites(t, writes, p);
    hide AfterWrites, PlannedWrites, ProperPlan, Orderly, IsAbove, WrittenNode;
  }

  lemma ContentsWereThere(t: Tree, w: Tree, plan: Plan, objects: Objects)
    requires Written(t, w, plan, objects, FirstPaths(plan, |plan|, true) + FirstPaths(plan, |plan|, false))
    ensures ContentsThere(plan, objects)
  {
    forall i | 0 <= i < |plan| && Writes(plan[i])
      ensures ContentToWrite(plan[i], objects).Some?
    {
      assert plan[i].path in FirstPaths(plan, |plan|, true) + FirstPaths(plan, |plan|, false);
      assert HoldsItem(w, plan[i], objects);
    }
  }

  lemma PlannedIsAlone(t: Tree, w: Tree, t': Tree, plan: Plan)
    requires OnlyPlanned(t, w, plan)
    requires forall q :: q in t' ==> q in w && t'[q] == w[q]
    requires forall q :: q in w && q !in DroppedPaths(plan) ==> q in t'
    ensures LeavesAlone(t, t', plan)
  {
  }

  lemma AllApplied(t: Tree, w: Tree, t': Tree, plan: Plan, objects: Objects)
    requires ProperPlan(plan) && Closed(t')
    requires Written(t, w, plan, objects, FirstPaths(plan, |plan|, true) + FirstPaths(plan, |plan|, false))
    requires t' == Kept(w, DroppedPaths(plan))
    requires forall i :: 0 <= i < |plan| && DropsFile(plan[i]) ==> plan[i].path !in t'
    ensures Applied(t, t', plan, objects)
  {
    var dropped := DroppedPaths(plan);
    forall i | 0 <= i < |plan| && Writes(plan[i])
      ensures plan[i].path in FirstPaths(plan, |plan|, true) + FirstPaths(plan, |plan|, false)
      ensures HoldsItem(t', plan[i], objects)
    {
      assert HoldsItem(w, plan[i], objects) && plan[i].path !in dropped;
    }
    forall q | q in dropped && q in t'
      ensures t'[q].Dir? && HasChildren(t', q)
    {
      var r :| r in w && Ancestor(q, r) && r !in dropped;
      assert r in t';
    }
  }
}
