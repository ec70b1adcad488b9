// The writes of a merge plan in the order in which they are made: directories
// first, and then files and links.
module MergeWrites {
  import opened Wrappers
  import opened Paths
  import opened Tree
  import opened Project
  import opened Manifest
  import opened Restore
  import opened MergePlan
  import opened Writing
  import Lines

  predicate WritesDirectory(item: PlanItem) {
    item.action.WriteEntry? && item.action.entry.kind.KindDirectory?
  }

  predicate WritesFile(item: PlanItem) {
    item.action.WriteLines? || (item.action.WriteEntry? && !item.action.entry.kind.KindDirectory?)
  }

  predicate Writes(item: PlanItem) {
    item.action.WriteLines? || item.action.WriteEntry?
  }

  predicate DropsFile(item: PlanItem) {
    item.action.Delete? && !item.action.entry.kind.KindDirectory?
  }

  function EntryToWrite(item: PlanItem): Entry
    requires Writes(item)
  {
    match item.action
    case WriteEntry(entry) => entry
    case WriteLines(_, mode, _) => Entry(KindFile, mode, "", item.path)
  }

  // None when the stored content is missing.
  function ContentToWrite(item: PlanItem, objects: Objects): Option<Content>
    requires Writes(item)
  {
    match item.action
    case WriteEntry(entry) => if entry.kind.KindDirectory? then Some("") else Blob(objects, entry.digest)
    case WriteLines(lines, _, trailingNewline) => Some(Lines.Join(lines, trailingNewline))
  }

  ghost predicate ContentsThere(plan: Plan, objects: Objects) {
    forall i :: 0 <= i < |plan| && Writes(plan[i]) ==> ContentToWrite(plan[i], objects).Some?
  }

  // Each path has one item, in order, the entries are those of their paths, and
  // no planned path is a temporary name of another one or lies below one.
  ghost predicate ProperPlan(plan: Plan) {
    && (forall i, j :: 0 <= i < j < |plan| ==> Less(plan[i].path, plan[j].path))
    && (forall i, j :: 0 <= i < j < |plan| ==> plan[i].path != plan[j].path)
    && (forall i :: 0 <= i < |plan| && plan[i].action.WriteEntry? ==> plan[i].action.entry.path == plan[i].path)
    && (forall i, j :: 0 <= i < |plan| && 0 <= j < |plan| ==>
          plan[i].path != Temporary(plan[j].path) && !Ancestor(Temporary(plan[j].path), plan[i].path))
  }

  predicate InStep(item: PlanItem, directories: bool) {
    if directories then WritesDirectory(item) else WritesFile(item)
  }

  // The items of one step among the first ones.
  ghost function Selected(plan: Plan, n: nat, directories: bool): (items: seq<PlanItem>)
    requires n <= |plan|
    ensures forall i :: 0 <= i < |items| ==> InStep(items[i], directories)
  {
    if n == 0 then []
    else
      Selected(plan, n - 1, directories) + if InStep(plan[n - 1], directories) then [plan[n - 1]] else []
  }

  // The items that write something in the order of their writes.
  ghost function WriteOrder(plan: Plan): (items: seq<PlanItem>)
    ensures forall i :: 0 <= i < |items| ==> Writes(items[i])
  {
    Selected(plan, |plan|, true) + Selected(plan, |plan|, false)
  }

  ghost function PlannedEntries(plan: Plan): Manifest {
    var order := WriteOrder(plan);
    seq(|order|, i requires 0 <= i < |order| => EntryToWrite(order[i]))
  }

  function WriteOf(item: PlanItem, objects: Objects): ToWrite
    requires Writes(item)
  {
    var content := ContentToWrite(item, objects);
    ToWrite(EntryToWrite(item), if content.Some? then content.value else "")
  }

  ghost function PlannedWrites(plan: Plan, objects: Objects): seq<ToWrite> {
    var order := WriteOrder(plan);
    seq(|order|, i requires 0 <= i < |order| => WriteOf(order[i], objects))
  }

  // How many writes come before those of an item.
  ghost function PlaceOf(plan: Plan, n: nat, directories: bool): nat
    requires n <= |plan|
  {
    (if directories then 0 else |Selected(plan, |plan|, true)|) + |Selected(plan, n, directories)|
  }

  lemma {:induction false} SelectedGrows(plan: Plan, n: nat, m: nat, directories: bool)
    requires n <= m <= |plan|
    ensures Selected(plan, n, directories) <= Selected(plan, m, directories)
    decreases m
  {
    if n < m {
      SelectedGrows(plan, n, m - 1, directories);
    }
  }

  // An item of a step is the next write, and any other one is skipped.
  lemma NextItem(plan: Plan, i: nat, directories: bool)
    requires i < |plan|
    ensures var n := PlaceOf(plan, i, directories);
            if InStep(plan[i], directories) then
              && n < |WriteOrder(plan)| && WriteOrder(plan)[n] == plan[i]
              && PlaceOf(plan, i + 1, directories) == n + 1
            else PlaceOf(plan, i + 1, directories) == n
  {
    SelectedGrows(plan, i + 1, |plan|, directories);
  }

  // Items of one step keep their order.
  lemma PlacesGrow(plan: Plan, n: nat, m: nat, directories: bool)
    requires n <= m <= |plan|
    ensures PlaceOf(plan, n, directories) <= PlaceOf(plan, m, directories)
  {
    SelectedGrows(plan, n, m, directories);
  }

  lemma Steps(plan: Plan)
    ensures PlaceOf(plan, 0, true) == 0
    ensures PlaceOf(plan, |plan|, true) == PlaceOf(plan, 0, false)
    ensures PlaceOf(plan, |plan|, false) == |WriteOrder(plan)| == |PlannedEntries(plan)|
  {
  }

  // The item that a write comes from.
  ghost predicate ComesFrom(plan: Plan, j: int, k: int) {
    && 0 <= k < |plan| && Writes(plan[k]) && j == PlaceOf(plan, k, WritesDirectory(plan[k]))
    && 0 <= j < |WriteOrder(plan)| && WriteOrder(plan)[j] == plan[k]
  }

  lemma {:induction false} ItemFrom(plan: Plan, n: nat, j: nat, directories: bool) returns (k: nat)
    requires n <= |plan| && j < |Selected(plan, n, directories)|
    ensures k < n && InStep(plan[k], directories) && Selected(plan, n, directories)[j] == plan[k]
    ensures |Selected(plan, k, directories)| == j
    decreases n
  {
    if j < |Selected(plan, n - 1, directories)| {
      k := ItemFrom(plan, n - 1, j, directories);
    } else {
      k := n - 1;
    }
  }

  lemma EntryFrom(plan: Plan, j: nat) returns (k: nat)
    requires j < |WriteOrder(plan)|
    ensures ComesFrom(plan, j, k)
  {
    var directories := |Selected(plan, |plan|, true)|;
    if j < directories {
      k := ItemFrom(plan, |plan|, j, true);
    } else {
      k := ItemFrom(plan, |plan|, j - directories, false);
    }
  }

  lemma WrittenIsEntry(plan: Plan, k: nat)
    requires k < |plan| && Writes(plan[k])
    ensures ComesFrom(plan, PlaceOf(plan, k, WritesDirectory(plan[k])), k)
  {
    NextItem(plan, k, WritesDirectory(plan[k]));
  }

  // The directories planned before an item are written before it.
  lemma DirectoriesAreFirst(plan: Plan, i: nat, j: nat, d: nat, k: nat)
    requires ComesFrom(plan, i, d) && ComesFrom(plan, j, k) && WritesDirectory(plan[d])
    requires WritesDirectory(plan[k]) ==> d < k
    ensures i < j
  {
    NextItem(plan, d, true);
    PlacesGrow(plan, d + 1, if WritesDirectory(plan[k]) then k else |plan|, true);
  }

  lemma InOrder(plan: Plan, d: nat, k: nat)
    requires ProperPlan(plan) && d < |plan| && k < |plan| && Less(plan[d].path, plan[k].path)
    ensures d < k
  {
    LessIsTotal(plan[d].path, plan[k].path);
  }

  // The planned writes have different paths, and directories come first.
  lemma WritesAreOrderly(plan: Plan, objects: Objects)
    requires ProperPlan(plan)
    ensures Orderly(PlannedWrites(plan, objects))
  {
    var writes := PlannedWrites(plan, objects);
    forall i, j | 0 <= i < |writes| && 0 <= j < |writes|
      ensures i != j ==> writes[i].entry.path != writes[j].entry.path
      ensures Ancestor(writes[j].entry.path, writes[i].entry.path) ==> j < i || !writes[j].entry.kind.KindDirectory?
      ensures Temporary(writes[j].entry.path) != writes[i].entry.path
      ensures !Ancestor(Temporary(writes[j].entry.path), writes[i].entry.path)
    {
      TwoWrites(plan, i, j);
    }
    hide *;
    IsOrderly(writes);
  }

  lemma IsOrderly(writes: seq<ToWrite>)
    requires forall i, j :: 0 <= i < |writes| && 0 <= j < |writes| ==>
      && (i != j ==> writes[i].entry.path != writes[j].entry.path)
      && (Ancestor(writes[j].entry.path, writes[i].entry.path) ==> j < i || !writes[j].entry.kind.KindDirectory?)
      && Temporary(writes[j].entry.path) != writes[i].entry.path
      && !Ancestor(Temporary(writes[j].entry.path), writes[i].entry.path)
    ensures Orderly(writes)
  {
  }

  lemma TwoWrites(plan: Plan, i: nat, j: nat)
    requires ProperPlan(plan) && i < |WriteOrder(plan)| && j < |WriteOrder(plan)|
    ensures var e, f := EntryToWrite(WriteOrder(plan)[i]), EntryToWrite(WriteOrder(plan)[j]);
            && (i != j ==> e.path != f.path)
            && (Ancestor(f.path, e.path) ==> j < i || !f.kind.KindDirectory?)
            && Temporary(f.path) != e.path && !Ancestor(Temporary(f.path), e.path)
  {
    var k := EntryFrom(plan, i);
    var l := EntryFrom(plan, j);
    hide WriteOrder, PlaceOf;
    if Ancestor(plan[l].path, plan[k].path) && WritesDirectory(plan[l]) {
      AncestorIsLess(plan[l].path, plan[k].path);
      InOrder(plan, l, k);
      DirectoriesAreFirst(plan, j, i, l, k);
    }
  }
}
