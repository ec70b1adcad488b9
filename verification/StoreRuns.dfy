// Runs of the checkpoint store, whose ignore rules may change between commands:
// what every run keeps, when a restore can be undone through its automatic
// checkpoint, and which nodes no command touches.
module StoreRuns {
  import opened Wrappers
  import opened Paths
  import opened Tree
  import opened Project
  import opened Manifest
  import opened Scan
  import opened Restore
  import opened RestoreLaws
  import opened RestoreBack
  import opened MergePlan
  import opened MergeApply
  import opened MergeLaws
  import opened Store
  import Identifiers
  import Ignore
  import ManifestText
  import Merge3
  import Text

  // The patterns of a configuration, and the rules that they compile to.
  datatype IgnoreRules = IgnoreRules(texts: seq<string>, patterns: seq<Ignore.Pattern>, rule: Rule)

  datatype Action =
    | TakeCheckpoint(later: Tree)
    | RestoreCheckpoint(wanted: string)
    | RestoreUnchanged(wanted: string)
    | MergeCheckpoint(wanted: string, base: string, labels: Merge3.Labels)
    | RemoveCheckpoint(wanted: string)
    | PruneObjects

  // A command on the working tree and under the rules as they are at that time.
  datatype Command = Command(tree: Tree, rules: IgnoreRules, action: Action)

  // The tree and the stored manifests after a command.
  datatype Outcome = Outcome(tree: Tree, snapshots: map<nat, string>)

  // Every project compiles its own patterns together with the one for temporary
  // names, whose star matches every name.
  ghost predicate IsProjectRule(glob: Ignore.Glob, rules: IgnoreRules) {
    && Ignore.Compiled(rules.texts, rules.patterns) && Ignore.PARTIAL_GLOB in rules.texts
    && (forall s :: '/' !in s ==> glob(Ignore.PARTIAL_GLOB, s + PARTIAL))
    && (forall p, d :: rules.rule(p, d) <==> Ignore.Ignored(glob, rules.patterns, p, d))
  }

  // Such rules leave out every temporary name, and being a directory saves nothing
  // from them.
  lemma ProjectRules(glob: Ignore.Glob, rules: IgnoreRules)
    requires IsProjectRule(glob, rules)
    ensures HidesTemporaries(rules.rule) && DirectoriesToo(rules.rule)
  {
    hide Ignore.Compiled, Ignore.Ignored;
    forall p, d
      ensures rules.rule(Temporary(p), d)
    {
      Ignore.TemporariesAreIgnored(glob, rules.texts, rules.patterns, p, d);
    }
    forall p | rules.rule(p, false)
      ensures rules.rule(p, true)
    {
      Ignore.DirectoriesAreIgnoredToo(glob, rules.patterns, p);
    }
  }

  // The patterns match the path or a directory above it.
  ghost predicate IgnoredBy(glob: Ignore.Glob, patterns: seq<Ignore.Pattern>, t: Tree, q: Path) {
    exists a :: OnTheWay(a, q) && Ignore.Ignored(glob, patterns, a, a in t && t[a].Dir?)
  }

  lemma LeftOutIsIgnored(glob: Ignore.Glob, rules: IgnoreRules, t: Tree, q: Path)
    requires IsProjectRule(glob, rules) && IgnoredBy(glob, rules.patterns, t, q)
    ensures !Visible(t, rules.rule, q)
  {
    hide Ignore.Compiled, Ignore.Ignored;
    var a :| OnTheWay(a, q) && Ignore.Ignored(glob, rules.patterns, a, a in t && t[a].Dir?);
    assert Hidden(t, rules.rule, a);
  }

  // Nodes that the patterns match are the same before and after, unless the
  // recording has an entry at their path or they have a temporary name.
  ghost predicate IgnoredStay(glob: Ignore.Glob, patterns: seq<Ignore.Pattern>, t: Tree, t': Tree, recorded: Manifest) {
    forall q :: q in t && IgnoredBy(glob, patterns, t, q) && q !in PathSet(recorded) && !IsTemporary(q) ==>
      q in t' && t'[q] == t[q]
  }

  ghost predicate IsTemporary(q: Path) {
    exists p :: q == Temporary(p)
  }

  // The manifest that a command restores or merges, or an empty one.
  ghost predicate UsedBy(action: Action, snapshots: map<nat, string>, recorded: Manifest) {
    || recorded == []
    || ((action.RestoreCheckpoint? || action.RestoreUnchanged? || action.MergeCheckpoint?)
        && exists n :: n in snapshots && Identifiers.Names(action.wanted, n)
             && ManifestText.Parse(snapshots[n]) == Some(recorded))
  }

  // Each stored manifest was stored before or lists only what the command sees.
  ghost predicate RecordsSeen(command: Command, before: map<nat, string>, snapshots: map<nat, string>) {
    forall n :: n in snapshots ==>
      || (n in before && snapshots[n] == before[n])
      || (ManifestText.Parse(snapshots[n]).Some?
          && forall p :: p in PathSet(ManifestText.Parse(snapshots[n]).value) ==>
               Visible(command.tree, command.rules.rule, p))
  }

  // What a command does: the ignored nodes stay but where it restores or merges
  // another entry, and what it records it has seen.
  ghost predicate KeepsIgnored(glob: Ignore.Glob, before: map<nat, string>, command: Command, after: Outcome) {
    && RecordsSeen(command, before, after.snapshots)
    && exists recorded :: UsedBy(command.action, before, recorded)
         && IgnoredStay(glob, command.rules.patterns, command.tree, after.tree, recorded)
  }

  // The stored manifests before each command of a run.
  function Before(snapshots: map<nat, string>, after: seq<Outcome>, i: nat): map<nat, string>
    requires i <= |after|
  {
    if i == 0 then snapshots else after[i - 1].snapshots
  }

  ghost predicate RunKeeps(glob: Ignore.Glob, snapshots: map<nat, string>, commands: seq<Command>,
                           after: seq<Outcome>) {
    && |after| == |commands|
    && forall i :: 0 <= i < |commands| ==> KeepsIgnored(glob, Before(snapshots, after, i), commands[i], after[i])
  }

  // Over every run of the store the stored checkpoints resolve, all contents
  // have their digests, and the current checkpoint is stored; and no command ever
  // touches what its patterns ignore, but where it restores or merges an entry.
  method Run(store: Store, project: Project, commands: seq<Command>, isText: Content -> bool, ghost glob: Ignore.Glob)
      returns (ghost after: seq<Outcome>)
    requires store.Valid()
    requires forall i :: 0 <= i < |commands| ==>
               WorkingTree(commands[i].tree) && IsProjectRule(glob, commands[i].rules)
    modifies store, project
    ensures store.Valid() && RunKeeps(glob, old(store.snapshots), commands, after)
  {
    hide *;
    after := [];
    NoCommands(glob, store.snapshots, commands);
    for index := 0 to |commands|
      invariant store.Valid() && |after| == index
      invariant RunKeeps(glob, old(store.snapshots), commands[..index], after)
      invariant Before(old(store.snapshots), after, index) == store.snapshots
    {
      hide *;
      RunOne(store, project, commands[index], isText, glob);
      OneMoreKeeps(glob, old(store.snapshots), commands, index, after, Outcome(project.tree, store.snapshots));
      after := after + [Outcome(project.tree, store.snapshots)];
    }
    assert commands[..|commands|] == commands;
  }

  lemma NoCommands(glob: Ignore.Glob, snapshots: map<nat, string>, commands: seq<Command>)
    ensures RunKeeps(glob, snapshots, commands[..0], []) && Before(snapshots, [], 0) == snapshots
  {
  }

  lemma OneMoreKeeps(glob: Ignore.Glob, snapshots: map<nat, string>, commands: seq<Command>, i: nat,
                     after: seq<Outcome>, outcome: Outcome)
    requires i < |commands| && |after| == i && RunKeeps(glob, snapshots, commands[..i], after)
    requires KeepsIgnored(glob, Before(snapshots, after, i), commands[i], outcome)
    ensures RunKeeps(glob, snapshots, commands[..i + 1], after + [outcome])
    ensures Before(snapshots, after + [outcome], i + 1) == outcome.snapshots
  {
    hide KeepsIgnored;
    var more := after + [outcome];
    forall k | 0 <= k < i + 1
      ensures KeepsIgnored(glob, Before(snapshots, more, k), commands[..i + 1][k], more[k])
    {
      assert Before(snapshots, more, k) == Before(snapshots, after, k);
      if k < i {
        assert KeepsIgnored(glob, Before(snapshots, after, k), commands[..i][k], after[k]);
      }
    }
  }

  ghost predicate NowhereRecorded(snapshots: map<nat, string>, q: Path) {
    forall n :: n in snapshots && ManifestText.Parse(snapshots[n]).Some? ==>
      q !in PathSet(ManifestText.Parse(snapshots[n]).value)
  }

  // The patterns of every command ignore the path where it is there.
  ghost predicate AlwaysIgnored(glob: Ignore.Glob, commands: seq<Command>, q: Path) {
    forall i :: 0 <= i < |commands| ==> IgnoredAt(glob, commands[i], q)
  }

  ghost predicate IgnoredAt(glob: Ignore.Glob, command: Command, q: Path) {
    IsProjectRule(glob, command.rules)
        && (q in command.tree ==> IgnoredBy(glob, command.rules.patterns, command.tree, q))
  }

  // A path that no stored manifest has, and that the patterns of every command of
  // a run ignore, is in no manifest of the run, and no command touches it.
  lemma NeverTouched(glob: Ignore.Glob, snapshots: map<nat, string>, commands: seq<Command>, after: seq<Outcome>,
                     q: Path)
    requires RunKeeps(glob, snapshots, commands, after) && NowhereRecorded(snapshots, q)
    requires AlwaysIgnored(glob, commands, q) && !IsTemporary(q)
    ensures forall i :: 0 <= i < |commands| ==> NowhereRecorded(after[i].snapshots, q)
    ensures forall i :: 0 <= i < |commands| && q in commands[i].tree ==>
      q in after[i].tree && after[i].tree[q] == commands[i].tree[q]
  {
    hide NowhereRecorded, KeepsIgnored, IgnoredAt, IsTemporary;
    forall i | 0 <= i < |commands|
      ensures NowhereRecorded(after[i].snapshots, q)
      ensures q in commands[i].tree ==> q in after[i].tree && after[i].tree[q] == commands[i].tree[q]
    {
      NeverRecorded(glob, snapshots, commands, after, q, i);
      NotTouched(glob, Before(snapshots, after, i), commands[i], after[i], q);
    }
  }

  lemma {:induction false} NeverRecorded(glob: Ignore.Glob, snapshots: map<nat, string>, commands: seq<Command>,
                                         after: seq<Outcome>, q: Path, n: nat)
    requires RunKeeps(glob, snapshots, commands, after) && NowhereRecorded(snapshots, q)
    requires AlwaysIgnored(glob, commands, q) && !IsTemporary(q) && n <= |commands|
    ensures NowhereRecorded(Before(snapshots, after, n), q)
    decreases n
  {
    hide NowhereRecorded, KeepsIgnored, IgnoredAt, IsTemporary;
    if n > 0 {
      NeverRecorded(glob, snapshots, commands, after, q, n - 1);
      NotTouched(glob, Before(snapshots, after, n - 1), commands[n - 1], after[n - 1], q);
    }
  }

  lemma NotTouched(glob: Ignore.Glob, before: map<nat, string>, command: Command, after: Outcome, q: Path)
    requires KeepsIgnored(glob, before, command, after) && NowhereRecorded(before, q) && !IsTemporary(q)
    requires IgnoredAt(glob, command, q)
    ensures NowhereRecorded(after.snapshots, q)
    ensures q in command.tree ==> q in after.tree && after.tree[q] == command.tree[q]
  {
    hide IgnoredAt, IgnoredBy, ManifestText.Parse, Identifiers.Names, IsTemporary, Visible;
    NotSeen(glob, command, q);
    var recorded :| UsedBy(command.action, before, recorded)
      && IgnoredStay(glob, command.rules.patterns, command.tree, after.tree, recorded);
    assert q !in PathSet(recorded);
    IgnoredThere(glob, command, q);
  }

  lemma IgnoredThere(glob: Ignore.Glob, command: Command, q: Path)
    requires IgnoredAt(glob, command, q)
    ensures q in command.tree ==> IgnoredBy(glob, command.rules.patterns, command.tree, q)
  {
  }

  lemma NotSeen(glob: Ignore.Glob, command: Command, q: Path)
    requires IgnoredAt(glob, command, q)
    ensures !Visible(command.tree, command.rules.rule, q)
  {
    hide IsProjectRule, IgnoredBy;
    if q in command.tree {
      LeftOutIsIgnored(glob, command.rules, command.tree, q);
    }
  }

  // A new checkpoint lists what the scan has seen.
  lemma TakenIsSeen(command: Command, later: Tree, hash: Hash, objects: Objects, before: map<nat, string>,
                    snapshots: map<nat, string>, head: Option<nat>, id: nat)
    requires Taken(command.rules.rule, hash, objects, before, snapshots, head, Hybrid(command.tree, later), id)
    ensures RecordsSeen(command, before, snapshots)
  {
    hide ManifestText.Parse, WorkingTree, HoldsContents;
    SameVisible(command.tree, later, command.rules.rule);
    var read := Hybrid(command.tree, later);
    forall p | p in PathSet(ManifestText.Parse(snapshots[id]).value)
      ensures Visible(command.tree, command.rules.rule, p)
    {
      assert p in VisiblePaths(read, command.rules.rule);
    }
    hide Visible, IsScan;
  }

  lemma NothingNew(command: Command, before: map<nat, string>, snapshots: map<nat, string>)
    requires forall n :: n in snapshots ==> n in before && snapshots[n] == before[n]
    ensures RecordsSeen(command, before, snapshots)
  {
  }

  lemma NothingHappened(glob: Ignore.Glob, before: map<nat, string>, command: Command, snapshots: map<nat, string>)
    requires RecordsSeen(command, before, snapshots)
    ensures KeepsIgnored(glob, before, command, Outcome(command.tree, snapshots))
  {
    hide RecordsSeen;
    assert UsedBy(command.action, before, [])
           && IgnoredStay(glob, command.rules.patterns, command.tree, command.tree, []);
  }

  // A restore touches no ignored node but at the recorded paths.
  lemma RestoreKeepsIgnored(glob: Ignore.Glob, command: Command, before: map<nat, string>, snapshots: map<nat, string>,
                            objects: Objects, id: nat, t': Tree, ok: bool, removed: nat, written: nat)
    requires IsProjectRule(glob, command.rules) && RecordsSeen(command, before, snapshots)
    requires command.action.RestoreCheckpoint? || command.action.RestoreUnchanged?
    requires id in before && Identifiers.Names(command.action.wanted, id) && ManifestText.Parse(before[id]).Some?
    requires Restored(command.tree, t', command.rules.rule, ManifestText.Parse(before[id]).value, objects, ok, removed,
                      written)
    ensures KeepsIgnored(glob, before, command, Outcome(t', snapshots))
  {
    hide ManifestText.Parse, IsProjectRule, IgnoredBy, RecordsSeen, Identifiers.Names, IsTemporary, StandsOver;
    var m := ManifestText.Parse(before[id]).value;
    var t := command.tree;
    forall q | q in t && IgnoredBy(glob, command.rules.patterns, t, q) && q !in PathSet(m) && !IsTemporary(q)
      ensures q in t' && t'[q] == t[q]
    {
      LeftOutIsIgnored(glob, command.rules, t, q);
      NoTemporaryOf(m, q);
      LeftOutNodesSurvive(t, t', command.rules.rule, m, objects, q);
    }
    assert UsedBy(command.action, before, m) && IgnoredStay(glob, command.rules.patterns, t, t', m);
  }

  lemma NoTemporaryOf(m: Manifest, q: Path)
    requires !IsTemporary(q)
    ensures q !in Temporaries(m)
  {
  }

  // Neither does a merge.
  lemma MergeKeepsIgnored(glob: Ignore.Glob, command: Command, before: map<nat, string>, snapshots: map<nat, string>,
                          setting: Setting, id: nat, t': Tree, hash: Hash, base: Manifest, ours: Manifest, plan: Plan,
                          ok: bool)
    requires IsProjectRule(glob, command.rules) && RecordsSeen(command, before, snapshots)
    requires command.action.MergeCheckpoint? && setting.tree == command.tree && Closed(setting.tree)
    requires id in before && Identifiers.Names(command.action.wanted, id) && ManifestText.Parse(before[id]).Some?
    requires Merged(setting, t', command.rules.rule, hash, base, ours, ManifestText.Parse(before[id]).value, plan, ok)
    ensures KeepsIgnored(glob, before, command, Outcome(t', snapshots))
  {
    hide ManifestText.Parse, IsProjectRule, IgnoredBy, RecordsSeen, Identifiers.Names, IsTemporary, PlansAll,
      LeavesAlone,
      EndsRight, TreeIsBase, TakesTheirs, IsScan, Closed;
    var m := ManifestText.Parse(before[id]).value;
    var t := command.tree;
    forall q | q in t && IgnoredBy(glob, command.rules.patterns, t, q) && q !in PathSet(m) && !IsTemporary(q)
      ensures q in t' && t'[q] == t[q]
    {
      LeftOutIsIgnored(glob, command.rules, t, q);
      NoTemporaryOfPlan(plan, q);
      AtHolds(m, q);
      LeftOutNodesSurviveMerge(setting, t', command.rules.rule, hash, base, ours, m, plan, q);
    }
    assert UsedBy(command.action, before, m) && IgnoredStay(glob, command.rules.patterns, t, t', m);
  }

  lemma NoTemporaryOfPlan(plan: Plan, q: Path)
    requires !IsTemporary(q)
    ensures q !in TemporaryPaths(plan)
  {
  }

  method RunOne(store: Store, project: Project, command: Command, isText: Content -> bool, ghost glob: Ignore.Glob)
    requires store.Valid() && WorkingTree(command.tree) && IsProjectRule(glob, command.rules)
    modifies store, project
    ensures store.Valid()
    ensures KeepsIgnored(glob, old(store.snapshots), command, Outcome(project.tree, store.snapshots))
  {
    hide *;
    ProjectRules(glob, command.rules);
    store.Reopen(command.rules.rule);
    project.tree := command.tree;
    WorkingTreeIsProper(command.tree);
    ghost var before := store.snapshots;
    NothingNew(command, before, before);
    match command.action {
      case TakeCheckpoint(later) =>
        var id := store.Take(command.tree, later);
        if id.Some? {
          TakenIsSeen(command, later, store.hash, store.objects, before, store.snapshots, store.head, id.value);
        }
        NothingHappened(glob, before, command, store.snapshots);
      case RestoreCheckpoint(wanted) =>
        RunRestore(store, project, command, glob);
      case RestoreUnchanged(wanted) =>
        var result, starts, target, ours := store.RestoreWithoutAutomatic(project, wanted);
        if starts {
          ManifestIs(before, result.id);
          RestoreKeepsIgnored(glob, command, before, before, store.objects, result.id, project.tree, result.ok,
                              result.removed, result.written);
        } else {
          NothingHappened(glob, before, command, before);
        }
      case MergeCheckpoint(_, _, _) =>
        RunMerge(store, project, command, isText, glob);
      case RemoveCheckpoint(wanted) =>
        var removed := store.Remove(wanted);
        NothingNew(command, before, store.snapshots);
        NothingHappened(glob, before, command, store.snapshots);
      case PruneObjects =>
        var removed := store.Prune();
        NothingHappened(glob, before, command, before);
    }
  }

  method RunRestore(store: Store, project: Project, command: Command, ghost glob: Ignore.Glob)
    requires store.Valid() && WorkingTree(command.tree) && IsProjectRule(glob, command.rules)
    requires command.action.RestoreCheckpoint? && project.tree == command.tree && store.rule == command.rules.rule
    modifies store, project
    ensures store.Valid()
    ensures KeepsIgnored(glob, old(store.snapshots), command, Outcome(project.tree, store.snapshots))
  {
    hide *;
    ghost var before := store.snapshots;
    NothingNew(command, before, before);
    var result := store.Restore(project, command.action.wanted);
    if result.automatic.None? {
      NothingHappened(glob, before, command, before);
      return;
    }
    HybridOfSame(command.tree);
    TakenIsSeen(command, command.tree, store.hash, store.objects, before, store.snapshots, result.automatic,
                result.automatic.value);
    AutomaticIsNamed(store.rule, store.hash, store.objects, before, store.snapshots, result.automatic, command.tree,
                     result.automatic.value, result.id);
    ManifestIs(store.snapshots, result.id);
    RestoreKeepsIgnored(glob, command, before, store.snapshots, store.objects, result.id, project.tree, result.ok,
                        result.removed, result.written);
  }

  method RunMerge(store: Store, project: Project, command: Command, isText: Content -> bool, ghost glob: Ignore.Glob)
    requires store.Valid() && WorkingTree(command.tree) && IsProjectRule(glob, command.rules)
    requires command.action.MergeCheckpoint? && project.tree == command.tree && store.rule == command.rules.rule
    modifies store, project
    ensures store.Valid()
    ensures KeepsIgnored(glob, old(store.snapshots), command, Outcome(project.tree, store.snapshots))
  {
    hide *;
    ghost var before := store.snapshots;
    NothingNew(command, before, before);
    WorkingTreeIsProper(command.tree);
    var result, ours := store.Merge(project, command.action.wanted, command.action.base, isText, command.action.labels);
    if result.automatic.Some? {
      HybridOfSame(command.tree);
      TakenIsSeen(command, command.tree, store.hash, store.objects, before, store.snapshots, store.head,
                  result.automatic.value);
    }
    if result.planned {
      ManifestIs(before, result.theirs);
      MergeKeepsIgnored(glob, command, before, store.snapshots,
                        Setting(command.tree, store.objects, isText, command.action.labels), result.theirs,
                            project.tree,
                        store.hash, ManifestAt(before, result.base), ours, result.plan, result.ok);
    } else {
      NothingHappened(glob, before, command, store.snapshots);
    }
  }

  lemma ManifestIs(snapshots: map<nat, string>, n: nat)
    requires n in snapshots && ManifestText.Parse(snapshots[n]).Some?
    ensures ManifestAt(snapshots, n) == ManifestText.Parse(snapshots[n]).value
  {
  }

  lemma AutomaticIsNamed(rule: Rule, hash: Hash, objects: Objects, before: map<nat, string>, snapshots: map<nat,
                         string>, head: Option<nat>, read: Tree, id: nat, n: nat)
    requires Taken(rule, hash, objects, before, snapshots, head, read, id)
    ensures id in snapshots && RecordsTree(rule, hash, objects, snapshots[id], read)
    ensures Identifiers.Names(Identifiers.FormatId(id), id)
    ensures Identifiers.Names(Identifiers.FormatId(id), n) ==> n == id
    ensures n in before ==> n in snapshots && snapshots[n] == before[n]
  {
    if Identifiers.Names(Identifiers.FormatId(id), n) {
      Identifiers.NamesAreUnique(Identifiers.FormatId(id), n, id);
    }
  }

  lemma RecordsFacts(rule: Rule, hash: Hash, objects: Objects, text: string, t: Tree)
    requires RecordsTree(rule, hash, objects, text, t)
    ensures WorkingTree(t) && Closed(t) && ManifestText.Parse(text).Some? && HoldsContents(t, rule, hash, objects)
    ensures IsScan(t, rule, hash, ManifestText.Parse(text).value)
  {
  }

  // A restore that is not stopped leaves a working tree.
  lemma AfterIsWorking(t: Tree, rule: Rule, hash: Hash, objects: Objects, text: string, t1: Tree)
    requires WorkingTree(t) && Recording(hash, objects, text) && Closed(t1)
    requires ManifestText.Parse(text).Some? && t1 == AfterRestore(t, rule, ManifestText.Parse(text).value, objects)
    ensures WorkingTree(t1)
  {
    var m := ManifestText.Parse(text).value;
    var t0, used :| HidesTemporaries(used) && RecordsTree(used, hash, objects, text, t0);
    RecordsFacts(used, hash, objects, text, t0);
    hide Recording, WorkingTree, ManifestText.Parse, RecordsTree, AfterRestore, IsScan, HoldsContents, TreeOf,
      Rewritten, Visible, Closed;
    forall p | p in t1
      ensures (p in t && t1[p] == t[p]) || (p in t0 && t1[p] == Rewritten(t0[p]))
    {
      NodeAfter(t, rule, m, objects, p);
      RecordedNode(t0, used, hash, objects, m, p);
    }
    MixedIsWorking(t, t0, t1);
  }

  lemma MixedIsWorking(t: Tree, t0: Tree, t1: Tree)
    requires WorkingTree(t) && WorkingTree(t0) && Closed(t1)
    requires forall p :: p in t1 ==> (p in t && t1[p] == t[p]) || (p in t0 && t1[p] == Rewritten(t0[p]))
    ensures WorkingTree(t1)
  {
    hide Text.Split, Closed;
  }

  // The tree after a restore does not depend on other stored contents.
  lemma AfterWithMore(t: Tree, rule: Rule, m: Manifest, objects: Objects, objects': Objects)
    requires ContentsStored(m, objects) && Includes(objects', objects)
    ensures AfterRestore(t, rule, m, objects') == AfterRestore(t, rule, m, objects)
  {
    TreeOfMore(m, objects, objects');
  }

  lemma TreeOfMore(m: Manifest, objects: Objects, objects': Objects)
    requires ContentsStored(m, objects) && Includes(objects', objects)
    ensures TreeOf(m, objects') == TreeOf(m, objects)
  {
    forall p | p in Index(m)
      ensures ContentOf(Index(m)[p], objects') == ContentOf(Index(m)[p], objects)
    {
      IndexHolds(m, p);
      var i :| 0 <= i < |m| && m[i] == Index(m)[p];
    }
  }

  // What must hold for a restore and a restore of its automatic checkpoint, which
  // may come under other rules, to give back the tree.
  ghost predicate CanGoBack(t: Tree, rule: Rule, later: Rule, wanted: Manifest, objects: Objects) {
    var t1 := AfterRestore(t, rule, wanted, objects);
    && Fits(t, VisiblePaths(t, rule)) && Fits(t1, VisiblePaths(t1, later))
    && HasRoom(t, rule, wanted, objects) && NamesAreFree(t, rule) && UsableModes(t, rule)
    && SeesAdded(t, t1, later) && StillLeftOut(t, t1, rule, later)
  }

  // A restore, and then under any rules a restore of its automatic checkpoint,
  // succeed and give back the tree exactly when it can go back, through the
  // stored texts.
  method RestoreAndBack(store: Store, project: Project, wanted: string, later: Rule)
      returns (first: RestoreResult, second: RestoreResult, ghost recorded: Manifest)
    requires store.Valid() && WorkingTree(project.tree) && HidesTemporaries(later)
    requires exists n :: n in store.snapshots && Identifiers.Names(wanted, n)
    modifies store, project
    ensures store.Valid()
    ensures exists n :: (n in old(store.snapshots) && Identifiers.Names(wanted, n)
                         && ManifestText.Parse(old(store.snapshots)[n]) == Some(recorded))
    ensures first.ok && second.ok && project.tree == old(project.tree) <==>
            CanGoBack(old(project.tree), old(store.rule), later, recorded, old(store.objects))
  {
    hide Restored, Taken, WorkingTree, Identifiers.Names, Identifiers.FormatId, ManifestText.Parse, Fits, VisiblePaths,
      CanGoBack, TreeOf, Includes, RecordsTree, Recording, GoodHash, HidesTemporaries, Sound, AfterRestore,
      NothingInTheWay;
    ghost var t := project.tree;
    ghost var rule := store.rule;
    ghost var objects0, snapshots0 := store.objects, store.snapshots;
    SoundParts(store.hash, store.objects, store.snapshots, store.head);
    second := RestoreResult(false, 0, None, 0, 0);
    first := store.Restore(project, wanted);
    if first.automatic.None? {
      ghost var n :| n in snapshots0 && Identifiers.Names(wanted, n);
      recorded := ManifestText.Parse(snapshots0[n]).value;
      TooLargeToGoBack(t, rule, later, recorded, objects0);
      return;
    }
    ghost var objects1, snapshots1 := store.objects, store.snapshots;
    var id := first.automatic.value;
    AutomaticIsNamed(rule, store.hash, objects1, snapshots0, snapshots1, first.automatic, t, id, first.id);
    ghost var text := snapshots1[first.id];
    recorded := ManifestText.Parse(text).value;
    assert ManifestText.Parse(snapshots0[first.id]) == Some(recorded);
    SoundParts(store.hash, store.objects, store.snapshots, store.head);
    ghost var t1 := project.tree;
    RestoredTree(t, t1, rule, later, store.hash, objects0, objects1, text, first.ok, first.removed, first.written);
    if !first.ok {
      return;
    }
    store.Reopen(later);
    second := store.Restore(project, Identifiers.FormatId(id));
    if second.automatic.None? {
      return;
    }
    ghost var n := second.id;
    AutomaticIsNamed(rule, store.hash, objects1, snapshots0, snapshots1, first.automatic, t, id, n);
    AutomaticIsNamed(later, store.hash, store.objects, snapshots1, store.snapshots, second.automatic, t1,
                     second.automatic.value, id);
    AutomaticIsNamed(later, store.hash, store.objects, snapshots1, store.snapshots, second.automatic, t1,
                     second.automatic.value, first.id);
    SoundParts(store.hash, store.objects, store.snapshots, store.head);
    RestoredAgain(t, t1, project.tree, rule, later, store.hash, objects0, objects1, store.objects, text, snapshots1[id],
                  second.ok, second.removed, second.written);
  }

  lemma TooLargeToGoBack(t: Tree, rule: Rule, later: Rule, m: Manifest, objects: Objects)
    requires !Fits(t, VisiblePaths(t, rule))
    ensures !CanGoBack(t, rule, later, m, objects)
  {
  }

  // What the first restore says of going back.
  lemma RestoredTree(t: Tree, t1: Tree, rule: Rule, later: Rule, hash: Hash, objects0: Objects, objects1: Objects,
                     text: string, ok: bool, removed: nat, written: nat)
    requires WorkingTree(t) && Closed(t1) && Includes(objects1, objects0)
    requires Recording(hash, objects0, text) && ManifestText.Parse(text).Some?
    requires Restored(t, t1, rule, ManifestText.Parse(text).value, objects1, ok, removed, written)
    ensures var m := ManifestText.Parse(text).value;
            && (ok ==> t1 == AfterRestore(t, rule, m, objects0) && WorkingTree(t1))
            && (ok ==> Fits(t, VisiblePaths(t, rule)) && NothingInTheWay(t, rule, m))
            && (!ok || !Fits(t1, VisiblePaths(t1, later)) ==> !CanGoBack(t, rule, later, m, objects0))
  {
    hide ManifestText.Parse, Recording, WorkingTree, NothingInTheWay, Fits, Includes, StandsOver, OnlyRestores,
      VisiblePaths, HasRoom, NamesAreFree, SeesAdded, StillLeftOut, UsableModes;
    var m := ManifestText.Parse(text).value;
    RecordingStores(hash, objects0, text);
    AfterWithMore(t, rule, m, objects0, objects1);
    assert ok ==> t1 == AfterRestore(t, rule, m, objects1);
    RecordingIsSound(hash, objects0, text);
    RoomIsEnough(t, rule, m, objects0);
    if ok {
      AfterIsWorking(t, rule, hash, objects0, text, t1);
    }
  }

  // What the second restore says.
  lemma RestoredAgain(t: Tree, t1: Tree, t2: Tree, rule: Rule, later: Rule, hash: Hash, objects0: Objects,
                      objects1: Objects, objects2: Objects, text: string, automatic: string, ok: bool, removed: nat,
                      written: nat)
    requires HidesTemporaries(rule) && HidesTemporaries(later) && Closed(t1)
    requires Includes(objects1, objects0) && Includes(objects2, objects1)
    requires Recording(hash, objects0, text) && RecordsTree(rule, hash, objects1, automatic, t)
    requires ManifestText.Parse(text).Some? && ManifestText.Parse(automatic).Some?
    requires var m := ManifestText.Parse(text).value;
             t1 == AfterRestore(t, rule, m, objects0) && Fits(t, VisiblePaths(t, rule)) && NothingInTheWay(t, rule, m)
    requires Fits(t1, VisiblePaths(t1, later))
    requires Restored(t1, t2, later, ManifestText.Parse(automatic).value, objects2, ok, removed, written)
    ensures ok && t2 == t <==> CanGoBack(t, rule, later, ManifestText.Parse(text).value, objects0)
  {
    hide ManifestText.Parse, NothingInTheWay, Fits, StandsOver, OnlyRestores, HasRoom, NamesAreFree, UsableModes,
      SeesAdded, StillLeftOut;
    var m, back := ManifestText.Parse(text).value, ManifestText.Parse(automatic).value;
    assert Includes(objects2, objects0);
    RecordingStores(hash, objects0, text);
    RecordingIsSound(hash, objects0, text);
    RecordingKeeps(hash, objects0, objects2, text);
    RecordingIsSound(hash, objects2, text);
    RecordsFacts(rule, hash, objects1, automatic, t);
    MoreContents(t, rule, hash, objects1, objects2);
    AfterWithMore(t, rule, m, objects0, objects2);
    RoomWithMore(t, rule, m, objects0, objects2);
    assert ok ==> t2 == AfterRestore(t1, later, back, objects2);
    assert ok <==> NothingInTheWay(t1, later, back);
    assert Recordings(t, rule, hash, objects2, m, back);
    hide Recording, RecordsTree, Includes, AfterRestore, Restored, WorkingTree, Closed, HoldsContents, ContentsStored,
      VisiblePaths, Recordings;
    BackAgain(t, rule, later, hash, objects2, m, back, t1);
  }

  lemma RoomWithMore(t: Tree, rule: Rule, m: Manifest, objects: Objects, objects': Objects)
    requires ContentsStored(m, objects) && Includes(objects', objects)
    ensures HasRoom(t, rule, m, objects') <==> HasRoom(t, rule, m, objects)
  {
    TreeOfMore(m, objects, objects');
  }
}
