// Comparing two manifests.
module Changes {
  import opened Wrappers
  import opened Paths
  import opened Project
  import opened Manifest
  import opened Scan
  import opened MergePlan

  datatype ChangedEntry = ChangedEntry(before: Entry, after: Entry)

  datatype Changes = Changes(added: seq<Entry>, removed: seq<Entry>, changed: seq<ChangedEntry>)

  predicate Empty(changes: Changes) {
    |changes.added| + |changes.removed| + |changes.changed| == 0
  }

  predicate ChangeByPath(left: ChangedEntry, right: ChangedEntry) {
    !Less(right.after.path, left.after.path)
  }

  lemma ChangeByPathIsTotal()
    ensures TotalOrder(ChangeByPath)
  {
    forall x: ChangedEntry, y: ChangedEntry, z: ChangedEntry
      ensures ChangeByPath(x, y) || ChangeByPath(y, x)
      ensures ChangeByPath(x, y) && ChangeByPath(y, z) ==> ChangeByPath(x, z)
    {
      NotLess(x.after.path, y.after.path, z.after.path);
    }
  }

  // The changes list the differences of the two manifests, in order.
  ghost predicate Differences(previous: Manifest, current: Manifest, changes: Changes) {
    && Missing(previous, current, changes.added) && Missing(current, previous, changes.removed)
    && Differing(previous, current, changes.changed)
    && InOrder(changes.added) && InOrder(changes.removed)
    && InOrder(seq(|changes.changed|, i requires 0 <= i < |changes.changed| => changes.changed[i].after))
  }

  ghost predicate InOrder(entries: seq<Entry>) {
    forall i, j :: 0 <= i < j < |entries| ==> !Less(entries[j].path, entries[i].path)
  }

  function PathOf(entry: Entry): Path {
    entry.path
  }

  function PathOfChange(change: ChangedEntry): Path {
    change.after.path
  }

  // These are the entries of a manifest at whose paths the other one has none,
  // each path once when it has one entry.
  ghost predicate Missing(other: Manifest, m: Manifest, found: seq<Entry>) {
    && (forall e :: e in found <==> e in m && At(other, e.path).None?)
    && (UniquePaths(m) ==> UniqueKeys(PathOf, found))
  }

  // These are the pairs of different entries at one path.
  ghost predicate Differing(previous: Manifest, m: Manifest, found: seq<ChangedEntry>) {
    && (forall c :: c in found <==>
          c.after in m && At(previous, c.after.path) == Some(c.before) && !SameSignature(Some(c.before), Some(c.after)))
    && (UniquePaths(m) ==> UniqueKeys(PathOfChange, found))
  }

  method Compare(previous: Manifest, current: Manifest) returns (changes: Changes)
    ensures Differences(previous, current, changes)
  {
    hide SameSignature, Less, Missing, Differing;
    var before, after := Index(previous), Index(current);
    var added: seq<Entry>, removed: seq<Entry>, changed: seq<ChangedEntry> := [], [], [];
    NothingSeen(previous);
    NothingSeen(current);
    for index := 0 to |current|
      invariant Missing(previous, current[..index], added) && Differing(previous, current[..index], changed)
    {
      var entry := current[index];
      assert current[..index + 1] == current[..index] + [entry];
      MissingGrows(previous, current[..index], entry, added);
      DifferingGrows(previous, current[..index], entry, changed);
      if entry.path !in before {
        added := added + [entry];
      } else if !SameSignature(Some(before[entry.path]), Some(entry)) {
        changed := changed + [ChangedEntry(before[entry.path], entry)];
      }
    }
    assert current[..|current|] == current;
    for index := 0 to |previous|
      invariant Missing(current, previous[..index], removed)
    {
      var entry := previous[index];
      assert previous[..index + 1] == previous[..index] + [entry];
      MissingGrows(current, previous[..index], entry, removed);
      if entry.path !in after {
        removed := removed + [entry];
      }
    }
    assert previous[..|previous|] == previous;
    changes := Changes(Sort(EntryByPath, added), Sort(EntryByPath, removed), Sort(ChangeByPath, changed));
    EntryByPathIsTotal();
    ChangeByPathIsTotal();
    SortKeeps(EntryByPath, added, PathOf);
    SortKeeps(EntryByPath, removed, PathOf);
    SortKeeps(ChangeByPath, changed, PathOfChange);
    SameFound(previous, current, added, changes.added, changed, changes.changed);
    SameFound(current, previous, removed, changes.removed, [], []);
  }

  lemma NothingSeen(other: Manifest)
    ensures forall m: Manifest :: Missing(other, m[..0], []) && Differing(other, m[..0], [])
  {
  }

  lemma FrontIsUnique(front: Manifest, entry: Entry)
    requires UniquePaths(front + [entry])
    ensures UniquePaths(front) && forall e :: e in front ==> e.path != entry.path
  {
    var all := front + [entry];
    assert all[|front|] == entry && forall k :: 0 <= k < |front| ==> all[k] == front[k];
  }

  lemma MissingGrows(other: Manifest, front: Manifest, entry: Entry, found: seq<Entry>)
    requires Missing(other, front, found)
    ensures Missing(other, front + [entry], if entry.path !in Index(other) then found + [entry] else found)
  {
    if UniquePaths(front + [entry]) {
      FrontIsUnique(front, entry);
    }
    hide UniquePaths, Index;
    assert forall i :: 0 <= i < |found| ==> found[i] in found;
  }

  lemma DifferingGrows(previous: Manifest, front: Manifest, entry: Entry, found: seq<ChangedEntry>)
    requires Differing(previous, front, found)
    ensures entry.path in Index(previous) && !SameSignature(Some(Index(previous)[entry.path]), Some(entry)) ==>
      Differing(previous, front + [entry], found + [ChangedEntry(Index(previous)[entry.path], entry)])
    ensures entry.path in Index(previous) ==> SameSignature(Some(Index(previous)[entry.path]), Some(entry)) ==>
      Differing(previous, front + [entry], found)
    ensures entry.path !in Index(previous) ==> Differing(previous, front + [entry], found)
  {
    if UniquePaths(front + [entry]) {
      FrontIsUnique(front, entry);
    }
    hide UniquePaths, Index, SameSignature;
    assert forall i :: 0 <= i < |found| ==> found[i] in found;
  }

  lemma SameFound(other: Manifest, m: Manifest, found: seq<Entry>, sorted: seq<Entry>,
                  changed: seq<ChangedEntry>, sortedChanges: seq<ChangedEntry>)
    requires forall x :: x in sorted <==> x in found
    requires forall x :: x in sortedChanges <==> x in changed
    requires UniqueKeys(PathOf, found) ==> UniqueKeys(PathOf, sorted)
    requires UniqueKeys(PathOfChange, changed) ==> UniqueKeys(PathOfChange, sortedChanges)
    ensures Missing(other, m, found) ==> Missing(other, m, sorted)
    ensures Differing(other, m, changed) ==> Differing(other, m, sortedChanges)
  {
    hide SameSignature, UniqueKeys;
  }

  lemma SortKeeps<T(!new)>(before: (T, T) -> bool, s: seq<T>, key: T -> Path)
    requires TotalOrder(before)
    ensures SortedBy(before, Sort(before, s))
    ensures forall x :: x in Sort(before, s) <==> x in s
    ensures UniqueKeys(key, s) ==> UniqueKeys(key, Sort(before, s))
  {
    SortSorts(before, s);
    if UniqueKeys(key, s) {
      KeysStayUnique(key, s, Sort(before, s));
    }
    assert forall x :: x in s <==> x in multiset(s);
    assert forall x :: x in Sort(before, s) <==> x in multiset(Sort(before, s));
  }

  // There are no changes if and only if both manifests have the same entry at
  // every path.
  lemma EmptyIffSame(previous: Manifest, current: Manifest, changes: Changes)
    requires UniquePaths(previous) && UniquePaths(current) && Differences(previous, current, changes)
    ensures Empty(changes) <==> forall p :: SameSignature(At(previous, p), At(current, p))
  {
    if Empty(changes) {
      forall p
        ensures SameSignature(At(previous, p), At(current, p))
      {
        IndexHolds(previous, p);
        IndexHolds(current, p);
        assert p in Index(current) ==> Index(current)[p] !in changes.added;
        assert p in Index(previous) ==> Index(previous)[p] !in changes.removed;
        assert p in Index(previous) && p in Index(current) ==>
          ChangedEntry(Index(previous)[p], Index(current)[p]) !in changes.changed;
      }
    } else if forall p :: SameSignature(At(previous, p), At(current, p)) {
      NoneDiffers(previous, current, changes);
    }
  }

  lemma NoneDiffers(previous: Manifest, current: Manifest, changes: Changes)
    requires UniquePaths(previous) && UniquePaths(current) && Differences(previous, current, changes)
    requires forall p :: SameSignature(At(previous, p), At(current, p))
    ensures changes.added == [] && changes.removed == [] && changes.changed == []
  {
    forall e | e in current
      ensures At(current, e.path) == Some(e)
    {
      var i :| 0 <= i < |current| && current[i] == e;
      IndexOfUnique(current, i);
    }
    forall e | e in previous
      ensures At(previous, e.path) == Some(e)
    {
      var i :| 0 <= i < |previous| && previous[i] == e;
      IndexOfUnique(previous, i);
    }
    FirstIsIn(changes.added);
    FirstIsIn(changes.removed);
    FirstIsIn(changes.changed);
    assert forall e: Entry :: SameSignature(At(previous, e.path), At(current, e.path));
    assert forall e :: e !in changes.added;
    assert forall e :: e !in changes.removed;
    assert forall c :: c in changes.changed ==> SameSignature(At(previous, c.after.path), At(current, c.after.path));
    assert forall c :: c !in changes.changed;
  }

  lemma FirstIsIn<T>(s: seq<T>)
    ensures s == [] || s[0] in s
  {
  }
}
