// Manifests: the recorded entries of a tree, and the tree that they describe.
module Manifest {
  import opened Paths
  import opened Tree
  import opened Project

  type Manifest = seq<Entry>

  type Objects = map<string, Content>

  // The entry of each path. A later entry of the same path replaces an earlier one.
  function Index(m: Manifest): map<Path, Entry> {
    if m == [] then map[] else Index(m[..|m| - 1])[m[|m| - 1].path := m[|m| - 1]]
  }

  lemma {:induction false} IndexHolds(m: Manifest, p: Path)
    ensures p in Index(m) <==> exists i :: 0 <= i < |m| && m[i].path == p
    ensures p in Index(m) ==> Index(m)[p] in m && Index(m)[p].path == p
    decreases m
  {
    if m != [] {
      var front := m[..|m| - 1];
      IndexHolds(front, p);
      if p in Index(front) {
        var i :| 0 <= i < |front| && front[i].path == p;
        assert m[i].path == p;
      }
      if m[|m| - 1].path != p && exists i :: 0 <= i < |m| && m[i].path == p {
        var i :| 0 <= i < |m| && m[i].path == p;
        assert front[i].path == p;
      }
    }
  }

  // The entry of a path is its last one.
  lemma {:induction false} IndexIsLast(m: Manifest, i: nat)
    requires i < |m| && forall j :: i < j < |m| ==> m[j].path != m[i].path
    ensures m[i].path in Index(m) && Index(m)[m[i].path] == m[i]
    decreases m
  {
    if i < |m| - 1 {
      IndexIsLast(m[..|m| - 1], i);
    }
  }

  ghost predicate UniquePaths(m: Manifest) {
    forall i, j :: 0 <= i < j < |m| ==> m[i].path != m[j].path
  }

  ghost function PathSet(m: Manifest): set<Path> {
    set i | 0 <= i < |m| :: m[i].path
  }

  lemma IndexOfUnique(m: Manifest, i: nat)
    requires UniquePaths(m) && i < |m|
    ensures m[i].path in Index(m) && Index(m)[m[i].path] == m[i]
  {
    IndexIsLast(m, i);
  }

  lemma IndexKeys(m: Manifest)
    ensures Index(m).Keys == PathSet(m)
  {
    forall p {
      IndexHolds(m, p);
    }
  }

  function ContentOf(entry: Entry, objects: Objects): Content {
    if entry.kind.KindDirectory? || entry.digest !in objects then "" else objects[entry.digest]
  }

  // The tree that a manifest records.
  function TreeOf(m: Manifest, objects: Objects): Tree {
    map p | p in Index(m) :: NodeOf(Index(m)[p], ContentOf(Index(m)[p], objects))
  }

  // Every directory on the way to a recorded path is recorded as a directory.
  ghost predicate ClosedManifest(m: Manifest) {
    forall a, i :: 0 <= i < |m| && Ancestor(a, m[i].path) ==> a in Index(m) && Index(m)[a].kind.KindDirectory?
  }

  ghost predicate ContentsStored(m: Manifest, objects: Objects) {
    forall i :: 0 <= i < |m| && !m[i].kind.KindDirectory? ==> m[i].digest in objects
  }

  lemma {:induction false} IndexOfPermutation(m: Manifest, n: Manifest)
    requires UniquePaths(m) && multiset(m) == multiset(n)
    ensures UniquePaths(n) && Index(n) == Index(m) && |n| == |m|
  {
    assert |multiset(m)| == |m| && |multiset(n)| == |n|;
    UniqueByCount(m, n);
    forall p
      ensures p in Index(m) <==> p in Index(n)
      ensures p in Index(m) ==> Index(n)[p] == Index(m)[p]
    {
      IndexHolds(m, p);
      IndexHolds(n, p);
      if p in Index(m) {
        var e := Index(m)[p];
        assert e in multiset(n);
        var i :| 0 <= i < |n| && n[i] == e;
        IndexOfUnique(n, i);
      }
      if p in Index(n) {
        var e := Index(n)[p];
        assert e in multiset(m);
        var i :| 0 <= i < |m| && m[i] == e;
      }
    }
  }

  lemma UniqueByCount(m: Manifest, n: Manifest)
    requires UniquePaths(m) && multiset(m) == multiset(n)
    ensures UniquePaths(n)
  {
    var key := (e: Entry) => e.path;
    assert UniqueKeys(key, m);
    KeysStayUnique(key, m, n);
    forall i, j | 0 <= i < j < |n|
      ensures n[i].path != n[j].path
    {
      assert key(n[i]) != key(n[j]);
    }
  }

  lemma SameElements(m: Manifest, n: Manifest)
    requires multiset(m) == multiset(n)
    ensures forall e :: e in m <==> e in n
    ensures PathSet(n) == PathSet(m)
  {
    assert forall e :: e in m <==> e in multiset(m);
    assert forall e :: e in n <==> e in multiset(n);
    forall i | 0 <= i < |m|
      ensures m[i].path in PathSet(n)
    {
      assert m[i] in n;
    }
    forall i | 0 <= i < |n|
      ensures n[i].path in PathSet(m)
    {
      assert n[i] in m;
    }
  }
}
