// Slash-separated paths, their order, and sorting.
module Paths {
  type Path = string

  // Byte order of two texts.
  predicate Less(p: string, q: string) {
    if q == "" then false
    else if p == "" then true
    else if p[0] == q[0] then Less(p[1..], q[1..])
    else p[0] < q[0]
  }

  lemma {:induction false} LessIsTotal(p: string, q: string)
    ensures Less(p, q) || p == q || Less(q, p)
    ensures !(Less(p, q) && Less(q, p)) && (p == q ==> !Less(p, q))
    decreases p
  {
    if p != "" && q != "" && p[0] == q[0] {
      LessIsTotal(p[1..], q[1..]);
      assert p == [p[0]] + p[1..] && q == [q[0]] + q[1..];
    }
  }

  lemma {:induction false} LessIsTransitive(p: string, q: string, r: string)
    requires Less(p, q) && Less(q, r)
    ensures Less(p, r)
    decreases p
  {
    if p != "" && p[0] == q[0] == r[0] {
      LessIsTransitive(p[1..], q[1..], r[1..]);
    }
  }

  lemma NotLess(x: Path, y: Path, z: Path)
    ensures !Less(x, y) || !Less(y, x)
    ensures !Less(y, x) && !Less(z, y) ==> !Less(z, x)
  {
    LessIsTotal(x, y);
    LessIsTotal(y, z);
    LessIsTotal(x, z);
    if Less(z, x) {
      if Less(x, y) {
        LessIsTransitive(z, x, y);
      }
    }
  }

  // A directory on the way from the project to the path.
  predicate Ancestor(a: Path, p: Path) {
    0 < |a| < |p| && p[..|a|] == a && p[|a|] == '/'
  }

  // The path lies below another one when a slash follows that one.
  lemma AncestorMeans(a: Path, p: Path)
    ensures Ancestor(a, p) <==> a != "" && exists b :: p == a + "/" + b
  {
    if Ancestor(a, p) {
      assert p == a + "/" + p[|a| + 1..];
    }
  }

  // One text comes before another at the first place where they differ, or where
  // the first one ends.
  lemma {:induction false} LessMeans(p: string, q: string)
    ensures Less(p, q) <==> exists k :: 0 <= k < |q| && DiffersAt(p, q, k)
    decreases p
  {
    if p != "" && q != "" && p[0] == q[0] {
      LessMeans(p[1..], q[1..]);
      assert p == [p[0]] + p[1..] && q == [p[0]] + q[1..];
      if k :| 0 <= k < |q[1..]| && DiffersAt(p[1..], q[1..], k) {
        assert p[..k + 1] == [p[0]] + p[1..][..k] && q[..k + 1] == [p[0]] + q[1..][..k];
        assert DiffersAt(p, q, k + 1);
      }
      if k :| 0 <= k < |q| && DiffersAt(p, q, k) {
        assert p[1..][..k - 1] == p[..k][1..] && q[1..][..k - 1] == q[..k][1..];
        assert DiffersAt(p[1..], q[1..], k - 1);
      }
    } else if q != "" && (p == "" || p[0] < q[0]) {
      assert DiffersAt(p, q, 0);
    }
  }

  // The texts agree before this place, and then the first one ends or has the
  // smaller character.
  ghost predicate DiffersAt(p: string, q: string, k: int) {
    0 <= k <= |p| && k < |q| && p[..k] == q[..k] && (k == |p| || p[k] < q[k])
  }

  function Ancestors(p: Path): (r: set<Path>)
    ensures forall a :: a in r <==> Ancestor(a, p)
  {
    var r := set i | 0 < i < |p| && p[i] == '/' :: p[..i];
    assert forall a :: Ancestor(a, p) ==> a in r by {
      forall a | Ancestor(a, p)
        ensures a in r
      {
        assert p[..|a|] in r;
      }
    }
    r
  }

  lemma AncestorIsTransitive(a: Path, b: Path, p: Path)
    requires Ancestor(a, b) && Ancestor(b, p)
    ensures Ancestor(a, p)
  {
    assert p[..|b|][..|a|] == p[..|a|] && p[..|b|][|a|] == p[|a|];
  }

  lemma {:induction false} PrefixIsLess(p: string, q: string)
    requires |p| < |q| && q[..|p|] == p
    ensures Less(p, q)
    decreases p
  {
    if p != "" {
      assert p[0] == q[..|p|][0] && q[..|p|][1..] == q[1..][..|p| - 1];
      PrefixIsLess(p[1..], q[1..]);
    }
  }

  // Every path comes after the directories it lies in.
  lemma AncestorIsLess(a: Path, p: Path)
    requires Ancestor(a, p)
    ensures Less(a, p)
  {
    PrefixIsLess(a, p);
  }

  ghost predicate TotalOrder<T(!new)>(before: (T, T) -> bool) {
    && (forall x, y :: before(x, y) || before(y, x))
    && (forall x, y, z :: before(x, y) && before(y, z) ==> before(x, z))
  }

  ghost predicate SortedBy<T>(before: (T, T) -> bool, s: seq<T>) {
    forall i, j :: 0 <= i < j < |s| ==> before(s[i], s[j])
  }

  function Place<T>(before: (T, T) -> bool, x: T, s: seq<T>): seq<T> {
    if s == [] || before(x, s[0]) then [x] + s else [s[0]] + Place(before, x, s[1..])
  }

  // Sorting, as the library that the program calls promises it.
  function Sort<T>(before: (T, T) -> bool, s: seq<T>): seq<T> {
    if s == [] then [] else Place(before, s[0], Sort(before, s[1..]))
  }

  lemma {:induction false} PlaceAdds<T>(before: (T, T) -> bool, x: T, s: seq<T>)
    ensures multiset(Place(before, x, s)) == multiset(s) + multiset{x}
    decreases s
  {
    if s == [] || before(x, s[0]) {
    } else {
      PlaceAdds(before, x, s[1..]);
      assert s == [s[0]] + s[1..];
    }
  }

  lemma {:induction false} PlaceSorts<T(!new)>(before: (T, T) -> bool, x: T, s: seq<T>)
    requires TotalOrder(before) && SortedBy(before, s)
    ensures SortedBy(before, Place(before, x, s))
    decreases s
  {
    if s == [] || before(x, s[0]) {
    } else {
      PlaceSorts(before, x, s[1..]);
      var rest := Place(before, x, s[1..]);
      PlaceAdds(before, x, s[1..]);
      assert Place(before, x, s) == [s[0]] + rest;
      hide Place;
      forall i | 0 <= i < |rest|
        ensures before(s[0], rest[i])
      {
        assert rest[i] in multiset(rest);
        assert rest[i] in multiset(s[1..]) || rest[i] == x;
        assert rest[i] in s[1..] ==> before(s[0], rest[i]);
      }
    }
  }

  lemma {:induction false} SortSorts<T(!new)>(before: (T, T) -> bool, s: seq<T>)
    requires TotalOrder(before)
    ensures SortedBy(before, Sort(before, s))
    ensures multiset(Sort(before, s)) == multiset(s)
    decreases s
  {
    if s != [] {
      SortSorts(before, s[1..]);
      PlaceSorts(before, s[0], Sort(before, s[1..]));
      PlaceAdds(before, s[0], Sort(before, s[1..]));
      assert s == [s[0]] + s[1..];
    }
  }

  predicate PathBefore(left: Path, right: Path) {
    !Less(right, left)
  }

  ghost predicate Ascending(paths: seq<Path>) {
    forall i, j :: 0 <= i < j < |paths| ==> Less(paths[i], paths[j])
  }

  lemma PathBeforeIsTotal()
    ensures TotalOrder(PathBefore)
  {
    forall x: Path, y: Path, z: Path
      ensures PathBefore(x, y) || PathBefore(y, x)
      ensures PathBefore(x, y) && PathBefore(y, z) ==> PathBefore(x, z)
    {
      NotLess(x, y, z);
    }
  }

  // Sorting different paths puts them in strict order.
  lemma SortedIsAscending(found: seq<Path>)
    requires forall i, j :: 0 <= i < j < |found| ==> found[i] != found[j]
    ensures Ascending(Sort(PathBefore, found))
    ensures forall p :: p in Sort(PathBefore, found) <==> p in found
  {
    PathBeforeIsTotal();
    SortSorts(PathBefore, found);
    StrictlySorted(found, Sort(PathBefore, found));
  }

  lemma StrictlySorted(found: seq<Path>, sorted: seq<Path>)
    requires SortedBy(PathBefore, sorted) && multiset(found) == multiset(sorted)
    requires forall i, j :: 0 <= i < j < |found| ==> found[i] != found[j]
    ensures Ascending(sorted) && forall p :: p in sorted <==> p in found
  {
    assert forall p :: p in found <==> p in multiset(found);
    assert forall p :: p in sorted <==> p in multiset(sorted);
    forall i, j | 0 <= i < j < |sorted|
      ensures Less(sorted[i], sorted[j])
    {
      assert PathBefore(sorted[i], sorted[j]);
      LessIsTotal(sorted[i], sorted[j]);
      if sorted[i] == sorted[j] {
        Twice(sorted, i, j);
        Once(found, sorted[i]);
      }
    }
  }

  lemma Twice<T>(s: seq<T>, i: nat, j: nat)
    requires i < j < |s| && s[i] == s[j]
    ensures multiset(s)[s[i]] >= 2
  {
    assert s == s[..j] + [s[j]] + s[j + 1..];
    assert s[..j][i] == s[i] && s[i] in multiset(s[..j]);
  }

  lemma Once<T>(s: seq<T>, p: T)
    requires forall i, j :: 0 <= i < j < |s| ==> s[i] != s[j]
    ensures multiset(s)[p] <= 1
  {
    if p in s {
      var k :| 0 <= k < |s| && s[k] == p;
      assert s == s[..k] + [s[k]] + s[k + 1..];
      assert p !in s[..k] && p !in s[k + 1..];
    }
  }

  ghost predicate UniqueKeys<T>(key: T -> Path, s: seq<T>) {
    forall i, j :: 0 <= i < j < |s| ==> key(s[i]) != key(s[j])
  }

  // Another order keeps keys unique.
  lemma KeysStayUnique<T>(key: T -> Path, s: seq<T>, t: seq<T>)
    requires UniqueKeys(key, s) && multiset(s) == multiset(t)
    ensures UniqueKeys(key, t)
  {
    forall i, j | 0 <= i < j < |t|
      ensures key(t[i]) != key(t[j])
    {
      assert t[i] in multiset(s) && t[j] in multiset(s);
      var k :| 0 <= k < |s| && s[k] == t[i];
      var l :| 0 <= l < |s| && s[l] == t[j];
      if t[i] == t[j] {
        Twice(t, i, j);
        Once(s, s[k]);
      }
    }
  }
}
