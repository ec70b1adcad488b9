// Scanning: the walk that records all nodes of a tree but the left out ones.
module Scan {
  import opened Paths
  import opened Tree
  import opened Project
  import opened Manifest

  // Whether a path is left out, given whether it is a directory.
  type Rule = (Path, bool) -> bool

  type Hash = Content -> string

  const MAXIMUM_ENTRIES: nat := 100000

  const MAXIMUM_BYTES: nat := 2 * 1024 * 1024 * 1024

  predicate HasBreak(name: string) {
    '\n' in name || '\r' in name
  }

  // The walk leaves the path itself out.
  ghost predicate Hidden(t: Tree, rule: Rule, p: Path) {
    rule(p, p in t && t[p].Dir?) || HasBreak(p)
  }

  ghost predicate OnTheWay(a: Path, p: Path) {
    a == p || Ancestor(a, p)
  }

  // The walk records the path: neither it nor a directory above is left out.
  ghost predicate Visible(t: Tree, rule: Rule, p: Path) {
    p in t && forall a :: OnTheWay(a, p) ==> !Hidden(t, rule, a)
  }

  function EntryOf(p: Path, node: Node, hash: Hash): Entry {
    match node
    case Dir => Entry(KindDirectory, 0, "", p)
    case File(content, mode) => Entry(KindFile, mode, hash(content), p)
    case Link(target) => Entry(KindLink, 0, hash(target), p)
  }

  ghost predicate EntriesOf(t: Tree, hash: Hash, m: Manifest) {
    forall i :: 0 <= i < |m| ==> m[i].path in t && m[i] == EntryOf(m[i].path, t[m[i].path], hash)
  }

  ghost predicate SortedManifest(m: Manifest) {
    forall i, j :: 0 <= i < j < |m| ==> Less(m[i].path, m[j].path)
  }

  // The manifest lists exactly the visible nodes, in order of their paths.
  ghost predicate IsScan(t: Tree, rule: Rule, hash: Hash, m: Manifest) {
    && UniquePaths(m) && SortedManifest(m) && EntriesOf(t, hash, m)
    && forall p :: p in PathSet(m) <==> Visible(t, rule, p)
  }

  // The paths below a directory; the project itself is the empty path.
  predicate Under(directory: Path, p: Path) {
    if directory == "" then p != "" else Ancestor(directory, p)
  }

  ghost function Below(t: Tree, directory: Path): set<Path> {
    set p | p in t && Under(directory, p)
  }

  function NameIn(directory: Path, p: Path): string
    requires Under(directory, p)
  {
    if directory == "" then p else p[|directory| + 1..]
  }

  predicate IsChild(directory: Path, p: Path) {
    Under(directory, p) && '/' !in NameIn(directory, p)
  }

  // The visible paths below a directory, seen from that directory.
  ghost function VisibleBelow(t: Tree, rule: Rule, directory: Path): set<Path> {
    set p | p in Below(t, directory) && forall a :: Under(directory, a) && OnTheWay(a, p) ==> !Hidden(t, rule, a)
  }

  ghost predicate ProperPaths(t: Tree) {
    forall p :: p in t ==> p != "" && p[0] != '/'
  }

  function FirstSlash(s: string): (i: nat)
    ensures i <= |s| && '/' !in s[..i] && (i < |s| ==> s[i] == '/')
  {
    if s == "" || s[0] == '/' then 0
    else
      var rest := FirstSlash(s[1..]);
      assert s[..rest + 1] == [s[0]] + s[1..][..rest];
      rest + 1
  }

  // The child of a directory that a path lies in.
  function ChildOnTheWay(directory: Path, p: Path): (c: Path)
    requires Under(directory, p)
    ensures |c| <= |p| && c == p[..|c|]
  {
    var start := if directory == "" then 0 else |directory| + 1;
    p[..start + FirstSlash(NameIn(directory, p))]
  }

  lemma ChildIsOnTheWay(t: Tree, directory: Path, p: Path)
    requires Closed(t) && ProperPaths(t) && p in Below(t, directory)
    ensures var c := ChildOnTheWay(directory, p);
            c in t && OnTheWay(c, p) && Under(directory, c) && IsChild(directory, c)
  {
    var c := ChildOnTheWay(directory, p);
    var start := if directory == "" then 0 else |directory| + 1;
    var i := FirstSlash(NameIn(directory, p));
    assert |c| == start + i;
    if i < |NameIn(directory, p)| {
      assert p[|c|] == '/';
    } else {
      assert c == p;
    }
  }

  lemma ChildIsUnique(directory: Path, c: Path, p: Path)
    requires IsChild(directory, c) && OnTheWay(c, p) && Under(directory, p)
    ensures ChildOnTheWay(directory, p) == c
  {
    var d := ChildOnTheWay(directory, p);
    var start := if directory == "" then 0 else |directory| + 1;
    var name := NameIn(directory, p);
    var i := FirstSlash(name);
    assert p[start..] == name && c[start..][..|c| - start] == NameIn(directory, c);
    NoSlashUpTo(p, start, start + i);
    NoSlashUpTo(c, start, |c|);
    assert c == p[..|c|];
    assert forall j :: start <= j < |c| ==> p[j] == c[j];
  }

  lemma NoSlashUpTo(p: Path, start: nat, end: nat)
    requires start <= end <= |p| && '/' !in p[start..][..end - start]
    ensures forall j :: start <= j < end ==> p[j] != '/'
  {
    forall j | start <= j < end
      ensures p[j] != '/'
    {
      assert p[start..][..end - start][j - start] == p[j];
    }
  }

  // What lies below a directory lies in one of its children.
  lemma UnderChild(directory: Path, c: Path, p: Path)
    requires IsChild(directory, c) && c != "" && (c == p || Ancestor(c, p))
    ensures Under(directory, p)
  {
    if directory != "" && c != p {
      AncestorIsTransitive(directory, c, p);
    }
  }

  // The part of the visible paths that lies in one child.
  ghost function VisibleIn(t: Tree, rule: Rule, directory: Path, c: Path): set<Path> {
    set p | p in VisibleBelow(t, rule, directory) && OnTheWay(c, p)
  }

  lemma VisibleInChild(t: Tree, rule: Rule, directory: Path, c: Path)
    requires Closed(t) && c in t && c != "" && IsChild(directory, c)
    ensures VisibleIn(t, rule, directory, c) ==
      if Hidden(t, rule, c) then {}
      else if t[c].Dir? then {c} + VisibleBelow(t, rule, c)
      else {c}
  {
    forall p
      ensures p in VisibleIn(t, rule, directory, c) <==>
        !Hidden(t, rule, c) && (p == c || (t[c].Dir? && p in VisibleBelow(t, rule, c)))
    {
      if OnTheWay(c, p) && p in t {
        InChild(t, rule, directory, c, p);
      }
    }
  }

  lemma InChild(t: Tree, rule: Rule, directory: Path, c: Path, p: Path)
    requires Closed(t) && c in t && c != "" && IsChild(directory, c) && OnTheWay(c, p) && p in t
    ensures p in VisibleBelow(t, rule, directory) <==>
      !Hidden(t, rule, c) && (p == c || (t[c].Dir? && p in VisibleBelow(t, rule, c)))
  {
    UnderChild(directory, c, p);
    forall a
      ensures Under(directory, a) && OnTheWay(a, p) <==> OnTheWay(a, p) && (a == c || Ancestor(c, a))
    {
      if Under(directory, a) && OnTheWay(a, p) {
        OnlyChildBefore(directory, c, a, p);
      }
      if Ancestor(c, a) {
        UnderChild(directory, c, a);
      }
    }
    hide Hidden;
    assert c in t && p in Below(t, directory) && (p != c ==> p in Below(t, c));
    assert p in VisibleBelow(t, rule, directory) <==>
           forall a :: OnTheWay(a, p) && (a == c || Ancestor(c, a)) ==> !Hidden(t, rule, a);
  }

  // On the way from a directory to a path, its child comes first.
  lemma OnlyChildBefore(directory: Path, c: Path, a: Path, p: Path)
    requires IsChild(directory, c) && c != "" && OnTheWay(c, p) && OnTheWay(a, p) && Under(directory, a)
    ensures a == c || Ancestor(c, a)
  {
    var start := if directory == "" then 0 else |directory| + 1;
    assert c[start..][..|c| - start] == NameIn(directory, c);
    NoSlashUpTo(c, start, |c|);
    assert a == p[..|a|] && c == p[..|c|];
    assert forall j :: 0 <= j < |c| ==> p[j] == c[j];
    if |c| < |a| {
      assert a[..|c|] == c && a[|c|] == p[|c|];
    }
  }

  lemma BelowShrinks(t: Tree, directory: Path, c: Path)
    requires c in t && IsChild(directory, c) && c != ""
    ensures Below(t, c) < Below(t, directory)
  {
    assert c in Below(t, directory) && c !in Below(t, c);
    forall p | p in Below(t, c)
      ensures p in Below(t, directory)
    {
      UnderChild(directory, c, p);
    }
  }

  lemma PathSetAppend(m: Manifest, entry: Entry)
    ensures PathSet(m + [entry]) == PathSet(m) + {entry.path}
  {
    var n := m + [entry];
    assert n[|m|] == entry;
    forall p
      ensures p in PathSet(n) <==> p in PathSet(m) + {entry.path}
    {
      if p in PathSet(m) {
        var i :| 0 <= i < |m| && m[i].path == p;
        assert n[i].path == p;
      }
    }
  }

  // The bytes that a scan has to read for a path.
  function SizeAt(t: Tree, p: Path): nat {
    if p in t && t[p].File? then |t[p].content| else 0
  }

  ghost function BytesOf(t: Tree, paths: set<Path>): nat {
    if paths == {} then 0
    else
      var p :| p in paths;
      SizeAt(t, p) + BytesOf(t, paths - {p})
  }

  // The bytes of some paths do not depend on the order of counting.
  lemma {:induction false} BytesWithout(t: Tree, paths: set<Path>, p: Path)
    requires p in paths
    ensures BytesOf(t, paths) == SizeAt(t, p) + BytesOf(t, paths - {p})
    decreases paths
  {
    var q :| q in paths && BytesOf(t, paths) == SizeAt(t, q) + BytesOf(t, paths - {q});
    if q != p {
      BytesWithout(t, paths - {q}, p);
      BytesWithout(t, paths - {p}, q);
      assert paths - {q} - {p} == paths - {p} - {q};
    }
  }

  lemma {:induction false} BytesGrow(t: Tree, few: set<Path>, many: set<Path>)
    requires few <= many
    ensures BytesOf(t, few) <= BytesOf(t, many) && |few| <= |many|
    decreases many
  {
    if p :| p in many {
      BytesWithout(t, many, p);
      if p in few {
        BytesWithout(t, few, p);
      }
      BytesGrow(t, few - {p}, many - {p});
      assert p !in few ==> few - {p} == few;
    }
  }

  // A scan accepts these paths: they are not too many and not too large.
  ghost predicate Fits(t: Tree, paths: set<Path>) {
    |paths| <= MAXIMUM_ENTRIES && BytesOf(t, paths) <= MAXIMUM_BYTES
  }

  // What a walk has recorded: some paths, each once and as it is in the tree.
  ghost predicate Recorded(t: Tree, hash: Hash, m: Manifest, bytes: nat, paths: set<Path>) {
    && UniquePaths(m) && EntriesOf(t, hash, m) && PathSet(m) == paths
    && |m| == |paths| && bytes == BytesOf(t, paths)
  }

  lemma RecordedGrows(t: Tree, hash: Hash, m: Manifest, bytes: nat, paths: set<Path>, p: Path)
    requires Recorded(t, hash, m, bytes, paths) && p in t && p !in paths
    ensures Recorded(t, hash, m + [EntryOf(p, t[p], hash)], bytes + SizeAt(t, p), paths + {p})
  {
    PathSetAppend(m, EntryOf(p, t[p], hash));
    BytesWithout(t, paths + {p}, p);
    assert paths + {p} - {p} == paths;
    forall i | 0 <= i < |m|
      ensures m[i].path != p
    {
      assert m[i].path in PathSet(m);
    }
  }

  function Children(t: Tree, directory: Path): set<Path> {
    set p | p in t && IsChild(directory, p)
  }

  // What the walk of a directory has recorded when these children remain.
  ghost function VisibleBefore(t: Tree, rule: Rule, directory: Path, rest: set<Path>): set<Path> {
    set p | p in VisibleBelow(t, rule, directory) && ChildOnTheWay(directory, p) !in rest
  }

  lemma ChildAddsItsPart(t: Tree, rule: Rule, directory: Path, rest: set<Path>, c: Path)
    requires Closed(t) && ProperPaths(t) && c in rest && rest <= Children(t, directory)
    ensures VisibleBefore(t, rule, directory, rest - {c})
         == VisibleBefore(t, rule, directory, rest) + VisibleIn(t, rule, directory, c)
    ensures VisibleBefore(t, rule, directory, rest) !! VisibleIn(t, rule, directory, c)
  {
    forall p | p in VisibleBelow(t, rule, directory)
      ensures OnTheWay(c, p) <==> ChildOnTheWay(directory, p) == c
    {
      ChildIsOnTheWay(t, directory, p);
      if OnTheWay(c, p) {
        ChildIsUnique(directory, c, p);
      }
    }
  }

  lemma AllChildrenOrNone(t: Tree, rule: Rule, directory: Path)
    requires Closed(t) && ProperPaths(t)
    ensures VisibleBefore(t, rule, directory, {}) == VisibleBelow(t, rule, directory)
    ensures VisibleBefore(t, rule, directory, Children(t, directory)) == {}
  {
    forall p | p in VisibleBelow(t, rule, directory)
      ensures ChildOnTheWay(directory, p) in Children(t, directory)
    {
      ChildIsOnTheWay(t, directory, p);
    }
  }

  lemma NoBreaks(directory: Path, c: Path)
    requires Under(directory, c) && !HasBreak(directory)
    ensures HasBreak(c) <==> HasBreak(NameIn(directory, c))
  {
    var name := NameIn(directory, c);
    if directory != "" {
      assert c == directory + "/" + name;
    }
  }

  // What the walk records for one child of a directory.
  ghost function Part(t: Tree, rule: Rule, c: Path): set<Path>
    requires c in t
  {
    if Hidden(t, rule, c) then {} else if t[c].Dir? then {c} + VisibleBelow(t, rule, c) else {c}
  }

  // A child left in the walk, and what recording it adds.
  lemma NextChild(t: Tree, rule: Rule, directory: Path, rest: set<Path>, c: Path)
    requires Closed(t) && ProperPaths(t) && !HasBreak(directory) && c in rest && rest <= Children(t, directory)
    ensures c in t && Under(directory, c) && Below(t, c) < Below(t, directory)
    ensures Hidden(t, rule, c) <==> rule(c, t[c].Dir?) || HasBreak(NameIn(directory, c))
    ensures VisibleBefore(t, rule, directory, rest - {c}) == VisibleBefore(t, rule, directory, rest) + Part(t, rule, c)
    ensures VisibleBefore(t, rule, directory, rest) !! Part(t, rule, c)
    ensures VisibleBefore(t, rule, directory, rest - {c}) <= VisibleBelow(t, rule, directory)
  {
    ChildAddsItsPart(t, rule, directory, rest, c);
    VisibleInChild(t, rule, directory, c);
    BelowShrinks(t, directory, c);
    NoBreaks(directory, c);
  }

  // Records what is visible below a directory, child by child in some order.
  method Walk(t: Tree, rule: Rule, hash: Hash, directory: Path, entries: Manifest, totalBytes: nat,
              ghost base: set<Path>)
      returns (ok: bool, entries': Manifest, totalBytes': nat)
    requires Closed(t) && ProperPaths(t) && !HasBreak(directory)
    requires Recorded(t, hash, entries, totalBytes, base) && Fits(t, base)
    requires base !! VisibleBelow(t, rule, directory)
    ensures ok <==> Fits(t, base + VisibleBelow(t, rule, directory))
    ensures ok ==> Recorded(t, hash, entries', totalBytes', base + VisibleBelow(t, rule, directory))
    decreases Below(t, directory), 0
  {
    hide *;
    ok, entries', totalBytes' := true, entries, totalBytes;
    var rest := Children(t, directory);
    ghost var all := VisibleBelow(t, rule, directory);
    ghost var done := base;
    AllChildrenOrNone(t, rule, directory);
    NoneIsAdded(base, VisibleBefore(t, rule, directory, rest));
    while rest != {}
      invariant ok && rest <= Children(t, directory)
      invariant done == base + VisibleBefore(t, rule, directory, rest)
      invariant Recorded(t, hash, entries', totalBytes', done) && Fits(t, done)
      decreases |rest|
    {
      var child :| child in rest;
      NextChild(t, rule, directory, rest, child);
      ghost var part := Part(t, rule, child);
      PartIsHidden(t, rule, child);
      PartIsAdded(base, VisibleBefore(t, rule, directory, rest), part,
                  VisibleBefore(t, rule, directory, rest - {child}), all);
      rest := rest - {child};
      ghost var before := done;
      done := base + VisibleBefore(t, rule, directory, rest);
      if rule(child, t[child].Dir?) || HasBreak(NameIn(directory, child)) {
        NoneIsAdded(before, part);
        continue;
      }
      ok, entries', totalBytes' := Record(t, rule, hash, child, entries', totalBytes', before);
      if !ok {
        if Fits(t, base + all) {
          FitsFewer(t, done, base + all);
        }
        return;
      }
    }
  }

  lemma NoneIsAdded(base: set<Path>, none: set<Path>)
    ensures none == {} ==> base + none == base
  {
  }

  lemma PartIsAdded(base: set<Path>, before: set<Path>, part: set<Path>, after: set<Path>, all: set<Path>)
    requires after == before + part && before !! part && after <= all && base !! all
    ensures base + after == base + before + part && base + before !! part && base + after <= base + all
  {
  }

  lemma PartIsHidden(t: Tree, rule: Rule, c: Path)
    requires c in t
    ensures Hidden(t, rule, c) ==> Part(t, rule, c) == {}
    ensures !Hidden(t, rule, c) ==> !HasBreak(c)
    ensures !Hidden(t, rule, c) ==> Part(t, rule, c) == {c} + if t[c].Dir? then VisibleBelow(t, rule, c) else {}
    ensures c !in VisibleBelow(t, rule, c)
  {
  }

  lemma FitsFewer(t: Tree, few: set<Path>, many: set<Path>)
    requires few <= many && Fits(t, many)
    ensures Fits(t, few)
  {
    BytesGrow(t, few, many);
  }

  method Record(t: Tree, rule: Rule, hash: Hash, path: Path, entries: Manifest, totalBytes: nat, ghost base: set<Path>)
      returns (ok: bool, entries': Manifest, totalBytes': nat)
    requires Closed(t) && ProperPaths(t) && path in t && !Hidden(t, rule, path)
    requires Recorded(t, hash, entries, totalBytes, base) && Fits(t, base) && base !! Part(t, rule, path)
    ensures ok <==> Fits(t, base + Part(t, rule, path))
    ensures ok ==> Recorded(t, hash, entries', totalBytes', base + Part(t, rule, path))
    decreases Below(t, path), 1
  {
    hide Recorded, Fits, Hidden, VisibleBelow, Below, Part, Closed, ProperPaths;
    PartIsHidden(t, rule, path);
    ghost var part := Part(t, rule, path);
    RecordedGrows(t, hash, entries, totalBytes, base, path);
    FitsByCounts(t, hash, entries + [EntryOf(path, t[path], hash)], totalBytes + SizeAt(t, path), base + {path});
    FitsByCounts(t, hash, entries, totalBytes, base);
    if t[path].File? {
      totalBytes' := totalBytes + |t[path].content|;
      if totalBytes' > MAXIMUM_BYTES {
        return false, entries, totalBytes';
      }
    } else {
      totalBytes' := totalBytes;
    }
    entries' := entries + [EntryOf(path, t[path], hash)];
    if |entries'| > MAXIMUM_ENTRIES {
      if Fits(t, base + part) {
        FitsFewer(t, base + {path}, base + part);
      }
      return false, entries', totalBytes';
    }
    ok := true;
    if t[path].Dir? {
      assert base + {path} + VisibleBelow(t, rule, path) == base + part;
      ok, entries', totalBytes' := Walk(t, rule, hash, path, entries', totalBytes', base + {path});
    }
  }

  lemma FitsByCounts(t: Tree, hash: Hash, m: Manifest, bytes: nat, paths: set<Path>)
    requires Recorded(t, hash, m, bytes, paths)
    ensures Fits(t, paths) <==> |m| <= MAXIMUM_ENTRIES && bytes <= MAXIMUM_BYTES
  {
  }

  predicate EntryByPath(left: Entry, right: Entry) {
    !Less(right.path, left.path)
  }

  // All that a scan of the tree records.
  ghost function VisiblePaths(t: Tree, rule: Rule): set<Path> {
    set p | p in t && Visible(t, rule, p)
  }

  // Scans the tree. It fails only when the tree is too large.
  method Scan(t: Tree, rule: Rule, hash: Hash) returns (ok: bool, entries: Manifest)
    requires Closed(t) && ProperPaths(t)
    ensures ok <==> Fits(t, VisiblePaths(t, rule))
    ensures ok ==> IsScan(t, rule, hash, entries)
  {
    ghost var all := VisiblePaths(t, rule);
    VisibleFromTop(t, rule);
    assert Recorded(t, hash, [], 0, {});
    var walked, totalBytes;
    ok, walked, totalBytes := Walk(t, rule, hash, "", [], 0, {});
    assert {} + all == all;
    entries := Sort(EntryByPath, walked);
    if ok {
      SortedScan(t, rule, hash, walked, totalBytes);
    }
  }

  lemma VisibleFromTop(t: Tree, rule: Rule)
    requires Closed(t) && ProperPaths(t)
    ensures VisibleBelow(t, rule, "") == VisiblePaths(t, rule)
  {
    forall p | p in t
      ensures p in VisibleBelow(t, rule, "") <==> Visible(t, rule, p)
    {
      assert forall a :: OnTheWay(a, p) ==> Under("", a);
    }
  }

  lemma SortedScan(t: Tree, rule: Rule, hash: Hash, walked: Manifest, bytes: nat)
    requires Recorded(t, hash, walked, bytes, VisiblePaths(t, rule))
    ensures IsScan(t, rule, hash, Sort(EntryByPath, walked))
  {
    var m := Sort(EntryByPath, walked);
    EntryByPathIsTotal();
    SortSorts(EntryByPath, walked);
    hide *;
    UnfoldRecorded(t, hash, walked, bytes, VisiblePaths(t, rule));
    UniqueByCount(walked, m);
    SameElements(walked, m);
    EntriesOfSame(t, hash, walked, m);
    SortedIsStrict(m);
    ScanHolds(t, rule, hash, m);
  }

  lemma UnfoldRecorded(t: Tree, hash: Hash, m: Manifest, bytes: nat, paths: set<Path>)
    requires Recorded(t, hash, m, bytes, paths)
    ensures UniquePaths(m) && EntriesOf(t, hash, m) && PathSet(m) == paths
  {
  }

  lemma ScanHolds(t: Tree, rule: Rule, hash: Hash, m: Manifest)
    requires UniquePaths(m) && SortedManifest(m) && EntriesOf(t, hash, m) && PathSet(m) == VisiblePaths(t, rule)
    ensures IsScan(t, rule, hash, m)
  {
  }

  lemma EntriesOfSame(t: Tree, hash: Hash, m: Manifest, n: Manifest)
    requires EntriesOf(t, hash, m) && forall e :: e in n ==> e in m
    ensures EntriesOf(t, hash, n)
  {
    forall i | 0 <= i < |n|
      ensures n[i].path in t && n[i] == EntryOf(n[i].path, t[n[i].path], hash)
    {
      assert n[i] in m;
    }
  }

  lemma EntryByPathIsTotal()
    ensures TotalOrder(EntryByPath)
  {
    forall x: Entry, y: Entry, z: Entry
      ensures EntryByPath(x, y) || EntryByPath(y, x)
      ensures EntryByPath(x, y) && EntryByPath(y, z) ==> EntryByPath(x, z)
    {
      NotLess(x.path, y.path, z.path);
    }
  }

  lemma SortedIsStrict(m: Manifest)
    requires SortedBy(EntryByPath, m) && UniquePaths(m)
    ensures SortedManifest(m)
  {
    forall i, j | 0 <= i < j < |m|
      ensures Less(m[i].path, m[j].path)
    {
      LessIsTotal(m[i].path, m[j].path);
      assert EntryByPath(m[i], m[j]);
    }
  }

  // What a scan writes down of a node: a directory has no digest, a file has its mode
  // and a link none, and both have the digest of their content or target.
  lemma ListedAsItIs(t: Tree, rule: Rule, hash: Hash, m: Manifest, e: Entry)
    requires IsScan(t, rule, hash, m) && e in m
    ensures e.path in t
    ensures match t[e.path]
            case Dir => e.kind.KindDirectory? && e.mode == 0 && e.digest == ""
            case File(content, mode) => e.kind.KindFile? && e.mode == mode && e.digest == hash(content)
            case Link(target) => e.kind.KindLink? && e.mode == 0 && e.digest == hash(target)
  {
    var i :| 0 <= i < |m| && m[i] == e;
    assert m[i].path in t && m[i] == EntryOf(m[i].path, t[m[i].path], hash);
  }

  // Which paths a scan sees: those of the tree that hold no line break, and that
  // the rules leave in together with all directories above them.
  lemma SeenPaths(t: Tree, rule: Rule, p: Path)
    requires Closed(t)
    ensures p in VisiblePaths(t, rule) <==>
      p in t && '\n' !in p && '\r' !in p
      && forall a :: a in t && (a == p || Ancestor(a, p)) ==> !rule(a, t[a].Dir?)
  {
    assert OnTheWay(p, p);
    if p in t {
      forall a | OnTheWay(a, p)
        ensures a in t
        ensures Hidden(t, rule, a) ==> rule(a, t[a].Dir?) || '\n' in p || '\r' in p
        ensures rule(a, t[a].Dir?) ==> Hidden(t, rule, a)
      {
        BreakBelow(a, p);
      }
    }
  }

  lemma BreakBelow(a: Path, p: Path)
    requires OnTheWay(a, p)
    ensures '\n' in a ==> '\n' in p
    ensures '\r' in a ==> '\r' in p
  {
    forall i | 0 <= i < |a|
      ensures a[i] == p[i]
    {
      assert p[..|a|][i] == p[i];
    }
  }

  // Without line breaks in its paths, and with rules that leave nothing out, a
  // tree is scanned whole.
  lemma WholeTreeIsScanned(t: Tree, rule: Rule, hash: Hash, m: Manifest)
    requires Closed(t) && IsScan(t, rule, hash, m)
    requires forall p, d :: !rule(p, d)
    requires forall p :: p in t ==> '\n' !in p && '\r' !in p
    ensures VisiblePaths(t, rule) == t.Keys && PathSet(m) == t.Keys
  {
    forall p
      ensures p in VisiblePaths(t, rule) <==> p in t
    {
      SeenPaths(t, rule, p);
    }
  }

  // A scan accepts up to 100000 paths whose files hold 2 GiB together. Only files
  // count, each with the length of its content.
  lemma LimitsOfScan(t: Tree, paths: set<Path>, p: Path)
    ensures Fits(t, paths) <==> |paths| <= 100000 && BytesOf(t, paths) <= 0x8000_0000
    ensures BytesOf(t, {}) == 0
    ensures p in paths ==>
      BytesOf(t, paths) == BytesOf(t, paths - {p}) + if p in t && t[p].File? then |t[p].content| else 0
  {
    if p in paths {
      BytesWithout(t, paths, p);
    }
  }
}
