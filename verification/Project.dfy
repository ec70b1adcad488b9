// Writing and removing single recorded paths in the project.
module Project {
  import opened Paths
  import opened Tree

  datatype Kind = KindFile | KindLink | KindDirectory

  datatype Entry = Entry(kind: Kind, mode: nat, digest: string, path: Path)

  const PARTIAL := ".prison-partial"

  function Temporary(p: Path): Path {
    p + PARTIAL
  }

  const DEFAULT_MODE: nat := 0x1a4

  function WrittenMode(mode: nat): nat {
    if mode == 0 then DEFAULT_MODE else mode
  }

  // What an entry with this content becomes in the tree.
  function NodeOf(entry: Entry, content: Content): Node {
    match entry.kind
    case KindDirectory => Dir
    case KindLink => Link(content)
    case KindFile => File(content, WrittenMode(entry.mode))
  }

  ghost predicate FullDirectory(t: Tree, p: Path) {
    p in t && t[p].Dir? && HasChildren(t, p)
  }

  // The entry can be written: nothing on the way is a file or a link, and only
  // a directory may replace a directory that is not empty.
  ghost predicate Writable(t: Tree, entry: Entry) {
    && WayIsFree(t, entry.path)
    && (!entry.kind.KindDirectory? ==> !FullDirectory(t, entry.path))
    && (entry.kind.KindFile? ==> !FullDirectory(t, Temporary(entry.path)))
  }

  // The tree with exactly this entry written.
  ghost function Placed(t: Tree, entry: Entry, content: Content): Tree {
    var ready := WithDirectories(t, Ancestors(entry.path));
    (if entry.kind.KindFile? then ready - {Temporary(entry.path)} else ready)[entry.path := NodeOf(entry, content)]
  }

  // Only the path, its temporary name and missing directories on the way differ.
  ghost predicate OnlyTouches(t: Tree, t': Tree, p: Path) {
    forall q :: q != p && q != Temporary(p) ==>
      if q in t then q in t' && t'[q] == t[q]
      else q in t' ==> Ancestor(q, p) && t'[q].Dir?
  }

  // Making a directory where a file or a link may have been removed before.
  lemma DirectoryIsMade(t: Tree, entry: Entry)
    requires Closed(t) && entry.kind.KindDirectory?
    ensures var p := entry.path;
            var cleared := if p in t && !t[p].Dir? then t - {p} else t;
            var step := MakeDirectory(cleared, p);
            && Closed(step.tree) && OnlyTouches(t, step.tree, p)
            && (step.ok <==> Writable(t, entry))
            && (step.ok ==> step.tree == Placed(t, entry, ""))
    ensures entry.path in t ==> WayIsFree(t, entry.path)
    ensures entry.path in t && !t[entry.path].Dir? ==> !FullDirectory(t, entry.path)
  {
    var p := entry.path;
    var cleared := if p in t && !t[p].Dir? then t - {p} else t;
    RemoveKeepsClosed(t, p);
    AncestorsAreClosed(p);
    assert WayIsFree(cleared, p) <==> WayIsFree(t, p);
    var step := MakeDirectory(cleared, p);
    if step.ok {
      DirectoriesKeepClosed(cleared, Ancestors(p) + {p});
      assert step.tree == WithDirectories(t, Ancestors(p))[p := Dir];
    }
  }

  lemma ParentsAreMade(t: Tree, p: Path)
    requires Closed(t)
    ensures MakeParents(t, p).ok <==> WayIsFree(t, p)
    ensures MakeParents(t, p).ok ==>
      var made := MakeParents(t, p).tree;
      && Closed(made) && ParentsExist(made, p) && OnlyAddsParents(t, made, p)
      && (FullDirectory(made, p) <==> FullDirectory(t, p))
      && (FullDirectory(made, Temporary(p)) <==> FullDirectory(t, Temporary(p)))
      && made == WithDirectories(t, Ancestors(p))
  {
    AncestorsAreClosed(p);
    if WayIsFree(t, p) {
      var made := MakeParents(t, p).tree;
      DirectoriesKeepClosed(t, Ancestors(p));
      TemporaryHasSameParents(p);
      forall d | d in made && d !in t
        ensures !Ancestor(p, d) && !Ancestor(Temporary(p), d) && d != p && d != Temporary(p)
      {
        assert Ancestor(d, p) && Ancestor(d, Temporary(p));
      }
    }
  }

  ghost predicate OnlyAddsParents(t: Tree, t': Tree, p: Path) {
    forall q :: if q in t then q in t' && t'[q] == t[q] else q in t' ==> Ancestor(q, p) && t'[q].Dir?
  }

  lemma TouchesCompose(t: Tree, made: Tree, t': Tree, p: Path)
    requires OnlyAddsParents(t, made, p) && OnlyTouches(made, t', p)
    ensures OnlyTouches(t, t', p)
  {
    forall q | q != p && q != Temporary(p)
      ensures if q in t then q in t' && t'[q] == t[q] else q in t' ==> Ancestor(q, p) && t'[q].Dir?
    {
      assert if q in t then q in made && made[q] == t[q] else q in made ==> Ancestor(q, p) && made[q].Dir?;
    }
  }

  // The steps from an empty place to the renamed file.
  lemma RegularIsWritten(t: Tree, p: Path, content: Content, mode: nat)
    requires Closed(t) && ParentsExist(t, p) && (p in t ==> t[p].File?)
    ensures var temporary := Temporary(p);
            var cleared := Remove(t, temporary).tree;
            var written := WriteFile(cleared, temporary, content, mode);
            var renamed := Rename(Chmod(written.tree, temporary, mode).tree, temporary, p);
            && Closed(cleared) && OnlyTouches(t, cleared, p)
            && (written.ok <==> !FullDirectory(t, temporary))
            && (written.ok ==> renamed.ok && Closed(renamed.tree))
            && (written.ok ==> renamed.tree == (t - {temporary})[p := File(content, mode)])
  {
    var temporary := Temporary(p);
    var cleared := Remove(t, temporary).tree;
    RemoveKeepsClosed(t, temporary);
    TemporaryHasSameParents(p);
    assert temporary !in Ancestors(p);
    assert ParentsExist(cleared, temporary) && ParentsExist(cleared, p);
    if !FullDirectory(t, temporary) {
      assert cleared == t - {temporary};
      PutKeepsClosed(cleared, p, File(content, mode));
      var written := WriteFile(cleared, temporary, content, mode).tree;
      assert ParentsExist(written, p);
      assert (written - {temporary})[p := File(content, mode)] == cleared[p := File(content, mode)];
    }
  }

  lemma TemporaryHasSameParents(p: Path)
    ensures Ancestors(Temporary(p)) == Ancestors(p)
  {
    var temporary := Temporary(p);
    assert forall i :: 0 <= i < |PARTIAL| ==> PARTIAL[i] != '/';
    forall a
      ensures Ancestor(a, temporary) <==> Ancestor(a, p)
    {
      if Ancestor(a, temporary) {
        assert |a| < |p| ==> temporary[..|a|] == p[..|a|];
      }
      if Ancestor(a, p) {
        assert temporary[..|a|] == p[..|a|];
      }
    }
  }

  // A temporary name is the path with a suffix of its own, in the same directory.
  lemma TemporaryIsBeside(p: Path, q: Path)
    ensures Temporary(p) == p + ".prison-partial"
    ensures Temporary(p) == Temporary(q) <==> p == q
    ensures forall a :: Ancestor(a, Temporary(p)) <==> Ancestor(a, p)
  {
    TemporaryHasSameParents(p);
    assert forall a :: a in Ancestors(p) <==> Ancestor(a, p);
    assert forall a :: a in Ancestors(Temporary(p)) <==> Ancestor(a, Temporary(p));
    if Temporary(p) == Temporary(q) {
      assert p == Temporary(p)[..|Temporary(p)| - |PARTIAL|] == Temporary(q)[..|Temporary(q)| - |PARTIAL|] == q;
    }
  }

  // A file that was recorded without any permission is written as 0644, and any
  // other one as it was recorded.
  lemma FileIsWritten(entry: Entry, content: Content)
    requires entry.kind.KindFile?
    ensures NodeOf(entry, content) == File(content, if entry.mode == 0 then 420 else entry.mode)
  {
  }

  datatype Removal = Removed | NotEmpty | Failed

  class Project {
    var tree: Tree

    constructor (tree: Tree)
      ensures this.tree == tree
    {
      this.tree := tree;
    }

    // Removes a path. A missing path is fine, and a directory with children stays.
    method RemovePath(p: Path) returns (removal: Removal)
      requires Closed(tree)
      modifies this
      ensures Closed(tree)
      ensures removal == Removed <==> WayIsFree(old(tree), p) && !FullDirectory(old(tree), p)
      ensures removal == NotEmpty <==> FullDirectory(old(tree), p)
      ensures tree == if removal == Removed then old(tree) - {p} else old(tree)
    {
      var information := Lstat(tree, p);
      match information {
        case NotExist =>
          return Removed;
        case StatError =>
          return Failed;
        case Found(node) =>
          var step := Remove(tree, p);
          RemoveKeepsClosed(tree, p);
          tree := step.tree;
          if !step.ok && node.Dir? && HasChildren(tree, p) {
            return NotEmpty;
          }
          removal := if step.ok then Removed else Failed;
      }
    }

    method WriteDirectory(entry: Entry) returns (ok: bool)
      requires Closed(tree) && entry.kind.KindDirectory?
      modifies this
      ensures Closed(tree) && OnlyTouches(old(tree), tree, entry.path)
      ensures ok <==> Writable(old(tree), entry)
      ensures ok ==> tree == Placed(old(tree), entry, "")
    {
      hide WithDirectories, OnlyTouches, Closed, FullDirectory, WayIsFree, Placed;
      var p := entry.path;
      DirectoryIsMade(tree, entry);
      var information := Lstat(tree, p);
      if information.Found? && !information.node.Dir? {
        var removal := RemovePath(p);
        if removal != Removed {
          return false;
        }
      }
      var step := MakeDirectory(tree, p);
      tree := step.tree;
      ok := step.ok;
    }

    // Writes a link or a file whose parents have been made.
    method WriteLink(entry: Entry, content: Content) returns (ok: bool)
      requires Closed(tree) && entry.kind.KindLink? && ParentsExist(tree, entry.path)
      modifies this
      ensures Closed(tree) && OnlyTouches(old(tree), tree, entry.path)
      ensures ok <==> !FullDirectory(old(tree), entry.path)
      ensures ok ==> tree == old(tree)[entry.path := Link(content)]
    {
      var removal := RemovePath(entry.path);
      if removal != Removed {
        return false;
      }
      var step := Symlink(tree, content, entry.path);
      PutKeepsClosed(tree, entry.path, Link(content));
      tree := step.tree;
      ok := step.ok;
    }

    method WriteRegular(entry: Entry, content: Content) returns (ok: bool)
      requires Closed(tree) && entry.kind.KindFile? && ParentsExist(tree, entry.path)
      modifies this
      ensures Closed(tree) && OnlyTouches(old(tree), tree, entry.path)
      ensures ok <==> !FullDirectory(old(tree), entry.path) && !FullDirectory(old(tree), Temporary(entry.path))
      ensures ok ==> tree == (old(tree) - {Temporary(entry.path)})[entry.path := File(content, WrittenMode(entry.mode))]
    {
      var p := entry.path;
      var mode := WrittenMode(entry.mode);
      var information := Lstat(tree, p);
      if information.Found? && !information.node.File? {
        var removal := RemovePath(p);
        if removal != Removed {
          return false;
        }
      }
      assert !FullDirectory(old(tree), p);
      ghost var cleared := tree;
      RegularIsWritten(cleared, p, content, mode);
      tree := Remove(tree, Temporary(p)).tree;
      var step := WriteFile(tree, Temporary(p), content, mode);
      if !step.ok {
        return false;
      }
      step := Rename(Chmod(step.tree, Temporary(p), mode).tree, Temporary(p), p);
      tree := step.tree;
      ok := step.ok;
    }

    // Writes one entry with its parents. It succeeds exactly when the entry is
    // writable; whether it does or not, it touches no other path.
    method WriteEntry(entry: Entry, content: Content) returns (ok: bool)
      requires Closed(tree)
      modifies this
      ensures Closed(tree) && OnlyTouches(old(tree), tree, entry.path)
      ensures ok <==> Writable(old(tree), entry)
      ensures ok ==> tree == Placed(old(tree), entry, content)
    {
      hide Closed, WayIsFree, FullDirectory, WithDirectories;
      if entry.kind.KindDirectory? {
        ok := WriteDirectory(entry);
        return;
      }
      ghost var before := tree;
      ParentsAreMade(tree, entry.path);
      var step := MakeParents(tree, entry.path);
      if !step.ok {
        return false;
      }
      tree := step.tree;
      if entry.kind.KindLink? {
        ok := WriteLink(entry, content);
      } else {
        ok := WriteRegular(entry, content);
      }
      TouchesCompose(before, step.tree, tree, entry.path);
    }
  }
}
