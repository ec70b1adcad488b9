// The files of a project: a finite map from paths to nodes that is closed
// under parents, and the steps of the file system on it. A step that cannot
// be done fails and leaves the tree as it is.
module Tree {
  import opened Paths

  type Content = string

  datatype Node = Dir | File(content: Content, mode: nat) | Link(target: Content)

  type Tree = map<Path, Node>

  // Every directory on the way to a node is in the tree.
  ghost predicate Closed(t: Tree) {
    forall a, p :: p in t && Ancestor(a, p) ==> a in t && t[a].Dir?
  }

  predicate HasChildren(t: Tree, p: Path) {
    exists q | q in t :: Ancestor(p, q)
  }

  // No directory that the path needs is taken by a file or a link.
  predicate WayIsFree(t: Tree, p: Path) {
    forall a | a in Ancestors(p) :: a in t ==> t[a].Dir?
  }

  predicate ParentsExist(t: Tree, p: Path) {
    forall a | a in Ancestors(p) :: a in t && t[a].Dir?
  }

  datatype Stat = Found(node: Node) | NotExist | StatError

  // A path below a file or a link is an error, not a missing path.
  function Lstat(t: Tree, p: Path): Stat {
    if p in t then Found(t[p]) else if WayIsFree(t, p) then NotExist else StatError
  }

  datatype Step = Step(tree: Tree, ok: bool)

  // Removes a file, a link or an empty directory.
  function Remove(t: Tree, p: Path): Step {
    if p in t && !(t[p].Dir? && HasChildren(t, p)) then Step(t - {p}, true) else Step(t, false)
  }

  function WithDirectories(t: Tree, names: set<Path>): Tree {
    t + map a | a in names && a !in t :: Dir
  }

  // Makes the directories on the way to a path.
  function MakeParents(t: Tree, p: Path): Step {
    if WayIsFree(t, p) then Step(WithDirectories(t, Ancestors(p)), true) else Step(t, false)
  }

  function MakeDirectory(t: Tree, p: Path): Step {
    if WayIsFree(t, p) && (p in t ==> t[p].Dir?) then Step(WithDirectories(t, Ancestors(p) + {p}), true)
        else Step(t, false)
  }

  function Symlink(t: Tree, target: Content, p: Path): Step {
    if ParentsExist(t, p) && p !in t then Step(t[p := Link(target)], true) else Step(t, false)
  }

  // Writing through a link at the path is not part of the model, so it fails.
  function WriteFile(t: Tree, p: Path, content: Content, mode: nat): Step {
    if !ParentsExist(t, p) then Step(t, false)
    else if p !in t then Step(t[p := File(content, mode)], true)
    else if t[p].File? then Step(t[p := File(content, t[p].mode)], true)
    else Step(t, false)
  }

  function Chmod(t: Tree, p: Path, mode: nat): Step {
    if p in t && t[p].File? then Step(t[p := File(t[p].content, mode)], true) else Step(t, false)
  }

  // Moves a file over a file, a link or nothing, but never over a directory.
  function Rename(t: Tree, source: Path, target: Path): Step {
    if source in t && t[source].File? && source != target && ParentsExist(t, target)
        && (target in t ==> !t[target].Dir?) then
      Step((t - {source})[target := t[source]], true)
    else Step(t, false)
  }

  lemma RemoveKeepsClosed(t: Tree, p: Path)
    requires Closed(t)
    ensures Closed(Remove(t, p).tree)
  {
    var r := Remove(t, p).tree;
    forall a, q | q in r && Ancestor(a, q)
      ensures a in r && r[a].Dir?
    {
      assert q in t && t[a].Dir?;
      if a == p {
        assert HasChildren(t, p);
      }
    }
  }

  lemma DirectoriesKeepClosed(t: Tree, names: set<Path>)
    requires Closed(t)
    requires forall a | a in names :: a in t ==> t[a].Dir?
    requires forall a, b :: b in names && Ancestor(a, b) ==> a in names
    ensures Closed(WithDirectories(t, names))
  {
  }

  lemma AncestorsAreClosed(p: Path)
    ensures forall a, b :: b in Ancestors(p) && Ancestor(a, b) ==> a in Ancestors(p)
    ensures forall a, b :: b in Ancestors(p) + {p} && Ancestor(a, b) ==> a in Ancestors(p) + {p}
  {
    forall a, b | b in Ancestors(p) && Ancestor(a, b)
      ensures a in Ancestors(p)
    {
      AncestorIsTransitive(a, b, p);
    }
  }

  lemma PutKeepsClosed(t: Tree, p: Path, node: Node)
    requires Closed(t) && ParentsExist(t, p)
    requires node.Dir? || p !in t || !t[p].Dir? || !HasChildren(t, p)
    ensures Closed(t[p := node])
  {
    forall a, q | q in t[p := node] && Ancestor(a, q)
      ensures a in t[p := node] && t[p := node][a].Dir?
    {
      if q == p {
        assert a in Ancestors(p);
      } else {
        assert a in t && t[a].Dir?;
        if a == p {
          assert HasChildren(t, p);
        }
      }
    }
  }

  ghost predicate KeepsParents(t: Tree, step: Step) {
    Closed(step.tree) && (!step.ok ==> step.tree == t)
  }

  // Whatever a step is asked to do, above every path of the tree are directories, and
  // a step that fails changes nothing. One that succeeds has done what it is for, at
  // its own path and on the way to it, and nothing anywhere else.
  lemma StepsAreSound(t: Tree, p: Path, q: Path, content: Content, mode: nat)
    requires Closed(t)
    ensures KeepsParents(t, Remove(t, p)) && KeepsParents(t, MakeParents(t, p)) && KeepsParents(t, MakeDirectory(t, p))
    ensures KeepsParents(t, Symlink(t, content, p)) && KeepsParents(t, WriteFile(t, p, content, mode))
    ensures KeepsParents(t, Chmod(t, p, mode)) && KeepsParents(t, Rename(t, p, q))
    ensures Remove(t, p).ok ==> Remove(t, p).tree == t - {p}
    ensures MakeDirectory(t, p).ok ==>
      forall a :: a == p || Ancestor(a, p) ==> a in MakeDirectory(t, p).tree && MakeDirectory(t, p).tree[a] == Dir
    ensures Symlink(t, content, p).ok ==> p !in t && Symlink(t, content, p).tree == t[p := Link(content)]
    ensures WriteFile(t, p, content, mode).ok ==>
      var r := WriteFile(t, p, content, mode).tree;
      p in r && r == t[p := r[p]] && r[p].File? && r[p].content == content && (p !in t ==> r[p].mode == mode)
    ensures Chmod(t, p, mode).ok ==> p in t && t[p].File? && Chmod(t, p, mode).tree == t[p := File(t[p].content, mode)]
    ensures Rename(t, p, q).ok ==> p in t && t[p].File? && Rename(t, p, q).tree == (t - {p})[q := t[p]]
  {
    RemoveKeepsClosed(t, p);
    AncestorsAreClosed(p);
    DirectoriesAreSound(t, p);
    FilesAreSound(t, p, content, mode);
    if Rename(t, p, q).ok {
      PutKeepsClosed(t - {p}, q, t[p]);
    }
  }

  lemma DirectoriesAreSound(t: Tree, p: Path)
    requires Closed(t)
    ensures KeepsParents(t, MakeParents(t, p)) && KeepsParents(t, MakeDirectory(t, p))
  {
    AncestorsAreClosed(p);
    if MakeParents(t, p).ok {
      DirectoriesKeepClosed(t, Ancestors(p));
    }
    if MakeDirectory(t, p).ok {
      DirectoriesKeepClosed(t, Ancestors(p) + {p});
    }
  }

  lemma FilesAreSound(t: Tree, p: Path, content: Content, mode: nat)
    requires Closed(t)
    ensures KeepsParents(t, Symlink(t, content, p)) && KeepsParents(t, WriteFile(t, p, content, mode))
            && KeepsParents(t, Chmod(t, p, mode))
  {
    if ParentsExist(t, p) && (p in t ==> t[p].File?) {
      PutKeepsClosed(t, p, Link(content));
      PutKeepsClosed(t, p, File(content, mode));
      if p in t {
        PutKeepsClosed(t, p, File(content, t[p].mode));
        PutKeepsClosed(t, p, File(t[p].content, mode));
      }
    }
  }
}
