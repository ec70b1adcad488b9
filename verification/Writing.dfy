// Writing some entries one after the other into a tree: when all writes succeed,
// and which tree they leave.
module Writing {
  import opened Paths
  import opened Tree
  import opened Project
  import opened Restore

  datatype ToWrite = ToWrite(entry: Entry, content: Content)

  // The tree after each write in turn.
  ghost function AfterWrites(t: Tree, writes: seq<ToWrite>): Tree {
    if writes == [] then t
    else
      var last := writes[|writes| - 1];
      Placed(AfterWrites(t, writes[..|writes| - 1]), last.entry, last.content)
  }

  // Each write finds what it needs.
  ghost predicate AllWritable(t: Tree, writes: seq<ToWrite>) {
    writes == []
    || (AllWritable(t, writes[..|writes| - 1])
        && Writable(AfterWrites(t, writes[..|writes| - 1]), writes[|writes| - 1].entry))
  }

  ghost predicate IsWritten(writes: seq<ToWrite>, p: Path) {
    exists i :: 0 <= i < |writes| && writes[i].entry.path == p
  }

  ghost predicate FreesName(writes: seq<ToWrite>, p: Path) {
    exists i :: 0 <= i < |writes| && writes[i].entry.kind.KindFile? && Temporary(writes[i].entry.path) == p
  }

  ghost predicate IsAbove(writes: seq<ToWrite>, a: Path) {
    exists i :: 0 <= i < |writes| && Ancestor(a, writes[i].entry.path)
  }

  // The writes have different paths, directories come before what lies below
  // them, and no temporary name is a path to write or above one.
  ghost predicate Orderly(writes: seq<ToWrite>) {
    && (forall i, j :: 0 <= i < j < |writes| ==> writes[i].entry.path != writes[j].entry.path)
    && (forall i, j :: 0 <= i < |writes| && 0 <= j < |writes| ==>
          Ancestor(writes[j].entry.path, writes[i].entry.path) ==>
            j < i || !writes[j].entry.kind.KindDirectory?)
    && (forall i, j :: 0 <= i < |writes| && 0 <= j < |writes| ==>
          Temporary(writes[j].entry.path) != writes[i].entry.path
          && !Ancestor(Temporary(writes[j].entry.path), writes[i].entry.path))
  }

  // Each directory above a path to write is there, missing or written itself.
  ghost predicate WaysAreFree(t: Tree, writes: seq<ToWrite>) {
    forall i, a :: 0 <= i < |writes| && Ancestor(a, writes[i].entry.path) && !IsWritten(writes, a) && a in t ==>
        t[a].Dir?
  }

  // No node of the tree and no path to write lies below a file or link to write,
  // or below the temporary name of such a file.
  ghost predicate NoneBelow(t: Tree, writes: seq<ToWrite>) {
    forall i, q :: 0 <= i < |writes| && (q in t || IsWritten(writes, q)) ==> MayHold(writes[i].entry, q)
  }

  ghost predicate CanWrite(t: Tree, writes: seq<ToWrite>) {
    WaysAreFree(t, writes) && NoneBelow(t, writes)
  }

  // What the last write of a path puts there.
  ghost function WrittenNode(writes: seq<ToWrite>, p: Path): Node
    requires IsWritten(writes, p)
  {
    var last := writes[|writes| - 1];
    if last.entry.path == p then NodeOf(last.entry, last.content)
    else
      assert IsWritten(writes[..|writes| - 1], p) by {
        var i :| 0 <= i < |writes| && writes[i].entry.path == p;
        assert writes[..|writes| - 1][i] == writes[i];
      }
      WrittenNode(writes[..|writes| - 1], p)
  }

  lemma FrontIsOrderly(writes: seq<ToWrite>)
    requires writes != [] && Orderly(writes)
    ensures Orderly(writes[..|writes| - 1])
  {
  }

  lemma FrontWrites(writes: seq<ToWrite>, p: Path)
    requires writes != []
    ensures var front, last := writes[..|writes| - 1], writes[|writes| - 1];
            && (IsWritten(writes, p) <==> IsWritten(front, p) || p == last.entry.path)
            && (FreesName(writes, p) <==>
                FreesName(front, p) || (last.entry.kind.KindFile? && p == Temporary(last.entry.path)))
            && (IsAbove(writes, p) <==> IsAbove(front, p) || Ancestor(p, last.entry.path))
            && (IsWritten(writes, p) && p != last.entry.path ==> WrittenNode(writes, p) == WrittenNode(front, p))
            && (p == last.entry.path ==> WrittenNode(writes, p) == NodeOf(last.entry, last.content))
  {
    var front, last := writes[..|writes| - 1], writes[|writes| - 1];
    assert forall i :: 0 <= i < |front| ==> front[i] == writes[i];
    assert IsWritten(front, p) ==> IsWritten(writes, p) by {
      if i :| 0 <= i < |front| && front[i].entry.path == p {
        assert writes[i].entry.path == p;
      }
    }
    assert FreesName(front, p) ==> FreesName(writes, p) by {
      if i :| 0 <= i < |front| && front[i].entry.kind.KindFile? && Temporary(front[i].entry.path) == p {
        assert writes[i].entry.kind.KindFile? && Temporary(writes[i].entry.path) == p;
      }
    }
    assert IsAbove(front, p) ==> IsAbove(writes, p) by {
      if i :| 0 <= i < |front| && Ancestor(p, front[i].entry.path) {
        assert Ancestor(p, writes[i].entry.path);
      }
    }
  }

  // What all writes leave at a path.
  lemma {:induction false} PathAfterWrites(t: Tree, writes: seq<ToWrite>, p: Path)
    requires Orderly(writes)
    ensures var t' := AfterWrites(t, writes);
            if IsWritten(writes, p) then p in t' && t'[p] == WrittenNode(writes, p)
            else if FreesName(writes, p) then p !in t'
            else if p in t then p in t' && t'[p] == t[p]
            else if IsAbove(writes, p) then p in t' && t'[p] == Dir
            else p !in t'
    decreases |writes|
  {
    if writes != [] {
      var front, last := writes[..|writes| - 1], writes[|writes| - 1];
      FrontIsOrderly(writes);
      PathAfterWrites(t, front, p);
      FrontWrites(writes, p);
      if FreesName(writes, p) {
        NoNameInTheWay(writes, p);
      }
      hide Orderly, IsWritten, FreesName, IsAbove, WrittenNode, Placed;
      PathAfterWrite(AfterWrites(t, front), last.entry, last.content, p);
    }
  }

  // What one write leaves at a path.
  lemma PathAfterWrite(t: Tree, entry: Entry, content: Content, p: Path)
    ensures var t' := Placed(t, entry, content);
            if p == entry.path then p in t' && t'[p] == NodeOf(entry, content)
            else if entry.kind.KindFile? && p == Temporary(entry.path) then p !in t'
            else if p in t then p in t' && t'[p] == t[p]
            else if Ancestor(p, entry.path) then p in t' && t'[p] == Dir
            else p !in t'
  {
  }

  lemma NoNameInTheWay(writes: seq<ToWrite>, p: Path)
    requires Orderly(writes) && FreesName(writes, p)
    ensures !IsWritten(writes, p) && !IsAbove(writes, p)
  {
  }

  lemma PlacedIsClosed(t: Tree, entry: Entry, content: Content)
    requires Closed(t) && Writable(t, entry)
    ensures Closed(Placed(t, entry, content))
  {
    var p := entry.path;
    AncestorsAreClosed(p);
    DirectoriesKeepClosed(t, Ancestors(p));
    var ready := WithDirectories(t, Ancestors(p));
    if entry.kind.KindFile? {
      TemporaryHasSameParents(p);
      assert Remove(ready, Temporary(p)).tree == ready - {Temporary(p)} by {
        assert HasChildren(ready, Temporary(p)) ==> HasChildren(t, Temporary(p));
      }
      RemoveKeepsClosed(ready, Temporary(p));
    }
    var cleared := if entry.kind.KindFile? then ready - {Temporary(p)} else ready;
    assert ParentsExist(cleared, p) by {
      assert forall a :: a in Ancestors(p) ==> a != Temporary(p);
    }
    assert HasChildren(cleared, p) ==> HasChildren(t, p);
    PutKeepsClosed(cleared, p, NodeOf(entry, content));
  }

  // The next write can be made exactly when it fits to those before it.
  lemma NextIsWritten(t: Tree, writes: seq<ToWrite>)
    requires writes != [] && Closed(t) && Orderly(writes) && Closed(AfterWrites(t, writes[..|writes| - 1]))
    requires CanWrite(t, writes[..|writes| - 1])
    ensures Writable(AfterWrites(t, writes[..|writes| - 1]), writes[|writes| - 1].entry) <==> CanWrite(t, writes)
  {
    hide Orderly, WaysAreFree, NoneBelow, AfterWrites, Writable, Closed;
    if Writable(AfterWrites(t, writes[..|writes| - 1]), writes[|writes| - 1].entry) {
      WayIsChecked(t, writes);
      BelowIsChecked(t, writes);
    }
    if CanWrite(t, writes) {
      FitsIsWritable(t, writes);
    }
  }

  lemma FrontHas(writes: seq<ToWrite>, i: nat)
    requires writes != [] && i < |writes| - 1
    ensures writes[..|writes| - 1][i] == writes[i] && IsWritten(writes[..|writes| - 1], writes[i].entry.path)
  {
    assert writes[..|writes| - 1][i] == writes[i];
  }

  lemma WayIsChecked(t: Tree, writes: seq<ToWrite>)
    requires writes != [] && Orderly(writes) && WaysAreFree(t, writes[..|writes| - 1])
    requires Writable(AfterWrites(t, writes[..|writes| - 1]), writes[|writes| - 1].entry)
    ensures WaysAreFree(t, writes)
  {
    var front, last := writes[..|writes| - 1], writes[|writes| - 1];
    var now := AfterWrites(t, front);
    FrontIsOrderly(writes);
    forall i, a | 0 <= i < |writes| && Ancestor(a, writes[i].entry.path) && !IsWritten(writes, a) && a in t
      ensures t[a].Dir?
    {
      FrontWrites(writes, a);
      if i < |front| {
        FrontHas(writes, i);
      } else {
        PathAfterWrites(t, front, a);
        NotAbove(writes, a);
        hide Orderly, AfterWrites;
      }
    }
  }

  lemma NotAbove(writes: seq<ToWrite>, a: Path)
    requires writes != [] && Orderly(writes) && Ancestor(a, writes[|writes| - 1].entry.path)
    ensures !FreesName(writes[..|writes| - 1], a)
  {
  }

  lemma BelowIsChecked(t: Tree, writes: seq<ToWrite>)
    requires writes != [] && Closed(t) && Orderly(writes) && Closed(AfterWrites(t, writes[..|writes| - 1]))
    requires NoneBelow(t, writes[..|writes| - 1])
    requires Writable(AfterWrites(t, writes[..|writes| - 1]), writes[|writes| - 1].entry)
    ensures NoneBelow(t, writes)
  {
    forall i, q | 0 <= i < |writes| && (q in t || IsWritten(writes, q))
      ensures MayHold(writes[i].entry, q)
    {
      hide *;
      MayHoldAt(t, writes, i, q);
    }
  }

  lemma MayHoldAt(t: Tree, writes: seq<ToWrite>, i: nat, q: Path)
    requires writes != [] && Closed(t) && Orderly(writes) && Closed(AfterWrites(t, writes[..|writes| - 1]))
    requires NoneBelow(t, writes[..|writes| - 1]) && i < |writes| && (q in t || IsWritten(writes, q))
    requires Writable(AfterWrites(t, writes[..|writes| - 1]), writes[|writes| - 1].entry)
    ensures MayHold(writes[i].entry, q)
  {
    hide *;
    var front, last := writes[..|writes| - 1], writes[|writes| - 1];
    FrontWrites(writes, q);
    if i == |front| {
      if q in t || IsWritten(front, q) {
        LastMayHold(t, writes, q);
      } else {
        OwnPath(last.entry);
      }
    } else {
      FrontHas(writes, i);
      if q in t || IsWritten(front, q) {
        AtFront(t, front, i, q);
      } else {
        LastMayBeHeld(t, writes, i);
      }
    }
  }

  lemma OwnPath(entry: Entry)
    ensures MayHold(entry, entry.path)
  {
  }

  lemma AtFront(t: Tree, front: seq<ToWrite>, i: nat, q: Path)
    requires NoneBelow(t, front) && i < |front| && (q in t || IsWritten(front, q))
    ensures MayHold(front[i].entry, q)
  {
  }

  // An earlier file or link would have been in the way of the last write.
  lemma LastMayBeHeld(t: Tree, writes: seq<ToWrite>, i: nat)
    requires writes != [] && i < |writes| - 1 && Orderly(writes)
    requires Writable(AfterWrites(t, writes[..|writes| - 1]), writes[|writes| - 1].entry)
    ensures MayHold(writes[i].entry, writes[|writes| - 1].entry.path)
  {
    var front := writes[..|writes| - 1];
    FrontIsOrderly(writes);
    FrontHas(writes, i);
    PathAfterWrites(t, front, writes[i].entry.path);
    UniqueNode(front, i);
    hide AfterWrites;
  }

  lemma {:induction false} UniqueNode(writes: seq<ToWrite>, i: nat)
    requires Orderly(writes) && i < |writes|
    ensures IsWritten(writes, writes[i].entry.path)
    ensures WrittenNode(writes, writes[i].entry.path) == NodeOf(writes[i].entry, writes[i].content)
    decreases |writes|
  {
    assert IsWritten(writes, writes[i].entry.path);
    if i < |writes| - 1 {
      FrontIsOrderly(writes);
      FrontWrites(writes, writes[i].entry.path);
      UniqueNode(writes[..|writes| - 1], i);
    }
  }

  // What lies below the last path, or below its temporary name, is still there
  // and would have been in the way.
  lemma LastMayHold(t: Tree, writes: seq<ToWrite>, q: Path)
    requires writes != [] && Closed(t) && Orderly(writes) && Closed(AfterWrites(t, writes[..|writes| - 1]))
    requires Writable(AfterWrites(t, writes[..|writes| - 1]), writes[|writes| - 1].entry)
    requires q in t || IsWritten(writes[..|writes| - 1], q)
    ensures MayHold(writes[|writes| - 1].entry, q)
  {
    var front, entry := writes[..|writes| - 1], writes[|writes| - 1].entry;
    var now := AfterWrites(t, front);
    FrontIsOrderly(writes);
    PathAfterWrites(t, front, q);
    NothingInNow(now, entry, q);
    if FreesName(front, q) && !IsWritten(front, q) {
      var k :| 0 <= k < |front| && front[k].entry.kind.KindFile? && Temporary(front[k].entry.path) == q;
      var r := front[k].entry.path;
      assert IsWritten(front, r) && writes[k].entry.path == r;
      PathAfterWrites(t, front, r);
      TemporaryHasSameParents(r);
      NothingInNow(now, entry, r);
    }
  }

  lemma NothingInNow(now: Tree, entry: Entry, q: Path)
    requires Closed(now) && Writable(now, entry)
    ensures q in now ==> MayHold(entry, q)
  {
    if q in now && Ancestor(entry.path, q) {
      assert HasChildren(now, entry.path);
    }
    if q in now && Ancestor(Temporary(entry.path), q) {
      assert HasChildren(now, Temporary(entry.path));
    }
  }

  lemma FitsIsWritable(t: Tree, writes: seq<ToWrite>)
    requires writes != [] && Closed(t) && Orderly(writes) && CanWrite(t, writes)
    ensures Writable(AfterWrites(t, writes[..|writes| - 1]), writes[|writes| - 1].entry)
  {
    var front, entry := writes[..|writes| - 1], writes[|writes| - 1].entry;
    var now := AfterWrites(t, front);
    FrontIsOrderly(writes);
    hide AfterWrites;
    forall a | a in now && Ancestor(a, entry.path)
      ensures now[a].Dir?
    {
      AboveIsDirectory(t, writes, a);
    }
    forall q | q in now && Ancestor(entry.path, q)
      ensures entry.kind.KindDirectory?
    {
      BelowIsAllowed(t, writes, q);
    }
    forall q | q in now && Ancestor(Temporary(entry.path), q)
      ensures !entry.kind.KindFile?
    {
      BelowIsAllowed(t, writes, q);
    }
  }

  lemma AboveIsDirectory(t: Tree, writes: seq<ToWrite>, a: Path)
    requires writes != [] && Orderly(writes) && CanWrite(t, writes)
    requires a in AfterWrites(t, writes[..|writes| - 1]) && Ancestor(a, writes[|writes| - 1].entry.path)
    ensures AfterWrites(t, writes[..|writes| - 1])[a].Dir?
  {
    var front, p := writes[..|writes| - 1], writes[|writes| - 1].entry.path;
    FrontIsOrderly(writes);
    PathAfterWrites(t, front, a);
    FrontWrites(writes, a);
    hide AfterWrites;
    if IsWritten(front, a) {
      var k :| 0 <= k < |front| && front[k].entry.path == a;
      UniqueNode(front, k);
      assert IsWritten(writes, p) by {
        assert writes[|writes| - 1].entry.path == p;
      }
      assert MayHold(writes[k].entry, p);
    }
  }

  lemma BelowIsAllowed(t: Tree, writes: seq<ToWrite>, q: Path)
    requires writes != [] && Orderly(writes) && CanWrite(t, writes) && q in AfterWrites(t, writes[..|writes| - 1])
    ensures MayHold(writes[|writes| - 1].entry, q)
  {
    var front, entry := writes[..|writes| - 1], writes[|writes| - 1].entry;
    FrontIsOrderly(writes);
    PathAfterWrites(t, front, q);
    FrontWrites(writes, q);
    hide AfterWrites;
    if !(q in t || IsWritten(front, q)) {
      var k :| 0 <= k < |front| && Ancestor(q, front[k].entry.path);
      var r := front[k].entry.path;
      assert writes[k].entry.path == r && IsWritten(writes, r);
      if Ancestor(entry.path, q) {
        AncestorIsTransitive(entry.path, q, r);
      }
      if Ancestor(Temporary(entry.path), q) {
        AncestorIsTransitive(Temporary(entry.path), q, r);
      }
      assert MayHold(entry, r);
    }
  }

  // Nothing that is written before lies below the last path.
  lemma LastIsNotAbove(t: Tree, writes: seq<ToWrite>, i: nat)
    requires i < |writes| - 1 && NoneBelow(t, writes) && Orderly(writes)
    ensures !Ancestor(writes[|writes| - 1].entry.path, writes[i].entry.path)
  {
    assert IsWritten(writes, writes[i].entry.path);
    assert MayHold(writes[|writes| - 1].entry, writes[i].entry.path);
  }

  lemma FrontCanWrite(t: Tree, writes: seq<ToWrite>)
    requires writes != [] && CanWrite(t, writes) && Orderly(writes)
    ensures CanWrite(t, writes[..|writes| - 1])
  {
    var front := writes[..|writes| - 1];
    assert WaysAreFree(t, front) by {
      forall i, a | 0 <= i < |front| && Ancestor(a, front[i].entry.path) && !IsWritten(front, a) && a in t
        ensures t[a].Dir?
      {
        FrontHas(writes, i);
        FrontWrites(writes, a);
        LastIsNotAbove(t, writes, i);
        hide Ancestor, IsWritten, Orderly, NoneBelow;
      }
    }
    assert NoneBelow(t, front) by {
      FrontHoldsNothing(t, writes);
    }
  }

  lemma FrontHoldsNothing(t: Tree, writes: seq<ToWrite>)
    requires writes != [] && NoneBelow(t, writes)
    ensures NoneBelow(t, writes[..|writes| - 1])
  {
    var front := writes[..|writes| - 1];
    forall i, q | 0 <= i < |front| && (q in t || IsWritten(front, q))
      ensures MayHold(front[i].entry, q)
    {
      FrontHas(writes, i);
      FrontWrites(writes, q);
      hide IsWritten, MayHold;
    }
  }

  // All writes succeed if and only if each directory above a path to write is
  // there, missing or written itself, and nothing lies below a file or link to
  // write or below its temporary name.
  lemma {:induction false} AllAreWritten(t: Tree, writes: seq<ToWrite>)
    requires Closed(t) && Orderly(writes)
    ensures AllWritable(t, writes) <==> CanWrite(t, writes)
    ensures AllWritable(t, writes) ==> Closed(AfterWrites(t, writes))
    decreases |writes|
  {
    hide Orderly, WaysAreFree, NoneBelow, Writable, Closed, Placed;
    if writes == [] {
      NothingToWrite(t);
    } else {
      var front, last := writes[..|writes| - 1], writes[|writes| - 1];
      FrontIsOrderly(writes);
      AllAreWritten(t, front);
      if CanWrite(t, writes) {
        FrontCanWrite(t, writes);
      }
      if AllWritable(t, front) {
        NextIsWritten(t, writes);
        if Writable(AfterWrites(t, front), last.entry) {
          PlacedIsClosed(AfterWrites(t, front), last.entry, last.content);
        }
      }
    }
  }

  lemma NothingToWrite(t: Tree)
    ensures CanWrite(t, [])
  {
  }
}
