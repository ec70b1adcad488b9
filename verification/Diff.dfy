// Line diffs: the common blocks of two texts and the script they give.
module Diff {
  import opened EditScript
  import opened Blocks
  import opened Filtering
  import Myers

  // Numbers the distinct lines of a text in the order of their first use.
  method NameLines(a: seq<Line>) returns (identifierOf: map<Line, nat>, identifiers: seq<nat>)
    ensures Injective(identifierOf)
    ensures forall line :: line in identifierOf <==> line in a
    ensures forall line :: line in identifierOf ==> identifierOf[line] < |identifierOf|
    ensures |identifiers| == |a| && forall i :: 0 <= i < |a| ==> identifiers[i] == identifierOf[a[i]]
  {
    hide Dist;
    identifierOf, identifiers := map[], [];
    for index := 0 to |a|
      invariant Injective(identifierOf)
      invariant forall line :: line in identifierOf <==> line in a[..index]
      invariant forall line :: line in identifierOf ==> identifierOf[line] < |identifierOf|
      invariant |identifiers| == index && forall i :: 0 <= i < index ==> identifiers[i] == identifierOf[a[i]]
    {
      var line := a[index];
      assert a[..index + 1] == a[..index] + [line];
      if line !in identifierOf {
        identifierOf := identifierOf[line := |identifierOf|];
      }
      identifiers := identifiers + [identifierOf[line]];
    }
  }

  // Keeps the lines of b that a has too, and marks which lines of a those are.
  method KeepKnown(b: seq<Line>, identifierOf: map<Line, nat>, shared: array<bool>)
      returns (keptB: seq<nat>, keptBIndex: seq<nat>)
    requires Injective(identifierOf)
    requires forall line :: line in identifierOf ==> identifierOf[line] < shared.Length
    requires forall i :: 0 <= i < shared.Length ==> !shared[i]
    modifies shared
    ensures KeptLines(b, identifierOf.Keys, identifierOf, keptB, keptBIndex)
    ensures forall line :: line in identifierOf ==> (shared[identifierOf[line]] <==> line in b)
  {
    hide Dist;
    keptB, keptBIndex := [], [];
    for index := 0 to |b|
      invariant KeptLines(b[..index], identifierOf.Keys, identifierOf, keptB, keptBIndex)
      invariant forall line :: line in identifierOf ==> (shared[identifierOf[line]] <==> line in b[..index])
    {
      var line := b[index];
      KeptGrows(b, index, identifierOf.Keys, identifierOf, keptB, keptBIndex);
      assert b[..index + 1] == b[..index] + [line];
      if line in identifierOf {
        shared[identifierOf[line]] := true;
        keptB, keptBIndex := keptB + [identifierOf[line]], keptBIndex + [index];
      }
    }
    assert b[..|b|] == b;
  }

  method KeepShared(a: seq<Line>, aIdentifiers: seq<nat>, ghost identifierOf: map<Line, nat>, ghost keep: set<Line>,
                    shared: array<bool>)
    returns (keptA: seq<nat>, keptAIndex: seq<nat>)
    requires keep <= identifierOf.Keys && |aIdentifiers| == |a|
    requires forall i :: 0 <= i < |a| ==> a[i] in identifierOf && aIdentifiers[i] == identifierOf[a[i]]
    requires forall i :: 0 <= i < |a| ==> aIdentifiers[i] < shared.Length && (shared[aIdentifiers[i]] <==> a[i] in keep)
    ensures KeptLines(a, keep, identifierOf, keptA, keptAIndex)
  {
    hide Dist;
    keptA, keptAIndex := [], [];
    for index := 0 to |a|
      invariant KeptLines(a[..index], keep, identifierOf, keptA, keptAIndex)
    {
      var identifier := aIdentifiers[index];
      KeptGrows(a, index, keep, identifierOf, keptA, keptAIndex);
      if shared[identifier] {
        keptA, keptAIndex := keptA + [identifier], keptAIndex + [index];
      }
    }
    assert a[..|a|] == a;
  }

  // Names the lines that both texts have, and keeps where they stand.
  method KeepCommon(a: seq<Line>, b: seq<Line>)
    returns (keptA: seq<nat>, keptAIndex: seq<nat>, keptB: seq<nat>, keptBIndex: seq<nat>,
             ghost names: map<Line, nat>, ghost keepA: set<Line>)
    ensures Injective(names)
    ensures KeptLines(a, keepA, names, keptA, keptAIndex)
    ensures KeptLines(b, names.Keys, names, keptB, keptBIndex)
    ensures Dist(a, b) == Dist(keptA, keptB) + (|a| - |keptA|) + (|b| - |keptB|)
    ensures |keptA| <= |a| && |keptB| <= |b|
  {
    hide Dist;
    var identifierOf, aIdentifiers := NameLines(a);
    var shared := new bool[|identifierOf|](_ => false);
    keptB, keptBIndex := KeepKnown(b, identifierOf, shared);
    keepA := set line | line in a && line in b;
    keptA, keptAIndex := KeepShared(a, aIdentifiers, identifierOf, keepA, shared);
    names := identifierOf;
    KeptIsNamed(a, keepA, names, keptA, keptAIndex);
    KeptIsNamed(b, names.Keys, names, keptB, keptBIndex);
    DistKept(a, b, keepA, names.Keys, names, keptA, keptB);
  }

  // The numbers that matched kept lines have in the whole texts.
  ghost function Placed(pairs: seq<Pair>, keptAIndex: seq<nat>, keptBIndex: seq<nat>, offset: nat): seq<Pair> {
    Shift(Remap(pairs, keptAIndex, keptBIndex), offset)
  }

  lemma PlacedConcat(s: seq<Pair>, t: seq<Pair>, keptAIndex: seq<nat>, keptBIndex: seq<nat>, offset: nat)
    ensures Placed(s + t, keptAIndex, keptBIndex, offset)
         == Placed(s, keptAIndex, keptBIndex, offset) + Placed(t, keptAIndex, keptBIndex, offset)
  {
  }

  lemma PlacedSnoc(run: Block, position: nat, keptAIndex: seq<nat>, keptBIndex: seq<nat>, offset: nat)
    requires position < run.length && run.AEnd() <= |keptAIndex| && run.BEnd() <= |keptBIndex|
    ensures Placed(Run(run)[..position + 1], keptAIndex, keptBIndex, offset)
         == Placed(Run(run)[..position], keptAIndex, keptBIndex, offset)
          + Run(Block(keptAIndex[run.aStart + position] + offset, keptBIndex[run.bStart + position] + offset, 1))
  {
  }

  method AppendRun(blocks: seq<Block>, run: Block, keptAIndex: seq<nat>, keptBIndex: seq<nat>, offset: nat)
    returns (appended: seq<Block>)
    requires Positive(blocks) && run.AEnd() <= |keptAIndex| && run.BEnd() <= |keptBIndex|
    ensures Positive(appended)
    ensures Pairs(appended) == Pairs(blocks) + Placed(Run(run), keptAIndex, keptBIndex, offset)
  {
    hide Dist;
    appended := blocks;
    for position := 0 to run.length
      invariant Positive(appended)
      invariant Pairs(appended) == Pairs(blocks) + Placed(Run(run)[..position], keptAIndex, keptBIndex, offset)
    {
      var aStart := keptAIndex[run.aStart + position] + offset;
      var bStart := keptBIndex[run.bStart + position] + offset;
      AppendBlockPairs(appended, aStart, bStart, 1);
      appended := AppendBlock(appended, aStart, bStart, 1);
      PlacedSnoc(run, position, keptAIndex, keptBIndex, offset);
    }
    assert Run(run)[..run.length] == Run(run);
  }

  lemma PairsOfFirst(runs: seq<Block>, r: nat)
    requires r < |runs|
    ensures Pairs(runs[..r + 1]) == Pairs(runs[..r]) + Run(runs[r])
  {
    hide Run;
    assert runs[..r + 1][..r] == runs[..r];
  }

  // Appends the matched lines of aligned runs, one by one, at their own numbers.
  method AppendRuns(blocks: seq<Block>, runs: seq<Block>, keptAIndex: seq<nat>, keptBIndex: seq<nat>, offset: nat)
    returns (appended: seq<Block>)
    requires Positive(blocks)
    requires forall i :: 0 <= i < |runs| ==> runs[i].AEnd() <= |keptAIndex| && runs[i].BEnd() <= |keptBIndex|
    ensures Positive(appended)
    ensures Pairs(appended) == Pairs(blocks) + Placed(Pairs(runs), keptAIndex, keptBIndex, offset)
  {
    hide Dist, Run;
    assert Placed(Pairs(runs[..0]), keptAIndex, keptBIndex, offset) == [];
    hide Placed, Pairs, Positive;
    appended := blocks;
    for r := 0 to |runs|
      invariant Positive(appended)
      invariant Pairs(appended) == Pairs(blocks) + Placed(Pairs(runs[..r]), keptAIndex, keptBIndex, offset)
    {
      appended := AppendRun(appended, runs[r], keptAIndex, keptBIndex, offset);
      PlacedConcat(Pairs(runs[..r]), Run(runs[r]), keptAIndex, keptBIndex, offset);
      PairsOfFirst(runs, r);
    }
    assert runs[..|runs|] == runs;
  }

  method AlignIdentifiers(a: seq<nat>, b: seq<nat>) returns (runs: seq<Block>, ghost cut: bool)
    ensures Matching(a, b, Pairs(runs)) && Aligned(a, b, runs)
    ensures !cut ==> |a| + |b| - 2 * |Pairs(runs)| == Dist(a, b)
    ensures Dist(a, b) <= 2048 ==> !cut
  {
    hide Dist;
    var state := new Myers.Aligner(a, b);
    ghost var found;
    found, cut := state.Align(0, |a|, 0, |b|);
    runs := state.runs;
    assert a[..|a|] == a && b[..|b|] == b;
    assert Pairs(runs) == found;
    MatchingIsAligned(a, b, runs);
  }

  // Aligns two middles. A line that the other middle does not have is in no pair, so
  // the search runs without those.
  method AppendMiddleBlocks(blocks: seq<Block>, a: seq<Line>, b: seq<Line>, offset: nat)
    returns (appended: seq<Block>, ghost found: seq<Pair>, ghost cut: bool)
    requires Positive(blocks)
    ensures Positive(appended) && Pairs(appended) == Pairs(blocks) + Shift(found, offset)
    ensures Matching(a, b, found)
    ensures !cut ==> |a| + |b| - 2 * |found| == Dist(a, b)
    ensures Dist(a, b) <= 2048 ==> !cut
    ensures |a| == 0 || |b| == 0 ==> appended == blocks
  {
    hide Dist;
    appended, found, cut := blocks, [], false;
    DistEmpty(a);
    DistEmpty(b);
    assert Shift(found, offset) == [];
    if |a| == 0 || |b| == 0 {
      return;
    }
    var keptA, keptAIndex, keptB, keptBIndex;
    ghost var names, keepA;
    keptA, keptAIndex, keptB, keptBIndex, names, keepA := KeepCommon(a, b);
    DistEmpty(keptA);
    DistEmpty(keptB);
    if |keptA| == 0 || |keptB| == 0 {
      return;
    }
    var runs;
    runs, cut := AlignIdentifiers(keptA, keptB);
    RemapMatches(a, b, keepA, names.Keys, names, keptA, keptAIndex, keptB, keptBIndex, Pairs(runs));
    found := Remap(Pairs(runs), keptAIndex, keptBIndex);
    assert forall i :: 0 <= i < |runs| ==> BlockMatches(keptA, keptB, runs[i]);
    appended := AppendRuns(blocks, runs, keptAIndex, keptBIndex, offset);
  }

  method AppendEqualRun(blocks: seq<Block>, aStart: nat, bStart: nat, length: nat) returns (appended: seq<Block>)
    requires Positive(blocks)
    ensures Positive(appended) && Pairs(appended) == Pairs(blocks) + Run(Block(aStart, bStart, length))
    ensures appended == if length > 0 then AppendBlock(blocks, aStart, bStart, length) else blocks
  {
    hide Dist;
    AppendBlockPairs(blocks, aStart, bStart, length);
    appended := if length > 0 then AppendBlock(blocks, aStart, bStart, length) else blocks;
  }

  // The matching of two middles, together with what was trimmed, is one of the texts.
  lemma WholeMatching(a: seq<Line>, b: seq<Line>, prefix: nat, suffix: nat, aTo: nat, bTo: nat, middle: seq<Pair>,
                      found: seq<Pair>)
    requires prefix <= aTo && prefix <= bTo && aTo + suffix == |a| && bTo + suffix == |b|
    requires a[0..prefix] == b[0..prefix] && a[aTo..|a|] == b[bTo..|b|]
    requires Matching(a[prefix..aTo], b[prefix..bTo], middle)
    requires found == Run(Block(0, 0, prefix)) + Shift(middle, prefix) + Run(Block(aTo, bTo, suffix))
    ensures Matching(a, b, found)
    ensures Dist(a, b) == Dist(a[prefix..aTo], b[prefix..bTo])
    ensures |a| + |b| - 2 * |found| == |a[prefix..aTo]| + |b[prefix..bTo]| - 2 * |middle|
  {
    hide Dist;
    ShiftMatches(a, b, aTo, bTo, prefix, middle);
    assert a[0..|a|] == a && b[0..|b|] == b;
    Myers.TrimmedMatching(a, b, 0, prefix, aTo, |a|, 0, prefix, bTo, |b|, prefix, suffix, Shift(middle, prefix), found);
  }

  // The one block that matches a text with itself.
  function Whole(a: seq<Line>): seq<Block> {
    if a == [] then [] else [Block(0, 0, |a|)]
  }

  // Appends the blocks behind a common prefix.
  method AppendAfterPrefix(blocks: seq<Block>, a: seq<Line>, b: seq<Line>, prefix: nat)
    returns (appended: seq<Block>, ghost cut: bool)
    requires Positive(blocks) && Pairs(blocks) == Run(Block(0, 0, prefix))
    requires prefix <= |a| && prefix <= |b| && a[0..prefix] == b[0..prefix]
    ensures Positive(appended) && Matching(a, b, Pairs(appended))
    ensures !cut ==> |a| + |b| - 2 * |Pairs(appended)| == Dist(a, b)
    ensures Dist(a, b) <= 2048 ==> !cut
    ensures prefix == |a| == |b| ==> appended == blocks
  {
    hide *;
    var suffix := Myers.CommonSuffix(a, b, prefix, |a|, prefix, |b|);
    var aTo, bTo := |a| - suffix, |b| - suffix;
    ghost var middle;
    appended, middle, cut := AppendMiddleBlocks(blocks, a[prefix..aTo], b[prefix..bTo], prefix);
    appended := AppendEqualRun(appended, aTo, bTo, suffix);
    WholeMatching(a, b, prefix, suffix, aTo, bTo, middle, Pairs(appended));
  }

  // Matching these lines leaves out as few lines as possible.
  ghost predicate IsLargest(a: seq<Line>, b: seq<Line>, pairs: seq<Pair>) {
    |a| + |b| - 2 * |pairs| == Dist(a, b)
  }

  // Texts up to this distance are never cut short.
  ghost predicate LargestWhenClose(a: seq<Line>, b: seq<Line>, blocks: seq<Block>) {
    Dist(a, b) <= 2048 ==> IsLargest(a, b, Pairs(blocks))
  }

  // The blocks of equal lines that a diff of two texts keeps.
  method CommonBlocks(a: seq<Line>, b: seq<Line>) returns (blocks: seq<Block>, ghost cut: bool)
    ensures Matching(a, b, Pairs(blocks)) && Aligned(a, b, blocks)
    ensures !cut ==> |a| + |b| - 2 * |Pairs(blocks)| == Dist(a, b)
    ensures Dist(a, b) <= 2048 ==> !cut
    ensures LargestWhenClose(a, b, blocks)
    ensures a == b ==> blocks == Whole(a)
  {
    hide Dist, Matching, Aligned;
    var prefix := Myers.CommonPrefix(a, b, 0, |a|, 0, |b|);
    blocks := AppendEqualRun([], 0, 0, prefix);
    assert Pairs(blocks) == Run(Block(0, 0, prefix));
    blocks, cut := AppendAfterPrefix(blocks, a, b, prefix);
    MatchingIsAligned(a, b, blocks);
  }

  ghost function Marked(op: Op, lines: seq<Line>): seq<Edit<Line>> {
    seq(|lines|, i requires 0 <= i < |lines| => Edit(op, lines[i]))
  }

  lemma {:induction false} MarkedSides(op: Op, lines: seq<Line>)
    ensures OldSide(Marked(op, lines)) == if op == Insert then [] else lines
    ensures NewSide(Marked(op, lines)) == if op == Delete then [] else lines
    ensures Cost(Marked(op, lines)) == if op == Equal then 0 else |lines|
    decreases lines
  {
    hide Dist;
    if lines != [] {
      MarkedSides(op, lines[1..]);
      assert Marked(op, lines)[1..] == Marked(op, lines[1..]);
    }
  }

  // Within a run of changes, every deletion comes before the insertions.
  ghost predicate DeletesFirst(edits: seq<Edit<Line>>) {
    forall i :: 0 < i < |edits| && edits[i].op == Delete ==> edits[i - 1].op != Insert
  }

  ghost predicate EndsInsert(edits: seq<Edit<Line>>) {
    edits != [] && edits[|edits| - 1].op == Insert
  }

  // The script so far reads back the two prefixes and has kept some lines.
  ghost predicate Scripted(a: seq<Line>, b: seq<Line>, edits: seq<Edit<Line>>, aIndex: nat, bIndex: nat, kept: nat) {
    && aIndex <= |a| && bIndex <= |b|
    && IsScript(edits, a[..aIndex], b[..bIndex])
    && Cost(edits) + 2 * kept == aIndex + bIndex
    && DeletesFirst(edits)
  }

  method AppendLines(edits: seq<Edit<Line>>, op: Op, lines: seq<Line>, start: nat, end: nat)
      returns (r: seq<Edit<Line>>)
    requires start <= end <= |lines|
    ensures r == edits + Marked(op, lines[start..end])
  {
    hide Dist;
    r := edits;
    for index := start to end
      invariant r == edits + Marked(op, lines[start..index])
    {
      r := r + [Edit(op, lines[index])];
      assert lines[start..index + 1] == lines[start..index] + [lines[index]];
    }
  }

  lemma MarkedAfter(edits: seq<Edit<Line>>, op: Op, lines: seq<Line>)
    requires DeletesFirst(edits) && (op == Delete ==> !EndsInsert(edits))
    ensures DeletesFirst(edits + Marked(op, lines))
    ensures op != Insert && (lines != [] || !EndsInsert(edits)) ==> !EndsInsert(edits + Marked(op, lines))
  {
  }

  lemma DeletionsAppended(a: seq<Line>, b: seq<Line>, edits: seq<Edit<Line>>, aIndex: nat, bIndex: nat, aTo: nat,
                          kept: nat)
    requires Scripted(a, b, edits, aIndex, bIndex, kept) && !EndsInsert(edits) && aIndex <= aTo <= |a|
    ensures Scripted(a, b, edits + Marked(Delete, a[aIndex..aTo]), aTo, bIndex, kept)
  {
    hide OldSide, NewSide, Cost, Marked, DeletesFirst, EndsInsert;
    var lines := a[aIndex..aTo];
    MarkedSides(Delete, lines);
    MarkedAfter(edits, Delete, lines);
    SidesConcat(edits, Marked(Delete, lines));
    assert a[..aIndex] + lines == a[..aTo];
  }

  lemma InsertionsAppended(a: seq<Line>, b: seq<Line>, edits: seq<Edit<Line>>, aIndex: nat, bIndex: nat, bTo: nat,
                           kept: nat)
    requires Scripted(a, b, edits, aIndex, bIndex, kept) && bIndex <= bTo <= |b|
    ensures Scripted(a, b, edits + Marked(Insert, b[bIndex..bTo]), aIndex, bTo, kept)
  {
    hide OldSide, NewSide, Cost, Marked, DeletesFirst, EndsInsert;
    var lines := b[bIndex..bTo];
    MarkedSides(Insert, lines);
    MarkedAfter(edits, Insert, lines);
    SidesConcat(edits, Marked(Insert, lines));
    assert b[..bIndex] + lines == b[..bTo];
  }

  lemma EqualsAppended(a: seq<Line>, b: seq<Line>, edits: seq<Edit<Line>>, run: Block, kept: nat)
    requires Scripted(a, b, edits, run.aStart, run.bStart, kept) && BlockMatches(a, b, run)
    ensures var r := edits + Marked(Equal, a[run.aStart..run.AEnd()]);
            Scripted(a, b, r, run.AEnd(), run.BEnd(), kept + run.length) && !EndsInsert(r)
  {
    hide OldSide, NewSide, Cost, Marked, DeletesFirst, EndsInsert;
    var same := a[run.aStart..run.AEnd()];
    MarkedSides(Equal, same);
    MarkedAfter(edits, Equal, same);
    SidesConcat(edits, Marked(Equal, same));
    assert a[..run.aStart] + same == a[..run.AEnd()];
    assert b[..run.bStart] + same == b[..run.BEnd()];
  }

  // Appends the deletions and the insertions up to a pair of line numbers.
  method AppendChanges(a: seq<Line>, b: seq<Line>, edits: seq<Edit<Line>>, aIndex: nat, bIndex: nat, aTo: nat, bTo: nat,
                       ghost kept: nat)
    returns (r: seq<Edit<Line>>)
    requires Scripted(a, b, edits, aIndex, bIndex, kept) && !EndsInsert(edits)
    requires aIndex <= aTo <= |a| && bIndex <= bTo <= |b|
    ensures Scripted(a, b, r, aTo, bTo, kept)
  {
    hide Dist;
    r := AppendLines(edits, Delete, a, aIndex, aTo);
    DeletionsAppended(a, b, edits, aIndex, bIndex, aTo, kept);
    InsertionsAppended(a, b, r, aTo, bIndex, bTo, kept);
    r := AppendLines(r, Insert, b, bIndex, bTo);
  }

  method AppendEquals(a: seq<Line>, b: seq<Line>, edits: seq<Edit<Line>>, run: Block, ghost kept: nat)
      returns (r: seq<Edit<Line>>)
    requires Scripted(a, b, edits, run.aStart, run.bStart, kept) && BlockMatches(a, b, run)
    ensures Scripted(a, b, r, run.AEnd(), run.BEnd(), kept + run.length) && !EndsInsert(r)
  {
    hide Dist;
    EqualsAppended(a, b, edits, run, kept);
    r := AppendLines(edits, Equal, a, run.aStart, run.AEnd());
  }

  lemma PairsGrow(blocks: seq<Block>, r: nat)
    requires r < |blocks|
    ensures |Pairs(blocks[..r + 1])| == |Pairs(blocks[..r])| + blocks[r].length
  {
    assert blocks[..r + 1][..r] == blocks[..r];
  }

  // No script between the two texts costs less.
  ghost predicate IsShortest(edits: seq<Edit<Line>>, a: seq<Line>, b: seq<Line>) {
    IsScript(edits, a, b) && forall other :: IsScript(other, a, b) ==> Cost(edits) <= Cost(other)
  }

  lemma DistIsShortest(edits: seq<Edit<Line>>, a: seq<Line>, b: seq<Line>)
    requires IsScript(edits, a, b)
    ensures IsShortest(edits, a, b) <==> Cost(edits) == Dist(a, b)
  {
    hide Dist;
    DistIsLeast(a, b);
  }

  // The edit script of two texts. It always reads back both of them. It is a
  // shortest script unless a search was cut, and no search of texts that are
  // at most 2048 edits apart ever is.
  method Diff(a: seq<Line>, b: seq<Line>) returns (edits: seq<Edit<Line>>, ghost cut: bool)
    ensures IsScript(edits, a, b) && DeletesFirst(edits)
    ensures !cut ==> IsShortest(edits, a, b) && Cost(edits) == |a| + |b| - 2 * Lcs(a, b)
    ensures Dist(a, b) <= 2048 ==> !cut
  {
    hide Dist, Whole, Lcs, Matching;
    var blocks;
    blocks, cut := CommonBlocks(a, b);
    edits := [];
    var aIndex, bIndex := 0, 0;
    for r := 0 to |blocks|
      invariant aIndex == (if r == 0 then 0 else blocks[r - 1].AEnd())
                && bIndex == (if r == 0 then 0 else blocks[r - 1].BEnd())
      invariant Scripted(a, b, edits, aIndex, bIndex, |Pairs(blocks[..r])|) && !EndsInsert(edits)
    {
      var run := blocks[r];
      assert BlockMatches(a, b, run) && (r > 0 ==> EndsBefore(blocks[r - 1], run));
      ghost var kept := |Pairs(blocks[..r])|;
      PairsGrow(blocks, r);
      hide Scripted, EndsInsert, Pairs;
      edits := AppendChanges(a, b, edits, aIndex, bIndex, run.aStart, run.bStart, kept);
      edits := AppendEquals(a, b, edits, run, kept);
      aIndex, bIndex := run.AEnd(), run.BEnd();
    }
    assert blocks[..|blocks|] == blocks;
    edits := AppendChanges(a, b, edits, aIndex, bIndex, |a|, |b|, |Pairs(blocks)|);
    assert a[..|a|] == a && b[..|b|] == b;
    DistIsShortest(edits, a, b);
    DistByLcs(a, b);
  }
}
