// The three-way merge of line texts along the blocks of two diffs.
module Merge3 {
  import opened EditScript
  import opened Blocks
  import Diff

  datatype MergeResult = MergeResult(lines: seq<Line>, conflicts: nat)

  datatype Labels = Labels(ours: string, base: string, theirs: string)

  datatype Region = Region(baseStart: nat, baseEnd: nat, ourStart: nat, ourEnd: nat, theirStart: nat, theirEnd: nat)

  // The base lines that a block of either diff keeps, when there are any.
  function Overlap(ourBlock: Block, theirBlock: Block): seq<Region> {
    var start := Max(ourBlock.aStart, theirBlock.aStart);
    var end := Min(ourBlock.AEnd(), theirBlock.AEnd());
    if start < end then
      [Region(start, end,
              start - ourBlock.aStart + ourBlock.bStart, end - ourBlock.aStart + ourBlock.bStart,
              start - theirBlock.aStart + theirBlock.bStart, end - theirBlock.aStart + theirBlock.bStart)]
    else []
  }

  // The regions that all three texts share.
  function Sync(ourBlocks: seq<Block>, theirBlocks: seq<Block>): seq<Region>
    decreases |ourBlocks| + |theirBlocks|
  {
    if ourBlocks == [] || theirBlocks == [] then []
    else if ourBlocks[0].AEnd() < theirBlocks[0].AEnd() then
      Overlap(ourBlocks[0], theirBlocks[0]) + Sync(ourBlocks[1..], theirBlocks)
    else
      Overlap(ourBlocks[0], theirBlocks[0]) + Sync(ourBlocks, theirBlocks[1..])
  }

  function Sentinel(base: seq<Line>, ours: seq<Line>, theirs: seq<Line>): Region {
    Region(|base|, |base|, |ours|, |ours|, |theirs|, |theirs|)
  }

  function Regions(base: seq<Line>, ours: seq<Line>, theirs: seq<Line>, ourBlocks: seq<Block>,
                   theirBlocks: seq<Block>): seq<Region> {
    Sync(ourBlocks, theirBlocks) + [Sentinel(base, ours, theirs)]
  }

  // The regions of two diffs of one base, with a sentinel at the end.
  method SyncRegions(base: seq<Line>, ours: seq<Line>, theirs: seq<Line>)
    returns (regions: seq<Region>, ghost ourBlocks: seq<Block>, ghost theirBlocks: seq<Block>)
    ensures Aligned(base, ours, ourBlocks) && Aligned(base, theirs, theirBlocks)
    ensures Diff.LargestWhenClose(base, ours, ourBlocks) && Diff.LargestWhenClose(base, theirs, theirBlocks)
    ensures base == ours ==> ourBlocks == Diff.Whole(base)
    ensures base == theirs ==> theirBlocks == Diff.Whole(base)
    ensures ours == theirs ==> ourBlocks == theirBlocks
    ensures regions == Regions(base, ours, theirs, ourBlocks, theirBlocks)
  {
    hide *;
    ghost var cut;
    var o, t;
    o, cut := Diff.CommonBlocks(base, ours);
    // The diff is a function of its two texts, so equal texts get equal blocks.
    t := o;
    if ours != theirs {
      t, cut := Diff.CommonBlocks(base, theirs);
    }
    ourBlocks, theirBlocks := o, t;
    regions := SyncBlocks(o, t);
    regions := regions + [Sentinel(base, ours, theirs)];
    assert regions == Regions(base, ours, theirs, o, t) by {
      RegionsUnfold(base, ours, theirs, o, t);
    }
  }

  lemma RegionsUnfold(base: seq<Line>, ours: seq<Line>, theirs: seq<Line>, o: seq<Block>, t: seq<Block>)
    ensures Regions(base, ours, theirs, o, t) == Sync(o, t) + [Sentinel(base, ours, theirs)]
  {
  }

  method SyncBlocks(ourBlocks: seq<Block>, theirBlocks: seq<Block>) returns (regions: seq<Region>)
    ensures regions == Sync(ourBlocks, theirBlocks)
  {
    regions := [];
    var ourIndex, theirIndex := 0, 0;
    while ourIndex < |ourBlocks| && theirIndex < |theirBlocks|
      invariant ourIndex <= |ourBlocks| && theirIndex <= |theirBlocks|
      invariant Sync(ourBlocks, theirBlocks) == regions + Sync(ourBlocks[ourIndex..], theirBlocks[theirIndex..])
      decreases |ourBlocks| - ourIndex + |theirBlocks| - theirIndex
    {
      var ourBlock, theirBlock := ourBlocks[ourIndex], theirBlocks[theirIndex];
      regions := regions + Overlap(ourBlock, theirBlock);
      if ourBlock.AEnd() < theirBlock.AEnd() {
        ourIndex := ourIndex + 1;
      } else {
        theirIndex := theirIndex + 1;
      }
    }
  }

  // The three texts between two regions, and the common lines of the next one.
  datatype Piece = Piece(base: seq<Line>, ours: seq<Line>, theirs: seq<Line>, common: seq<Line>)

  // The regions follow each other from a place in each text up to its end, and
  // each one is the same in all three texts.
  ghost predicate Follow(regions: seq<Region>, base: seq<Line>, ours: seq<Line>, theirs: seq<Line>, b: nat, o: nat,
                         t: nat)
    decreases regions
  {
    if regions == [] then b == |base| && o == |ours| && t == |theirs|
    else
      var region := regions[0];
      && b <= region.baseStart <= region.baseEnd <= |base|
      && o <= region.ourStart <= region.ourEnd <= |ours|
      && t <= region.theirStart <= region.theirEnd <= |theirs|
      && base[region.baseStart..region.baseEnd] == ours[region.ourStart..region.ourEnd]
         == theirs[region.theirStart..region.theirEnd]
      && Follow(regions[1..], base, ours, theirs, region.baseEnd, region.ourEnd, region.theirEnd)
  }

  function PieceAt(region: Region, base: seq<Line>, ours: seq<Line>, theirs: seq<Line>, b: nat, o: nat, t: nat): Piece
    requires b <= region.baseStart <= region.baseEnd <= |base|
    requires o <= region.ourStart <= |ours| && t <= region.theirStart <= |theirs|
  {
    Piece(base[b..region.baseStart], ours[o..region.ourStart], theirs[t..region.theirStart],
          base[region.baseStart..region.baseEnd])
  }

  function Walk(regions: seq<Region>, base: seq<Line>, ours: seq<Line>, theirs: seq<Line>, b: nat, o: nat,
                t: nat): seq<Piece>
    requires Follow(regions, base, ours, theirs, b, o, t)
    decreases regions
  {
    if regions == [] then []
    else
      [PieceAt(regions[0], base, ours, theirs, b, o, t)]
      + Walk(regions[1..], base, ours, theirs, regions[0].baseEnd, regions[0].ourEnd, regions[0].theirEnd)
  }

  function Marker(prefix: string, name: string): string {
    if name == "" then prefix else prefix + " " + name
  }

  function ConflictLines(piece: Piece, labels: Labels): seq<Line> {
    [Marker("<<<<<<<", labels.ours)] + piece.ours + [Marker("|||||||", labels.base)] + piece.base
    + ["======="] + piece.theirs + [Marker(">>>>>>>", labels.theirs)]
  }

  function Conflicts(piece: Piece): bool {
    piece.ours != piece.theirs && piece.ours != piece.base && piece.theirs != piece.base
  }

  function MergePiece(piece: Piece, labels: Labels): seq<Line> {
    if piece.ours == piece.theirs then piece.ours
    else if piece.ours == piece.base then piece.theirs
    else if piece.theirs == piece.base then piece.ours
    else ConflictLines(piece, labels)
  }

  function MergePieces(pieces: seq<Piece>, labels: Labels): MergeResult {
    if pieces == [] then MergeResult([], 0)
    else
      var rest := MergePieces(pieces[1..], labels);
      MergeResult(MergePiece(pieces[0], labels) + pieces[0].common + rest.lines,
                  (if Conflicts(pieces[0]) then 1 else 0) + rest.conflicts)
  }

  // Where the next regions can start, as far as one block tells.
  ghost predicate Reaches(block: Block, a: nat, b: nat) {
    a <= block.AEnd() && b <= block.bStart + Max(0, a - block.aStart)
  }

  ghost predicate CanFollow(o: seq<Block>, t: seq<Block>, bLow: nat, oLow: nat, tLow: nat) {
    o != [] && t != [] ==>
      Reaches(o[0], bLow, oLow) && Reaches(t[0], bLow, tLow) && bLow <= Max(o[0].aStart, t[0].aStart)
  }

  lemma AlignedRest(a: seq<Line>, b: seq<Line>, blocks: seq<Block>)
    requires Aligned(a, b, blocks) && blocks != []
    ensures Aligned(a, b, blocks[1..]) && BlockMatches(a, b, blocks[0])
    ensures |blocks| > 1 ==> EndsBefore(blocks[0], blocks[1]) && BlockMatches(a, b, blocks[1])
  {
    hide BlockMatches, EndsBefore;
  }

  // The region of two blocks is the same in all three texts.
  lemma OverlapFits(base: seq<Line>, ours: seq<Line>, theirs: seq<Line>, o: Block, t: Block)
    requires BlockMatches(base, ours, o) && BlockMatches(base, theirs, t) && Overlap(o, t) != []
    ensures var region := Overlap(o, t)[0];
            && region.baseStart <= region.baseEnd <= |base|
            && region.ourStart <= region.ourEnd <= |ours| && region.theirStart <= region.theirEnd <= |theirs|
            && base[region.baseStart..region.baseEnd] == ours[region.ourStart..region.ourEnd]
               == theirs[region.theirStart..region.theirEnd]
  {
    var region := Overlap(o, t)[0];
    SubRange(base, ours, o, region.baseStart, region.baseEnd);
    SubRange(base, theirs, t, region.baseStart, region.baseEnd);
  }

  lemma SubRange(a: seq<Line>, b: seq<Line>, block: Block, low: nat, high: nat)
    requires BlockMatches(a, b, block) && block.aStart <= low <= high <= block.AEnd()
    ensures a[low..high] == b[low - block.aStart + block.bStart..high - block.aStart + block.bStart]
  {
    var i, j := low - block.aStart, high - block.aStart;
    SliceOfSlice(a, block.aStart, block.AEnd(), i, j);
    SliceOfSlice(b, block.bStart, block.BEnd(), i, j);
    assert block.aStart + i == low && block.bStart + i == low - block.aStart + block.bStart;
  }

  lemma SliceOfSlice(s: seq<Line>, low: nat, high: nat, i: nat, j: nat)
    requires low <= high <= |s| && i <= j <= high - low
    ensures s[low..high][i..j] == s[low + i..low + j]
  {
    var inner, outer := s[low..high][i..j], s[low + i..low + j];
    assert |inner| == |outer|;
    assert forall k :: 0 <= k < |inner| ==> inner[k] == outer[k];
  }

  // The blocks that are left after one step of the walk over two diffs.
  function NextBlocks(o: seq<Block>, t: seq<Block>): (seq<Block>, seq<Block>)
    requires o != [] && t != []
  {
    if o[0].AEnd() < t[0].AEnd() then (o[1..], t) else (o, t[1..])
  }

  ghost predicate FirstTwo(blocks: seq<Block>) {
    && blocks != [] && blocks[0].length > 0
    && (|blocks| > 1 ==> EndsBefore(blocks[0], blocks[1]) && blocks[1].length > 0)
  }

  lemma StepCanFollow(o: seq<Block>, t: seq<Block>, bLow: nat, oLow: nat, tLow: nat)
    requires FirstTwo(o) && FirstTwo(t) && CanFollow(o, t, bLow, oLow, tLow)
    ensures var (o', t') := NextBlocks(o, t);
            if Overlap(o[0], t[0]) == [] then CanFollow(o', t', bLow, oLow, tLow)
            else
              var region := Overlap(o[0], t[0])[0];
              && bLow <= region.baseStart && oLow <= region.ourStart && tLow <= region.theirStart
              && CanFollow(o', t', region.baseEnd, region.ourEnd, region.theirEnd)
  {
  }

  lemma FollowPrepends(region: Region, rest: seq<Region>, base: seq<Line>, ours: seq<Line>, theirs: seq<Line>, b: nat,
                       o: nat, t: nat)
    requires b <= region.baseStart <= region.baseEnd <= |base|
    requires o <= region.ourStart <= region.ourEnd <= |ours| && t <= region.theirStart <= region.theirEnd <= |theirs|
    requires base[region.baseStart..region.baseEnd] == ours[region.ourStart..region.ourEnd]
             == theirs[region.theirStart..region.theirEnd]
    requires Follow(rest, base, ours, theirs, region.baseEnd, region.ourEnd, region.theirEnd)
    ensures Follow([region] + rest, base, ours, theirs, b, o, t)
  {
    assert ([region] + rest)[1..] == rest;
  }

  // The regions of two diffs of one base follow each other through the texts.
  lemma {:induction false} SyncFollows(base: seq<Line>, ours: seq<Line>, theirs: seq<Line>, o: seq<Block>,
                                       t: seq<Block>, bLow: nat, oLow: nat, tLow: nat)
    requires Aligned(base, ours, o) && Aligned(base, theirs, t) && CanFollow(o, t, bLow, oLow, tLow)
    requires bLow <= |base| && oLow <= |ours| && tLow <= |theirs|
    ensures Follow(Regions(base, ours, theirs, o, t), base, ours, theirs, bLow, oLow, tLow)
    decreases |o| + |t|
  {
    var last := Sentinel(base, ours, theirs);
    if o == [] || t == [] {
      FollowPrepends(last, [], base, ours, theirs, bLow, oLow, tLow);
    } else {
      AlignedRest(base, ours, o);
      AlignedRest(base, theirs, t);
      StepCanFollow(o, t, bLow, oLow, tLow);
      var (o', t') := NextBlocks(o, t);
      var overlap := Overlap(o[0], t[0]);
      RegionsStep(base, ours, theirs, o, t);
      hide Overlap, Aligned, BlockMatches, EndsBefore, CanFollow, Regions, Follow, Sync;
      if overlap == [] {
        SyncFollows(base, ours, theirs, o', t', bLow, oLow, tLow);
      } else {
        OverlapFits(base, ours, theirs, o[0], t[0]);
        SyncFollows(base, ours, theirs, o', t', overlap[0].baseEnd, overlap[0].ourEnd, overlap[0].theirEnd);
        FollowPrepends(overlap[0], Regions(base, ours, theirs, o', t'), base, ours, theirs, bLow, oLow, tLow);
      }
    }
  }

  lemma RegionsStep(base: seq<Line>, ours: seq<Line>, theirs: seq<Line>, o: seq<Block>, t: seq<Block>)
    requires o != [] && t != []
    ensures var (o', t') := NextBlocks(o, t);
            var rest := Regions(base, ours, theirs, o', t');
            Regions(base, ours, theirs, o, t) ==
              if Overlap(o[0], t[0]) == [] then rest else [Overlap(o[0], t[0])[0]] + rest
  {
    var (o', t') := NextBlocks(o, t);
    var overlap, last := Overlap(o[0], t[0]), [Sentinel(base, ours, theirs)];
    assert Sync(o, t) == overlap + Sync(o', t');
    assert overlap + Sync(o', t') + last == overlap + (Sync(o', t') + last);
    assert |overlap| <= 1;
  }

  // What the pieces say of each text.
  function BaseText(pieces: seq<Piece>): seq<Line> {
    if pieces == [] then [] else pieces[0].base + pieces[0].common + BaseText(pieces[1..])
  }

  function OurText(pieces: seq<Piece>): seq<Line> {
    if pieces == [] then [] else pieces[0].ours + pieces[0].common + OurText(pieces[1..])
  }

  function TheirText(pieces: seq<Piece>): seq<Line> {
    if pieces == [] then [] else pieces[0].theirs + pieces[0].common + TheirText(pieces[1..])
  }

  lemma CutTwice(s: seq<Line>, i: nat, j: nat, k: nat)
    requires i <= j <= k <= |s|
    ensures s[i..] == s[i..j] + s[j..k] + s[k..]
  {
  }

  // The pieces of a walk concatenate back to the rest of all three texts.
  lemma {:induction false} WalkReadsBack(regions: seq<Region>, base: seq<Line>, ours: seq<Line>, theirs: seq<Line>,
                                         b: nat, o: nat, t: nat)
    requires Follow(regions, base, ours, theirs, b, o, t) && b <= |base| && o <= |ours| && t <= |theirs|
    ensures var pieces := Walk(regions, base, ours, theirs, b, o, t);
            BaseText(pieces) == base[b..] && OurText(pieces) == ours[o..] && TheirText(pieces) == theirs[t..]
    decreases regions
  {
    if regions != [] {
      var r := regions[0];
      var pieces := Walk(regions, base, ours, theirs, b, o, t);
      var rest := Walk(regions[1..], base, ours, theirs, r.baseEnd, r.ourEnd, r.theirEnd);
      assert pieces[0] == PieceAt(r, base, ours, theirs, b, o, t) && pieces[1..] == rest;
      WalkReadsBack(regions[1..], base, ours, theirs, r.baseEnd, r.ourEnd, r.theirEnd);
      CutTwice(base, b, r.baseStart, r.baseEnd);
      CutTwice(ours, o, r.ourStart, r.ourEnd);
      CutTwice(theirs, t, r.theirStart, r.theirEnd);
    }
  }

  // The merge along two given diffs of the base.
  ghost function MergeWith(base: seq<Line>, ours: seq<Line>, theirs: seq<Line>, o: seq<Block>, t: seq<Block>,
                           labels: Labels): MergeResult
    requires Aligned(base, ours, o) && Aligned(base, theirs, t)
  {
    MergePieces(PiecesOf(base, ours, theirs, o, t), labels)
  }

  ghost function PiecesOf(base: seq<Line>, ours: seq<Line>, theirs: seq<Line>, o: seq<Block>, t: seq<Block>): seq<Piece>
    requires Aligned(base, ours, o) && Aligned(base, theirs, t)
  {
    SyncFollows(base, ours, theirs, o, t, 0, 0, 0);
    Walk(Regions(base, ours, theirs, o, t), base, ours, theirs, 0, 0, 0)
  }

  lemma PiecesReadBack(base: seq<Line>, ours: seq<Line>, theirs: seq<Line>, o: seq<Block>, t: seq<Block>)
    requires Aligned(base, ours, o) && Aligned(base, theirs, t)
    ensures var pieces := PiecesOf(base, ours, theirs, o, t);
            BaseText(pieces) == base && OurText(pieces) == ours && TheirText(pieces) == theirs
  {
    SyncFollows(base, ours, theirs, o, t, 0, 0, 0);
    WalkReadsBack(Regions(base, ours, theirs, o, t), base, ours, theirs, 0, 0, 0);
  }

  // When one side changed no piece, the merge is the other side.
  lemma {:induction false} UnchangedSide(pieces: seq<Piece>, labels: Labels)
    ensures (forall i :: 0 <= i < |pieces| ==> pieces[i].ours == pieces[i].base)
            ==> MergePieces(pieces, labels) == MergeResult(TheirText(pieces), 0)
    ensures (forall i :: 0 <= i < |pieces| ==> pieces[i].theirs == pieces[i].base)
            ==> MergePieces(pieces, labels) == MergeResult(OurText(pieces), 0)
    ensures (forall i :: 0 <= i < |pieces| ==> pieces[i].ours == pieces[i].theirs)
            ==> MergePieces(pieces, labels) == MergeResult(OurText(pieces), 0)
    decreases pieces
  {
    hide ConflictLines;
    if pieces != [] {
      UnchangedSide(pieces[1..], labels);
      assert forall i :: 0 <= i < |pieces[1..]| ==> pieces[1..][i] == pieces[i + 1];
    }
  }

  function SwapRegion(region: Region): Region {
    Region(region.baseStart, region.baseEnd, region.theirStart, region.theirEnd, region.ourStart, region.ourEnd)
  }

  function SwapRegions(regions: seq<Region>): seq<Region> {
    if regions == [] then [] else [SwapRegion(regions[0])] + SwapRegions(regions[1..])
  }

  lemma {:induction false} SwapConcat(s: seq<Region>, t: seq<Region>)
    ensures SwapRegions(s + t) == SwapRegions(s) + SwapRegions(t)
    decreases s
  {
    if s == [] {
      assert s + t == t;
    } else {
      assert (s + t)[0] == s[0] && (s + t)[1..] == s[1..] + t;
      SwapConcat(s[1..], t);
    }
  }

  ghost predicate Ordered(blocks: seq<Block>) {
    && (forall i :: 0 <= i < |blocks| ==> blocks[i].length > 0)
    && (forall i, j :: 0 <= i < j < |blocks| ==> EndsBefore(blocks[i], blocks[j]))
  }

  // After a tie, the block that is kept gives no further region.
  lemma AfterTie(o: seq<Block>, t: seq<Block>)
    requires o != [] && t != [] && Ordered(o) && Ordered(t) && o[0].AEnd() == t[0].AEnd()
    ensures Sync(o, t[1..]) == Sync(o[1..], t[1..]) && Sync(o[1..], t) == Sync(o[1..], t[1..])
  {
    if |t| > 1 {
      assert EndsBefore(t[0], t[1]) && t[1..][0] == t[1] && t[1].length > 0;
      assert Overlap(o[0], t[1]) == [];
    }
    if |o| > 1 {
      assert EndsBefore(o[0], o[1]) && o[1..][0] == o[1] && o[1].length > 0;
      assert Overlap(o[1], t[0]) == [];
    }
  }

  lemma OverlapSwap(o: Block, t: Block)
    ensures Overlap(t, o) == SwapRegions(Overlap(o, t))
  {
  }

  lemma SyncStep(o: seq<Block>, t: seq<Block>)
    requires o != [] && t != []
    ensures Sync(o, t) ==
            Overlap(o[0], t[0]) + if o[0].AEnd() < t[0].AEnd() then Sync(o[1..], t) else Sync(o, t[1..])
  {
  }

  lemma RestIsOrdered(blocks: seq<Block>)
    requires Ordered(blocks) && blocks != []
    ensures Ordered(blocks[1..])
  {
    hide EndsBefore;
  }

  // Swapping the two diffs swaps the sides of every region.
  lemma {:induction false} SyncSwap(o: seq<Block>, t: seq<Block>)
    requires Ordered(o) && Ordered(t)
    ensures Sync(t, o) == SwapRegions(Sync(o, t))
    decreases |o| + |t|
  {
    if o == [] || t == [] {
    } else {
      hide Overlap, SwapRegions, Sync, Ordered;
      var overlap := Overlap(o[0], t[0]);
      OverlapSwap(o[0], t[0]);
      SyncStep(o, t);
      SyncStep(t, o);
      RestIsOrdered(o);
      RestIsOrdered(t);
      if o[0].AEnd() == t[0].AEnd() {
        AfterTie(o, t);
        AfterTie(t, o);
        SyncSwap(o[1..], t[1..]);
        SwapConcat(overlap, Sync(o[1..], t[1..]));
      } else if o[0].AEnd() < t[0].AEnd() {
        SyncSwap(o[1..], t);
        SwapConcat(overlap, Sync(o[1..], t));
      } else {
        SyncSwap(o, t[1..]);
        SwapConcat(overlap, Sync(o, t[1..]));
      }
    }
  }

  function SwapPiece(piece: Piece): Piece {
    Piece(piece.base, piece.theirs, piece.ours, piece.common)
  }

  function SwapPieces(pieces: seq<Piece>): seq<Piece> {
    seq(|pieces|, i requires 0 <= i < |pieces| => SwapPiece(pieces[i]))
  }

  lemma {:induction false} WalkSwap(regions: seq<Region>, base: seq<Line>, ours: seq<Line>, theirs: seq<Line>, b: nat,
                                    o: nat, t: nat)
    requires Follow(regions, base, ours, theirs, b, o, t)
    ensures Follow(SwapRegions(regions), base, theirs, ours, b, t, o)
    ensures Walk(SwapRegions(regions), base, theirs, ours, b, t, o) ==
            SwapPieces(Walk(regions, base, ours, theirs, b, o, t))
    decreases regions
  {
    if regions != [] {
      var r := regions[0];
      var swapped := SwapRegions(regions);
      assert swapped[0] == SwapRegion(r) && swapped[1..] == SwapRegions(regions[1..]);
      WalkSwap(regions[1..], base, ours, theirs, r.baseEnd, r.ourEnd, r.theirEnd);
      var rest := Walk(regions[1..], base, ours, theirs, r.baseEnd, r.ourEnd, r.theirEnd);
      var first := PieceAt(r, base, ours, theirs, b, o, t);
      assert PieceAt(swapped[0], base, theirs, ours, b, t, o) == SwapPiece(first);
      assert SwapPieces([first] + rest) == [SwapPiece(first)] + SwapPieces(rest);
    }
  }

  // Swapping ours and theirs swaps the sides of every piece.
  lemma PiecesSwap(base: seq<Line>, ours: seq<Line>, theirs: seq<Line>, o: seq<Block>, t: seq<Block>)
    requires Aligned(base, ours, o) && Aligned(base, theirs, t)
    ensures PiecesOf(base, theirs, ours, t, o) == SwapPieces(PiecesOf(base, ours, theirs, o, t))
  {
    SyncFollows(base, ours, theirs, o, t, 0, 0, 0);
    assert Ordered(o) && Ordered(t) by { hide EndsBefore; }
    SyncSwap(o, t);
    SwapConcat(Sync(o, t), [Sentinel(base, ours, theirs)]);
    assert SwapRegions([Sentinel(base, ours, theirs)]) == [Sentinel(base, theirs, ours)];
    WalkSwap(Regions(base, ours, theirs, o, t), base, ours, theirs, 0, 0, 0);
  }

  lemma {:induction false} MergeSwapped(pieces: seq<Piece>, labels: Labels, other: Labels)
    ensures MergePieces(SwapPieces(pieces), other).conflicts == MergePieces(pieces, labels).conflicts
    ensures MergePieces(pieces, labels).conflicts == 0 ==>
            MergePieces(SwapPieces(pieces), other) == MergePieces(pieces, labels)
    decreases pieces
  {
    hide ConflictLines;
    if pieces != [] {
      assert SwapPieces(pieces)[1..] == SwapPieces(pieces[1..]);
      MergeSwapped(pieces[1..], labels, other);
    }
  }

  // Swapping ours and theirs keeps the number of conflicts, and it keeps the
  // merged text when there are none, for any diffs and any labels.
  lemma MergeIsSymmetric(base: seq<Line>, ours: seq<Line>, theirs: seq<Line>, o: seq<Block>, t: seq<Block>,
                         labels: Labels, other: Labels)
    requires Aligned(base, ours, o) && Aligned(base, theirs, t)
    ensures var merged := MergeWith(base, ours, theirs, o, t, labels);
            var swapped := MergeWith(base, theirs, ours, t, o, other);
            && merged.conflicts == swapped.conflicts
            && (merged.conflicts == 0 ==> merged == swapped)
  {
    hide Aligned, PiecesOf;
    PiecesSwap(base, ours, theirs, o, t);
    MergeSwapped(PiecesOf(base, ours, theirs, o, t), labels, other);
  }

  // Two sides that made the same change, seen by the same diff, give that change.
  lemma MergeOfSame(base: seq<Line>, both: seq<Line>, blocks: seq<Block>, labels: Labels)
    requires Aligned(base, both, blocks)
    ensures MergeWith(base, both, both, blocks, blocks, labels) == MergeResult(both, 0)
  {
    hide Aligned;
    var pieces := PiecesOf(base, both, both, blocks, blocks);
    PiecesSwap(base, both, both, blocks, blocks);
    assert forall i :: 0 <= i < |pieces| ==> pieces[i] == SwapPieces(pieces)[i] == SwapPiece(pieces[i]);
    PiecesReadBack(base, both, both, blocks, blocks);
    UnchangedSide(pieces, labels);
  }

  ghost predicate OursInPlace(regions: seq<Region>) {
    forall i :: 0 <= i < |regions| ==>
        regions[i].ourStart == regions[i].baseStart && regions[i].ourEnd == regions[i].baseEnd
  }

  lemma {:induction false} SyncInPlace(o: seq<Block>, t: seq<Block>)
    requires forall i :: 0 <= i < |o| ==> o[i].bStart == o[i].aStart
    ensures OursInPlace(Sync(o, t))
    decreases |o| + |t|
  {
    if o != [] && t != [] {
      if o[0].AEnd() < t[0].AEnd() {
        SyncInPlace(o[1..], t);
      } else {
        SyncInPlace(o, t[1..]);
      }
    }
  }

  lemma {:induction false} WalkInPlace(regions: seq<Region>, base: seq<Line>, theirs: seq<Line>, b: nat, t: nat)
    requires OursInPlace(regions) && Follow(regions, base, base, theirs, b, b, t)
    ensures forall i :: 0 <= i < |Walk(regions, base, base, theirs, b, b, t)| ==>
              var piece := Walk(regions, base, base, theirs, b, b, t)[i]; piece.ours == piece.base
    decreases regions
  {
    if regions != [] {
      var r := regions[0];
      assert OursInPlace(regions[1..]);
      WalkInPlace(regions[1..], base, theirs, r.baseEnd, r.theirEnd);
    }
  }

  // A side that did not change takes the other side as it is.
  lemma MergeWithUnchangedOurs(base: seq<Line>, theirs: seq<Line>, t: seq<Block>, labels: Labels)
    requires Aligned(base, theirs, t) && Aligned(base, base, Diff.Whole(base))
    ensures MergeWith(base, base, theirs, Diff.Whole(base), t, labels) == MergeResult(theirs, 0)
  {
    var whole := Diff.Whole(base);
    SyncFollows(base, base, theirs, whole, t, 0, 0, 0);
    SyncInPlace(whole, t);
    hide Aligned, Sync, Follow;
    WalkInPlace(Regions(base, base, theirs, whole, t), base, theirs, 0, 0);
    PiecesReadBack(base, base, theirs, whole, t);
    UnchangedSide(PiecesOf(base, base, theirs, whole, t), labels);
  }

  lemma MergeWithUnchangedTheirs(base: seq<Line>, ours: seq<Line>, o: seq<Block>, labels: Labels)
    requires Aligned(base, ours, o) && Aligned(base, base, Diff.Whole(base))
    ensures MergeWith(base, ours, base, o, Diff.Whole(base), labels) == MergeResult(ours, 0)
  {
    hide Aligned;
    MergeWithUnchangedOurs(base, ours, o, labels);
    MergeIsSymmetric(base, base, ours, Diff.Whole(base), o, labels, labels);
  }

  // The merge of the texts from one region on, in front of what is merged.
  ghost predicate MergedSoFar(done: MergeResult, regions: seq<Region>, base: seq<Line>, ours: seq<Line>,
                              theirs: seq<Line>, b: nat, o: nat, t: nat, labels: Labels, whole: MergeResult) {
    && Follow(regions, base, ours, theirs, b, o, t)
    && var rest := MergePieces(Walk(regions, base, ours, theirs, b, o, t), labels);
       whole == MergeResult(done.lines + rest.lines, done.conflicts + rest.conflicts)
  }

  lemma MergedStep(done: MergeResult, regions: seq<Region>, base: seq<Line>, ours: seq<Line>, theirs: seq<Line>,
                   b: nat, o: nat, t: nat, labels: Labels, whole: MergeResult)
    requires MergedSoFar(done, regions, base, ours, theirs, b, o, t, labels, whole) && regions != []
    ensures var r := regions[0];
            && b <= r.baseStart <= r.baseEnd <= |base| && o <= r.ourStart <= |ours| && t <= r.theirStart <= |theirs|
            && var piece := PieceAt(r, base, ours, theirs, b, o, t);
               MergedSoFar(MergeResult(done.lines + (MergePiece(piece, labels) + piece.common),
                                       done.conflicts + if Conflicts(piece) then 1 else 0),
                           regions[1..], base, ours, theirs, r.baseEnd, r.ourEnd, r.theirEnd, labels, whole)
  {
    hide MergePiece, Conflicts;
    var r := regions[0];
    var piece := PieceAt(r, base, ours, theirs, b, o, t);
    var rest := MergePieces(Walk(regions[1..], base, ours, theirs, r.baseEnd, r.ourEnd, r.theirEnd), labels);
    var walked := Walk(regions, base, ours, theirs, b, o, t);
    assert walked[0] == piece && walked[1..] == Walk(regions[1..], base, ours, theirs, r.baseEnd, r.ourEnd, r.theirEnd);
    var merged := MergePiece(piece, labels) + piece.common;
    assert done.lines + (merged + rest.lines) == done.lines + merged + rest.lines;
  }

  // Writes each piece and the common lines behind it.
  method MergeRegions(regions: seq<Region>, base: seq<Line>, ours: seq<Line>, theirs: seq<Line>, labels: Labels)
    returns (result: MergeResult)
    requires Follow(regions, base, ours, theirs, 0, 0, 0)
    ensures result == MergePieces(Walk(regions, base, ours, theirs, 0, 0, 0), labels)
  {
    ghost var whole := MergePieces(Walk(regions, base, ours, theirs, 0, 0, 0), labels);
    result := MergeResult([], 0);
    var baseIndex, ourIndex, theirIndex := 0, 0, 0;
    assert regions[0..] == regions;
    for i := 0 to |regions|
      invariant MergedSoFar(result, regions[i..], base, ours, theirs, baseIndex, ourIndex, theirIndex, labels, whole)
    {
      hide *;
      var region := regions[i];
      MergedStep(result, regions[i..], base, ours, theirs, baseIndex, ourIndex, theirIndex, labels, whole);
      assert regions[i..][1..] == regions[i + 1..];
      var piece := PieceAt(region, base, ours, theirs, baseIndex, ourIndex, theirIndex);
      result := MergeResult(result.lines + (MergePiece(piece, labels) + piece.common),
                            result.conflicts + if Conflicts(piece) then 1 else 0);
      baseIndex, ourIndex, theirIndex := region.baseEnd, region.ourEnd, region.theirEnd;
    }
  }

  // Merges the texts along their diffs. A side that did not change takes the
  // other side as it is, and two equal changes do not conflict.
  method Merge3(base: seq<Line>, ours: seq<Line>, theirs: seq<Line>, labels: Labels)
    returns (result: MergeResult, ghost ourBlocks: seq<Block>, ghost theirBlocks: seq<Block>)
    ensures Aligned(base, ours, ourBlocks) && Aligned(base, theirs, theirBlocks)
    ensures Diff.LargestWhenClose(base, ours, ourBlocks) && Diff.LargestWhenClose(base, theirs, theirBlocks)
    ensures result == MergeWith(base, ours, theirs, ourBlocks, theirBlocks, labels)
    ensures base == ours ==> result == MergeResult(theirs, 0)
    ensures base == theirs ==> result == MergeResult(ours, 0)
    ensures ours == theirs ==> result == MergeResult(ours, 0)
  {
    hide Aligned, Regions, MergePieces, Walk, Follow, Diff.LargestWhenClose;
    var regions;
    regions, ourBlocks, theirBlocks := SyncRegions(base, ours, theirs);
    SyncFollows(base, ours, theirs, ourBlocks, theirBlocks, 0, 0, 0);
    result := MergeRegions(regions, base, ours, theirs, labels);
    MergeLaws(base, ours, theirs, ourBlocks, theirBlocks, labels);
  }

  lemma MergeLaws(base: seq<Line>, ours: seq<Line>, theirs: seq<Line>, o: seq<Block>, t: seq<Block>, labels: Labels)
    requires Aligned(base, ours, o) && Aligned(base, theirs, t)
    ensures base == ours && o == Diff.Whole(base) ==>
            MergeWith(base, ours, theirs, o, t, labels) == MergeResult(theirs, 0)
    ensures base == theirs && t == Diff.Whole(base) ==>
            MergeWith(base, ours, theirs, o, t, labels) == MergeResult(ours, 0)
    ensures ours == theirs && o == t ==> MergeWith(base, ours, theirs, o, t, labels) == MergeResult(ours, 0)
  {
    hide Aligned, MergeWith;
    if base == ours && o == Diff.Whole(base) {
      MergeWithUnchangedOurs(base, theirs, t, labels);
    }
    if base == theirs && t == Diff.Whole(base) {
      MergeWithUnchangedTheirs(base, ours, o, labels);
    }
    if ours == theirs && o == t {
      MergeOfSame(base, ours, o, labels);
    }
  }

  // A function that diffs two texts as CommonBlocks does.
  ghost predicate IsDiff(diff: (seq<Line>, seq<Line>) -> seq<Block>) {
    forall a, b :: Aligned(a, b, diff(a, b)) && (a == b ==> diff(a, b) == Diff.Whole(a))
  }

  // With one diff for all pairs of texts, swapping the sides of a merge keeps its
  // conflicts and a clean result, and a side that is unchanged, or the same as
  // the other one, takes the other one.
  lemma MergeByOneDiff(diff: (seq<Line>, seq<Line>) -> seq<Block>, base: seq<Line>, ours: seq<Line>, theirs: seq<Line>,
                       labels: Labels, other: Labels)
    requires IsDiff(diff)
    ensures var merged := MergeWith(base, ours, theirs, diff(base, ours), diff(base, theirs), labels);
            var swapped := MergeWith(base, theirs, ours, diff(base, theirs), diff(base, ours), other);
            && merged.conflicts == swapped.conflicts && (merged.conflicts == 0 ==> merged == swapped)
            && (base == ours || ours == theirs ==> merged == MergeResult(theirs, 0))
            && (base == theirs ==> merged == MergeResult(ours, 0))
  {
    hide Aligned, MergeWith;
    MergeIsSymmetric(base, ours, theirs, diff(base, ours), diff(base, theirs), labels, other);
    MergeLaws(base, ours, theirs, diff(base, ours), diff(base, theirs), labels);
  }
}
