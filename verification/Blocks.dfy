// Runs of matching lines, and the matching of single lines that they stand for.
module Blocks {
  import opened EditScript

  datatype Block = Block(aStart: nat, bStart: nat, length: nat) {
    function AEnd(): nat { aStart + length }
    function BEnd(): nat { bStart + length }
  }

  type Pair = (nat, nat)

  ghost function Run(block: Block): seq<Pair> {
    seq(block.length, i requires 0 <= i < block.length => (block.aStart + i, block.bStart + i))
  }

  // The matched line numbers of a list of blocks, in order.
  ghost function Pairs(blocks: seq<Block>): seq<Pair> {
    if blocks == [] then [] else Pairs(blocks[..|blocks| - 1]) + Run(blocks[|blocks| - 1])
  }

  ghost predicate Positive(blocks: seq<Block>) {
    forall i :: 0 <= i < |blocks| ==> blocks[i].length > 0
  }

  ghost predicate PairIn<T>(a: seq<T>, b: seq<T>, pair: Pair, aLow: nat, aHigh: nat, bLow: nat, bHigh: nat)
    requires aHigh <= |a| && bHigh <= |b|
  {
    aLow <= pair.0 < aHigh && bLow <= pair.1 < bHigh && a[pair.0] == b[pair.1]
  }

  ghost predicate Before(left: Pair, right: Pair) {
    left.0 < right.0 && left.1 < right.1
  }

  ghost predicate Increasing(pairs: seq<Pair>) {
    forall i, j :: 0 <= i < j < |pairs| ==> Before(pairs[i], pairs[j])
  }

  // The pairs match equal lines of a rectangle, in increasing order.
  ghost predicate MatchingIn<T>(a: seq<T>, b: seq<T>, pairs: seq<Pair>, aLow: nat, aHigh: nat, bLow: nat, bHigh: nat)
    requires aHigh <= |a| && bHigh <= |b|
  {
    Increasing(pairs) && forall i :: 0 <= i < |pairs| ==> PairIn(a, b, pairs[i], aLow, aHigh, bLow, bHigh)
  }

  ghost predicate Matching<T>(a: seq<T>, b: seq<T>, pairs: seq<Pair>) {
    MatchingIn(a, b, pairs, 0, |a|, 0, |b|)
  }

  // Extends the last block when the new one starts where it ends.
  function AppendBlock(blocks: seq<Block>, aStart: nat, bStart: nat, length: nat): seq<Block> {
    var last := |blocks| - 1;
    if last >= 0 && blocks[last].AEnd() == aStart && blocks[last].BEnd() == bStart then
      blocks[last := blocks[last].(length := blocks[last].length + length)]
    else
      blocks + [Block(aStart, bStart, length)]
  }

  // Joining blocks does not change which lines they match.
  lemma AppendBlockPairs(blocks: seq<Block>, aStart: nat, bStart: nat, length: nat)
    ensures Pairs(AppendBlock(blocks, aStart, bStart, length)) == Pairs(blocks) + Run(Block(aStart, bStart, length))
    ensures Positive(blocks) && length > 0 ==> Positive(AppendBlock(blocks, aStart, bStart, length))
  {
    var last := |blocks| - 1;
    var appended := AppendBlock(blocks, aStart, bStart, length);
    if last >= 0 && blocks[last].AEnd() == aStart && blocks[last].BEnd() == bStart {
      assert appended[..last] == blocks[..last];
      assert Run(appended[last]) == Run(blocks[last]) + Run(Block(aStart, bStart, length));
    } else {
      assert appended[..last + 1] == blocks;
    }
  }

  // Matchings of two rectangles that touch at a corner join to one.
  lemma JoinMatchings<T>(a: seq<T>, b: seq<T>, s: seq<Pair>, t: seq<Pair>,
                         aLow: nat, aMid: nat, aHigh: nat, bLow: nat, bMid: nat, bHigh: nat)
    requires aLow <= aMid <= aHigh <= |a| && bLow <= bMid <= bHigh <= |b|
    requires MatchingIn(a, b, s, aLow, aMid, bLow, bMid) && MatchingIn(a, b, t, aMid, aHigh, bMid, bHigh)
    ensures MatchingIn(a, b, s + t, aLow, aHigh, bLow, bHigh)
  {
    forall i | 0 <= i < |s + t|
      ensures PairIn(a, b, (s + t)[i], aLow, aHigh, bLow, bHigh)
    {
      if i < |s| {
        assert PairIn(a, b, s[i], aLow, aMid, bLow, bMid);
      } else {
        assert PairIn(a, b, t[i - |s|], aMid, aHigh, bMid, bHigh);
      }
    }
    forall i, j | 0 <= i < j < |s + t|
      ensures Before((s + t)[i], (s + t)[j])
    {
      if j < |s| {
        assert Before(s[i], s[j]);
      } else if i < |s| {
        assert PairIn(a, b, s[i], aLow, aMid, bLow, bMid);
        assert PairIn(a, b, t[j - |s|], aMid, aHigh, bMid, bHigh);
      } else {
        assert Before(t[i - |s|], t[j - |s|]);
      }
    }
  }

  lemma RunMatches<T>(a: seq<T>, b: seq<T>, aStart: nat, bStart: nat, length: nat)
    requires aStart + length <= |a| && bStart + length <= |b|
    requires a[aStart..aStart + length] == b[bStart..bStart + length]
    ensures MatchingIn(a, b, Run(Block(aStart, bStart, length)), aStart, aStart + length, bStart, bStart + length)
  {
    var run := Run(Block(aStart, bStart, length));
    forall i | 0 <= i < length
      ensures PairIn(a, b, run[i], aStart, aStart + length, bStart, bStart + length)
    {
      assert a[aStart..aStart + length][i] == b[bStart..bStart + length][i];
    }
  }

  // The blocks are in order, in bounds, disjoint and match equal lines.
  ghost predicate Aligned<T>(a: seq<T>, b: seq<T>, blocks: seq<Block>) {
    && (forall i :: 0 <= i < |blocks| ==> BlockMatches(a, b, blocks[i]))
    && (forall i, j :: 0 <= i < j < |blocks| ==> EndsBefore(blocks[i], blocks[j]))
  }

  ghost predicate BlockMatches<T>(a: seq<T>, b: seq<T>, block: Block) {
    && block.length > 0 && block.AEnd() <= |a| && block.BEnd() <= |b|
    && a[block.aStart..block.AEnd()] == b[block.bStart..block.BEnd()]
  }

  ghost predicate BlockLineMatches<T>(a: seq<T>, b: seq<T>, block: Block, k: nat) {
    && block.aStart + k < |a| && block.bStart + k < |b|
    && a[block.aStart + k] == b[block.bStart + k]
  }

  ghost predicate EndsBefore(left: Block, right: Block) {
    left.AEnd() <= right.aStart && left.BEnd() <= right.bStart
  }

  lemma {:induction false} PairOfBlock(blocks: seq<Block>, i: nat, k: nat) returns (at: nat)
    requires i < |blocks| && k < blocks[i].length
    ensures at < |Pairs(blocks)|
    ensures Pairs(blocks)[at] == (blocks[i].aStart + k, blocks[i].bStart + k)
    decreases blocks
  {
    var last := |blocks| - 1;
    if i == last {
      at := |Pairs(blocks[..last])| + k;
    } else {
      at := PairOfBlock(blocks[..last], i, k);
    }
  }

  lemma {:induction false} PairsInOrder(blocks: seq<Block>, i: nat, k: nat, j: nat, l: nat)
    requires i < j < |blocks| && k < blocks[i].length && l < blocks[j].length
    requires Increasing(Pairs(blocks))
    ensures Before((blocks[i].aStart + k, blocks[i].bStart + k), (blocks[j].aStart + l, blocks[j].bStart + l))
    decreases blocks
  {
    var last := |blocks| - 1;
    var front := Pairs(blocks[..last]);
    if j == last {
      var at := PairOfBlock(blocks[..last], i, k);
      assert Before(Pairs(blocks)[at], Pairs(blocks)[|front| + l]);
    } else {
      assert Pairs(blocks)[..|front|] == front;
      PairsInOrder(blocks[..last], i, k, j, l);
    }
  }

  // Blocks whose pairs form a matching are aligned.
  lemma MatchingIsAligned<T>(a: seq<T>, b: seq<T>, blocks: seq<Block>)
    requires Positive(blocks) && Matching(a, b, Pairs(blocks))
    ensures Aligned(a, b, blocks)
  {
    forall i | 0 <= i < |blocks|
      ensures BlockMatches(a, b, blocks[i])
    {
      var block := blocks[i];
      forall k: nat | k < block.length
        ensures BlockLineMatches(a, b, block, k)
      {
        var at := PairOfBlock(blocks, i, k);
        assert PairIn(a, b, Pairs(blocks)[at], 0, |a|, 0, |b|);
      }
      assert BlockLineMatches(a, b, block, block.length - 1);
      var left, right := a[block.aStart..block.AEnd()], b[block.bStart..block.BEnd()];
      forall k: nat | k < block.length
        ensures left[k] == right[k]
      {
        assert BlockLineMatches(a, b, block, k);
      }
    }
    forall i, j | 0 <= i < j < |blocks|
      ensures EndsBefore(blocks[i], blocks[j])
    {
      PairsInOrder(blocks, i, blocks[i].length - 1, j, 0);
    }
  }
}
