// Changes that a line in between keeps apart: they merge without a conflict.
module CleanMerge {
  import opened EditScript
  import opened Blocks
  import opened Merge3
  import opened Diff

  // A line that each of two texts has once, between two parts of each.
  ghost predicate SplitBy(text: seq<Line>, front: seq<Line>, line: Line, back: seq<Line>) {
    text == front + [line] + back && line !in front && line !in back
  }

  lemma LineIsOnce(text: seq<Line>, front: seq<Line>, line: Line, back: seq<Line>, i: nat)
    requires SplitBy(text, front, line, back) && i < |text|
    ensures text[i] == line <==> i == |front|
    ensures i < |front| ==> text[i] == front[i]
    ensures i > |front| ==> text[i] == back[i - |front| - 1]
  {
  }

  // How many pairs at the start lie before a line of the first or second text.
  ghost function PairsBefore(pairs: seq<Pair>, p: nat, first: bool): nat {
    if pairs == [] || !((if first then pairs[0].0 else pairs[0].1) < p) then 0
    else 1 + PairsBefore(pairs[1..], p, first)
  }

  lemma {:induction false} PairsSplit(pairs: seq<Pair>, p: nat, first: bool)
    requires Increasing(pairs)
    ensures PairsBefore(pairs, p, first) <= |pairs|
    ensures forall i :: 0 <= i < |pairs| ==>
      (i < PairsBefore(pairs, p, first) <==> (if first then pairs[i].0 else pairs[i].1) < p)
    decreases pairs
  {
    if pairs != [] {
      var rest := pairs[1..];
      forall i, j | 0 <= i < j < |rest|
        ensures Before(rest[i], rest[j])
      {
        assert Before(pairs[i + 1], pairs[j + 1]);
      }
      PairsSplit(rest, p, first);
      forall i | 0 <= i < |pairs|
        ensures i < PairsBefore(pairs, p, first) <==> (if first then pairs[i].0 else pairs[i].1) < p
      {
        assert i > 0 ==> pairs[i] == rest[i - 1] && Before(pairs[0], pairs[i]);
      }
    }
  }

  // Increasing pairs take at least one line each of both texts.
  lemma {:induction false} PairsFit(pairs: seq<Pair>, aLow: int, aHigh: int, bLow: int, bHigh: int)
    requires Increasing(pairs) && aLow <= aHigh && bLow <= bHigh
    requires forall i :: 0 <= i < |pairs| ==> aLow <= pairs[i].0 < aHigh && bLow <= pairs[i].1 < bHigh
    ensures |pairs| <= aHigh - aLow && |pairs| <= bHigh - bLow
    ensures |pairs| == aHigh - aLow ==> forall i :: 0 <= i < |pairs| ==> pairs[i].0 == aLow + i
    ensures |pairs| == bHigh - bLow ==> forall i :: 0 <= i < |pairs| ==> pairs[i].1 == bLow + i
    decreases pairs
  {
    if pairs != [] {
      var last := |pairs| - 1;
      var front := pairs[..last];
      assert forall i :: 0 <= i < last ==> Before(pairs[i], pairs[last]);
      PairsFit(front, aLow, pairs[last].0, bLow, pairs[last].1);
      assert forall i :: 0 <= i < last ==> front[i] == pairs[i];
    }
  }

  // A matching costs all lines that it leaves out, so it has at most so many pairs.
  lemma {:induction false} MatchingCosts(a: seq<Line>, b: seq<Line>, pairs: seq<Pair>)
    requires Matching(a, b, pairs)
    ensures Dist(a, b) + 2 * |pairs| <= |a| + |b|
    decreases |pairs|
  {
    hide Dist;
    if pairs == [] {
      DistByLcs(a, b);
    } else {
      var last := |pairs| - 1;
      var (i, j) := pairs[last];
      assert PairIn(a, b, pairs[last], 0, |a|, 0, |b|);
      FrontMatches(a, b, pairs);
      MatchingCosts(a[..i], b[..j], pairs[..last]);
      DistByLcs(a[i + 1..], b[j + 1..]);
      DistCommonPrefix([a[i]], a[i + 1..], b[j + 1..]);
      DistConcat(a[..i], b[..j], [a[i]] + a[i + 1..], [a[i]] + b[j + 1..]);
      assert a == a[..i] + ([a[i]] + a[i + 1..]) && b == b[..j] + ([a[i]] + b[j + 1..]);
    }
  }

  lemma FrontMatches(a: seq<Line>, b: seq<Line>, pairs: seq<Pair>)
    requires Matching(a, b, pairs) && pairs != []
    ensures var (i, j) := pairs[|pairs| - 1]; i < |a| && j < |b| && Matching(a[..i], b[..j], pairs[..|pairs| - 1])
  {
    var last := |pairs| - 1;
    var (i, j) := pairs[last];
    assert PairIn(a, b, pairs[last], 0, |a|, 0, |b|);
    forall k | 0 <= k < last
      ensures PairIn(a[..i], b[..j], pairs[k], 0, i, 0, j)
    {
      assert PairIn(a, b, pairs[k], 0, |a|, 0, |b|) && Before(pairs[k], pairs[last]);
    }
  }

  // The pairs of a part, numbered from its start.
  ghost function Moved(pairs: seq<Pair>, a: nat, b: nat): seq<Pair>
    requires forall i :: 0 <= i < |pairs| ==> pairs[i].0 >= a && pairs[i].1 >= b
  {
    seq(|pairs|, i requires 0 <= i < |pairs| => (pairs[i].0 - a, pairs[i].1 - b))
  }

  // The pairs within two parts match these parts.
  lemma PartMatches(a: seq<Line>, b: seq<Line>, pairs: seq<Pair>, aLow: nat, aHigh: nat, bLow: nat, bHigh: nat)
    requires aLow <= aHigh <= |a| && bLow <= bHigh <= |b| && MatchingIn(a, b, pairs, aLow, aHigh, bLow, bHigh)
    ensures Dist(a[aLow..aHigh], b[bLow..bHigh]) + 2 * |pairs| <= aHigh - aLow + bHigh - bLow
  {
    hide Dist;
    assert forall i :: 0 <= i < |pairs| ==> PairIn(a, b, pairs[i], aLow, aHigh, bLow, bHigh);
    var part, other, moved := a[aLow..aHigh], b[bLow..bHigh], Moved(pairs, aLow, bLow);
    forall i | 0 <= i < |moved|
      ensures PairIn(part, other, moved[i], 0, |part|, 0, |other|)
    {
      assert PairIn(a, b, pairs[i], aLow, aHigh, bLow, bHigh);
    }
    forall i, j | 0 <= i < j < |moved|
      ensures Before(moved[i], moved[j])
    {
      assert Before(pairs[i], pairs[j]);
    }
    MatchingCosts(part, other, moved);
  }

  // No matching has more pairs than a largest one.
  lemma LargestHasMost(a: seq<Line>, b: seq<Line>, pairs: seq<Pair>, others: seq<Pair>)
    requires IsLargest(a, b, pairs) && Matching(a, b, others)
    ensures |others| <= |pairs|
  {
    hide Dist;
    MatchingCosts(a, b, others);
  }

  // A line that stands once in both texts, with equal parts before it or behind it,
  // is in every largest matching, with largest matchings of the parts around it.
  lemma LineIsKept(a: seq<Line>, b: seq<Line>, pairs: seq<Pair>, a1: seq<Line>, b1: seq<Line>, line: Line,
                   a2: seq<Line>, b2: seq<Line>)
      returns (n: nat)
    requires SplitBy(a, a1, line, a2) && SplitBy(b, b1, line, b2) && (a1 == b1 || a2 == b2)
    requires Matching(a, b, pairs) && IsLargest(a, b, pairs)
    ensures n < |pairs| && pairs[n] == (|a1|, |b1|)
    ensures forall i :: 0 <= i < n ==> pairs[i].0 < |a1| && pairs[i].1 < |b1|
    ensures forall i :: n < i < |pairs| ==> pairs[i].0 > |a1| && pairs[i].1 > |b1|
    ensures a1 == b1 ==> forall i :: 0 <= i < n ==> pairs[i].0 == pairs[i].1
    ensures a2 == b2 ==> forall i :: n < i < |pairs| ==> pairs[i].1 - |b1| == pairs[i].0 - |a1|
  {
    hide Dist;
    n := PairsBefore(pairs, |a1|, true);
    var m := PairsBefore(pairs, |b1|, false);
    PairsSplit(pairs, |a1|, true);
    PairsSplit(pairs, |b1|, false);
    DistOfSplit(a, b, a1, b1, line, a2, b2);
    Crossing(a, b, pairs, a1, b1, line, a2, b2, n, m);
    Straight(a, b, pairs, a1, b1, line, a2, b2, n);
  }

  // The cost of two such texts is that of the parts that differ.
  lemma DistOfSplit(a: seq<Line>, b: seq<Line>, a1: seq<Line>, b1: seq<Line>, line: Line, a2: seq<Line>, b2: seq<Line>)
    requires SplitBy(a, a1, line, a2) && SplitBy(b, b1, line, b2)
    ensures a1 == b1 ==> Dist(a, b) == Dist(a2, b2)
    ensures a2 == b2 ==> Dist(a, b) == Dist(a1, b1)
  {
    hide Dist;
    DistCommonPrefix(a1 + [line], a2, b2);
    DistCommonSuffix(a1, b1, [line] + a2);
    assert a == a1 + ([line] + a2) && b == b1 + ([line] + b2);
  }

  // The line on one side is matched on the other side only with itself.
  lemma OnlyItself(a: seq<Line>, b: seq<Line>, pairs: seq<Pair>, a1: seq<Line>, b1: seq<Line>, line: Line,
                   a2: seq<Line>, b2: seq<Line>, i: nat)
    requires SplitBy(a, a1, line, a2) && SplitBy(b, b1, line, b2) && Matching(a, b, pairs) && i < |pairs|
    ensures pairs[i].0 < |a| && pairs[i].1 < |b| && (pairs[i].0 == |a1| <==> pairs[i].1 == |b1|)
  {
    assert PairIn(a, b, pairs[i], 0, |a|, 0, |b|);
    LineIsOnce(a, a1, line, a2, pairs[i].0);
    LineIsOnce(b, b1, line, b2, pairs[i].1);
  }

  lemma SubMatching(a: seq<Line>, b: seq<Line>, pairs: seq<Pair>, low: nat, high: nat, aLow: nat, aHigh: nat, bLow: nat,
                    bHigh: nat)
    requires Matching(a, b, pairs) && low <= high <= |pairs| && aLow <= aHigh <= |a| && bLow <= bHigh <= |b|
    requires forall i :: low <= i < high ==> aLow <= pairs[i].0 < aHigh && bLow <= pairs[i].1 < bHigh
    ensures MatchingIn(a, b, pairs[low..high], aLow, aHigh, bLow, bHigh)
  {
    var some := pairs[low..high];
    forall i | 0 <= i < |some|
      ensures PairIn(a, b, some[i], aLow, aHigh, bLow, bHigh)
    {
      assert PairIn(a, b, pairs[low + i], 0, |a|, 0, |b|);
    }
    forall i, j | 0 <= i < j < |some|
      ensures Before(some[i], some[j])
    {
      assert Before(pairs[low + i], pairs[low + j]);
    }
  }

  // How many pairs fit before two places, and behind them.
  lemma FewBefore(a: seq<Line>, b: seq<Line>, pairs: seq<Pair>, k: nat, aHigh: nat, bHigh: nat)
    requires Matching(a, b, pairs) && k <= |pairs| && aHigh <= |a| && bHigh <= |b|
    requires forall i :: 0 <= i < k ==> pairs[i].0 < aHigh && pairs[i].1 < bHigh
    ensures Dist(a[..aHigh], b[..bHigh]) + 2 * k <= aHigh + bHigh && k <= aHigh && k <= bHigh
    ensures k == aHigh ==> forall i :: 0 <= i < k ==> pairs[i].0 == i
    ensures k == bHigh ==> forall i :: 0 <= i < k ==> pairs[i].1 == i
  {
    hide Dist;
    SubMatching(a, b, pairs, 0, k, 0, aHigh, 0, bHigh);
    PartMatches(a, b, pairs[0..k], 0, aHigh, 0, bHigh);
    PairsFit(pairs[0..k], 0, aHigh, 0, bHigh);
    assert a[0..aHigh] == a[..aHigh] && b[0..bHigh] == b[..bHigh];
    assert forall i :: 0 <= i < k ==> pairs[0..k][i] == pairs[i];
  }

  lemma FewBehind(a: seq<Line>, b: seq<Line>, pairs: seq<Pair>, k: nat, aLow: nat, bLow: nat)
    requires Matching(a, b, pairs) && k <= |pairs| && aLow <= |a| && bLow <= |b|
    requires forall i :: k <= i < |pairs| ==> aLow <= pairs[i].0 < |a| && bLow <= pairs[i].1 < |b|
    ensures Dist(a[aLow..], b[bLow..]) + 2 * (|pairs| - k) <= |a| - aLow + |b| - bLow
    ensures |pairs| - k <= |a| - aLow && |pairs| - k <= |b| - bLow
    ensures |pairs| - k == |a| - aLow ==> forall i :: k <= i < |pairs| ==> pairs[i].0 == aLow + i - k
    ensures |pairs| - k == |b| - bLow ==> forall i :: k <= i < |pairs| ==> pairs[i].1 == bLow + i - k
  {
    hide Dist;
    SubMatching(a, b, pairs, k, |pairs|, aLow, |a|, bLow, |b|);
    var rest := pairs[k..|pairs|];
    PartMatches(a, b, rest, aLow, |a|, bLow, |b|);
    PairsFit(rest, aLow, |a|, bLow, |b|);
    assert a[aLow..|a|] == a[aLow..] && b[bLow..|b|] == b[bLow..];
    assert forall i :: k <= i < |pairs| ==> rest[i - k] == pairs[i];
  }

  // All later pairs lie behind the line when one has come that does.
  lemma LaterIsBehind(pairs: seq<Pair>, k: nat, a: nat, b: nat)
    requires Increasing(pairs) && k < |pairs|
    requires forall i :: 0 <= i < |pairs| ==> (pairs[i].0 == a <==> pairs[i].1 == b)
    ensures pairs[k].0 >= a && pairs[k].1 != b ==> forall i :: k <= i < |pairs| ==> pairs[i].0 > a && pairs[i].1 != b
    ensures pairs[k].1 >= b && pairs[k].0 != a ==> forall i :: k <= i < |pairs| ==> pairs[i].1 > b && pairs[i].0 != a
  {
    forall i | k < i < |pairs|
      ensures Before(pairs[k], pairs[i])
    {
    }
  }

  // Pairs that cross the line are too few for a largest matching.
  lemma Crossing(a: seq<Line>, b: seq<Line>, pairs: seq<Pair>, a1: seq<Line>, b1: seq<Line>, line: Line,
                 a2: seq<Line>, b2: seq<Line>, n: nat, m: nat)
    requires SplitBy(a, a1, line, a2) && SplitBy(b, b1, line, b2) && (a1 == b1 || a2 == b2)
    requires Matching(a, b, pairs) && n <= |pairs| && m <= |pairs|
    requires forall i :: 0 <= i < |pairs| ==> (i < n <==> pairs[i].0 < |a1|) && (i < m <==> pairs[i].1 < |b1|)
    requires a1 == b1 ==> Dist(a, b) == Dist(a2, b2)
    requires a2 == b2 ==> Dist(a, b) == Dist(a1, b1)
    ensures IsLargest(a, b, pairs) ==> n == m
  {
    hide Dist, PairIn;
    forall i | 0 <= i < |pairs|
      ensures pairs[i].0 < |a| && pairs[i].1 < |b| && (pairs[i].0 == |a1| <==> pairs[i].1 == |b1|)
    {
      OnlyItself(a, b, pairs, a1, b1, line, a2, b2, i);
    }
    assert a[..|a1|] == a1 && b[..|b1|] == b1 && a[|a1| + 1..] == a2 && b[|b1| + 1..] == b2;
    hide SplitBy;
    if n < m {
      LaterIsBehind(pairs, n, |a1|, |b1|);
      if a2 == b2 {
        FewBefore(a, b, pairs, n, |a1|, |b1|);
        FewBehind(a, b, pairs, n, |a1| + 1, 0);
      } else {
        FewBefore(a, b, pairs, m, |a|, |b1|);
        FewBehind(a, b, pairs, m, |a1| + 1, |b1| + 1);
      }
    }
    if m < n {
      LaterIsBehind(pairs, m, |a1|, |b1|);
      if a2 == b2 {
        FewBefore(a, b, pairs, m, |a1|, |b1|);
        FewBehind(a, b, pairs, m, 0, |b1| + 1);
      } else {
        FewBefore(a, b, pairs, n, |a1|, |b|);
        FewBehind(a, b, pairs, n, |a1| + 1, |b1| + 1);
      }
    }
  }

  // Pairs that do not cross it keep the line, and are largest on both sides of it.
  lemma Straight(a: seq<Line>, b: seq<Line>, pairs: seq<Pair>, a1: seq<Line>, b1: seq<Line>, line: Line,
                 a2: seq<Line>, b2: seq<Line>, n: nat)
    requires SplitBy(a, a1, line, a2) && SplitBy(b, b1, line, b2) && (a1 == b1 || a2 == b2)
    requires Matching(a, b, pairs) && n <= |pairs| && IsLargest(a, b, pairs)
    requires forall i :: 0 <= i < |pairs| ==> (i < n <==> pairs[i].0 < |a1|) && (i < n <==> pairs[i].1 < |b1|)
    requires a1 == b1 ==> Dist(a, b) == Dist(a2, b2)
    requires a2 == b2 ==> Dist(a, b) == Dist(a1, b1)
    ensures n < |pairs| && pairs[n] == (|a1|, |b1|)
    ensures forall i :: n < i < |pairs| ==> pairs[i].0 > |a1| && pairs[i].1 > |b1|
    ensures a1 == b1 ==> forall i :: 0 <= i < n ==> pairs[i].0 == pairs[i].1
    ensures a2 == b2 ==> forall i :: n < i < |pairs| ==> pairs[i].1 - |b1| == pairs[i].0 - |a1|
  {
    hide Dist, PairIn;
    forall i | 0 <= i < |pairs|
      ensures pairs[i].0 < |a| && pairs[i].1 < |b| && (pairs[i].0 == |a1| <==> pairs[i].1 == |b1|)
    {
      OnlyItself(a, b, pairs, a1, b1, line, a2, b2, i);
    }
    assert a[..|a1|] == a1 && b[..|b1|] == b1 && a[|a1| + 1..] == a2 && b[|b1| + 1..] == b2;
    hide SplitBy;
    FewBefore(a, b, pairs, n, |a1|, |b1|);
    var k := if n < |pairs| && pairs[n].0 == |a1| then n + 1 else n;
    forall i | k <= i < |pairs|
      ensures pairs[i].0 > |a1| && pairs[i].1 > |b1|
    {
      assert k == n + 1 ==> Before(pairs[n], pairs[i]);
      assert k == n && i > n ==> Before(pairs[n], pairs[i]);
    }
    FewBehind(a, b, pairs, k, |a1| + 1, |b1| + 1);
  }

  // Aligned blocks match line by line.
  lemma {:induction false} AlignedMatches(a: seq<Line>, b: seq<Line>, blocks: seq<Block>)
    requires Aligned(a, b, blocks)
    ensures Matching(a, b, Pairs(blocks))
    ensures forall i :: 0 <= i < |Pairs(blocks)| ==>
      blocks != [] && Pairs(blocks)[i].0 < blocks[|blocks| - 1].AEnd()
          && Pairs(blocks)[i].1 < blocks[|blocks| - 1].BEnd()
    decreases blocks
  {
    if blocks != [] {
      var front, last := blocks[..|blocks| - 1], blocks[|blocks| - 1];
      assert BlockMatches(a, b, last);
      assert front != [] ==> EndsBefore(front[|front| - 1], last);
      hide BlockMatches;
      AlignedMatches(a, b, front);
      LastRunMatches(a, b, Pairs(front), last);
    }
  }

  lemma LastRunMatches(a: seq<Line>, b: seq<Line>, front: seq<Pair>, last: Block)
    requires Matching(a, b, front) && BlockMatches(a, b, last)
    requires forall i :: 0 <= i < |front| ==> front[i].0 < last.aStart && front[i].1 < last.bStart
    ensures Matching(a, b, front + Run(last))
  {
    var all := front + Run(last);
    forall i | 0 <= i < |all|
      ensures PairIn(a, b, all[i], 0, |a|, 0, |b|)
    {
      if i < |front| {
        assert PairIn(a, b, front[i], 0, |a|, 0, |b|);
      } else {
        assert a[last.aStart..last.AEnd()][i - |front|] == b[last.bStart..last.BEnd()][i - |front|];
      }
    }
    forall i, j | 0 <= i < j < |all|
      ensures Before(all[i], all[j])
    {
      assert j < |front| ==> Before(front[i], front[j]);
    }
  }

  lemma {:induction false} RegionOf(o: seq<Block>, t: seq<Block>, i: nat) returns (u: nat, v: nat)
    requires i < |Sync(o, t)|
    ensures u < |o| && v < |t| && Overlap(o[u], t[v]) == [Sync(o, t)[i]]
    decreases |o| + |t|
  {
    var overlap := Overlap(o[0], t[0]);
    if i < |overlap| {
      u, v := 0, 0;
    } else if o[0].AEnd() < t[0].AEnd() {
      u, v := RegionOf(o[1..], t, i - |overlap|);
      u := u + 1;
    } else {
      u, v := RegionOf(o, t[1..], i - |overlap|);
      v := v + 1;
    }
  }

  // The two diffs keep all lines of a region, and where it says.
  lemma RegionIsKept(o: seq<Block>, t: seq<Block>, i: nat, k: nat)
    requires i < |Sync(o, t)| && Sync(o, t)[i].baseStart <= k < Sync(o, t)[i].baseEnd
    ensures var r := Sync(o, t)[i];
            && (k, r.ourStart + k - r.baseStart) in Pairs(o) && (k, r.theirStart + k - r.baseStart) in Pairs(t)
  {
    hide Sync, Pairs;
    var u, v := RegionOf(o, t, i);
    var a := PairOfBlock(o, u, k - o[u].aStart);
    var b := PairOfBlock(t, v, k - t[v].aStart);
  }

  // A line that both diffs keep is in a region.
  lemma {:induction false} KeptIsInRegion(o: seq<Block>, t: seq<Block>, u: nat, v: nat, k: nat) returns (i: nat)
    requires Ordered(o) && Ordered(t) && u < |o| && v < |t|
    requires o[u].aStart <= k < o[u].AEnd() && t[v].aStart <= k < t[v].AEnd()
    ensures i < |Sync(o, t)| && Sync(o, t)[i].baseStart <= k < Sync(o, t)[i].baseEnd
    decreases |o| + |t|
  {
    hide Sync;
    SyncStep(o, t);
    assert u > 0 ==> EndsBefore(o[0], o[u]);
    assert v > 0 ==> EndsBefore(t[0], t[v]);
    if u == 0 && v == 0 {
      i := 0;
      return;
    }
    hide Overlap;
    if o[0].AEnd() < t[0].AEnd() {
      RestIsOrdered(o);
      i := KeptIsInRegion(o[1..], t, u - 1, v, k);
    } else {
      RestIsOrdered(t);
      i := KeptIsInRegion(o, t[1..], u, v - 1, k);
    }
    i := i + |Overlap(o[0], t[0])|;
  }

  lemma {:induction false} BlockOfPair(blocks: seq<Block>, pair: Pair) returns (u: nat)
    requires pair in Pairs(blocks)
    ensures u < |blocks| && blocks[u].aStart <= pair.0 < blocks[u].AEnd()
    decreases blocks
  {
    var last := |blocks| - 1;
    if pair in Pairs(blocks[..last]) {
      u := BlockOfPair(blocks[..last], pair);
    } else {
      u := last;
    }
  }

  ghost predicate HoldsLine(r: Region, k: int, j: int, l: int) {
    && r.baseStart <= k < r.baseEnd && r.ourStart + k - r.baseStart == j && r.theirStart + k - r.baseStart == l
  }

  // The regions are exactly the lines that both diffs keep.
  lemma RegionsAreKeptByBoth(base: seq<Line>, ours: seq<Line>, theirs: seq<Line>, o: seq<Block>, t: seq<Block>, k: nat,
                             j: nat, l: nat)
    requires Aligned(base, ours, o) && Aligned(base, theirs, t)
    ensures (k, j) in Pairs(o) && (k, l) in Pairs(t) <==>
            exists i :: 0 <= i < |Sync(o, t)| && HoldsLine(Sync(o, t)[i], k, j, l)
  {
    hide Sync, Pairs, BlockMatches, EndsBefore;
    AlignedMatches(base, ours, o);
    AlignedMatches(base, theirs, t);
    if i :| 0 <= i < |Sync(o, t)| && HoldsLine(Sync(o, t)[i], k, j, l) {
      RegionIsKept(o, t, i, k);
    }
    if (k, j) in Pairs(o) && (k, l) in Pairs(t) {
      var u := BlockOfPair(o, (k, j));
      var v := BlockOfPair(t, (k, l));
      BlocksAreOrdered(base, ours, o);
      BlocksAreOrdered(base, theirs, t);
      var i := KeptIsInRegion(o, t, u, v, k);
      RegionIsKept(o, t, i, k);
      var r := Sync(o, t)[i];
      OnePartner(Pairs(o), k, j, r.ourStart + k - r.baseStart);
      OnePartner(Pairs(t), k, l, r.theirStart + k - r.baseStart);
      assert HoldsLine(Sync(o, t)[i], k, j, l);
    }
  }

  lemma BlocksAreOrdered(a: seq<Line>, b: seq<Line>, blocks: seq<Block>)
    requires Aligned(a, b, blocks)
    ensures Ordered(blocks)
  {
    hide EndsBefore;
  }

  lemma OnePartner(pairs: seq<Pair>, k: nat, j: nat, l: nat)
    requires Increasing(pairs) && (k, j) in pairs && (k, l) in pairs
    ensures j == l
  {
    var u :| 0 <= u < |pairs| && pairs[u] == (k, j);
    var v :| 0 <= v < |pairs| && pairs[v] == (k, l);
    forall x, y | 0 <= x < y < |pairs|
      ensures pairs[x].0 < pairs[y].0
    {
      assert Before(pairs[x], pairs[y]);
    }
  }

  // A region as the line at p of base and theirs, and at q of ours, allows it. Theirs
  // is base up to the line, and ours is base from the line on.
  ghost predicate Fits(r: Region, p: nat, q: nat) {
    && r.baseStart <= r.baseEnd && (r.baseStart == r.baseEnd ==> r.baseStart > p)
    && r.ourEnd - r.ourStart == r.theirEnd - r.theirStart == r.baseEnd - r.baseStart
    && (r.baseStart <= p ==> r.theirStart == r.baseStart && r.ourStart <= q)
    && (r.baseStart <= r.baseEnd <= p ==> r.ourEnd <= q)
    && (r.baseEnd > p ==> r.ourEnd + p == q + r.baseEnd)
  }

  ghost predicate AllFit(regions: seq<Region>, p: nat, q: nat) {
    forall i :: 0 <= i < |regions| ==> Fits(regions[i], p, q)
  }

  ghost predicate HoldsSome(regions: seq<Region>, p: nat) {
    exists i :: 0 <= i < |regions| && regions[i].baseStart <= p < regions[i].baseEnd
  }

  // The texts on both sides of the line.
  ghost predicate Texts(base: seq<Line>, ours: seq<Line>, theirs: seq<Line>, p: nat, q: nat) {
    && p < |base| && p < |theirs| && q < |ours|
    && base[..p + 1] == theirs[..p + 1] && base[p..] == ours[q..]
  }

  // Behind the line only theirs differs from base.
  lemma {:induction false} MergeBehind(regions: seq<Region>, base: seq<Line>, ours: seq<Line>, theirs: seq<Line>,
                                       b: nat, o: nat, t: nat, p: nat, q: nat, labels: Labels)
    requires Follow(regions, base, ours, theirs, b, o, t) && AllFit(regions, p, q) && Texts(base, ours, theirs, p, q)
    requires p < b <= |base| && o + p == q + b && o <= |ours| && t <= |theirs|
    ensures MergePieces(Walk(regions, base, ours, theirs, b, o, t), labels) == MergeResult(theirs[t..], 0)
    decreases regions
  {
    if regions == [] {
      assert theirs[t..] == [];
    } else {
      var r := regions[0];
      assert Fits(r, p, q) && AllFit(regions[1..], p, q);
      MergeBehind(regions[1..], base, ours, theirs, r.baseEnd, r.ourEnd, r.theirEnd, p, q, labels);
      var piece := PieceAt(r, base, ours, theirs, b, o, t);
      SameBehind(base, ours, p, q, b, o, r.baseStart, r.ourStart);
      hide ConflictLines, Walk;
      FirstPiece(regions, base, ours, theirs, b, o, t, labels);
      CutTwice(theirs, t, r.theirStart, r.theirEnd);
    }
  }

  lemma FirstPiece(regions: seq<Region>, base: seq<Line>, ours: seq<Line>, theirs: seq<Line>, b: nat, o: nat, t: nat,
                   labels: Labels)
    requires regions != [] && Follow(regions, base, ours, theirs, b, o, t)
    ensures var r := regions[0];
            var piece := PieceAt(r, base, ours, theirs, b, o, t);
            var rest := MergePieces(Walk(regions[1..], base, ours, theirs, r.baseEnd, r.ourEnd, r.theirEnd), labels);
            MergePieces(Walk(regions, base, ours, theirs, b, o, t), labels) ==
            MergeResult(MergePiece(piece, labels) + piece.common + rest.lines,
                        (if Conflicts(piece) then 1 else 0) + rest.conflicts)
  {
    hide MergePiece, Conflicts;
    var pieces := Walk(regions, base, ours, theirs, b, o, t);
    var r := regions[0];
    assert pieces[1..] == Walk(regions[1..], base, ours, theirs, r.baseEnd, r.ourEnd, r.theirEnd);
  }

  lemma SameBehind(base: seq<Line>, ours: seq<Line>, p: nat, q: nat, b: nat, o: nat, b': nat, o': nat)
    requires p < |base| && q < |ours| && base[p..] == ours[q..] && p <= b <= b' <= |base| && o + p == q + b
             && o' + p == q + b'
    ensures o <= o' <= |ours| && base[b..b'] == ours[o..o']
  {
    assert |base[p..]| == |ours[q..]|;
    SliceOfTail(base, p, b, b');
    SliceOfTail(ours, q, o, o');
    assert b - p == o - q && b' - p == o' - q;
  }

  lemma SliceOfTail(s: seq<Line>, p: nat, low: nat, high: nat)
    requires p <= low <= high <= |s|
    ensures s[p..][low - p..high - p] == s[low..high]
  {
    var inner, outer := s[p..][low - p..high - p], s[low..high];
    assert |inner| == |outer|;
    assert forall k :: 0 <= k < |inner| ==> inner[k] == outer[k];
  }

  // Before the line only ours differs from base, and behind it only theirs.
  lemma {:induction false} MergeBefore(regions: seq<Region>, base: seq<Line>, ours: seq<Line>, theirs: seq<Line>,
                                       b: nat, o: nat, p: nat, q: nat, labels: Labels)
    requires Follow(regions, base, ours, theirs, b, o, b) && AllFit(regions, p, q) && Texts(base, ours, theirs, p, q)
    requires b <= p && o <= q && HoldsSome(regions, p)
    ensures MergePieces(Walk(regions, base, ours, theirs, b, o, b), labels) ==
            MergeResult(ours[o..q + 1] + theirs[p + 1..], 0)
    decreases regions
  {
    StartsBefore(regions, base, ours, theirs, b, o, b, p);
    FirstRegion(regions, base, ours, theirs, b, o, p, q);
    hide *;
    var r := regions[0];
    if r.baseEnd <= p {
      LaterHolds(regions, p);
      MergeBefore(regions[1..], base, ours, theirs, r.baseEnd, r.ourEnd, p, q, labels);
    } else {
      MergeBehind(regions[1..], base, ours, theirs, r.baseEnd, r.ourEnd, r.theirEnd, p, q, labels);
    }
    OneBefore(regions, base, ours, theirs, b, o, p, q, labels);
  }

  // The step of the first region.
  lemma OneBefore(regions: seq<Region>, base: seq<Line>, ours: seq<Line>, theirs: seq<Line>, b: nat, o: nat, p: nat,
                  q: nat, labels: Labels)
    requires regions != [] && Follow(regions, base, ours, theirs, b, o, b) && AllFit(regions, p, q)
    requires Texts(base, ours, theirs, p, q) && regions[0].baseStart <= p && Fits(regions[0], p, q)
    requires var r := regions[0];
             MergePieces(Walk(regions[1..], base, ours, theirs, r.baseEnd, r.ourEnd, r.theirEnd), labels) ==
             MergeResult(if r.baseEnd <= p then ours[r.ourEnd..q + 1] + theirs[p + 1..] else theirs[r.theirEnd..], 0)
    ensures MergePieces(Walk(regions, base, ours, theirs, b, o, b), labels) ==
            MergeResult(ours[o..q + 1] + theirs[p + 1..], 0)
  {
    FirstRegion(regions, base, ours, theirs, b, o, p, q);
    hide *;
    var r := regions[0];
    FirstPiece(regions, base, ours, theirs, b, o, b, labels);
    TakesOurs(r, base, ours, theirs, b, o, p, q, labels);
    CommonOf(r, base, ours, theirs, b, o, b);
    var piece := PieceAt(r, base, ours, theirs, b, o, b);
    var rest := MergePieces(Walk(regions[1..], base, ours, theirs, r.baseEnd, r.ourEnd, r.theirEnd), labels);
    JoinParts(base, ours, theirs, r, p, q, o, MergePiece(piece, labels), piece.common, rest.lines);
  }

  // The parts of the merged text join to ours before the line and theirs behind it.
  lemma JoinParts(base: seq<Line>, ours: seq<Line>, theirs: seq<Line>, r: Region, p: nat, q: nat, o: nat,
                  first: seq<Line>, common: seq<Line>, rest: seq<Line>)
    requires Texts(base, ours, theirs, p, q) && Fits(r, p, q) && o <= r.ourStart <= r.ourEnd <= |ours|
    requires r.baseStart <= p && r.baseStart <= r.baseEnd <= |base| && r.theirStart <= r.theirEnd <= |theirs|
    requires base[r.baseStart..r.baseEnd] == ours[r.ourStart..r.ourEnd] == theirs[r.theirStart..r.theirEnd]
    requires first == ours[o..r.ourStart] && common == base[r.baseStart..r.baseEnd]
    requires r.baseEnd <= p ==> r.ourEnd <= q && rest == ours[r.ourEnd..q + 1] + theirs[p + 1..]
    requires r.baseEnd > p ==> rest == theirs[r.theirEnd..]
    ensures first + common + rest == ours[o..q + 1] + theirs[p + 1..]
  {
    if r.baseEnd <= p {
      ThreeParts(ours, o, r.ourStart, r.ourEnd, q + 1, theirs[p + 1..]);
    } else {
      AcrossLine(base, ours, theirs, r, p, q, o);
    }
  }

  lemma CommonOf(r: Region, base: seq<Line>, ours: seq<Line>, theirs: seq<Line>, b: nat, o: nat, t: nat)
    requires b <= r.baseStart <= r.baseEnd <= |base| && o <= r.ourStart <= |ours| && t <= r.theirStart <= |theirs|
    ensures PieceAt(r, base, ours, theirs, b, o, t).common == base[r.baseStart..r.baseEnd]
  {
  }

  // What is known of the first region, which starts before the line.
  lemma FirstRegion(regions: seq<Region>, base: seq<Line>, ours: seq<Line>, theirs: seq<Line>, b: nat, o: nat, p: nat,
                    q: nat)
    requires regions != [] && Follow(regions, base, ours, theirs, b, o, b) && AllFit(regions, p, q)
    requires Texts(base, ours, theirs, p, q) && regions[0].baseStart <= p
    ensures var r := regions[0];
            && Fits(r, p, q) && AllFit(regions[1..], p, q)
            && Follow(regions[1..], base, ours, theirs, r.baseEnd, r.ourEnd, r.theirEnd)
            && b <= r.baseStart <= r.baseEnd <= |base| && o <= r.ourStart <= r.ourEnd <= |ours|
            && b <= r.theirStart <= r.theirEnd <= |theirs|
            && base[r.baseStart..r.baseEnd] == ours[r.ourStart..r.ourEnd] == theirs[r.theirStart..r.theirEnd]
            && r.theirStart == r.baseStart && r.theirEnd == r.baseEnd
            && (r.baseEnd <= p ==> r.ourEnd <= q) && (r.baseEnd > p ==> r.ourEnd + p == q + r.baseEnd)
            && p < |base| && p < |theirs| && q < |ours|
  {
    assert Fits(regions[0], p, q);
  }

  lemma ThreeParts(s: seq<Line>, i: nat, j: nat, k: nat, n: nat, rest: seq<Line>)
    requires i <= j <= k <= n <= |s|
    ensures s[i..j] + s[j..k] + (s[k..n] + rest) == s[i..n] + rest
  {
  }

  // Before the line a piece is that of ours.
  lemma TakesOurs(r: Region, base: seq<Line>, ours: seq<Line>, theirs: seq<Line>, b: nat, o: nat, p: nat, q: nat,
                  labels: Labels)
    requires Texts(base, ours, theirs, p, q) && b <= r.baseStart <= p && r.baseStart <= r.baseEnd <= |base|
    requires o <= r.ourStart <= |ours| && r.theirStart == r.baseStart
    ensures var piece := PieceAt(r, base, ours, theirs, b, o, b);
            !Conflicts(piece) && MergePiece(piece, labels) == ours[o..r.ourStart]
  {
    hide ConflictLines;
    SliceOfFront(base, p + 1, b, r.baseStart);
    SliceOfFront(theirs, p + 1, b, r.baseStart);
  }

  lemma SliceOfFront(s: seq<Line>, p: nat, low: nat, high: nat)
    requires low <= high <= p <= |s|
    ensures s[..p][low..high] == s[low..high]
  {
    var inner, outer := s[..p][low..high], s[low..high];
    assert forall k :: 0 <= k < |inner| ==> inner[k] == outer[k];
  }

  // The regions before the one of the line start before the line.
  lemma {:induction false} StartsBefore(regions: seq<Region>, base: seq<Line>, ours: seq<Line>, theirs: seq<Line>,
                                        b: nat, o: nat, t: nat, p: nat)
    requires Follow(regions, base, ours, theirs, b, o, t) && HoldsSome(regions, p)
    ensures regions != [] && regions[0].baseStart <= p
    decreases regions
  {
    var r := regions[0];
    var i :| 0 <= i < |regions| && regions[i].baseStart <= p < regions[i].baseEnd;
    if i > 0 {
      assert regions[1..][i - 1] == regions[i];
      StartsBefore(regions[1..], base, ours, theirs, r.baseEnd, r.ourEnd, r.theirEnd, p);
      assert r.baseEnd <= regions[1..][0].baseStart;
    }
  }

  lemma LaterHolds(regions: seq<Region>, p: nat)
    requires HoldsSome(regions, p) && regions != [] && regions[0].baseEnd <= p
    ensures HoldsSome(regions[1..], p)
  {
    var i :| 0 <= i < |regions| && regions[i].baseStart <= p < regions[i].baseEnd;
    assert regions[1..][i - 1] == regions[i];
  }

  // The common lines of the region of the line are those of both sides.
  lemma AcrossLine(base: seq<Line>, ours: seq<Line>, theirs: seq<Line>, r: Region, p: nat, q: nat, o: nat)
    requires Texts(base, ours, theirs, p, q) && Fits(r, p, q) && o <= r.ourStart
    requires r.baseStart <= p < r.baseEnd <= |base| && r.ourEnd <= |ours| && r.theirEnd <= |theirs|
    requires base[r.baseStart..r.baseEnd] == ours[r.ourStart..r.ourEnd] == theirs[r.theirStart..r.theirEnd]
    ensures ours[o..r.ourStart] + base[r.baseStart..r.baseEnd] + theirs[r.theirEnd..] ==
            ours[o..q + 1] + theirs[p + 1..]
  {
    var k := p + 1 - r.baseStart;
    var common := base[r.baseStart..r.baseEnd];
    assert r.ourStart + k == q + 1 && r.theirStart + k == p + 1;
    assert common[..k] == ours[r.ourStart..r.ourEnd][..k] == ours[r.ourStart..q + 1];
    assert common[k..] == theirs[r.theirStart..r.theirEnd][k..] == theirs[p + 1..r.theirEnd];
    assert common == common[..k] + common[k..];
    assert ours[o..q + 1] == ours[o..r.ourStart] + ours[r.ourStart..q + 1];
    assert theirs[p + 1..] == theirs[p + 1..r.theirEnd] + theirs[r.theirEnd..];
  }

  // What the diffs keep, as the line allows it: ours is base from the line on, and
  // theirs is base up to the line.
  ghost predicate KeepLine(o: seq<Block>, t: seq<Block>, p: nat, q: nat) {
    && (p, q) in Pairs(o) && (p, p) in Pairs(t)
    && (forall k: nat, j: nat :: (k, j) in Pairs(o) ==> if k < p then j < q else j - q == k - p)
    && (forall k: nat, l: nat :: (k, l) in Pairs(t) && k <= p ==> l == k)
  }

  lemma DiffsKeepLine(base: seq<Line>, ours: seq<Line>, theirs: seq<Line>, x: seq<Line>, x': seq<Line>, line: Line,
                      y: seq<Line>, y': seq<Line>, o: seq<Block>, t: seq<Block>)
    requires SplitBy(base, x, line, y) && SplitBy(ours, x', line, y) && SplitBy(theirs, x, line, y')
    requires Aligned(base, ours, o) && Aligned(base, theirs, t)
    requires IsLargest(base, ours, Pairs(o)) && IsLargest(base, theirs, Pairs(t))
    ensures KeepLine(o, t, |x|, |x'|)
  {
    hide IsLargest, SplitBy, Aligned, Matching, Pairs;
    AlignedMatches(base, ours, o);
    AlignedMatches(base, theirs, t);
    var n := LineIsKept(base, ours, Pairs(o), x, x', line, y, y);
    var m := LineIsKept(base, theirs, Pairs(t), x, x, line, y, y');
    forall k: nat, j: nat | (k, j) in Pairs(o)
      ensures if k < |x| then j < |x'| else j - |x'| == k - |x|
    {
      var i :| 0 <= i < |Pairs(o)| && Pairs(o)[i] == (k, j);
    }
    forall k: nat, l: nat | (k, l) in Pairs(t) && k <= |x|
      ensures l == k
    {
      var i :| 0 <= i < |Pairs(t)| && Pairs(t)[i] == (k, l);
    }
  }

  // The regions then fit the line, and one of them holds it.
  lemma RegionsFit(base: seq<Line>, ours: seq<Line>, theirs: seq<Line>, o: seq<Block>, t: seq<Block>, p: nat, q: nat)
    requires Aligned(base, ours, o) && Aligned(base, theirs, t) && KeepLine(o, t, p, q)
    requires p < |base| && |ours| + p == q + |base|
    ensures AllFit(Regions(base, ours, theirs, o, t), p, q) && HoldsSome(Regions(base, ours, theirs, o, t), p)
  {
    hide Aligned, Sync, Pairs;
    var regions, sync := Regions(base, ours, theirs, o, t), Sync(o, t);
    assert regions == sync + [Sentinel(base, ours, theirs)];
    RegionsAreKeptByBoth(base, ours, theirs, o, t, p, q, p);
    var i :| 0 <= i < |sync| && HoldsLine(sync[i], p, q, p);
    assert regions[i] == sync[i];
    forall i | 0 <= i < |regions|
      ensures Fits(regions[i], p, q)
    {
      if i < |sync| {
        RegionFits(o, t, p, q, i);
      }
    }
  }

  lemma RegionFits(o: seq<Block>, t: seq<Block>, p: nat, q: nat, i: nat)
    requires KeepLine(o, t, p, q) && i < |Sync(o, t)|
    ensures Fits(Sync(o, t)[i], p, q)
  {
    hide Sync, Pairs;
    var r := Sync(o, t)[i];
    RegionShape(o, t, i);
    RegionIsKept(o, t, i, r.baseStart);
    RegionIsKept(o, t, i, r.baseEnd - 1);
  }

  lemma RegionShape(o: seq<Block>, t: seq<Block>, i: nat)
    requires i < |Sync(o, t)|
    ensures var r := Sync(o, t)[i];
            r.baseStart < r.baseEnd && r.ourEnd - r.ourStart == r.theirEnd - r.theirStart == r.baseEnd - r.baseStart
  {
    hide Sync;
    var u, v := RegionOf(o, t, i);
  }

  // Ours changed what lies before a line that each text has once, and theirs what
  // lies behind it.
  lemma OursIsFirst(base: seq<Line>, ours: seq<Line>, theirs: seq<Line>, x: seq<Line>, x': seq<Line>,
                             line: Line, y: seq<Line>, y': seq<Line>, o: seq<Block>, t: seq<Block>, labels: Labels)
    requires SplitBy(base, x, line, y) && SplitBy(ours, x', line, y) && SplitBy(theirs, x, line, y')
    requires Aligned(base, ours, o) && Aligned(base, theirs, t)
    requires IsLargest(base, ours, Pairs(o)) && IsLargest(base, theirs, Pairs(t))
    ensures MergeWith(base, ours, theirs, o, t, labels) == MergeResult(x' + [line] + y', 0)
  {
    DiffsKeepLine(base, ours, theirs, x, x', line, y, y', o, t);
    TextsOf(base, ours, theirs, x, x', line, y, y');
    hide IsLargest, Aligned, Pairs, KeepLine, Regions, MergePieces, Walk, Texts;
    RegionsFit(base, ours, theirs, o, t, |x|, |x'|);
    SyncFollows(base, ours, theirs, o, t, 0, 0, 0);
    MergeBefore(Regions(base, ours, theirs, o, t), base, ours, theirs, 0, 0, |x|, |x'|, labels);
    assert ours[0..|x'| + 1] == x' + [line] && theirs[|x| + 1..] == y';
  }

  // Ours and theirs changed what lies on different sides of a line that each text
  // has once. Along largest diffs the merge has no conflict and both changes.
  lemma SeparateChangesMerge(base: seq<Line>, ours: seq<Line>, theirs: seq<Line>, x: seq<Line>, x': seq<Line>,
                             line: Line, y: seq<Line>, y': seq<Line>, o: seq<Block>, t: seq<Block>, labels: Labels)
    requires SplitBy(base, x, line, y)
    requires || (SplitBy(ours, x', line, y) && SplitBy(theirs, x, line, y'))
             || (SplitBy(theirs, x', line, y) && SplitBy(ours, x, line, y'))
    requires Aligned(base, ours, o) && Aligned(base, theirs, t)
    requires IsLargest(base, ours, Pairs(o)) && IsLargest(base, theirs, Pairs(t))
    ensures MergeWith(base, ours, theirs, o, t, labels) == MergeResult(x' + [line] + y', 0)
  {
    hide SplitBy, IsLargest, Aligned, Pairs, MergeWith;
    if SplitBy(ours, x', line, y) && SplitBy(theirs, x, line, y') {
      OursIsFirst(base, ours, theirs, x, x', line, y, y', o, t, labels);
    } else {
      OursIsFirst(base, theirs, ours, x, x', line, y, y', t, o, labels);
      MergeIsSymmetric(base, theirs, ours, t, o, labels, labels);
    }
  }

  lemma TextsOf(base: seq<Line>, ours: seq<Line>, theirs: seq<Line>, x: seq<Line>, x': seq<Line>, line: Line,
                y: seq<Line>, y': seq<Line>)
    requires SplitBy(base, x, line, y) && SplitBy(ours, x', line, y) && SplitBy(theirs, x, line, y')
    ensures Texts(base, ours, theirs, |x|, |x'|)
  {
    assert base[|x|..] == [line] + y == ours[|x'|..];
    assert base[..|x| + 1] == x + [line] == theirs[..|x| + 1];
  }
}
