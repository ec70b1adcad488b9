// The linear-space alignment: the middle-point search and its recursion.
module Myers {
  import opened EditScript
  import opened EditGraph
  import opened MiddlePoint
  import opened Blocks

  function IntegerSqrt(n: nat): (root: nat)
    ensures root * root <= n < (root + 1) * (root + 1)
  {
    if n == 0 then 0
    else
      var root := IntegerSqrt(n - 1);
      if (root + 1) * (root + 1) <= n then root + 1 else root
  }

  // The number of search steps that a range of this many lines may take.
  function StepLimit(lines: nat): int {
    Max(1024, 4 * IntegerSqrt(lines))
  }

  // Short texts get 1024 steps, and longer ones four times the root of their length.
  lemma StepLimitMeans(lines: nat)
    ensures lines < 66049 ==> StepLimit(lines) == 1024
    ensures lines >= 66049 ==>
      exists root :: StepLimit(lines) == 4 * root && root * root <= lines < (root + 1) * (root + 1)
  {
    var root := IntegerSqrt(lines);
    hide IntegerSqrt;
    if root < 257 {
      Squares(root + 1, 257);
    } else {
      Squares(257, root);
    }
    assert root >= 257 ==> StepLimit(lines) == 4 * root;
  }

  lemma Squares(m: nat, n: nat)
    requires m <= n
    ensures m * m <= n * n
  {
    assert n * n == m * m + (n - m) * (n + m);
  }

  // The distance of two ranges of lines.
  ghost function Between<T(!new)>(a: seq<T>, b: seq<T>, aLow: nat, aHigh: nat, bLow: nat, bHigh: nat): nat
    requires aLow <= aHigh <= |a| && bLow <= bHigh <= |b|
  {
    Dist(a[aLow..aHigh], b[bLow..bHigh])
  }

  lemma TrimPrefix<T(!new)>(a: seq<T>, b: seq<T>, aLow: nat, aHigh: nat, bLow: nat, bHigh: nat, k: nat)
    requires aLow + k <= aHigh <= |a| && bLow + k <= bHigh <= |b|
    requires a[aLow..aLow + k] == b[bLow..bLow + k]
    ensures Between(a, b, aLow + k, aHigh, bLow + k, bHigh) == Between(a, b, aLow, aHigh, bLow, bHigh)
  {
    hide Dist;
    assert a[aLow..aHigh] == a[aLow..aLow + k] + a[aLow + k..aHigh];
    assert b[bLow..bHigh] == a[aLow..aLow + k] + b[bLow + k..bHigh];
    DistCommonPrefix(a[aLow..aLow + k], a[aLow + k..aHigh], b[bLow + k..bHigh]);
  }

  lemma TrimSuffix<T(!new)>(a: seq<T>, b: seq<T>, aLow: nat, aHigh: nat, bLow: nat, bHigh: nat, k: nat)
    requires aLow + k <= aHigh <= |a| && bLow + k <= bHigh <= |b|
    requires a[aHigh - k..aHigh] == b[bHigh - k..bHigh]
    ensures Between(a, b, aLow, aHigh - k, bLow, bHigh - k) == Between(a, b, aLow, aHigh, bLow, bHigh)
  {
    hide Dist;
    assert a[aLow..aHigh] == a[aLow..aHigh - k] + a[aHigh - k..aHigh];
    assert b[bLow..bHigh] == b[bLow..bHigh - k] + a[aHigh - k..aHigh];
    DistCommonSuffix(a[aLow..aHigh - k], b[bLow..bHigh - k], a[aHigh - k..aHigh]);
  }

  lemma ConcatAssociates<T>(s: seq<T>, t: seq<T>, u: seq<T>, v: seq<T>)
    ensures s + t + u + v == s + (t + u + v)
  {
  }

  // A common prefix and a common suffix complete the matching between them.
  lemma TrimmedMatching<T(!new)>(a: seq<T>, b: seq<T>, aLow: nat, aFrom: nat, aTo: nat, aHigh: nat,
                           bLow: nat, bFrom: nat, bTo: nat, bHigh: nat, prefix: nat, suffix: nat,
                           middle: seq<Pair>, found: seq<Pair>)
    requires aFrom <= aTo <= |a| && bFrom <= bTo <= |b| && aHigh <= |a| && bHigh <= |b|
    requires aFrom == aLow + prefix && bFrom == bLow + prefix && aHigh == aTo + suffix && bHigh == bTo + suffix
    requires a[aLow..aFrom] == b[bLow..bFrom] && a[aTo..aHigh] == b[bTo..bHigh]
    requires MatchingIn(a, b, middle, aFrom, aTo, bFrom, bTo)
    requires found == Run(Block(aLow, bLow, prefix)) + middle + Run(Block(aTo, bTo, suffix))
    ensures MatchingIn(a, b, found, aLow, aHigh, bLow, bHigh)
    ensures aHigh - aLow + bHigh - bLow - 2 * |found| == aTo - aFrom + bTo - bFrom - 2 * |middle|
    ensures Between(a, b, aFrom, aTo, bFrom, bTo) == Between(a, b, aLow, aHigh, bLow, bHigh)
  {
    hide Dist;
    var head, tail := Run(Block(aLow, bLow, prefix)), Run(Block(aTo, bTo, suffix));
    RunMatches(a, b, aLow, bLow, prefix);
    RunMatches(a, b, aTo, bTo, suffix);
    JoinMatchings(a, b, head, middle, aLow, aFrom, aTo, bLow, bFrom, bTo);
    JoinMatchings(a, b, head + middle, tail, aLow, aTo, aHigh, bLow, bTo, bHigh);
    TrimPrefix(a, b, aLow, aHigh, bLow, bHigh, prefix);
    TrimSuffix(a, b, aFrom, aHigh, bFrom, bHigh, suffix);
  }

  // How many equal lines two ranges share from their low ends.
  method CommonPrefix<T(==)>(a: seq<T>, b: seq<T>, aLow: nat, aHigh: nat, bLow: nat, bHigh: nat) returns (prefix: nat)
    requires aLow <= aHigh <= |a| && bLow <= bHigh <= |b|
    ensures aLow + prefix <= aHigh && bLow + prefix <= bHigh
    ensures a[aLow..aLow + prefix] == b[bLow..bLow + prefix]
    ensures aLow + prefix < aHigh && bLow + prefix < bHigh ==> a[aLow + prefix] != b[bLow + prefix]
  {
    hide Dist;
    prefix := 0;
    while aLow + prefix < aHigh && bLow + prefix < bHigh && a[aLow + prefix] == b[bLow + prefix]
      invariant aLow + prefix <= aHigh && bLow + prefix <= bHigh
      invariant a[aLow..aLow + prefix] == b[bLow..bLow + prefix]
    {
      assert a[aLow..aLow + prefix + 1] == a[aLow..aLow + prefix] + [a[aLow + prefix]];
      assert b[bLow..bLow + prefix + 1] == b[bLow..bLow + prefix] + [b[bLow + prefix]];
      prefix := prefix + 1;
    }
  }

  // How many equal lines two ranges share from their high ends.
  method CommonSuffix<T(==)>(a: seq<T>, b: seq<T>, aLow: nat, aHigh: nat, bLow: nat, bHigh: nat) returns (suffix: nat)
    requires aLow <= aHigh <= |a| && bLow <= bHigh <= |b|
    ensures aLow + suffix <= aHigh && bLow + suffix <= bHigh
    ensures a[aHigh - suffix..aHigh] == b[bHigh - suffix..bHigh]
    ensures aLow + suffix < aHigh && bLow + suffix < bHigh ==> a[aHigh - suffix - 1] != b[bHigh - suffix - 1]
  {
    hide Dist;
    suffix := 0;
    while aHigh - suffix > aLow && bHigh - suffix > bLow && a[aHigh - 1 - suffix] == b[bHigh - 1 - suffix]
      invariant aLow + suffix <= aHigh && bLow + suffix <= bHigh
      invariant a[aHigh - suffix..aHigh] == b[bHigh - suffix..bHigh]
    {
      assert a[aHigh - suffix - 1..aHigh] == [a[aHigh - suffix - 1]] + a[aHigh - suffix..aHigh];
      assert b[bHigh - suffix - 1..bHigh] == [b[bHigh - suffix - 1]] + b[bHigh - suffix..bHigh];
      suffix := suffix + 1;
    }
  }

  // The point lies on a shortest path, s edits after its start and t before its end.
  ghost predicate SplitsAt<T(!new)>(p: seq<T>, q: seq<T>, x: int, y: int, s: int, t: int) {
    InGrid(p, q, x, y) && F(p, q, x, y) == s && R(p, q, x, y) == t && Dist(p, q) == s + t
  }

  // The point is neither the low nor the high corner of its grid.
  ghost predicate Inside<T(!new)>(p: seq<T>, q: seq<T>, x: int, y: int) {
    InGrid(p, q, x, y) && (x, y) != (0, 0) && (x, y) != (|p|, |q|)
  }

  lemma SplitIsInside<T(!new)>(p: seq<T>, q: seq<T>, x: int, y: int, s: nat, t: nat)
    requires SplitsAt(p, q, x, y, s, t) && Dist(p, q) >= 2 && t <= s <= t + 1
    ensures Inside(p, q, x, y)
    ensures s == (Dist(p, q) + 1) / 2 && t == Dist(p, q) / 2
  {
    hide Dist;
    Corners(p, q);
  }

  // What a search array knows after s steps without an overlap.
  ghost predicate Searched<T(!new)>(p: seq<T>, q: seq<T>, paths: seq<int>, offset: int, s: int) {
    Sound(p, q, paths, offset, s) && Complete(p, q, paths, offset, s)
  }

  lemma FirstsDiffer<T>(p: seq<T>, q: seq<T>, x: nat, y: nat)
    requires 0 < x <= |p| && 0 < y <= |q| && p[0] != q[0]
    ensures p[..x] != q[..y]
  {
    hide Dist;
    assert p[..x][0] == p[0] && q[..y][0] == q[0];
  }

  lemma SearchStart<T(!new)>(p: seq<T>, q: seq<T>, paths: seq<int>, offset: int)
    requires p != [] && q != [] && p[0] != q[0]
    requires 0 <= offset < |paths|
    requires forall i :: 0 <= i < |paths| ==> paths[i] == if i == offset then 0 else -1
    ensures Searched(p, q, paths, offset, 0)
  {
    hide Dist;
    Corners(p, q);
    assert ReachedWithin(p, q, 0, 0, 0);
    forall x, y | OnShortest(p, q, x, y, 0)
      ensures Covers(paths, offset, x, y)
    {
      if x > 0 && y > 0 {
        FirstsDiffer(p, q, x, y);
      }
      DistZero(p[..x], q[..y]);
      assert |p[..x]| == |q[..y]|;
    }
  }

  // Diagonal j has not reached further than the sum of a point's coordinates.
  ghost predicate NotBeyond(paths: seq<int>, offset: int, j: int, sum: int) {
    0 <= offset + j < |paths| && paths[offset + j] >= 0 ==> 2 * paths[offset + j] - j <= sum
  }

  lemma FurthestIsPositive<T(!new)>(p: seq<T>, q: seq<T>, paths: seq<int>, offset: int, s: nat, sum: int)
    requires 1 <= s <= Dist(p, q) && Complete(p, q, paths, offset, s)
    requires forall j :: InStep(s, |p|, |q|, j) ==> NotBeyond(paths, offset, j, sum)
    ensures sum > 0
  {
    hide Dist;
    Corners(p, q);
    var x, y := PointAfter(p, q, |p|, |q|, Dist(p, q), s);
    assert Covers(paths, offset, x, y);
    ShortestInStep(p, q, s, x, y);
    PointBounds(p, q, x, y);
    var j := x - y;
    assert NotBeyond(paths, offset, j, sum);
  }

  // The point v of one search lies on or beyond what the other one reached.
  predicate Overlaps(far: seq<int>, mirror: int, v: int, n: int) {
    0 <= mirror < |far| && far[mirror] >= 0 && v + far[mirror] >= n
  }

  // A sweep of step s has done the diagonals below k. When the step looks for
  // an overlap, it has found none; no diagonal has gone further than sum.
  ghost predicate Sweeping<T(!new)>(p: seq<T>, q: seq<T>, near: seq<int>, far: seq<int>, offset: int, delta: int,
                              s: int, k: int, looks: bool, sum: int) {
    && Sound(p, q, near, offset, s) && Complete(p, q, near, offset, s - 1)
    && CompleteBelow(p, q, near, offset, s, k)
    && (looks ==> forall j :: InStep(s, |p|, |q|, j) && j < k ==> Apart(near, far, offset, delta, |p|, j))
    && (forall j :: InStep(s, |p|, |q|, j) && j < k ==> NotBeyond(near, offset, j, sum))
  }

  lemma SweepStarts<T(!new)>(p: seq<T>, q: seq<T>, near: seq<int>, far: seq<int>, offset: int, delta: int,
                       s: int, looks: bool, sum: int)
    requires s >= 1 && |p| >= 1 && |q| >= 1
    requires Searched(p, q, near, offset, s - 1)
    ensures Sweeping(p, q, near, far, offset, delta, s, DiagonalBounds(s, |p|, |q|).0, looks, sum)
  {
    hide Dist;
    SweepRange(p, q, near, offset, s);
  }

  lemma SweepAdvances<T(!new)>(p: seq<T>, q: seq<T>, near: seq<int>, far: seq<int>, offset: int, delta: int,
                         s: int, k: int, looks: bool, sum: int, v: int, sum': int)
    requires s >= 1 && 1 <= offset + k < |near| - 1 && InStep(s, |p|, |q|, k)
    requires Sweeping(p, q, near, far, offset, delta, s, k, looks, sum) && sum <= sum'
    requires var c := Reachable(near, offset, k, |p|, |q|);
             if c < 0 then v == -1 else Slid(p, q, k, c, v) && ReachedWithin(p, q, v, k, s)
    requires v >= 0 ==> 2 * v - k <= sum' && (looks ==> !Overlaps(far, offset + delta - k, v, |p|))
    ensures Sweeping(p, q, near[offset + k := v], far, offset, delta, s, k + 2, looks, sum')
  {
    hide Dist;
    var near' := near[offset + k := v];
    SweepUpdate(p, q, near, offset, s, k, v);
    forall j | InStep(s, |p|, |q|, j) && j < k + 2
      ensures looks ==> Apart(near', far, offset, delta, |p|, j)
      ensures NotBeyond(near', offset, j, sum')
    {
      if j < k {
        assert looks ==> Apart(near, far, offset, delta, |p|, j);
        assert NotBeyond(near, offset, j, sum);
      } else {
        assert j == k;
      }
    }
  }

  // What a sweep without an overlap tells about the distance.
  lemma SweepEnds<T(!new)>(p: seq<T>, q: seq<T>, near: seq<int>, far: seq<int>, offset: int, delta: int,
                     s: int, t: nat, k: int, looks: bool, sum: int)
    requires s >= 1 && |p| >= 1 && |q| >= 1 && k > DiagonalBounds(s, |p|, |q|).1
    requires Sweeping(p, q, near, far, offset, delta, s, k, looks, sum)
    requires delta == |p| - |q| && Complete(Rev(p), Rev(q), far, offset, t)
    ensures Searched(p, q, near, offset, s)
    ensures looks ==> Dist(p, q) != s + t
    ensures Dist(p, q) >= s ==> sum > 0
  {
    hide Dist;
    SweepRange(p, q, near, offset, s);
    assert CompleteBelow(p, q, near, offset, s, DiagonalBounds(s, |p|, |q|).1 + 1);
    if looks {
      NotMet(p, q, near, far, offset, delta, s, t);
    }
    if Dist(p, q) >= s {
      FurthestIsPositive(p, q, near, offset, s, sum);
    }
  }

  // A forward point that overlaps the reverse search splits a shortest path.
  lemma ForwardMeets<T(!new)>(p: seq<T>, q: seq<T>, far: seq<int>, offset: int, s: nat, t: nat, mirror: int, k: int,
                              x: int)
    requires mirror == offset + (|p| - |q|) - k && Overlaps(far, mirror, x, |p|)
    requires ReachedWithin(p, q, x, k, s) && Sound(Rev(p), Rev(q), far, offset, t)
    requires Dist(p, q) >= s + t
    ensures SplitsAt(p, q, x, x - k, s, t)
  {
    hide Dist;
    assert ReachedWithin(Rev(p), Rev(q), far[mirror], mirror - offset, t);
    Meeting(p, q, x, k, s, far[mirror], t);
  }

  // A reverse point that overlaps the forward search: the forward point splits.
  lemma ReverseMeets<T(!new)>(p: seq<T>, q: seq<T>, far: seq<int>, offset: int, s: nat, t: nat, mirror: int, k: int,
                              x: int)
    requires mirror == offset + (|p| - |q|) - k && Overlaps(far, mirror, x, |p|)
    requires ReachedWithin(Rev(p), Rev(q), x, k, t) && Sound(p, q, far, offset, s)
    requires Dist(p, q) >= s + t
    ensures SplitsAt(p, q, far[mirror], far[mirror] - (|p| - |q| - k), s, t)
  {
    hide Dist;
    assert ReachedWithin(p, q, far[mirror], mirror - offset, s);
    Meeting(p, q, far[mirror], mirror - offset, s, x, t);
  }

  lemma NextDiagonal(s: int, n: int, m: int, k: int)
    requires s >= 1 && n >= 1 && m >= 1 && InStep(s, n, m, k)
    ensures k + 2 <= DiagonalBounds(s, n, m).1 ==> InStep(s, n, m, k + 2)
  {
  }

  // The distance is even exactly when the last diagonal is.
  lemma DistanceGrows<T(!new)>(p: seq<T>, q: seq<T>, delta: int, s: int)
    requires delta == |p| - |q| && Dist(p, q) > 2 * s - 2
    ensures delta % 2 != 0 && Dist(p, q) != 2 * s - 1 ==> Dist(p, q) >= 2 * s
    ensures delta % 2 == 0 ==> Dist(p, q) >= 2 * s
    ensures delta % 2 != 0 && Dist(p, q) >= 2 * s ==> Dist(p, q) > 2 * s
  {
    hide Dist;
    DistParity(p, q);
  }

  // Follows matching lines down diagonal k.
  method SlideForward(p: seq<nat>, q: seq<nat>, k: int, c: int, ghost step: int) returns (x: int)
    requires ReachedWithin(p, q, c, k, step)
    ensures Slid(p, q, k, c, x) && ReachedWithin(p, q, x, k, step)
  {
    hide Dist;
    x := c;
    var y := c - k;
    while x < |p| && y < |q| && p[x] == q[y]
      invariant c <= x && y == x - k && ReachedWithin(p, q, x, k, step)
      decreases |p| - x
    {
      StepCosts(p, q, x, y);
      x := x + 1;
      y := y + 1;
    }
  }

  // The same from the high ends of both texts.
  method SlideReverse(p: seq<nat>, q: seq<nat>, k: int, c: int, ghost step: int) returns (x: int)
    requires ReachedWithin(Rev(p), Rev(q), c, k, step)
    ensures Slid(Rev(p), Rev(q), k, c, x) && ReachedWithin(Rev(p), Rev(q), x, k, step)
  {
    hide Dist;
    x := c;
    var y := c - k;
    var n, m := |p|, |q|;
    while x < n && y < m && p[n - 1 - x] == q[m - 1 - y]
      invariant c <= x && y == x - k && ReachedWithin(Rev(p), Rev(q), x, k, step)
      decreases n - x
    {
      StepCosts(Rev(p), Rev(q), x, y);
      x := x + 1;
      y := y + 1;
    }
  }

  class Aligner {
    const a: seq<nat>
    const b: seq<nat>
    const forward: array<int>
    const reverse: array<int>
    var runs: seq<Block>

    constructor (a: seq<nat>, b: seq<nat>)
      ensures this.a == a && this.b == b && runs == []
      ensures Valid() && fresh(forward) && fresh(reverse)
    {
      var size := 2 * ((|a| + |b| + 1) / 2) + 3;
      this.a := a;
      this.b := b;
      this.forward := new int[size];
      this.reverse := new int[size];
      this.runs := [];
    }

    ghost predicate Valid()
      reads this
    {
      && forward != reverse
      && forward.Length == reverse.Length == 2 * ((|a| + |b| + 1) / 2) + 3
      && Positive(runs)
    }

    // Moves forward diagonal k on by one edit and the matches after it.
    method ExtendForward(p: seq<nat>, q: seq<nat>, offset: int, width: int, k: int, ghost step: int) returns (x: int)
      requires width <= forward.Length && 1 <= offset + k < width - 1
      requires var c := Reachable(forward[..width], offset, k, |p|, |q|); c == -1 || ReachedWithin(p, q, c, k, step)
      modifies forward
      ensures forward[..width] == old(forward[..width])[offset + k := x]
      ensures var c := Reachable(old(forward[..width]), offset, k, |p|, |q|);
              if c < 0 then x == -1 else Slid(p, q, k, c, x) && ReachedWithin(p, q, x, k, step)
    {
      hide Dist;
      x := Reachable(forward[..width], offset, k, |p|, |q|);
      forward[offset + k] := x;
      if x >= 0 {
        x := SlideForward(p, q, k, x, step);
        forward[offset + k] := x;
      }
    }

    // Extends one forward diagonal and looks whether it overlaps the reverse search.
    method ForwardDiagonal(p: seq<nat>, q: seq<nat>, offset: int, width: int, delta: int, looks: bool, step: int,
                           k: int, furthest: (int, int))
      returns (found: bool, x: int, best: (int, int))
      requires width == 2 * offset + 1 && 1 <= step < offset && InStep(step, |p|, |q|, k) && delta == |p| - |q|
      requires Valid() && width <= forward.Length
      requires Sweeping(p, q, forward[..width], reverse[..width], offset, delta, step, k, looks,
                        furthest.0 + furthest.1)
      requires Sound(Rev(p), Rev(q), reverse[..width], offset, step - 1) && Dist(p, q) >= 2 * step - 1
      requires ReachedWithin(p, q, furthest.0, furthest.0 - furthest.1, step)
      modifies forward
      ensures found ==> SplitsAt(p, q, x, x - k, step, step - 1)
      ensures !found ==>
              Sweeping(p, q, forward[..width], reverse[..width], offset, delta, step, k + 2, looks, best.0 + best.1)
      ensures !found ==> ReachedWithin(p, q, best.0, best.0 - best.1, step)
    {
      hide Dist;
      found, best := false, furthest;
      ghost var near := forward[..width];
      ReachableIsSound(p, q, near, offset, step, k);
      x := ExtendForward(p, q, offset, width, k, step);
      if x >= 0 {
        if x + (x - k) > best.0 + best.1 {
          best := (x, x - k);
        }
        var mirror := offset + delta - k;
        if looks && Overlaps(reverse[..width], mirror, x, |p|) {
          ForwardMeets(p, q, reverse[..width], offset, step, step - 1, mirror, k, x);
          found := true;
          return;
        }
      }
      SweepAdvances(p, q, near, reverse[..width], offset, delta, step, k, looks, furthest.0 + furthest.1, x,
                    best.0 + best.1);
    }

    // Extends every forward diagonal of one step. It stops at the first one
    // that overlaps the reverse search.
    method ForwardSweep(p: seq<nat>, q: seq<nat>, offset: int, width: int, step: int, furthest: (int, int))
      returns (found: bool, x: int, y: int, best: (int, int))
      requires |p| >= 1 && |q| >= 1 && 1 <= step < offset && width == 2 * offset + 1
      requires Valid() && width <= forward.Length
      requires Searched(p, q, forward[..width], offset, step - 1)
      requires Searched(Rev(p), Rev(q), reverse[..width], offset, step - 1)
      requires Dist(p, q) > 2 * (step - 1)
      requires ReachedWithin(p, q, furthest.0, furthest.0 - furthest.1, step - 1)
      modifies forward
      ensures found ==> SplitsAt(p, q, x, y, step, step - 1)
      ensures !found ==> Searched(p, q, forward[..width], offset, step) && Dist(p, q) >= 2 * step
      ensures !found ==> ReachedWithin(p, q, best.0, best.0 - best.1, step) && best.0 + best.1 > 0
    {
      hide Dist;
      var delta := |p| - |q|;
      var deltaOdd := delta % 2 != 0;
      found, x, y, best := false, 0, 0, furthest;
      var (lowest, highest) := DiagonalBounds(step, |p|, |q|);
      SweepStarts(p, q, forward[..width], reverse[..width], offset, delta, step, deltaOdd, best.0 + best.1);
      var k := lowest;
      while k <= highest
        invariant k <= highest ==> InStep(step, |p|, |q|, k)
        invariant Sweeping(p, q, forward[..width], reverse[..width], offset, delta, step, k, deltaOdd, best.0 + best.1)
        invariant ReachedWithin(p, q, best.0, best.0 - best.1, step)
      {
        found, x, best := ForwardDiagonal(p, q, offset, width, delta, deltaOdd, step, k, best);
        if found {
          y := x - k;
          return;
        }
        NextDiagonal(step, |p|, |q|, k);
        k := k + 2;
      }
      SweepEnds(p, q, forward[..width], reverse[..width], offset, delta, step, step - 1, k, deltaOdd, best.0 + best.1);
      DistanceGrows(p, q, delta, step);
    }

    // Moves reverse diagonal k on by one edit and the matches after it.
    method ExtendReverse(p: seq<nat>, q: seq<nat>, offset: int, width: int, k: int, ghost step: int) returns (x: int)
      requires width <= reverse.Length && 1 <= offset + k < width - 1
      requires var c := Reachable(reverse[..width], offset, k, |p|, |q|);
               c == -1 || ReachedWithin(Rev(p), Rev(q), c, k, step)
      modifies reverse
      ensures reverse[..width] == old(reverse[..width])[offset + k := x]
      ensures var c := Reachable(old(reverse[..width]), offset, k, |p|, |q|);
              if c < 0 then x == -1 else Slid(Rev(p), Rev(q), k, c, x) && ReachedWithin(Rev(p), Rev(q), x, k, step)
    {
      hide Dist;
      x := Reachable(reverse[..width], offset, k, |p|, |q|);
      reverse[offset + k] := x;
      if x >= 0 {
        x := SlideReverse(p, q, k, x, step);
        reverse[offset + k] := x;
      }
    }

    // Extends one reverse diagonal and looks whether it overlaps the forward search.
    method ReverseDiagonal(p: seq<nat>, q: seq<nat>, offset: int, width: int, delta: int, looks: bool, step: int,
                           k: int, ghost sum: int)
      returns (found: bool, x: int, y: int, ghost sum': int)
      requires width == 2 * offset + 1 && 1 <= step < offset && InStep(step, |p|, |q|, k) && delta == |p| - |q|
      requires Valid() && width <= reverse.Length
      requires Sweeping(Rev(p), Rev(q), reverse[..width], forward[..width], offset, delta, step, k, looks, sum)
      requires Sound(p, q, forward[..width], offset, step) && Dist(p, q) >= 2 * step
      modifies reverse
      ensures found ==> SplitsAt(p, q, x, y, step, step)
      ensures !found ==>
              Sweeping(Rev(p), Rev(q), reverse[..width], forward[..width], offset, delta, step, k + 2, looks, sum')
    {
      hide Dist;
      found, y, sum' := false, 0, sum;
      ghost var near := reverse[..width];
      ReachableIsSound(Rev(p), Rev(q), near, offset, step, k);
      x := ExtendReverse(p, q, offset, width, k, step);
      if x >= 0 {
        sum' := Max(sum, 2 * x - k);
        var mirror := offset + delta - k;
        if looks && Overlaps(forward[..width], mirror, x, |p|) {
          ReverseMeets(p, q, forward[..width], offset, step, step, mirror, k, x);
          found := true;
          x, y := forward[mirror], forward[mirror] - (delta - k);
          return;
        }
      }
      SweepAdvances(Rev(p), Rev(q), near, forward[..width], offset, delta, step, k, looks, sum, x, sum');
    }

    // Extends every reverse diagonal of one step. It stops at the first one
    // that overlaps the forward search.
    method ReverseSweep(p: seq<nat>, q: seq<nat>, offset: int, width: int, step: int)
        returns (found: bool, x: int, y: int)
      requires |p| >= 1 && |q| >= 1 && 1 <= step < offset && width == 2 * offset + 1
      requires Valid() && width <= reverse.Length
      requires Searched(p, q, forward[..width], offset, step)
      requires Searched(Rev(p), Rev(q), reverse[..width], offset, step - 1)
      requires Dist(p, q) >= 2 * step
      modifies reverse
      ensures found ==> SplitsAt(p, q, x, y, step, step)
      ensures !found ==> Searched(Rev(p), Rev(q), reverse[..width], offset, step) && Dist(p, q) > 2 * step
    {
      hide Dist;
      var delta := |p| - |q|;
      var deltaOdd := delta % 2 != 0;
      found, x, y := false, 0, 0;
      var (lowest, highest) := DiagonalBounds(step, |p|, |q|);
      ghost var sum := 0;
      SweepStarts(Rev(p), Rev(q), reverse[..width], forward[..width], offset, delta, step, !deltaOdd, sum);
      var k := lowest;
      while k <= highest
        invariant k <= highest ==> InStep(step, |p|, |q|, k)
        invariant Sweeping(Rev(p), Rev(q), reverse[..width], forward[..width], offset, delta, step, k, !deltaOdd, sum)
      {
        found, x, y, sum := ReverseDiagonal(p, q, offset, width, delta, !deltaOdd, step, k, sum);
        if found {
          return;
        }
        NextDiagonal(step, |p|, |q|, k);
        k := k + 2;
      }
      RevSlices(p, 0);
      RevSlices(q, 0);
      DistRev(p, q);
      SweepEnds(Rev(p), Rev(q), reverse[..width], forward[..width], offset, delta, step, step, k, !deltaOdd, sum);
      DistanceGrows(p, q, delta, step);
    }

    method ResetSearch(offset: int, width: int)
      requires Valid() && 0 <= offset < width <= forward.Length
      modifies forward, reverse
      ensures forall i :: 0 <= i < width ==> forward[i] == if i == offset then 0 else -1
      ensures forall i :: 0 <= i < width ==> reverse[i] == if i == offset then 0 else -1
    {
      hide Dist;
      for index := 0 to width
        invariant forall i :: 0 <= i < index ==> forward[i] == -1 && reverse[i] == -1
      {
        forward[index] := -1;
        reverse[index] := -1;
      }
      forward[offset] := 0;
      reverse[offset] := 0;
    }

    // The search inside one pair of ranges, from its own low corner.
    method FindMiddle(p: seq<nat>, q: seq<nat>) returns (x: int, y: int, ghost cut: bool)
      requires Valid() && 2 * ((|p| + |q| + 1) / 2) + 3 <= forward.Length
      requires p != [] && q != [] && p[0] != q[0] && p[|p| - 1] != q[|q| - 1]
      modifies forward, reverse
      ensures Inside(p, q, x, y)
      ensures cut <==> Dist(p, q) > 2 * StepLimit(|p| + |q|)
      ensures !cut ==> SplitsAt(p, q, x, y, (Dist(p, q) + 1) / 2, Dist(p, q) / 2)
    {
      hide Dist;
      var n, m := |p|, |q|;
      var maxSteps := (n + m + 1) / 2;
      var offset := maxSteps + 1;
      var width := 2 * maxSteps + 3;
      ResetSearch(offset, width);
      SearchStart(p, q, forward[..width], offset);
      SearchStart(Rev(p), Rev(q), reverse[..width], offset);
      DistAtLeastTwo(p, q);
      DistBounds(p, q);
      Corners(p, q);
      var stepLimit := StepLimit(n + m);
      var best := (0, 0);
      var step := 1;
      while step <= maxSteps && step <= stepLimit
        invariant 1 <= step <= maxSteps + 1 && step <= stepLimit + 1
        invariant Searched(p, q, forward[..width], offset, step - 1)
        invariant Searched(Rev(p), Rev(q), reverse[..width], offset, step - 1)
        invariant Dist(p, q) > 2 * (step - 1)
        invariant ReachedWithin(p, q, best.0, best.0 - best.1, step - 1)
        invariant step > 1 ==> best.0 + best.1 > 0
      {
        var found;
        found, x, y, best := ForwardSweep(p, q, offset, width, step, best);
        if found {
          SplitIsInside(p, q, x, y, step, step - 1);
          return x, y, false;
        }
        found, x, y := ReverseSweep(p, q, offset, width, step);
        if found {
          SplitIsInside(p, q, x, y, step, step);
          return x, y, false;
        }
        step := step + 1;
      }
      x, y, cut := best.0, best.1, true;
    }

    // Finds a point that splits two non-empty ranges. Unless the step limit
    // cuts the search, the point is in the middle of a shortest path. The
    // search is cut exactly when the ranges are too far apart for the limit.
    method Split(aLow: nat, aHigh: nat, bLow: nat, bHigh: nat) returns (aSplit: nat, bSplit: nat, ghost cut: bool)
      requires Valid()
      requires aLow < aHigh <= |a| && bLow < bHigh <= |b|
      requires a[aLow] != b[bLow] && a[aHigh - 1] != b[bHigh - 1]
      modifies forward, reverse
      ensures aLow <= aSplit <= aHigh && bLow <= bSplit <= bHigh
      ensures (aSplit, bSplit) != (aLow, bLow) && (aSplit, bSplit) != (aHigh, bHigh)
      ensures cut <==> Between(a, b, aLow, aHigh, bLow, bHigh) > 2 * StepLimit(aHigh - aLow + bHigh - bLow)
      ensures !cut ==> Between(a, b, aLow, aSplit, bLow, bSplit) == (Between(a, b, aLow, aHigh, bLow, bHigh) + 1) / 2
      ensures !cut ==> Between(a, b, aSplit, aHigh, bSplit, bHigh) == Between(a, b, aLow, aHigh, bLow, bHigh) / 2
    {
      hide Dist;
      var p, q := a[aLow..aHigh], b[bLow..bHigh];
      var x, y;
      x, y, cut := FindMiddle(p, q);
      aSplit, bSplit := aLow + x, bLow + y;
      assert p[..x] == a[aLow..aSplit] && q[..y] == b[bLow..bSplit];
      assert p[x..] == a[aSplit..aHigh] && q[y..] == b[bSplit..bHigh];
    }

    method AppendRun(aStart: nat, bStart: nat, length: nat)
      requires Valid()
      modifies this`runs
      ensures Valid() && Pairs(runs) == Pairs(old(runs)) + Run(Block(aStart, bStart, length))
    {
      hide Dist;
      if length > 0 {
        AppendBlockPairs(runs, aStart, bStart, length);
        runs := AppendBlock(runs, aStart, bStart, length);
      }
    }

    // Appends the matching of two ranges to the runs. Unless a search was cut,
    // it leaves out no more lines than a shortest script edits.
    method Align(aLow: nat, aHigh: nat, bLow: nat, bHigh: nat) returns (ghost found: seq<Pair>, ghost cut: bool)
      requires Valid() && aLow <= aHigh <= |a| && bLow <= bHigh <= |b|
      modifies this`runs, forward, reverse
      ensures Valid() && Pairs(runs) == Pairs(old(runs)) + found
      ensures MatchingIn(a, b, found, aLow, aHigh, bLow, bHigh)
      ensures !cut ==> aHigh - aLow + bHigh - bLow - 2 * |found| == Between(a, b, aLow, aHigh, bLow, bHigh)
      ensures Between(a, b, aLow, aHigh, bLow, bHigh) <= 2048 ==> !cut
      decreases aHigh - aLow + bHigh - bLow
    {
      hide Dist;
      var prefix := CommonPrefix(a, b, aLow, aHigh, bLow, bHigh);
      AppendRun(aLow, bLow, prefix);
      var aFrom, bFrom := aLow + prefix, bLow + prefix;
      var suffix := CommonSuffix(a, b, aFrom, aHigh, bFrom, bHigh);
      var aTo, bTo := aHigh - suffix, bHigh - suffix;
      assert a[aTo..aHigh] == b[bTo..bHigh];
      ghost var middle: seq<Pair>;
      middle, cut := AlignMiddle(aFrom, aTo, bFrom, bTo);
      AppendRun(aTo, bTo, suffix);
      ghost var head, tail := Run(Block(aLow, bLow, prefix)), Run(Block(aTo, bTo, suffix));
      found := head + middle + tail;
      TrimmedMatching(a, b, aLow, aFrom, aTo, aHigh, bLow, bFrom, bTo, bHigh, prefix, suffix, middle, found);
      ConcatAssociates(Pairs(old(runs)), head, middle, tail);
    }

    // Splits what is left between a common prefix and a common suffix.
    method AlignMiddle(aLow: nat, aHigh: nat, bLow: nat, bHigh: nat) returns (ghost found: seq<Pair>, ghost cut: bool)
      requires Valid() && aLow <= aHigh <= |a| && bLow <= bHigh <= |b|
      requires aLow < aHigh && bLow < bHigh ==> a[aLow] != b[bLow] && a[aHigh - 1] != b[bHigh - 1]
      modifies this`runs, forward, reverse
      ensures Valid() && Pairs(runs) == Pairs(old(runs)) + found
      ensures MatchingIn(a, b, found, aLow, aHigh, bLow, bHigh)
      ensures !cut ==> aHigh - aLow + bHigh - bLow - 2 * |found| == Between(a, b, aLow, aHigh, bLow, bHigh)
      ensures Between(a, b, aLow, aHigh, bLow, bHigh) <= 2048 ==> !cut
      decreases aHigh - aLow + bHigh - bLow, 0
    {
      hide Dist;
      found, cut := [], false;
      if aLow < aHigh && bLow < bHigh {
        var aSplit, bSplit;
        aSplit, bSplit, cut := Split(aLow, aHigh, bLow, bHigh);
        ghost var low, high, lowCut, highCut;
        low, lowCut := Align(aLow, aSplit, bLow, bSplit);
        high, highCut := Align(aSplit, aHigh, bSplit, bHigh);
        JoinMatchings(a, b, low, high, aLow, aSplit, aHigh, bLow, bSplit, bHigh);
        found, cut := low + high, cut || lowCut || highCut;
      } else {
        DistEmpty(a[aLow..aHigh]);
        DistEmpty(b[bLow..bHigh]);
      }
    }
  }
}
