// What the arrays of the middle-point search know about the grid, and why
// that is enough to stop on a shortest path.
//
// An array maps diagonal k, at index offset + k, to a reached x or to -1. A
// finished diagonal can lose its value again, so an entry is not always the
// furthest reachable point. The arrays are complete for shortest paths only:
// a lost point always has a cheaper way round (Dominated).
module MiddlePoint {
  import opened EditScript
  import opened EditGraph

  // The diagonals that one step of a sweep visits.
  predicate InStep(step: int, n: int, m: int, k: int) {
    -step <= k <= step && -m <= k <= n && (k + step) % 2 == 0
  }

  // The lowest and the highest diagonal of one step, clamped to the grid.
  function DiagonalBounds(step: int, n: int, m: int): (r: (int, int))
    requires step >= 1 && n >= 1 && m >= 1
    ensures InStep(step, n, m, r.0) && InStep(step, n, m, r.1)
    ensures forall k :: InStep(step, n, m, k) ==> r.0 <= k <= r.1
  {
    var lowest := Max(-step, -m);
    var highest := Min(step, n);
    (if (lowest + step) % 2 != 0 then lowest + 1 else lowest,
     if (highest + step) % 2 != 0 then highest - 1 else highest)
  }

  // The furthest point on diagonal k that one edit reaches, or -1.
  function Reachable(paths: seq<int>, offset: int, k: int, n: int, m: int): int
    requires 1 <= offset + k < |paths| - 1
  {
    var lower := paths[offset + k - 1];
    var x := if lower >= 0 && lower < n then lower + 1 else -1;
    var upper := paths[offset + k + 1];
    if upper >= 0 && upper - (k + 1) < m && upper > x then upper else x
  }

  // Point v of diagonal k is in the grid and costs at most s edits.
  ghost predicate ReachedWithin<T(!new)>(p: seq<T>, q: seq<T>, v: int, k: int, s: int) {
    InGrid(p, q, v, v - k) && F(p, q, v, v - k) <= s
  }

  ghost predicate Sound<T(!new)>(p: seq<T>, q: seq<T>, paths: seq<int>, offset: int, s: int) {
    forall i :: 0 <= i < |paths| ==> paths[i] == -1 || ReachedWithin(p, q, paths[i], i - offset, s)
  }

  ghost predicate Covers(paths: seq<int>, offset: int, x: int, y: int) {
    0 <= offset + x - y < |paths| && paths[offset + x - y] >= x
  }

  // Every point that a shortest path passes after s edits is covered.
  ghost predicate Complete<T(!new)>(p: seq<T>, q: seq<T>, paths: seq<int>, offset: int, s: int) {
    forall x, y :: OnShortest(p, q, x, y, s) ==> Covers(paths, offset, x, y)
  }

  ghost predicate CompleteBelow<T(!new)>(p: seq<T>, q: seq<T>, paths: seq<int>, offset: int, s: int, k: int) {
    forall x, y :: OnShortest(p, q, x, y, s) && x - y < k ==> Covers(paths, offset, x, y)
  }

  // Point v is where the run of matches from point c of diagonal k ends.
  ghost predicate Slid<T(!new)>(p: seq<T>, q: seq<T>, k: int, c: int, v: int) {
    && c <= v && InGrid(p, q, v, v - k)
    && (v == |p| || v - k == |q| || p[v] != q[v - k])
  }

  // The near and the far array do not overlap on diagonal k.
  ghost predicate Apart(near: seq<int>, far: seq<int>, offset: int, delta: int, n: int, k: int) {
    0 <= offset + k < |near| && 0 <= offset + delta - k < |far|
    && near[offset + k] >= 0 && far[offset + delta - k] >= 0
    ==> near[offset + k] + far[offset + delta - k] < n
  }

  // A neighbour of diagonal k was reached in an earlier step than s.
  lemma NeighbourIsSound<T(!new)>(p: seq<T>, q: seq<T>, paths: seq<int>, offset: int, s: int, k: int)
    requires 0 <= offset + k < |paths| && Sound(p, q, paths, offset, s) && (k + s) % 2 != 0
    ensures paths[offset + k] == -1 || ReachedWithin(p, q, paths[offset + k], k, s - 1)
  {
    hide Dist;
    var v := paths[offset + k];
    if v != -1 {
      assert ReachedWithin(p, q, v, offset + k - offset, s);
      PointParity(p, q, v, v - k);
    }
  }

  lemma ReachableIsSound<T(!new)>(p: seq<T>, q: seq<T>, paths: seq<int>, offset: int, s: int, k: int)
    requires 1 <= offset + k < |paths| - 1
    requires Sound(p, q, paths, offset, s) && (k + s) % 2 == 0
    ensures var c := Reachable(paths, offset, k, |p|, |q|);
            c == -1 || (c >= 0 && ReachedWithin(p, q, c, k, s))
  {
    hide Dist;
    var lower, upper := paths[offset + k - 1], paths[offset + k + 1];
    NeighbourIsSound(p, q, paths, offset, s, k - 1);
    NeighbourIsSound(p, q, paths, offset, s, k + 1);
    if lower != -1 {
      StepCosts(p, q, lower, lower - (k - 1));
    }
    if upper != -1 {
      StepCosts(p, q, upper, upper - (k + 1));
    }
  }

  // If a neighbouring diagonal had run into the edge of the grid, no shortest
  // path would pass this diagonal after s edits.
  lemma Dominated<T(!new)>(p: seq<T>, q: seq<T>, x: int, y: int, s: int, u: int, v: int)
    requires OnShortest(p, q, x, y, s)
    requires InGrid(p, q, u, v) && F(p, q, u, v) <= s - 1
    ensures u - v == x - y - 1 ==> u < |p|
    ensures u - v == x - y + 1 ==> v < |q|
  {
    hide Dist;
    var none: seq<T> := [];
    assert p[|p|..] == none && q[|q|..] == none;
    ThroughPoint(p, q, u, v);
    PointBounds(p, q, x, y);
    if u == |p| {
      DistEmpty(q[v..]);
    }
    if v == |q| {
      DistEmpty(p[u..]);
    }
  }

  // A shortest-path point that one edit enters is reached from its neighbour.
  lemma EditIsReached<T(!new)>(p: seq<T>, q: seq<T>, paths: seq<int>, offset: int, s: int, k: int, x: int, y: int)
    requires 1 <= offset + k < |paths| - 1 && (k + s) % 2 == 0
    requires Sound(p, q, paths, offset, s) && Complete(p, q, paths, offset, s - 1)
    requires OnShortest(p, q, x, y, s) && x - y == k
    requires OnShortest(p, q, x - 1, y, s - 1) || OnShortest(p, q, x, y - 1, s - 1)
    ensures Reachable(paths, offset, k, |p|, |q|) >= x
  {
    hide Dist;
    var lower, upper := paths[offset + k - 1], paths[offset + k + 1];
    NeighbourIsSound(p, q, paths, offset, s, k - 1);
    NeighbourIsSound(p, q, paths, offset, s, k + 1);
    if OnShortest(p, q, x - 1, y, s - 1) {
      assert Covers(paths, offset, x - 1, y);
      Dominated(p, q, x, y, s, lower, lower - (k - 1));
    } else {
      assert Covers(paths, offset, x, y - 1);
      Dominated(p, q, x, y, s, upper, upper - (k + 1));
    }
  }

  // After the slide, diagonal k covers every shortest-path point of step s.
  lemma {:induction false} Furthest<T(!new)>(p: seq<T>, q: seq<T>, paths: seq<int>, offset: int, s: int, k: int,
                                             v: int, x: int, y: int)
    requires s >= 1 && 1 <= offset + k < |paths| - 1 && (k + s) % 2 == 0
    requires Sound(p, q, paths, offset, s) && Complete(p, q, paths, offset, s - 1)
    requires var c := Reachable(paths, offset, k, |p|, |q|); if c < 0 then v == -1 else Slid(p, q, k, c, v)
    requires OnShortest(p, q, x, y, s) && x - y == k
    ensures v >= x
    decreases x + y
  {
    hide Dist;
    PointBounds(p, q, x, y);
    LastMove(p, q, x, y, s);
    if OnShortest(p, q, x - 1, y, s - 1) || OnShortest(p, q, x, y - 1, s - 1) {
      EditIsReached(p, q, paths, offset, s, k, x, y);
    } else {
      Furthest(p, q, paths, offset, s, k, v, x - 1, y - 1);
    }
  }

  // One diagonal of a sweep keeps what the array knows.
  lemma SweepUpdate<T(!new)>(p: seq<T>, q: seq<T>, paths: seq<int>, offset: int, s: int, k: int, v: int)
    requires s >= 1 && 1 <= offset + k < |paths| - 1 && (k + s) % 2 == 0
    requires Sound(p, q, paths, offset, s) && Complete(p, q, paths, offset, s - 1)
    requires CompleteBelow(p, q, paths, offset, s, k)
    requires var c := Reachable(paths, offset, k, |p|, |q|);
             if c < 0 then v == -1 else Slid(p, q, k, c, v) && ReachedWithin(p, q, v, k, s)
    ensures var paths' := paths[offset + k := v];
            && Sound(p, q, paths', offset, s) && Complete(p, q, paths', offset, s - 1)
            && CompleteBelow(p, q, paths', offset, s, k + 2)
  {
    hide Dist;
    var paths' := paths[offset + k := v];
    forall x, y | OnShortest(p, q, x, y, s - 1)
      ensures Covers(paths', offset, x, y)
    {
      PointParity(p, q, x, y);
      assert Covers(paths, offset, x, y);
    }
    forall x, y | OnShortest(p, q, x, y, s) && x - y < k + 2
      ensures Covers(paths', offset, x, y)
    {
      PointParity(p, q, x, y);
      if x - y < k {
        assert Covers(paths, offset, x, y);
      } else {
        Furthest(p, q, paths, offset, s, k, v, x, y);
      }
    }
  }

  // A shortest path stays within the bounds of each step.
  lemma ShortestInStep<T(!new)>(p: seq<T>, q: seq<T>, s: int, x: int, y: int)
    requires OnShortest(p, q, x, y, s)
    ensures InStep(s, |p|, |q|, x - y)
  {
    hide Dist;
    PointBounds(p, q, x, y);
    PointParity(p, q, x, y);
  }

  // A sweep over the bounds of a step starts with nothing and ends with all.
  lemma SweepRange<T(!new)>(p: seq<T>, q: seq<T>, paths: seq<int>, offset: int, s: int)
    requires s >= 1 && |p| >= 1 && |q| >= 1
    ensures CompleteBelow(p, q, paths, offset, s, DiagonalBounds(s, |p|, |q|).0)
    ensures CompleteBelow(p, q, paths, offset, s, DiagonalBounds(s, |p|, |q|).1 + 1) ==>
            Complete(p, q, paths, offset, s)
  {
    hide Dist;
    forall x, y | OnShortest(p, q, x, y, s)
      ensures InStep(s, |p|, |q|, x - y)
    {
      ShortestInStep(p, q, s, x, y);
    }
  }

  // When two points of one diagonal overlap, the near one is on a path of s + t edits.
  lemma Meeting<T(!new)>(p: seq<T>, q: seq<T>, x: int, k: int, s: int, r: int, t: int)
    requires ReachedWithin(p, q, x, k, s)
    requires ReachedWithin(Rev(p), Rev(q), r, (|p| - |q|) - k, t)
    requires x + r >= |p|
    ensures R(p, q, x, x - k) <= t
    ensures Dist(p, q) <= s + t
    ensures Dist(p, q) == s + t ==> F(p, q, x, x - k) == s && R(p, q, x, x - k) == t
  {
    hide Dist;
    var u := |p| - r;
    var v := u - k;
    Mirror(p, q, u, v);
    DiagonalMonotone(p, q, u, v, x - u);
    ThroughPoint(p, q, x, x - k);
  }

  lemma CoveredMeets(near: seq<int>, far: seq<int>, offset: int, delta: int, n: int, m: int, x: int, y: int)
    requires delta == n - m && 0 <= x <= n
    requires Covers(near, offset, x, y) && Covers(far, offset, n - x, m - y)
    ensures !Apart(near, far, offset, delta, n, x - y)
  {
    hide Dist;
    assert offset + (n - x) - (m - y) == offset + delta - (x - y);
  }

  // The far array covers each shortest-path point from the other corner.
  lemma FarCovers<T(!new)>(p: seq<T>, q: seq<T>, far: seq<int>, offset: int, s: int, t: int, x: int, y: int)
    requires Complete(Rev(p), Rev(q), far, offset, t)
    requires OnShortest(p, q, x, y, s) && Dist(p, q) == s + t
    ensures Covers(far, offset, |p| - x, |q| - y)
  {
    hide Dist;
    ShortestMirror(p, q, x, y, s, t);
  }

  // Two complete arrays that do not overlap rule out a distance of s + t.
  lemma NotMet<T(!new)>(p: seq<T>, q: seq<T>, near: seq<int>, far: seq<int>, offset: int, delta: int, s: nat, t: nat)
    requires Complete(p, q, near, offset, s) && Complete(Rev(p), Rev(q), far, offset, t)
    requires delta == |p| - |q|
    requires forall k :: InStep(s, |p|, |q|, k) ==> Apart(near, far, offset, delta, |p|, k)
    ensures Dist(p, q) != s + t
  {
    hide Dist;
    if Dist(p, q) == s + t {
      Corners(p, q);
      var x, y := PointAfter(p, q, |p|, |q|, Dist(p, q), s);
      ShortestInStep(p, q, s, x, y);
      assert Covers(near, offset, x, y);
      FarCovers(p, q, far, offset, s, t, x, y);
      CoveredMeets(near, far, offset, delta, |p|, |q|, x, y);
    }
  }
}
