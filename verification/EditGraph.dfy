// The grid of prefixes that the middle-point search walks. A point (x, y)
// stands for the first x lines of p and the first y lines of q.
module EditGraph {
  import opened EditScript

  ghost predicate InGrid<T(!new)>(p: seq<T>, q: seq<T>, x: int, y: int) {
    0 <= x <= |p| && 0 <= y <= |q|
  }

  // The distance from the low corner to a point.
  ghost function F<T(!new)>(p: seq<T>, q: seq<T>, x: int, y: int): nat
    requires InGrid(p, q, x, y)
  {
    Dist(p[..x], q[..y])
  }

  // The distance from a point to the high corner.
  ghost function R<T(!new)>(p: seq<T>, q: seq<T>, x: int, y: int): nat
    requires InGrid(p, q, x, y)
  {
    Dist(p[x..], q[y..])
  }

  // Some shortest path passes the point after exactly s edits.
  ghost predicate OnShortest<T(!new)>(p: seq<T>, q: seq<T>, x: int, y: int, s: int) {
    InGrid(p, q, x, y) && F(p, q, x, y) == s && s + R(p, q, x, y) == Dist(p, q)
  }

  lemma ThroughPoint<T(!new)>(p: seq<T>, q: seq<T>, x: int, y: int)
    requires InGrid(p, q, x, y)
    ensures Dist(p, q) <= F(p, q, x, y) + R(p, q, x, y)
  {
    hide Dist;
    assert p == p[..x] + p[x..] && q == q[..y] + q[y..];
    DistConcat(p[..x], q[..y], p[x..], q[y..]);
  }

  // Seen from the high corner, the grid is the grid of the reversed texts.
  lemma Mirror<T(!new)>(p: seq<T>, q: seq<T>, x: int, y: int)
    requires InGrid(p, q, x, y)
    ensures F(Rev(p), Rev(q), |p| - x, |q| - y) == R(p, q, x, y)
    ensures R(Rev(p), Rev(q), |p| - x, |q| - y) == F(p, q, x, y)
    ensures Dist(Rev(p), Rev(q)) == Dist(p, q)
  {
    hide Dist;
    RevSlices(p, |p| - x);
    RevSlices(q, |q| - y);
    assert p[|p| - (|p| - x)..] == p[x..] && q[|q| - (|q| - y)..] == q[y..];
    assert p[..|p| - (|p| - x)] == p[..x] && q[..|q| - (|q| - y)] == q[..y];
    DistRev(p[x..], q[y..]);
    DistRev(p[..x], q[..y]);
    DistRev(p, q);
  }

  lemma ShortestMirror<T(!new)>(p: seq<T>, q: seq<T>, x: int, y: int, s: int, t: int)
    requires OnShortest(p, q, x, y, s) && s + t == Dist(p, q)
    ensures OnShortest(Rev(p), Rev(q), |p| - x, |q| - y, t)
  {
    hide Dist;
    Mirror(p, q, x, y);
  }

  lemma PointBounds<T(!new)>(p: seq<T>, q: seq<T>, x: int, y: int)
    requires InGrid(p, q, x, y)
    ensures x - y <= F(p, q, x, y) && y - x <= F(p, q, x, y) <= x + y
    ensures (|p| - x) - (|q| - y) <= R(p, q, x, y) && (|q| - y) - (|p| - x) <= R(p, q, x, y)
  {
    hide Dist;
    DistBounds(p[..x], q[..y]);
    DistBounds(p[x..], q[y..]);
  }

  // The cost of a point differs from its diagonal by an even number.
  lemma PointParity<T(!new)>(p: seq<T>, q: seq<T>, x: int, y: int)
    requires InGrid(p, q, x, y)
    ensures (x - y + F(p, q, x, y)) % 2 == 0
  {
    hide Dist;
    DistParity(p[..x], q[..y]);
  }

  // One step right, down or along a match costs what the move costs.
  lemma StepCosts<T(!new)>(p: seq<T>, q: seq<T>, x: int, y: int)
    requires InGrid(p, q, x, y)
    ensures x < |p| ==> F(p, q, x + 1, y) <= F(p, q, x, y) + 1
    ensures y < |q| ==> F(p, q, x, y + 1) <= F(p, q, x, y) + 1
    ensures x < |p| && y < |q| && p[x] == q[y] ==> F(p, q, x + 1, y + 1) <= F(p, q, x, y)
  {
    hide Dist;
    var none: seq<T> := [];
    if x < |p| {
      assert p[..x + 1] == p[..x] + [p[x]] && q[..y] + none == q[..y];
      DistConcat(p[..x], q[..y], [p[x]], none);
      DistEmpty([p[x]]);
    }
    if y < |q| {
      assert q[..y + 1] == q[..y] + [q[y]] && p[..x] + none == p[..x];
      DistConcat(p[..x], q[..y], none, [q[y]]);
      DistEmpty([q[y]]);
    }
    if x < |p| && y < |q| && p[x] == q[y] {
      assert p[..x + 1] == p[..x] + [p[x]] && q[..y + 1] == q[..y] + [q[y]];
      DistConcat(p[..x], q[..y], [p[x]], [q[y]]);
      DistZero([p[x]], [q[y]]);
    }
  }

  lemma RStepCosts<T(!new)>(p: seq<T>, q: seq<T>, x: int, y: int)
    requires InGrid(p, q, x, y)
    ensures x > 0 ==> R(p, q, x - 1, y) <= R(p, q, x, y) + 1
    ensures y > 0 ==> R(p, q, x, y - 1) <= R(p, q, x, y) + 1
    ensures x > 0 && y > 0 && p[x - 1] == q[y - 1] ==> R(p, q, x - 1, y - 1) <= R(p, q, x, y)
  {
    hide Dist;
    if x > 0 {
      assert p[x - 1..][1..] == p[x..];
      DistDropHead(p[x - 1..], q[y..]);
    }
    if y > 0 {
      assert q[y - 1..][1..] == q[y..];
      DistDropHead(p[x..], q[y - 1..]);
    }
    if x > 0 && y > 0 && p[x - 1] == q[y - 1] {
      DistDropBoth(p[x - 1..], q[y - 1..]);
    }
  }

  // The remaining distance never grows along a diagonal.
  lemma {:induction false} DiagonalMonotone<T(!new)>(p: seq<T>, q: seq<T>, x: int, y: int, d: nat)
    requires InGrid(p, q, x, y) && InGrid(p, q, x + d, y + d)
    ensures R(p, q, x + d, y + d) <= R(p, q, x, y)
    decreases d
  {
    hide Dist;
    if d > 0 {
      assert p[x..][1..] == p[x + 1..] && q[y..][1..] == q[y + 1..];
      DistDropBoth(p[x..], q[y..]);
      DiagonalMonotone(p, q, x + 1, y + 1, d - 1);
    }
  }

  // Every point of a shortest path, except the low corner, is entered by a
  // match or by one edit from another point of a shortest path.
  lemma LastMove<T(!new)>(p: seq<T>, q: seq<T>, x: int, y: int, s: int)
    requires OnShortest(p, q, x, y, s) && x + y > 0
    ensures OnShortest(p, q, x - 1, y, s - 1)
         || OnShortest(p, q, x, y - 1, s - 1)
         || (x > 0 && y > 0 && p[x - 1] == q[y - 1] && OnShortest(p, q, x - 1, y - 1, s))
  {
    hide Dist;
    DistLastMove(p[..x], q[..y]);
    RStepCosts(p, q, x, y);
    if x > 0 {
      assert p[..x][..x - 1] == p[..x - 1];
      ThroughPoint(p, q, x - 1, y);
    }
    if y > 0 {
      assert q[..y][..y - 1] == q[..y - 1];
      ThroughPoint(p, q, x, y - 1);
    }
    if x > 0 && y > 0 {
      ThroughPoint(p, q, x - 1, y - 1);
    }
  }

  lemma Corners<T(!new)>(p: seq<T>, q: seq<T>)
    ensures F(p, q, 0, 0) == 0 && R(p, q, 0, 0) == Dist(p, q)
    ensures F(p, q, |p|, |q|) == Dist(p, q) && R(p, q, |p|, |q|) == 0
  {
    hide Dist;
    var none: seq<T> := [];
    assert p[..|p|] == p && q[..|q|] == q && p[0..] == p && q[0..] == q;
    assert p[..0] == q[..0] == p[|p|..] == q[|q|..] == none;
    DistEmpty(none);
  }

  // A shortest path has a point after any number of its edits.
  lemma {:induction false} PointAfter<T(!new)>(p: seq<T>, q: seq<T>, x: int, y: int, s: int, t: nat)
    returns (u: int, v: int)
    requires OnShortest(p, q, x, y, s) && t <= s
    ensures OnShortest(p, q, u, v, t)
    decreases x + y
  {
    hide Dist;
    if s == t {
      u, v := x, y;
    } else {
      PointBounds(p, q, x, y);
      LastMove(p, q, x, y, s);
      if OnShortest(p, q, x - 1, y, s - 1) {
        u, v := PointAfter(p, q, x - 1, y, s - 1, t);
      } else if OnShortest(p, q, x, y - 1, s - 1) {
        u, v := PointAfter(p, q, x, y - 1, s - 1, t);
      } else {
        u, v := PointAfter(p, q, x - 1, y - 1, s, t);
      }
    }
  }
}
