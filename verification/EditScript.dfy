// Edit scripts, what they read back, and how much they cost. The distance
// of two texts is defined here without any reference to the search.
module EditScript {
  type Line = string

  datatype Op = Equal | Delete | Insert

  datatype Edit<T> = Edit(op: Op, line: T)

  // The text a script starts from: its equal and deleted lines, in order.
  function OldSide<T>(edits: seq<Edit<T>>): seq<T> {
    if edits == [] then []
    else (if edits[0].op != Insert then [edits[0].line] else []) + OldSide(edits[1..])
  }

  // The text a script ends with: its equal and inserted lines, in order.
  function NewSide<T>(edits: seq<Edit<T>>): seq<T> {
    if edits == [] then []
    else (if edits[0].op != Delete then [edits[0].line] else []) + NewSide(edits[1..])
  }

  function Cost<T>(edits: seq<Edit<T>>): nat {
    if edits == [] then 0
    else (if edits[0].op == Equal then 0 else 1) + Cost(edits[1..])
  }

  ghost predicate IsScript<T>(edits: seq<Edit<T>>, a: seq<T>, b: seq<T>) {
    OldSide(edits) == a && NewSide(edits) == b
  }

  function Min(x: int, y: int): int {
    if x < y then x else y
  }

  function Max(x: int, y: int): int {
    if x < y then y else x
  }

  // Some script between the texts costs n, and none costs less.
  ghost predicate IsLeastCost<T(!new)>(a: seq<T>, b: seq<T>, n: nat) {
    && (exists edits: seq<Edit<T>> :: IsScript(edits, a, b) && Cost(edits) == n)
    && (forall edits: seq<Edit<T>> :: IsScript(edits, a, b) ==> n <= Cost(edits))
  }

  // The least number of deleted and inserted lines between two texts.
  ghost function Dist<T(!new)>(a: seq<T>, b: seq<T>): nat {
    LeastCostExists(a, b);
    var n: nat :| IsLeastCost(a, b, n);
    n
  }

  // The same number, by dynamic programming.
  ghost function Steps<T>(a: seq<T>, b: seq<T>): nat
    decreases |a| + |b|
  {
    if a == [] then |b|
    else if b == [] then |a|
    else
      var skip := 1 + Min(Steps(a[1..], b), Steps(a, b[1..]));
      if a[0] == b[0] then Min(skip, Steps(a[1..], b[1..])) else skip
  }

  lemma LeastCostExists<T(!new)>(a: seq<T>, b: seq<T>)
    ensures IsLeastCost(a, b, Steps(a, b))
  {
    BestScriptIsBest(a, b);
    assert IsScript(BestScript(a, b), a, b);
    forall edits: seq<Edit<T>> | IsScript(edits, a, b)
      ensures Steps(a, b) <= Cost(edits)
    {
      ScriptCostsAtLeastSteps(edits);
    }
  }

  lemma DistIsLeast<T(!new)>(a: seq<T>, b: seq<T>)
    ensures IsLeastCost(a, b, Dist(a, b))
  {
    LeastCostExists(a, b);
  }

  lemma DistIsSteps<T(!new)>(a: seq<T>, b: seq<T>)
    ensures Dist(a, b) == Steps(a, b)
  {
    LeastCostExists(a, b);
  }

  lemma DistUnfold<T(!new)>(a: seq<T>, b: seq<T>)
    ensures Dist(a, b) ==
      if a == [] then |b|
      else if b == [] then |a|
      else
        var skip := 1 + Min(Dist(a[1..], b), Dist(a, b[1..]));
        if a[0] == b[0] then Min(skip, Dist(a[1..], b[1..])) else skip
  {
    DistIsSteps(a, b);
    if a != [] && b != [] {
      DistIsSteps(a[1..], b);
      DistIsSteps(a, b[1..]);
      DistIsSteps(a[1..], b[1..]);
    }
  }

  // The length of a longest common subsequence.
  ghost function Lcs<T>(a: seq<T>, b: seq<T>): nat
    decreases |a| + |b|
  {
    if a == [] || b == [] then 0
    else if a[0] == b[0] then 1 + Lcs(a[1..], b[1..])
    else Max(Lcs(a[1..], b), Lcs(a, b[1..]))
  }

  ghost function BestScript<T>(a: seq<T>, b: seq<T>): seq<Edit<T>>
    decreases |a| + |b|
  {
    if a == [] && b == [] then []
    else if a == [] then [Edit(Insert, b[0])] + BestScript(a, b[1..])
    else if b == [] then [Edit(Delete, a[0])] + BestScript(a[1..], b)
    else if a[0] == b[0] && Steps(a, b) == Steps(a[1..], b[1..]) then [Edit(Equal, a[0])] + BestScript(a[1..], b[1..])
    else if Steps(a, b) == 1 + Steps(a[1..], b) then [Edit(Delete, a[0])] + BestScript(a[1..], b)
    else [Edit(Insert, b[0])] + BestScript(a, b[1..])
  }

  lemma {:induction false} BestScriptIsBest<T>(a: seq<T>, b: seq<T>)
    ensures IsScript(BestScript(a, b), a, b)
    ensures Cost(BestScript(a, b)) == Steps(a, b)
    decreases |a| + |b|
  {
    if a == [] && b == [] {
    } else if a == [] {
      BestScriptIsBest(a, b[1..]);
    } else if b == [] {
      BestScriptIsBest(a[1..], b);
    } else if a[0] == b[0] && Steps(a, b) == Steps(a[1..], b[1..]) {
      BestScriptIsBest(a[1..], b[1..]);
    } else if Steps(a, b) == 1 + Steps(a[1..], b) {
      BestScriptIsBest(a[1..], b);
    } else {
      BestScriptIsBest(a, b[1..]);
    }
  }

  // No script between two texts costs less than that.
  lemma {:induction false} ScriptCostsAtLeastSteps<T>(edits: seq<Edit<T>>)
    ensures Cost(edits) >= Steps(OldSide(edits), NewSide(edits))
    decreases edits
  {
    if edits != [] {
      var a, b := OldSide(edits), NewSide(edits);
      var rest := edits[1..];
      ScriptCostsAtLeastSteps(rest);
      match edits[0].op
      case Equal =>
        assert a[1..] == OldSide(rest) && b[1..] == NewSide(rest);
      case Delete =>
        assert a[1..] == OldSide(rest) && b == NewSide(rest);
        StepsEmpty(a[1..]);
      case Insert =>
        assert a == OldSide(rest) && b[1..] == NewSide(rest);
        StepsEmpty(b[1..]);
    }
  }

  lemma StepsEmpty<T>(a: seq<T>)
    ensures Steps(a, []) == |a| && Steps([], a) == |a|
  {
  }

  lemma DistEmpty<T(!new)>(a: seq<T>)
    ensures Dist(a, []) == |a| && Dist([], a) == |a|
  {
    DistUnfold(a, []);
    DistUnfold([], a);
  }

  lemma {:induction false} OldConcat<T>(s: seq<Edit<T>>, t: seq<Edit<T>>)
    ensures OldSide(s + t) == OldSide(s) + OldSide(t)
    decreases s
  {
    var u := s + t;
    if s == [] {
      assert u == t;
    } else {
      var head := if s[0].op != Insert then [s[0].line] else [];
      assert u[0] == s[0] && u[1..] == s[1..] + t;
      OldConcat(s[1..], t);
      assert OldSide(u) == head + OldSide(u[1..]);
    }
  }

  lemma {:induction false} NewConcat<T>(s: seq<Edit<T>>, t: seq<Edit<T>>)
    ensures NewSide(s + t) == NewSide(s) + NewSide(t)
    decreases s
  {
    var u := s + t;
    if s == [] {
      assert u == t;
    } else {
      var head := if s[0].op != Delete then [s[0].line] else [];
      assert u[0] == s[0] && u[1..] == s[1..] + t;
      NewConcat(s[1..], t);
      assert NewSide(u) == head + NewSide(u[1..]);
    }
  }

  lemma {:induction false} CostConcat<T>(s: seq<Edit<T>>, t: seq<Edit<T>>)
    ensures Cost(s + t) == Cost(s) + Cost(t)
    decreases s
  {
    var u := s + t;
    if s == [] {
      assert u == t;
    } else {
      assert u[0] == s[0] && u[1..] == s[1..] + t;
      CostConcat(s[1..], t);
    }
  }

  lemma SidesConcat<T>(s: seq<Edit<T>>, t: seq<Edit<T>>)
    ensures OldSide(s + t) == OldSide(s) + OldSide(t)
    ensures NewSide(s + t) == NewSide(s) + NewSide(t)
    ensures Cost(s + t) == Cost(s) + Cost(t)
  {
    OldConcat(s, t);
    NewConcat(s, t);
    CostConcat(s, t);
  }

  // Scripts of two halves make a script of the whole.
  lemma DistConcat<T(!new)>(a1: seq<T>, b1: seq<T>, a2: seq<T>, b2: seq<T>)
    ensures Dist(a1 + a2, b1 + b2) <= Dist(a1, b1) + Dist(a2, b2)
  {
    DistIsLeast(a1, b1);
    DistIsLeast(a2, b2);
    DistIsLeast(a1 + a2, b1 + b2);
    var s :| IsScript(s, a1, b1) && Cost(s) == Dist(a1, b1);
    var t :| IsScript(t, a2, b2) && Cost(t) == Dist(a2, b2);
    SidesConcat(s, t);
    assert IsScript(s + t, a1 + a2, b1 + b2);
  }

  function Rev<T>(s: seq<T>): (r: seq<T>)
    ensures |r| == |s|
    ensures forall i :: 0 <= i < |s| ==> r[i] == s[|s| - 1 - i]
  {
    seq(|s|, i requires 0 <= i < |s| => s[|s| - 1 - i])
  }

  lemma RevSlices<T>(s: seq<T>, x: nat)
    requires x <= |s|
    ensures Rev(s)[..x] == Rev(s[|s| - x..])
    ensures Rev(s)[x..] == Rev(s[..|s| - x])
    ensures Rev(Rev(s)) == s
  {
  }

  lemma {:induction false} SidesRev<T>(edits: seq<Edit<T>>)
    ensures OldSide(Rev(edits)) == Rev(OldSide(edits))
    ensures NewSide(Rev(edits)) == Rev(NewSide(edits))
    ensures Cost(Rev(edits)) == Cost(edits)
    decreases edits
  {
    if edits != [] {
      var rest := edits[1..];
      SidesRev(rest);
      RevConcat([edits[0]], rest);
      assert edits == [edits[0]] + rest;
      SidesConcat(Rev(rest), [edits[0]]);
      var was := if edits[0].op != Insert then [edits[0].line] else [];
      var becomes := if edits[0].op != Delete then [edits[0].line] else [];
      RevConcat(was, OldSide(rest));
      RevConcat(becomes, NewSide(rest));
    }
  }

  lemma RevConcat<T>(s: seq<T>, t: seq<T>)
    ensures Rev(s + t) == Rev(t) + Rev(s)
    ensures |s| <= 1 ==> Rev(s) == s
  {
  }

  lemma DistRevAtMost<T(!new)>(a: seq<T>, b: seq<T>)
    ensures Dist(Rev(a), Rev(b)) <= Dist(a, b)
  {
    DistIsLeast(a, b);
    DistIsLeast(Rev(a), Rev(b));
    var s :| IsScript(s, a, b) && Cost(s) == Dist(a, b);
    SidesRev(s);
    assert IsScript(Rev(s), Rev(a), Rev(b));
  }

  // Reading both texts backwards does not change their distance.
  lemma DistRev<T(!new)>(a: seq<T>, b: seq<T>)
    ensures Dist(Rev(a), Rev(b)) == Dist(a, b)
  {
    DistRevAtMost(a, b);
    DistRevAtMost(Rev(a), Rev(b));
    RevSlices(a, 0);
    RevSlices(b, 0);
  }

  lemma {:induction false} DistBounds<T(!new)>(a: seq<T>, b: seq<T>)
    ensures |a| - |b| <= Dist(a, b) && |b| - |a| <= Dist(a, b) <= |a| + |b|
    decreases |a| + |b|
  {
    DistUnfold(a, b);
    if a != [] && b != [] {
      DistBounds(a[1..], b);
      DistBounds(a, b[1..]);
      DistBounds(a[1..], b[1..]);
    }
  }

  lemma DistParity<T(!new)>(a: seq<T>, b: seq<T>)
    ensures (|a| + |b| + Dist(a, b)) % 2 == 0
  {
    DistByLcs(a, b);
  }

  // Dropping one first line changes the distance by at most one.
  lemma {:induction false} DistDropHead<T(!new)>(a: seq<T>, b: seq<T>)
    ensures a != [] ==> Dist(a, b) <= Dist(a[1..], b) + 1 && Dist(a[1..], b) <= Dist(a, b) + 1
    ensures b != [] ==> Dist(a, b) <= Dist(a, b[1..]) + 1 && Dist(a, b[1..]) <= Dist(a, b) + 1
    decreases |a| + |b|
  {
    DistUnfold(a, b);
    if a != [] {
      DistUnfold(a[1..], b);
    }
    if b != [] {
      DistUnfold(a, b[1..]);
    }
    if a != [] && b != [] {
      DistDropHead(a[1..], b);
      DistDropHead(a, b[1..]);
      DistDropHead(a[1..], b[1..]);
    }
  }

  // Distances never grow along a diagonal, and equal first lines cost nothing.
  lemma DistDropBoth<T(!new)>(a: seq<T>, b: seq<T>)
    requires a != [] && b != []
    ensures Dist(a[1..], b[1..]) <= Dist(a, b)
    ensures a[0] == b[0] ==> Dist(a, b) == Dist(a[1..], b[1..])
  {
    DistUnfold(a, b);
    DistDropHead(a[1..], b);
    DistDropHead(a, b[1..]);
  }

  lemma {:induction false} DistZero<T(!new)>(a: seq<T>, b: seq<T>)
    ensures Dist(a, b) == 0 <==> a == b
    decreases |a| + |b|
  {
    DistUnfold(a, b);
    if a != [] && b != [] {
      DistZero(a[1..], b[1..]);
      if Dist(a, b) == 0 {
        assert a == [a[0]] + a[1..] && b == [b[0]] + b[1..];
      }
      if a == b {
        DistDropBoth(a, b);
      }
    }
  }

  // A common prefix or a common suffix costs nothing.
  lemma {:induction false} DistCommonPrefix<T(!new)>(p: seq<T>, a: seq<T>, b: seq<T>)
    ensures Dist(p + a, p + b) == Dist(a, b)
    decreases p
  {
    if p == [] {
      assert p + a == a && p + b == b;
    } else {
      assert (p + a)[1..] == p[1..] + a && (p + b)[1..] == p[1..] + b;
      DistDropBoth(p + a, p + b);
      DistCommonPrefix(p[1..], a, b);
    }
  }

  lemma DistCommonSuffix<T(!new)>(a: seq<T>, b: seq<T>, s: seq<T>)
    ensures Dist(a + s, b + s) == Dist(a, b)
  {
    assert Rev(a + s) == Rev(s) + Rev(a) && Rev(b + s) == Rev(s) + Rev(b);
    DistRev(a + s, b + s);
    DistCommonPrefix(Rev(s), Rev(a), Rev(b));
    DistRev(a, b);
  }

  // The last move into the corner of a grid: a deletion, an insertion or a match.
  lemma DistLastMove<T(!new)>(a: seq<T>, b: seq<T>)
    requires a != [] || b != []
    ensures (a != [] && Dist(a, b) == 1 + Dist(a[..|a| - 1], b))
         || (b != [] && Dist(a, b) == 1 + Dist(a, b[..|b| - 1]))
         || (a != [] && b != [] && a[|a| - 1] == b[|b| - 1] && Dist(a, b) == Dist(a[..|a| - 1], b[..|b| - 1]))
  {
    hide Dist;
    var ra, rb := Rev(a), Rev(b);
    DistRev(a, b);
    DistUnfold(ra, rb);
    if a == [] {
      DistEmpty(b[..|b| - 1]);
    } else if b == [] {
      DistEmpty(a[..|a| - 1]);
    }
    if a != [] {
      assert ra[1..] == Rev(a[..|a| - 1]);
      DistRev(a[..|a| - 1], b);
    }
    if b != [] {
      assert rb[1..] == Rev(b[..|b| - 1]);
      DistRev(a, b[..|b| - 1]);
    }
    if a != [] && b != [] {
      DistRev(a[..|a| - 1], b[..|b| - 1]);
    }
  }

  // Two non-empty texts that differ at both ends are at least two edits apart.
  lemma DistAtLeastTwo<T(!new)>(a: seq<T>, b: seq<T>)
    requires a != [] && b != []
    requires a[0] != b[0] && a[|a| - 1] != b[|b| - 1]
    ensures Dist(a, b) >= 2
  {
    DistUnfold(a, b);
    if Dist(a, b) < 2 {
      if Dist(a[1..], b) == 0 {
        DistZero(a[1..], b);
      } else {
        DistZero(a, b[1..]);
      }
    }
  }

  // The distance counts what a longest common subsequence leaves over.
  lemma {:induction false} DistByLcs<T(!new)>(a: seq<T>, b: seq<T>)
    ensures Dist(a, b) == |a| + |b| - 2 * Lcs(a, b)
    decreases |a| + |b|
  {
    DistUnfold(a, b);
    if a != [] && b != [] {
      DistByLcs(a[1..], b);
      DistByLcs(a, b[1..]);
      DistByLcs(a[1..], b[1..]);
      DistDropBoth(a, b);
    }
  }

  // A first line that the other text lacks must be edited.
  lemma {:induction false} DistOneSided<T(!new)>(a: seq<T>, b: seq<T>)
    ensures a != [] && a[0] !in b ==> Dist(a, b) == 1 + Dist(a[1..], b)
    ensures b != [] && b[0] !in a ==> Dist(a, b) == 1 + Dist(a, b[1..])
    decreases |a| + |b|
  {
    DistUnfold(a, b);
    if a == [] && b != [] {
      DistEmpty(b[1..]);
    } else if a != [] && b == [] {
      DistEmpty(a[1..]);
    } else if a != [] && b != [] {
      DistOneSided(a, b[1..]);
      DistOneSided(a[1..], b);
      DistDropHead(a[1..], b);
      DistDropHead(a, b[1..]);
      if a[0] !in b {
        assert a[0] !in b[1..];
        assert Dist(a, b[1..]) == 1 + Dist(a[1..], b[1..]);
      }
      if b[0] !in a {
        assert b[0] !in a[1..];
        assert Dist(a[1..], b) == 1 + Dist(a[1..], b[1..]);
      }
    }
  }
}
