// Dropping lines that only one side has, and naming lines by numbers, keep
// the distance of two texts.
module Filtering {
  import opened EditScript
  import opened Blocks

  ghost function Filter<T(!new)>(s: seq<T>, keep: set<T>): seq<T> {
    if s == [] then [] else (if s[0] in keep then [s[0]] else []) + Filter(s[1..], keep)
  }

  lemma {:induction false} FilterConcat<T(!new)>(s: seq<T>, t: seq<T>, keep: set<T>)
    ensures Filter(s + t, keep) == Filter(s, keep) + Filter(t, keep)
    decreases s
  {
    if s == [] {
      assert s + t == t;
    } else {
      var head := if s[0] in keep then [s[0]] else [];
      var all := s + t;
      assert all[0] == s[0] && all[1..] == s[1..] + t;
      FilterConcat(s[1..], t, keep);
      assert Filter(all, keep) == head + Filter(all[1..], keep);
    }
  }

  lemma {:induction false} FilterLength<T(!new)>(s: seq<T>, keep: set<T>)
    ensures |Filter(s, keep)| <= |s|
    decreases s
  {
    if s != [] {
      FilterLength(s[1..], keep);
    }
  }

  lemma FilterSnoc<T(!new)>(s: seq<T>, i: nat, keep: set<T>)
    requires i < |s|
    ensures Filter(s[..i + 1], keep) == Filter(s[..i], keep) + (if s[i] in keep then [s[i]] else [])
  {
    assert s[..i + 1] == s[..i] + [s[i]];
    FilterConcat(s[..i], [s[i]], keep);
  }

  // No line that one side drops occurs on the other side.
  ghost predicate DropsOneSided<T(!new)>(a: seq<T>, b: seq<T>, keepA: set<T>, keepB: set<T>) {
    && (forall x :: x in a && x !in keepA ==> x !in b)
    && (forall y :: y in b && y !in keepB ==> y !in a)
  }

  // Dropping one-sided lines takes exactly their edits out of the distance.
  lemma {:induction false} DistFilter<T(!new)>(a: seq<T>, b: seq<T>, keepA: set<T>, keepB: set<T>)
    requires DropsOneSided(a, b, keepA, keepB)
    ensures Dist(a, b) ==
            Dist(Filter(a, keepA), Filter(b, keepB)) + (|a| - |Filter(a, keepA)|) + (|b| - |Filter(b, keepB)|)
    decreases |a| + |b|
  {
    hide Dist;
    DistOneSided(a, b);
    DistUnfold(a, b);
    DistUnfold(Filter(a, keepA), Filter(b, keepB));
    if a == [] && b == [] {
    } else if a != [] && a[0] !in keepA {
      assert Filter(a, keepA) == Filter(a[1..], keepA);
      DistFilter(a[1..], b, keepA, keepB);
    } else if b != [] && b[0] !in keepB {
      assert Filter(b, keepB) == Filter(b[1..], keepB);
      DistFilter(a, b[1..], keepA, keepB);
    } else if a == [] {
      DistFilter(a, b[1..], keepA, keepB);
    } else if b == [] {
      DistFilter(a[1..], b, keepA, keepB);
    } else {
      DistFilterBothKept(a, b, keepA, keepB);
    }
  }

  lemma {:induction false} DistFilterBothKept<T(!new)>(a: seq<T>, b: seq<T>, keepA: set<T>, keepB: set<T>)
    requires DropsOneSided(a, b, keepA, keepB)
    requires a != [] && b != [] && a[0] in keepA && b[0] in keepB
    ensures Dist(a, b) ==
            Dist(Filter(a, keepA), Filter(b, keepB)) + (|a| - |Filter(a, keepA)|) + (|b| - |Filter(b, keepB)|)
    decreases |a| + |b|, 0
  {
    hide Dist;
    DistUnfold(a, b);
    DistUnfold(Filter(a, keepA), Filter(b, keepB));
    DistFilter(a[1..], b, keepA, keepB);
    DistFilter(a, b[1..], keepA, keepB);
    DistFilter(a[1..], b[1..], keepA, keepB);
    var fa, fb := Filter(a, keepA), Filter(b, keepB);
    assert fa[1..] == Filter(a[1..], keepA) && fb[1..] == Filter(b[1..], keepB);
  }

  ghost predicate Injective<T(!new)>(names: map<T, nat>) {
    forall x, y :: x in names && y in names && names[x] == names[y] ==> x == y
  }

  ghost function Named<T(!new)>(names: map<T, nat>, s: seq<T>): seq<nat>
    requires forall x :: x in s ==> x in names
  {
    seq(|s|, i requires 0 <= i < |s| => names[s[i]])
  }

  lemma {:induction false} DistNamed<T(!new)>(names: map<T, nat>, a: seq<T>, b: seq<T>)
    requires Injective(names)
    requires forall x :: x in a ==> x in names
    requires forall x :: x in b ==> x in names
    ensures Dist(Named(names, a), Named(names, b)) == Dist(a, b)
    decreases |a| + |b|
  {
    hide Dist;
    DistUnfold(a, b);
    DistUnfold(Named(names, a), Named(names, b));
    if a != [] && b != [] {
      DistNamed(names, a[1..], b);
      DistNamed(names, a, b[1..]);
      DistNamed(names, a[1..], b[1..]);
      var na, nb := Named(names, a), Named(names, b);
      assert na[1..] == Named(names, a[1..]) && nb[1..] == Named(names, b[1..]);
    }
  }

  ghost predicate StrictlyIncreasing(s: seq<nat>) {
    forall i, j :: 0 <= i < j < |s| ==> s[i] < s[j]
  }

  // The kept lines of a text, their names and where they stand in the text.
  ghost predicate KeptLines<T(!new)>(s: seq<T>, keep: set<T>, names: map<T, nat>, kept: seq<nat>, index: seq<nat>) {
    && keep <= names.Keys && |kept| == |index| == |Filter(s, keep)|
    && StrictlyIncreasing(index)
    && (forall i :: 0 <= i < |index| ==> index[i] < |s|)
    && (forall i :: 0 <= i < |index| ==> Filter(s, keep)[i] == s[index[i]] && s[index[i]] in keep)
    && (forall i :: 0 <= i < |index| ==> kept[i] == names[Filter(s, keep)[i]])
  }

  lemma KeptGrows<T(!new)>(s: seq<T>, i: nat, keep: set<T>, names: map<T, nat>, kept: seq<nat>, index: seq<nat>)
    requires i < |s| && KeptLines(s[..i], keep, names, kept, index)
    ensures s[i] in keep ==> KeptLines(s[..i + 1], keep, names, kept + [names[s[i]]], index + [i])
    ensures s[i] !in keep ==> KeptLines(s[..i + 1], keep, names, kept, index)
  {
    FilterSnoc(s, i, keep);
    assert forall j :: 0 <= j < |index| ==> s[..i][index[j]] == s[..i + 1][index[j]];
  }

  lemma KeptIsNamed<T(!new)>(s: seq<T>, keep: set<T>, names: map<T, nat>, kept: seq<nat>, index: seq<nat>)
    requires KeptLines(s, keep, names, kept, index)
    ensures forall x :: x in Filter(s, keep) ==> x in names
    ensures kept == Named(names, Filter(s, keep)) && |kept| <= |s|
  {
    FilterLength(s, keep);
  }

  lemma DistKept<T(!new)>(a: seq<T>, b: seq<T>, keepA: set<T>, keepB: set<T>, names: map<T, nat>, keptA: seq<nat>,
                          keptB: seq<nat>)
    requires Injective(names) && DropsOneSided(a, b, keepA, keepB)
    requires forall x :: x in Filter(a, keepA) ==> x in names
    requires forall x :: x in Filter(b, keepB) ==> x in names
    requires keptA == Named(names, Filter(a, keepA)) && keptB == Named(names, Filter(b, keepB))
    ensures Dist(a, b) == Dist(keptA, keptB) + (|a| - |keptA|) + (|b| - |keptB|)
  {
    DistFilter(a, b, keepA, keepB);
    DistNamed(names, Filter(a, keepA), Filter(b, keepB));
  }

  // The pair of line numbers in the texts that a pair of kept lines stands for.
  ghost function RemapPair(pair: Pair, indexA: seq<nat>, indexB: seq<nat>): Pair {
    if pair.0 < |indexA| && pair.1 < |indexB| then (indexA[pair.0], indexB[pair.1]) else (0, 0)
  }

  ghost function Remap(pairs: seq<Pair>, indexA: seq<nat>, indexB: seq<nat>): seq<Pair> {
    seq(|pairs|, i requires 0 <= i < |pairs| => RemapPair(pairs[i], indexA, indexB))
  }

  // A matching of the kept lines is a matching of the texts.
  lemma RemapMatches<T(!new)>(a: seq<T>, b: seq<T>, keepA: set<T>, keepB: set<T>, names: map<T, nat>,
                        keptA: seq<nat>, indexA: seq<nat>, keptB: seq<nat>, indexB: seq<nat>, pairs: seq<Pair>)
    requires Injective(names)
    requires KeptLines(a, keepA, names, keptA, indexA) && KeptLines(b, keepB, names, keptB, indexB)
    requires Matching(keptA, keptB, pairs)
    ensures Matching(a, b, Remap(pairs, indexA, indexB))
  {
    var mapped := Remap(pairs, indexA, indexB);
    forall i | 0 <= i < |mapped|
      ensures PairIn(a, b, mapped[i], 0, |a|, 0, |b|)
    {
      assert PairIn(keptA, keptB, pairs[i], 0, |keptA|, 0, |keptB|);
    }
    forall i, j | 0 <= i < j < |mapped|
      ensures Before(mapped[i], mapped[j])
    {
      assert Before(pairs[i], pairs[j]);
      assert PairIn(keptA, keptB, pairs[i], 0, |keptA|, 0, |keptB|);
      assert PairIn(keptA, keptB, pairs[j], 0, |keptA|, 0, |keptB|);
    }
  }

  ghost function ShiftPair(pair: Pair, offset: nat): Pair {
    (pair.0 + offset, pair.1 + offset)
  }

  ghost function Shift(pairs: seq<Pair>, offset: nat): seq<Pair> {
    seq(|pairs|, i requires 0 <= i < |pairs| => ShiftPair(pairs[i], offset))
  }

  // A matching of two ranges that start at the same line, seen in the texts.
  lemma ShiftMatches<T(!new)>(a: seq<T>, b: seq<T>, aHigh: nat, bHigh: nat, offset: nat, pairs: seq<Pair>)
    requires offset <= aHigh <= |a| && offset <= bHigh <= |b|
    requires Matching(a[offset..aHigh], b[offset..bHigh], pairs)
    ensures MatchingIn(a, b, Shift(pairs, offset), offset, aHigh, offset, bHigh)
  {
    var shifted := Shift(pairs, offset);
    forall i | 0 <= i < |shifted|
      ensures PairIn(a, b, shifted[i], offset, aHigh, offset, bHigh)
    {
      assert PairIn(a[offset..aHigh], b[offset..bHigh], pairs[i], 0, aHigh - offset, 0, bHigh - offset);
    }
    forall i, j | 0 <= i < j < |shifted|
      ensures Before(shifted[i], shifted[j])
    {
      assert Before(pairs[i], pairs[j]);
    }
  }
}
