// The names of checkpoints: numbers with at least four digits.
module Identifiers {
  import opened Wrappers
  import opened Paths
  import Decimal

  function Pad(s: string): string
    decreases 4 - |s|
  {
    if |s| < 4 then Pad("0" + s) else s
  }

  function FormatId(n: nat): string {
    Pad(Decimal.Format(n))
  }

  lemma {:induction false} ValueOfZero(s: string)
    requires Decimal.IsDecimal(s)
    ensures Decimal.IsDecimal("0" + s) && Decimal.Value("0" + s) == Decimal.Value(s)
    decreases s
  {
    if |s| > 1 {
      ValueOfZero(s[..|s| - 1]);
      assert ("0" + s)[..|s|] == "0" + s[..|s| - 1];
    } else {
      assert ("0" + s)[..1] == "0" && Decimal.Value("0") == 0;
    }
  }

  lemma {:induction false} ValueOfPad(s: string)
    requires Decimal.IsDecimal(s)
    ensures Decimal.IsDecimal(Pad(s)) && Decimal.Value(Pad(s)) == Decimal.Value(s)
    decreases 4 - |s|
  {
    if |s| < 4 {
      ValueOfZero(s);
      ValueOfPad("0" + s);
    }
  }

  // The text names the checkpoint, as it is listed or as any number.
  predicate Names(wanted: string, n: nat) {
    wanted == FormatId(n) || Decimal.Atoi(wanted) == Some(n)
  }

  lemma ValueOfId(n: nat)
    ensures Decimal.IsDecimal(FormatId(n)) && Decimal.Value(FormatId(n)) == n
  {
    Decimal.ValueOfFormat(n);
    ValueOfPad(Decimal.Format(n));
  }

  // A text names at most one checkpoint.
  lemma NamesAreUnique(wanted: string, n: nat, m: nat)
    requires Names(wanted, n) && Names(wanted, m)
    ensures n == m
  {
    ValueOfId(n);
    ValueOfId(m);
    assert Decimal.IsDecimal(wanted) ==> Decimal.IsDigit(wanted[0]);
  }

  predicate AtMost(x: nat, y: nat) {
    x <= y
  }

  // The numbers of the stored checkpoints in order.
  method SortedNumbers(numbers: set<nat>) returns (sorted: seq<nat>)
    ensures forall n :: n in sorted <==> n in numbers
    ensures forall i, j :: 0 <= i < j < |sorted| ==> sorted[i] < sorted[j]
    ensures |sorted| == |numbers|
  {
    var rest := numbers;
    var found: seq<nat> := [];
    while rest != {}
      invariant rest <= numbers && forall n :: n in found <==> n in numbers && n !in rest
      invariant forall i, j :: 0 <= i < j < |found| ==> found[i] != found[j]
      invariant |found| + |rest| == |numbers|
      decreases |rest|
    {
      var n :| n in rest;
      rest := rest - {n};
      found := found + [n];
    }
    sorted := Sort(AtMost, found);
    SortSorts(AtMost, found);
    Strict(found, sorted);
  }

  lemma Strict(found: seq<nat>, sorted: seq<nat>)
    requires SortedBy(AtMost, sorted) && multiset(found) == multiset(sorted)
    requires forall i, j :: 0 <= i < j < |found| ==> found[i] != found[j]
    ensures forall n :: n in sorted <==> n in found
    ensures forall i, j :: 0 <= i < j < |sorted| ==> sorted[i] < sorted[j]
    ensures |sorted| == |found|
  {
    assert |multiset(found)| == |found| && |multiset(sorted)| == |sorted|;
    assert forall n :: n in found <==> n in multiset(found);
    assert forall n :: n in sorted <==> n in multiset(sorted);
    forall i, j | 0 <= i < j < |sorted|
      ensures sorted[i] < sorted[j]
    {
      assert AtMost(sorted[i], sorted[j]);
      if sorted[i] == sorted[j] {
        Twice(sorted, i, j);
        Once(found, sorted[i]);
      }
    }
  }

  // Finds the checkpoint that a text names.
  method Resolve(numbers: set<nat>, wanted: string) returns (found: Option<nat>)
    ensures found.Some? ==> found.value in numbers && Names(wanted, found.value)
    ensures found.None? ==> forall n :: n in numbers ==> !Names(wanted, n)
  {
    var sorted := SortedNumbers(numbers);
    var number := Decimal.Atoi(wanted);
    for index := 0 to |sorted|
      invariant forall i :: 0 <= i < index ==> wanted != FormatId(sorted[i])
    {
      if wanted == FormatId(sorted[index]) {
        return Some(sorted[index]);
      }
    }
    for index := 0 to |sorted|
      invariant forall i :: 0 <= i < index ==> number != Some(sorted[i])
    {
      if number == Some(sorted[index]) {
        return Some(sorted[index]);
      }
    }
    found := None;
  }

  // The checkpoint this many places after the current one, or after the last
  // one when no stored checkpoint is current.
  ghost predicate StepsTo(sorted: seq<nat>, head: Option<nat>, direction: int, target: Option<nat>) {
    exists position :: 0 <= position < |sorted| && StepsFrom(sorted, head, direction, target, position)
  }

  ghost predicate StepsFrom(sorted: seq<nat>, head: Option<nat>, direction: int, target: Option<nat>, position: int)
    requires 0 <= position < |sorted|
  {
    && (if head.Some? && head.value in sorted then sorted[position] == head.value else position == |sorted| - 1)
    && target == if 0 <= position + direction < |sorted| then Some(sorted[position + direction]) else None
  }

  method Step(numbers: set<nat>, head: Option<nat>, direction: int)
      returns (target: Option<nat>, ghost sorted: seq<nat>)
    ensures forall n :: n in sorted <==> n in numbers
    ensures forall i, j :: 0 <= i < j < |sorted| ==> sorted[i] < sorted[j]
    ensures if numbers == {} then target == None else StepsTo(sorted, head, direction, target)
  {
    var identifiers := SortedNumbers(numbers);
    sorted := identifiers;
    if |identifiers| == 0 {
      return None, sorted;
    }
    assert identifiers[0] in numbers;
    var position := |identifiers| - 1;
    if head.Some? {
      for index := 0 to |identifiers|
        invariant position == |identifiers| - 1
        invariant forall i :: 0 <= i < index ==> identifiers[i] != head.value
      {
        if identifiers[index] == head.value {
          position := index;
          break;
        }
      }
    }
    assert head.Some? && head.value in identifiers ==> identifiers[position] == head.value;
    var goal := position + direction;
    target := if goal < 0 || goal >= |identifiers| then None else Some(identifiers[goal]);
    assert StepsFrom(sorted, head, direction, target, position);
  }

  // Stepping there and back again comes to where one was.
  lemma StepBack(sorted: seq<nat>, head: nat, direction: int, there: nat, back: Option<nat>)
    requires forall i, j :: 0 <= i < j < |sorted| ==> sorted[i] < sorted[j]
    requires head in sorted && StepsTo(sorted, Some(head), direction, Some(there))
             && StepsTo(sorted, Some(there), -direction, back)
    ensures back == Some(head)
  {
  }

  // A checkpoint is listed as its number with zeros in front, four characters at
  // least, and any text that is its number names it.
  lemma NamesMean(n: nat, wanted: string)
    ensures exists zeros :: (forall i :: 0 <= i < |zeros| ==> zeros[i] == '0')
              && FormatId(n) == zeros + Decimal.Format(n)
    ensures |FormatId(n)| == if |Decimal.Format(n)| < 4 then 4 else |Decimal.Format(n)|
    ensures Names(FormatId(n), n)
    ensures Decimal.IsDecimal(wanted) && Decimal.Value(wanted) == n < 0x8000_0000_0000_0000 ==> Names(wanted, n)
  {
    var zeros := PadsWithZeros(Decimal.Format(n));
  }

  lemma {:induction false} PadsWithZeros(s: string) returns (zeros: string)
    ensures (forall i :: 0 <= i < |zeros| ==> zeros[i] == '0') && Pad(s) == zeros + s
    ensures |Pad(s)| == if |s| < 4 then 4 else |s|
    decreases 4 - |s|
  {
    if |s| < 4 {
      zeros := PadsWithZeros("0" + s);
      assert zeros + ("0" + s) == zeros + "0" + s;
      zeros := zeros + "0";
    } else {
      zeros := "";
      assert s == "" + s;
    }
  }
}
