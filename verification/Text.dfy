// Splitting a text at each separator and joining the fields again.
module Text {
  function Split(s: string, separator: char): (fields: seq<string>)
    ensures |fields| >= 1
    ensures forall f :: f in fields ==> separator !in f
  {
    if s == "" then [""] else Push(s[0], Split(s[1..], separator), separator)
  }

  // The fields of a text with one more character in front.
  function Push(c: char, fields: seq<string>, separator: char): (r: seq<string>)
    requires |fields| >= 1
    ensures |r| >= 1
  {
    if c == separator then [""] + fields else [[c] + fields[0]] + fields[1..]
  }

  function Join(fields: seq<string>, separator: char): string {
    if fields == [] then ""
    else if |fields| == 1 then fields[0]
    else fields[0] + [separator] + Join(fields[1..], separator)
  }

  lemma JoinOfPush(c: char, fields: seq<string>, separator: char)
    requires |fields| >= 1
    ensures Join(Push(c, fields, separator), separator) == [c] + Join(fields, separator)
  {
    if c == separator {
      assert ([""] + fields)[1..] == fields;
    } else {
      assert ([[c] + fields[0]] + fields[1..])[1..] == fields[1..];
    }
  }

  lemma {:induction false} JoinOfSplit(s: string, separator: char)
    ensures Join(Split(s, separator), separator) == s
    decreases s
  {
    if s != "" {
      JoinOfSplit(s[1..], separator);
      JoinOfPush(s[0], Split(s[1..], separator), separator);
      assert s == [s[0]] + s[1..];
    }
  }

  lemma PushAppend(c: char, left: seq<string>, right: seq<string>, separator: char)
    requires |left| >= 1
    ensures Push(c, left + right, separator) == Push(c, left, separator) + right
  {
  }

  // A separator splits what comes before it from what comes after it.
  lemma {:induction false} SplitAt(s: string, separator: char, t: string)
    ensures Split(s + [separator] + t, separator) == Split(s, separator) + Split(t, separator)
    decreases s
  {
    var whole := s + [separator] + t;
    if s == "" {
      assert whole[1..] == t;
    } else {
      assert whole[1..] == s[1..] + [separator] + t && whole[0] == s[0];
      SplitAt(s[1..], separator, t);
      hide Push;
      PushAppend(s[0], Split(s[1..], separator), Split(t, separator), separator);
    }
  }

  lemma {:induction false} SplitOfField(s: string, separator: char)
    requires separator !in s
    ensures Split(s, separator) == [s]
    decreases s
  {
    if s != "" {
      SplitOfField(s[1..], separator);
      assert s == [s[0]] + s[1..];
    }
  }

  function GrowLast(fields: seq<string>, suffix: string): (r: seq<string>)
    requires |fields| >= 1
    ensures |r| >= 1
  {
    fields[..|fields| - 1] + [fields[|fields| - 1] + suffix]
  }

  // The last field grows with what has no separator.
  lemma {:induction false} LastFieldGrows(s: string, suffix: string, separator: char)
    requires separator !in suffix
    ensures Split(s + suffix, separator) == GrowLast(Split(s, separator), suffix)
    decreases s
  {
    if s == "" {
      assert s + suffix == suffix;
      SplitOfField(suffix, separator);
    } else {
      assert (s + suffix)[1..] == s[1..] + suffix && (s + suffix)[0] == s[0];
      LastFieldGrows(s[1..], suffix, separator);
      PushLast(s[0], Split(s[1..], separator), suffix, separator);
      hide Push, GrowLast;
    }
  }

  lemma PushLast(c: char, fields: seq<string>, suffix: string, separator: char)
    requires |fields| >= 1
    ensures Push(c, GrowLast(fields, suffix), separator) == GrowLast(Push(c, fields, separator), suffix)
  {
    var last := fields[|fields| - 1];
    assert [c] + (last + suffix) == ([c] + last) + suffix;
  }

  // Joining the first fields gives the text before one of the separators.
  lemma JoinOfFirst(s: string, separator: char, depth: nat)
    requires 1 <= depth < |Split(s, separator)|
    ensures var a := Join(Split(s, separator)[..depth], separator);
            |a| < |s| && s[|a|] == separator && s[..|a|] == a
  {
    var fields := Split(s, separator);
    JoinOfSplit(s, separator);
    JoinAppend(fields[..depth], fields[depth..], separator);
    assert fields[..depth] + fields[depth..] == fields;
  }

  lemma {:induction false} JoinAppend(left: seq<string>, right: seq<string>, separator: char)
    requires |left| >= 1 && |right| >= 1
    ensures Join(left + right, separator) == Join(left, separator) + [separator] + Join(right, separator)
    decreases left
  {
    if |left| == 1 {
      assert (left + right)[1..] == right;
    } else {
      JoinAppend(left[1..], right, separator);
      assert (left + right)[1..] == left[1..] + right && (left + right)[0] == left[0];
      assert |left[1..]| == |left| - 1;
    }
  }

  // The text before every separator is the join of some first fields.
  lemma FirstOfJoin(s: string, separator: char, i: nat) returns (depth: nat)
    requires i < |s| && s[i] == separator
    ensures 1 <= depth < |Split(s, separator)| && Join(Split(s, separator)[..depth], separator) == s[..i]
  {
    assert s == s[..i] + [separator] + s[i + 1..];
    SplitAt(s[..i], separator, s[i + 1..]);
    JoinOfSplit(s[..i], separator);
    depth := |Split(s[..i], separator)|;
    assert Split(s, separator)[..depth] == Split(s[..i], separator);
  }

  function IndexOf(s: string, c: char): (i: nat)
    ensures i <= |s|
    ensures i < |s| ==> s[i] == c
  {
    if s == "" || s[0] == c then 0 else 1 + IndexOf(s[1..], c)
  }

  lemma {:induction false} IndexOfFirst(s: string, c: char, t: string)
    requires c !in s && t != "" && t[0] == c
    ensures IndexOf(s + t, c) == |s|
    decreases s
  {
    if s == "" {
      assert s + t == t;
    } else {
      assert (s + t)[1..] == s[1..] + t;
      IndexOfFirst(s[1..], c, t);
    }
  }

  lemma {:induction false} IndexOfNone(s: string, c: char)
    requires c !in s
    ensures IndexOf(s, c) == |s|
    decreases s
  {
    if s != "" {
      IndexOfNone(s[1..], c);
    }
  }

  lemma {:induction false} IndexIsFirst(s: string, c: char)
    ensures c !in s[..IndexOf(s, c)]
    decreases s
  {
    if s != "" && s[0] != c {
      IndexIsFirst(s[1..], c);
      assert s[..IndexOf(s, c)] == [s[0]] + s[1..][..IndexOf(s[1..], c)];
    }
  }
}
