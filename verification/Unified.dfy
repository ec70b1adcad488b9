// The unified text of a diff, and a reader that patches with that text.
module Unified {
  import opened Wrappers
  import opened EditScript
  import opened Hunks
  import opened HunkLaws
  import opened Text
  import Decimal
  import Diff

  const NO_NEWLINE_MARKER := "\\ No newline at end of file"

  // The range in a hunk header: a line number counts from one, but the start of a
  // range without lines is the number of the line that it follows.
  function HunkRange(start: nat, count: nat): string {
    if count == 0 then Decimal.Format(start) + ",0"
    else if count == 1 then Decimal.Format(start + 1)
    else Decimal.Format(start + 1) + "," + Decimal.Format(count)
  }

  function EditPrefix(op: Op): char {
    match op
    case Delete => '-'
    case Insert => '+'
    case Equal => ' '
  }

  predicate HasNewline(line: Line) {
    line != "" && line[|line| - 1] == '\n'
  }

  function CutNewline(line: Line): Line {
    if HasNewline(line) then line[..|line| - 1] else line
  }

  function FormatEdit(edit: Edit<Line>, terminated: bool): seq<string> {
    [[EditPrefix(edit.op)] + CutNewline(edit.line)]
    + if terminated && !HasNewline(edit.line) then [NO_NEWLINE_MARKER] else []
  }

  function FormatEdits(edits: seq<Edit<Line>>, terminated: bool): seq<string> {
    if edits == [] then [] else FormatEdit(edits[0], terminated) + FormatEdits(edits[1..], terminated)
  }

  function FormatHeader(hunk: Hunk): string {
    "@@ -" + HunkRange(hunk.aStart, hunk.aCount) + " +" + HunkRange(hunk.bStart, hunk.bCount) + " @@"
  }

  function FormatHunk(hunk: Hunk, terminated: bool): seq<string> {
    [FormatHeader(hunk)] + FormatEdits(hunk.lines, terminated)
  }

  function FormatHunks(hunks: seq<Hunk>, terminated: bool): seq<string> {
    if hunks == [] then [] else FormatHunk(hunks[0], terminated) + FormatHunks(hunks[1..], terminated)
  }

  // The reader, written from the format alone.

  function ParseNat(s: string): Option<nat> {
    if Decimal.IsDecimal(s) then Some(Decimal.Value(s)) else None
  }

  // A range as its zero-based start and its count.
  function ParseRange(s: string): Option<(nat, nat)> {
    var comma := IndexOf(s, ',');
    var first := ParseNat(s[..comma]);
    var count := if comma == |s| then Some(1) else ParseNat(s[comma + 1..]);
    match (first, count)
    case (Some(start), Some(n)) =>
      if n == 0 then Some((start, 0))
      else if start == 0 then None
      else Some((start - 1, n))
    case _ => None
  }

  function ParseHeader(line: string): Option<((nat, nat), (nat, nat))> {
    if |line| < 4 || line[..4] != "@@ -" then None
    else
      var aText := line[4..];
      var aEnd := IndexOf(aText, ' ');
      if |aText| < aEnd + 2 || aText[aEnd..aEnd + 2] != " +" then None
      else
        var bText := aText[aEnd + 2..];
        var bEnd := IndexOf(bText, ' ');
        if bText[bEnd..] != " @@" then None
        else
          match (ParseRange(aText[..aEnd]), ParseRange(bText[..bEnd]))
          case (Some(aRange), Some(bRange)) => Some((aRange, bRange))
          case _ => None
  }

  function ParsePrefix(c: char): Option<Op> {
    if c == ' ' then Some(Equal)
    else if c == '-' then Some(Delete)
    else if c == '+' then Some(Insert)
    else None
  }

  // Reads edits until both sides have their stated number of lines.
  function ParseEdits(lines: seq<string>, aLeft: nat, bLeft: nat, terminated: bool): Option<(seq<Edit<Line>>,
                      seq<string>)>
    decreases |lines|
  {
    if aLeft == 0 && bLeft == 0 then Some(([], lines))
    else if lines == [] || lines[0] == "" then None
    else
      match ParsePrefix(lines[0][0])
      case None => None
      case Some(op) =>
        if (op != Insert && aLeft == 0) || (op != Delete && bLeft == 0) then None
        else
          var marked := terminated && |lines| > 1 && lines[1] == "\\ No newline at end of file";
          var line := lines[0][1..] + if terminated && !marked then "\n" else "";
          match ParseEdits(lines[if marked then 2 else 1..], if op != Insert then aLeft - 1 else aLeft,
                           if op != Delete then bLeft - 1 else bLeft, terminated)
          case None => None
          case Some((edits, rest)) => Some(([Edit(op, line)] + edits, rest))
  }

  lemma {:induction false} ParseEditsShrinks(lines: seq<string>, aLeft: nat, bLeft: nat, terminated: bool)
    ensures var parsed := ParseEdits(lines, aLeft, bLeft, terminated); parsed.Some? ==> |parsed.value.1| <= |lines|
    decreases |lines|
  {
    if !(aLeft == 0 && bLeft == 0) && lines != [] && lines[0] != "" && ParsePrefix(lines[0][0]).Some? {
      var op := ParsePrefix(lines[0][0]).value;
      if !((op != Insert && aLeft == 0) || (op != Delete && bLeft == 0)) {
        var marked := terminated && |lines| > 1 && lines[1] == NO_NEWLINE_MARKER;
        ParseEditsShrinks(lines[if marked then 2 else 1..], if op != Insert then aLeft - 1 else aLeft,
                          if op != Delete then bLeft - 1 else bLeft, terminated);
      }
    }
  }

  function ParseHunks(lines: seq<string>, terminated: bool): Option<seq<Hunk>>
    decreases |lines|
  {
    if lines == [] then Some([])
    else
      match ParseHeader(lines[0])
      case None => None
      case Some(((aStart, aCount), (bStart, bCount))) =>
        ParseEditsShrinks(lines[1..], aCount, bCount, terminated);
        match ParseEdits(lines[1..], aCount, bCount, terminated)
        case None => None
        case Some((edits, rest)) =>
          match ParseHunks(rest, terminated)
          case None => None
          case Some(hunks) => Some([Hunk(aStart, aCount, bStart, bCount, edits)] + hunks)
  }

  // Patches a text with the lines of a unified diff.
  function PatchWith(lines: seq<string>, a: seq<Line>, terminated: bool): Option<seq<Line>> {
    if lines == [] then Some(a)
    else if |lines| < 2 || !("--- " <= lines[0]) || !("+++ " <= lines[1]) then None
    else
      match ParseHunks(lines[2..], terminated)
      case None => None
      case Some(hunks) => Patch(a, 0, 0, hunks)
  }

  // What the text of a hunk keeps of its lines.

  lemma NatReadsBack(n: nat)
    ensures ParseNat(Decimal.Format(n)) == Some(n)
    ensures ',' !in Decimal.Format(n) && ' ' !in Decimal.Format(n)
  {
    Decimal.ValueOfFormat(n);
    Decimal.FormatHasNo(n, ',');
    Decimal.FormatHasNo(n, ' ');
  }

  lemma RangeReadsBack(start: nat, count: nat)
    ensures ParseRange(HunkRange(start, count)) == Some((start, count))
    ensures ' ' !in HunkRange(start, count)
  {
    hide IndexOf, ParseNat, Decimal.Format;
    var first := if count == 0 then start else start + 1;
    var text := Decimal.Format(first);
    NatReadsBack(first);
    if count == 1 {
      IndexOfNone(text, ',');
      assert text[..|text|] == text;
    } else {
      var number := Decimal.Format(count);
      NatReadsBack(count);
      assert count == 0 ==> number == "0" by {
        assert Decimal.Format(0) == "0" by { Zero(); }
      }
      var tail := "," + number;
      IndexOfFirst(text, ',', tail);
      assert HunkRange(start, count) == text + tail;
      Parts(text, tail);
      assert (text + tail)[|text| + 1..] == number;
    }
  }

  lemma Zero()
    ensures Decimal.Format(0) == "0"
  {
  }

  lemma Parts(s: string, t: string)
    ensures (s + t)[..|s|] == s && (s + t)[|s|..] == t
  {
  }

  lemma HeaderReadsBack(hunk: Hunk)
    ensures ParseHeader(FormatHeader(hunk)) == Some(((hunk.aStart, hunk.aCount), (hunk.bStart, hunk.bCount)))
  {
    hide HunkRange, ParseRange, IndexOf;
    var aRange, bRange := HunkRange(hunk.aStart, hunk.aCount), HunkRange(hunk.bStart, hunk.bCount);
    RangeReadsBack(hunk.aStart, hunk.aCount);
    RangeReadsBack(hunk.bStart, hunk.bCount);
    var bText := bRange + " @@";
    var aText := aRange + (" +" + bText);
    assert FormatHeader(hunk) == "@@ -" + aText;
    Parts("@@ -", aText);
    IndexOfFirst(aRange, ' ', " +" + bText);
    Parts(aRange, " +" + bText);
    Parts(aRange + " +", bText);
    assert aText == aRange + " +" + bText;
    assert aText[|aRange|..|aRange| + 2] == " +";
    IndexOfFirst(bRange, ' ', " @@");
    Parts(bRange, " @@");
  }

  // The line that the text keeps: without terminators, a newline is lost.
  function KeptLine(line: Line, terminated: bool): Line {
    if terminated then line else CutNewline(line)
  }

  function KeptEdits(edits: seq<Edit<Line>>, terminated: bool): seq<Edit<Line>> {
    seq(|edits|, i requires 0 <= i < |edits| => Edit(edits[i].op, KeptLine(edits[i].line, terminated)))
  }

  ghost predicate NoMarkerFirst(lines: seq<string>) {
    lines != [] ==> lines[0] != NO_NEWLINE_MARKER
  }

  lemma FormattedHasNoMarkerFirst(edits: seq<Edit<Line>>, terminated: bool, rest: seq<string>)
    requires NoMarkerFirst(rest)
    ensures NoMarkerFirst(FormatEdits(edits, terminated) + rest)
  {
    if edits != [] {
      var first := [EditPrefix(edits[0].op)] + CutNewline(edits[0].line);
      assert (FormatEdits(edits, terminated) + rest)[0] == first;
      assert first[0] != NO_NEWLINE_MARKER[0];
    }
  }

  // The first lines of a text hold one edit and leave the others.
  ghost predicate StartsWithEdit(lines: seq<string>, edit: Edit<Line>, tail: seq<string>, terminated: bool) {
    var marked := terminated && |lines| > 1 && lines[1] == NO_NEWLINE_MARKER;
    && lines != [] && lines[0] != "" && ParsePrefix(lines[0][0]) == Some(edit.op)
    && (marked ==> |lines| >= 2)
    && lines[if marked then 2 else 1..] == tail
    && lines[0][1..] + (if terminated && !marked then "\n" else "") == edit.line
  }

  lemma EditReadsBack(edit: Edit<Line>, tail: seq<string>, terminated: bool)
    requires NoMarkerFirst(tail)
    ensures StartsWithEdit(FormatEdit(edit, terminated) +
                           tail, Edit(edit.op, KeptLine(edit.line, terminated)), tail, terminated)
  {
    var lines := FormatEdit(edit, terminated) + tail;
    var cut := CutNewline(edit.line);
    assert lines[0] == [EditPrefix(edit.op)] + cut && lines[0][1..] == cut;
    assert cut + "" == cut;
    if terminated && !HasNewline(edit.line) {
      assert lines[1] == NO_NEWLINE_MARKER;
      assert lines[2..] == tail;
    } else {
      assert lines[1..] == tail;
      assert |lines| > 1 ==> lines[1] == tail[0];
      assert HasNewline(edit.line) ==> cut + "\n" == edit.line;
    }
  }

  lemma ParseStep(lines: seq<string>, edit: Edit<Line>, tail: seq<string>, aLeft: nat, bLeft: nat, terminated: bool,
                  edits: seq<Edit<Line>>, rest: seq<string>)
    requires StartsWithEdit(lines, edit, tail, terminated)
    requires ParseEdits(tail, aLeft, bLeft, terminated) == Some((edits, rest))
    ensures ParseEdits(lines, if edit.op != Insert then aLeft + 1 else aLeft, if edit.op != Delete then bLeft + 1
                       else bLeft, terminated)
         == Some(([edit] + edits, rest))
  {
    hide ParsePrefix;
  }

  lemma Concat3(s: seq<string>, t: seq<string>, u: seq<string>)
    ensures s + t + u == s + (t + u)
    ensures |s| == 1 ==> (s + t + u)[0] == s[0] && (s + t + u)[1..] == t + u
  {
  }

  lemma FirstEdit(edits: seq<Edit<Line>>, rest: seq<string>, terminated: bool)
    requires edits != []
    ensures FormatEdits(edits, terminated) + rest ==
            FormatEdit(edits[0], terminated) + (FormatEdits(edits[1..], terminated) + rest)
    ensures |OldSide(edits)| == |OldSide(edits[1..])| + if edits[0].op != Insert then 1 else 0
    ensures |NewSide(edits)| == |NewSide(edits[1..])| + if edits[0].op != Delete then 1 else 0
  {
    hide FormatEdit;
    Concat3(FormatEdit(edits[0], terminated), FormatEdits(edits[1..], terminated), rest);
  }

  lemma FirstKept(edits: seq<Edit<Line>>, terminated: bool)
    requires edits != []
    ensures KeptEdits(edits, terminated)
         == [Edit(edits[0].op, KeptLine(edits[0].line, terminated))] + KeptEdits(edits[1..], terminated)
  {
    hide KeptLine;
  }

  lemma {:induction false} EditsReadBack(edits: seq<Edit<Line>>, rest: seq<string>, terminated: bool)
    requires NoMarkerFirst(rest)
    ensures ParseEdits(FormatEdits(edits, terminated) + rest, |OldSide(edits)|, |NewSide(edits)|, terminated)
         == Some((KeptEdits(edits, terminated), rest))
    decreases edits
  {
    if edits == [] {
      assert FormatEdits(edits, terminated) + rest == rest;
      assert KeptEdits(edits, terminated) == [];
    } else {
      hide *;
      var tail := FormatEdits(edits[1..], terminated) + rest;
      FirstEdit(edits, rest, terminated);
      FirstKept(edits, terminated);
      FormattedHasNoMarkerFirst(edits[1..], terminated, rest);
      EditReadsBack(edits[0], tail, terminated);
      EditsReadBack(edits[1..], rest, terminated);
      ParseStep(FormatEdits(edits, terminated) + rest, Edit(edits[0].op, KeptLine(edits[0].line, terminated)), tail,
                |OldSide(edits[1..])|, |NewSide(edits[1..])|, terminated, KeptEdits(edits[1..], terminated), rest);
    }
  }

  // A line feed stands at the end of the line only, if at all.
  ghost predicate IsOneLine(line: Line) {
    line == "" || '\n' !in line[..|line| - 1]
  }

  ghost predicate Printable(lines: seq<string>) {
    forall line :: line in lines ==> '\n' !in line
  }

  // Each printed line is one line of the output: the line feeds of the texts are cut
  // off, and a marker line says where one is missing.
  lemma {:induction false} HunksArePrintable(hunks: seq<Hunk>, terminated: bool)
    requires forall i, j :: 0 <= i < |hunks| && 0 <= j < |hunks[i].lines| ==> IsOneLine(hunks[i].lines[j].line)
    ensures Printable(FormatHunks(hunks, terminated))
    decreases hunks
  {
    if hunks != [] {
      hide FormatEdits, FormatHeader, IsOneLine;
      HeaderIsPrintable(hunks[0]);
      EditsArePrintable(hunks[0].lines, terminated);
      HunksArePrintable(hunks[1..], terminated);
    }
  }

  lemma {:induction false} EditsArePrintable(edits: seq<Edit<Line>>, terminated: bool)
    requires forall i :: 0 <= i < |edits| ==> IsOneLine(edits[i].line)
    ensures Printable(FormatEdits(edits, terminated))
    decreases edits
  {
    if edits != [] {
      hide FormatEdit, IsOneLine;
      EditIsPrintable(edits[0], terminated);
      EditsArePrintable(edits[1..], terminated);
    }
  }

  lemma EditIsPrintable(edit: Edit<Line>, terminated: bool)
    requires IsOneLine(edit.line)
    ensures Printable(FormatEdit(edit, terminated))
  {
    var line, cut := edit.line, CutNewline(edit.line);
    assert '\n' !in cut by {
      if line != "" && line[|line| - 1] != '\n' {
        assert line == line[..|line| - 1] + [line[|line| - 1]];
      }
    }
    MarkerIsPrintable();
  }

  lemma MarkerIsPrintable()
    ensures '\n' !in NO_NEWLINE_MARKER
  {
    assert NO_NEWLINE_MARKER == "\\ No newline at end of file";
  }

  lemma HeaderIsPrintable(hunk: Hunk)
    ensures '\n' !in FormatHeader(hunk)
  {
    RangeIsPrintable(hunk.aStart, hunk.aCount);
    RangeIsPrintable(hunk.bStart, hunk.bCount);
  }

  lemma RangeIsPrintable(start: nat, count: nat)
    ensures '\n' !in HunkRange(start, count)
  {
    DigitsArePrintable(start);
    DigitsArePrintable(start + 1);
    DigitsArePrintable(count);
  }

  lemma DigitsArePrintable(n: nat)
    ensures '\n' !in Decimal.Format(n)
  {
    Decimal.NoLeadingZero(n);
    Decimal.DigitsMean(Decimal.Format(n), '0');
  }

  // The hunk states how many lines of each side it holds.
  ghost predicate Counted(hunk: Hunk) {
    hunk.aCount == |OldSide(hunk.lines)| && hunk.bCount == |NewSide(hunk.lines)|
  }

  function KeptHunks(hunks: seq<Hunk>, terminated: bool): seq<Hunk> {
    seq(|hunks|, i requires 0 <= i < |hunks| => hunks[i].(lines := KeptEdits(hunks[i].lines, terminated)))
  }

  lemma FirstHunk(hunks: seq<Hunk>, terminated: bool)
    requires hunks != []
    ensures var text := FormatHunks(hunks, terminated);
            && text != [] && text[0] == FormatHeader(hunks[0])
            && text[1..] == FormatEdits(hunks[0].lines, terminated) + FormatHunks(hunks[1..], terminated)
    ensures KeptHunks(hunks, terminated)
         == [hunks[0].(lines := KeptEdits(hunks[0].lines, terminated))] + KeptHunks(hunks[1..], terminated)
  {
    hide FormatEdits, FormatHeader, KeptEdits;
    var body, rest := FormatEdits(hunks[0].lines, terminated), FormatHunks(hunks[1..], terminated);
    assert FormatHunks(hunks, terminated) == FormatHunk(hunks[0], terminated) + rest;
    Concat3([FormatHeader(hunks[0])], body, rest);
  }

  lemma HunksHaveNoMarkerFirst(hunks: seq<Hunk>, terminated: bool)
    ensures NoMarkerFirst(FormatHunks(hunks, terminated))
  {
    if hunks != [] {
      FirstHunk(hunks, terminated);
      assert FormatHeader(hunks[0])[0] == '@';
    }
  }

  // The text of any hunks reads back as these hunks. Only the newlines of
  // lines that were promised to have none are lost.
  lemma {:induction false} HunksReadBack(hunks: seq<Hunk>, terminated: bool)
    requires forall i :: 0 <= i < |hunks| ==> Counted(hunks[i])
    ensures ParseHunks(FormatHunks(hunks, terminated), terminated) == Some(KeptHunks(hunks, terminated))
    decreases hunks
  {
    if hunks == [] {
      assert KeptHunks(hunks, terminated) == [];
    } else {
      hide OldSide, NewSide, FormatHunks, FormatEdits, ParseEdits, ParseHeader, FormatHeader, KeptEdits, KeptHunks,
        NoMarkerFirst;
      assert Counted(hunks[0]);
      FirstHunk(hunks, terminated);
      HeaderReadsBack(hunks[0]);
      HunksHaveNoMarkerFirst(hunks[1..], terminated);
      EditsReadBack(hunks[0].lines, FormatHunks(hunks[1..], terminated), terminated);
      HunksReadBack(hunks[1..], terminated);
    }
  }

  ghost predicate NoNewlines(lines: seq<Line>) {
    forall i :: 0 <= i < |lines| ==> !HasNewline(lines[i])
  }

  lemma {:induction false} LineOfSide(edits: seq<Edit<Line>>, i: nat)
    requires i < |edits|
    ensures edits[i].line in OldSide(edits) || edits[i].line in NewSide(edits)
    decreases edits
  {
    if i > 0 {
      LineOfSide(edits[1..], i - 1);
    }
  }

  lemma KeptWithoutNewlines(edits: seq<Edit<Line>>, start: nat, end: nat, terminated: bool)
    requires start <= end <= |edits|
    requires terminated || (NoNewlines(OldSide(edits)) && NoNewlines(NewSide(edits)))
    ensures KeptEdits(edits[start..end], terminated) == edits[start..end]
  {
    forall i | start <= i < end
      ensures KeptLine(edits[i].line, terminated) == edits[i].line
    {
      LineOfSide(edits, i);
    }
    hide OldSide, NewSide, KeptLine, NoNewlines;
    assert forall i :: 0 <= i < end - start ==> edits[start..end][i] == edits[start + i];
  }

  // The text loses nothing of a script whose lines keep the promise.
  lemma NothingLost(edits: seq<Edit<Line>>, spans: seq<Span>, hunks: seq<Hunk>, terminated: bool)
    requires HunksOf(edits, spans, hunks)
    requires terminated || (NoNewlines(OldSide(edits)) && NoNewlines(NewSide(edits)))
    ensures KeptHunks(hunks, terminated) == hunks
  {
    hide OldSide, NewSide, KeptEdits, NoNewlines;
    forall k | 0 <= k < |hunks|
      ensures KeptEdits(hunks[k].lines, terminated) == hunks[k].lines
    {
      assert hunks[k] == HunkAt(edits, spans[k].start, spans[k].end);
      KeptWithoutNewlines(edits, spans[k].start, spans[k].end, terminated);
    }
  }

  // A script without hunks changes nothing, and equal texts need no hunks.
  lemma NoHunksIffEqual(edits: seq<Edit<Line>>, context: nat, spans: seq<Span>, a: seq<Line>, b: seq<Line>)
    requires Grouped(edits, context, spans, |edits|) && IsScript(edits, a, b)
    requires a == b ==> Cost(edits) == 0
    ensures spans == [] <==> a == b
  {
    if spans == [] {
      forall i | 0 <= i < |edits|
        ensures !Changed(edits, i)
      {
        assert Changed(edits, i) ==> Covered(spans, i);
      }
      UnchangedSides(edits, 0, |edits|);
      assert edits[0..|edits|] == edits;
    } else if Cost(edits) == 0 {
      assert SpanFits(edits, context, spans[0]);
      CostZero(edits, spans[0].first);
    }
  }

  lemma {:induction false} CostZero(edits: seq<Edit<Line>>, i: nat)
    requires i < |edits| && Changed(edits, i)
    ensures Cost(edits) > 0
    decreases edits
  {
    if i > 0 {
      CostZero(edits[1..], i - 1);
    }
  }

  lemma {:induction false} FormatEditsConcat(s: seq<Edit<Line>>, t: seq<Edit<Line>>, terminated: bool)
    ensures FormatEdits(s + t, terminated) == FormatEdits(s, terminated) + FormatEdits(t, terminated)
    decreases s
  {
    hide FormatEdit;
    if s == [] {
      assert s + t == t;
    } else {
      var all := s + t;
      assert all[0] == s[0] && all[1..] == s[1..] + t;
      FormatEditsConcat(s[1..], t, terminated);
    }
  }

  lemma {:induction false} FormatHunksConcat(s: seq<Hunk>, t: seq<Hunk>, terminated: bool)
    ensures FormatHunks(s + t, terminated) == FormatHunks(s, terminated) + FormatHunks(t, terminated)
    decreases s
  {
    hide FormatHunk;
    if s == [] {
      assert s + t == t;
    } else {
      var all := s + t;
      assert all[0] == s[0] && all[1..] == s[1..] + t;
      FormatHunksConcat(s[1..], t, terminated);
    }
  }

  lemma NextEditText(edits: seq<Edit<Line>>, i: nat, terminated: bool)
    requires i < |edits|
    ensures FormatEdits(edits[..i + 1], terminated) ==
            FormatEdits(edits[..i], terminated) + FormatEdit(edits[i], terminated)
  {
    assert edits[..i + 1] == edits[..i] + [edits[i]];
    FormatEditsConcat(edits[..i], [edits[i]], terminated);
    assert FormatEdits([edits[i]], terminated) == FormatEdit(edits[i], terminated) + [];
  }

  lemma NextHunkText(hunks: seq<Hunk>, i: nat, terminated: bool)
    requires i < |hunks|
    ensures FormatHunks(hunks[..i + 1], terminated) ==
            FormatHunks(hunks[..i], terminated) + FormatHunk(hunks[i], terminated)
  {
    hide FormatHunk;
    assert hunks[..i + 1] == hunks[..i] + [hunks[i]];
    FormatHunksConcat(hunks[..i], [hunks[i]], terminated);
    assert FormatHunks([hunks[i]], terminated) == FormatHunk(hunks[i], terminated) + [];
  }

  method HunkText(hunk: Hunk, terminated: bool) returns (text: seq<string>)
    ensures text == FormatHunk(hunk, terminated)
  {
    text := [FormatHeader(hunk)];
    for i := 0 to |hunk.lines|
      invariant text == [FormatHeader(hunk)] + FormatEdits(hunk.lines[..i], terminated)
    {
      hide *;
      NextEditText(hunk.lines, i, terminated);
      text := text + FormatEdit(hunk.lines[i], terminated);
    }
    assert hunk.lines[..|hunk.lines|] == hunk.lines;
  }

  function DiffHeader(aName: string, bName: string): seq<string> {
    ["--- " + aName, "+++ " + bName]
  }

  lemma HeaderIsRead(aName: string, bName: string, rest: seq<string>)
    ensures var lines := DiffHeader(aName, bName) + rest;
            && |lines| >= 2 && lines[0] == "--- " + aName && lines[1] == "+++ " + bName && lines[2..] == rest
            && "--- " <= lines[0] && "+++ " <= lines[1]
  {
    var lines := DiffHeader(aName, bName) + rest;
    assert lines[0] == "--- " + aName && lines[1] == "+++ " + bName;
  }

  method DiffText(aName: string, bName: string, hunks: seq<Hunk>, terminated: bool) returns (lines: seq<string>)
    ensures lines == DiffHeader(aName, bName) + FormatHunks(hunks, terminated)
  {
    var body: seq<string> := [];
    for i := 0 to |hunks|
      invariant body == FormatHunks(hunks[..i], terminated)
    {
      hide *;
      NextHunkText(hunks, i, terminated);
      var text := HunkText(hunks[i], terminated);
      body := body + text;
    }
    assert hunks[..|hunks|] == hunks;
    lines := DiffHeader(aName, bName) + body;
  }

  lemma HunksAreCounted(edits: seq<Edit<Line>>, spans: seq<Span>, hunks: seq<Hunk>, k: nat)
    requires HunksOf(edits, spans, hunks) && k < |hunks|
    ensures Counted(hunks[k])
  {
    assert hunks[k] == HunkAt(edits, spans[k].start, spans[k].end);
  }

  // Patching with the text of a script's hunks gives the new side.
  lemma TextPatches(aName: string, bName: string, edits: seq<Edit<Line>>, context: nat,
                    spans: seq<Span>, hunks: seq<Hunk>, a: seq<Line>, b: seq<Line>, terminated: bool)
    requires IsScript(edits, a, b) && Grouped(edits, context, spans, |edits|) && HunksOf(edits, spans, hunks)
    requires terminated || (NoNewlines(a) && NoNewlines(b))
    ensures PatchWith(DiffHeader(aName, bName) + FormatHunks(hunks, terminated), a, terminated) == Some(b)
  {
    hide FormatHunks, ParseHunks, KeptHunks, Patch, OldSide, NewSide, Grouped, HunksOf, NoNewlines, Counted, DiffHeader;
    forall k | 0 <= k < |hunks|
      ensures Counted(hunks[k])
    {
      HunksAreCounted(edits, spans, hunks, k);
    }
    PatchGivesNew(edits, context, spans, hunks, a, b);
    HunksReadBack(hunks, terminated);
    NothingLost(edits, spans, hunks, terminated);
    HeaderIsRead(aName, bName, FormatHunks(hunks, terminated));
  }

  lemma {:induction false} EditIsOfSide(edits: seq<Edit<Line>>, i: nat)
    requires i < |edits|
    ensures edits[i].line in OldSide(edits) || edits[i].line in NewSide(edits)
    decreases i
  {
    if i > 0 {
      EditIsOfSide(edits[1..], i - 1);
      assert edits[1..][i - 1] == edits[i];
    }
  }

  ghost predicate AreOneLines(lines: seq<Line>) {
    forall line :: line in lines ==> IsOneLine(line)
  }

  lemma DiffIsPrintable(edits: seq<Edit<Line>>, spans: seq<Span>, hunks: seq<Hunk>, a: seq<Line>, b: seq<Line>,
                        terminated: bool)
    requires IsScript(edits, a, b) && HunksOf(edits, spans, hunks) && AreOneLines(a) && AreOneLines(b)
    ensures Printable(FormatHunks(hunks, terminated))
  {
    hide FormatHunks, IsOneLine, OldSide, NewSide, Printable;
    forall i, j | 0 <= i < |hunks| && 0 <= j < |hunks[i].lines|
      ensures IsOneLine(hunks[i].lines[j].line)
    {
      EditIsOfSide(edits, spans[i].start + j);
    }
    HunksArePrintable(hunks, terminated);
  }

  // The unified diff of two texts. It is empty exactly for equal texts, and
  // patching the old text with it gives the new one, also when a last line
  // has no newline. Lines without terminators must hold no final newline. What it
  // prints for a line is one line of the output.
  method Unified(a: seq<Line>, b: seq<Line>, aName: string, bName: string, context: int, terminated: bool)
    returns (lines: seq<string>)
    ensures lines == [] <==> a == b
    ensures lines != [] ==> |lines| >= 2 && lines[0] == "--- " + aName && lines[1] == "+++ " + bName
    ensures terminated || (NoNewlines(a) && NoNewlines(b)) ==> PatchWith(lines, a, terminated) == Some(b)
    ensures lines != [] && AreOneLines(a) && AreOneLines(b) ==> Printable(lines[2..])
  {
    hide FormatHunks, ParseHunks, KeptHunks, OldSide, NewSide, Cost, Grouped, NoNewlines, DiffHeader, Dist, Lcs,
      Diff.DeletesFirst, Printable, AreOneLines;
    var edits;
    ghost var cut, spans;
    edits, cut := Diff.Diff(a, b);
    var hunks;
    hunks, spans := Hunks.Hunks(edits, context);
    EqualHasNoHunks(edits, Max(context, 0), spans, a, b);
    if |hunks| == 0 {
      return [];
    }
    HeaderIsRead(aName, bName, FormatHunks(hunks, terminated));
    if terminated || (NoNewlines(a) && NoNewlines(b)) {
      TextPatches(aName, bName, edits, Max(context, 0), spans, hunks, a, b, terminated);
    }
    if AreOneLines(a) && AreOneLines(b) {
      DiffIsPrintable(edits, spans, hunks, a, b, terminated);
    }
    lines := DiffText(aName, bName, hunks, terminated);
    assert lines[2..] == FormatHunks(hunks, terminated);
  }

  lemma EqualHasNoHunks(edits: seq<Edit<Line>>, context: nat, spans: seq<Span>, a: seq<Line>, b: seq<Line>)
    requires IsScript(edits, a, b) && Grouped(edits, context, spans, |edits|)
    requires Dist(a, b) <= 2048 ==> Diff.IsShortest(edits, a, b)
    ensures spans == [] <==> a == b
  {
    hide Dist, Diff.IsShortest, OldSide, NewSide, Grouped;
    DistZero(a, b);
    Diff.DistIsShortest(edits, a, b);
    NoHunksIffEqual(edits, context, spans, a, b);
  }
}
