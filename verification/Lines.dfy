// A text as its lines and whether the last line ends with a line break.
module Lines {
  import opened EditScript
  import T = Text

  function Split(text: string): (seq<Line>, bool) {
    if text == "" then ([], false)
    else if text[|text| - 1] == '\n' then (T.Split(text[..|text| - 1], '\n'), true)
    else (T.Split(text, '\n'), false)
  }

  function Join(lines: seq<Line>, trailingNewline: bool): string {
    if lines == [] then "" else T.Join(lines, '\n') + if trailingNewline then "\n" else ""
  }

  function EndsWithNewline(data: string): bool {
    data == "" || data[|data| - 1] == '\n'
  }

  // The lines of a text hold no line break, and with one between each two of them,
  // and one at the end when the text has it, they are the text.
  ghost predicate AreLinesOf(lines: seq<Line>, text: string) {
    && (forall i :: 0 <= i < |lines| ==> '\n' !in lines[i])
    && (lines == [] <==> text == "")
    && text == WithBreaks(lines, text != "" && text[|text| - 1] == '\n')
  }

  function WithBreaks(lines: seq<Line>, atEnd: bool): string {
    if lines == [] then ""
    else if |lines| == 1 then lines[0] + if atEnd then "\n" else ""
    else lines[0] + "\n" + WithBreaks(lines[1..], atEnd)
  }

  lemma {:induction false} JoinHasBreaks(lines: seq<Line>, atEnd: bool)
    ensures Join(lines, atEnd) == WithBreaks(lines, atEnd)
    decreases lines
  {
    if |lines| > 1 {
      JoinHasBreaks(lines[1..], atEnd);
      assert Join(lines, atEnd) == lines[0] + "\n" + Join(lines[1..], atEnd);
    }
  }

  // Splitting a text gives its lines.
  lemma SplitGivesLines(text: string)
    ensures AreLinesOf(Split(text).0, text)
    ensures Split(text).1 <==> text != "" && text[|text| - 1] == '\n'
  {
    var (lines, trailingNewline) := Split(text);
    JoinOfSplit(text);
    JoinHasBreaks(lines, trailingNewline);
    hide WithBreaks, Join;
    assert forall i :: 0 <= i < |lines| ==> lines[i] in lines;
  }

  // A text has only one sequence of lines.
  lemma LinesAreUnique(lines: seq<Line>, others: seq<Line>, text: string)
    requires AreLinesOf(lines, text) && AreLinesOf(others, text)
    ensures lines == others
  {
    if text != "" {
      BreaksAreUnique(lines, others, text[|text| - 1] == '\n');
    }
  }

  lemma {:induction false} BreaksAreUnique(lines: seq<Line>, others: seq<Line>, atEnd: bool)
    requires lines != [] && others != [] && WithBreaks(lines, atEnd) == WithBreaks(others, atEnd)
    requires forall i :: 0 <= i < |lines| ==> '\n' !in lines[i]
    requires forall i :: 0 <= i < |others| ==> '\n' !in others[i]
    ensures lines == others
    decreases lines
  {
    var text := WithBreaks(lines, atEnd);
    FirstBreak(lines, atEnd);
    FirstBreak(others, atEnd);
    assert lines[0] == text[..T.IndexOf(text, '\n')] == others[0];
    if |lines| > 1 && |others| > 1 {
      assert text[|lines[0]| + 1..] == WithBreaks(lines[1..], atEnd) == WithBreaks(others[1..], atEnd);
      BreaksAreUnique(lines[1..], others[1..], atEnd);
      assert lines == [lines[0]] + lines[1..] && others == [others[0]] + others[1..];
    } else {
      OneOrMore(lines, atEnd);
      OneOrMore(others, atEnd);
    }
  }

  lemma FirstBreak(lines: seq<Line>, atEnd: bool)
    requires lines != [] && '\n' !in lines[0]
    ensures var text := WithBreaks(lines, atEnd); lines[0] == text[..T.IndexOf(text, '\n')]
  {
    var text := WithBreaks(lines, atEnd);
    if |lines| == 1 && !atEnd {
      T.IndexOfNone(text, '\n');
      assert text == lines[0] && text[..|text|] == text;
    } else {
      var rest := if |lines| == 1 then "\n" else "\n" + WithBreaks(lines[1..], atEnd);
      assert text == lines[0] + rest;
      T.IndexOfFirst(lines[0], '\n', rest);
    }
  }

  // One line ends the text at once, and more lines do not.
  lemma OneOrMore(lines: seq<Line>, atEnd: bool)
    requires lines != []
    ensures var text := WithBreaks(lines, atEnd);
            |lines| == 1 <==> |text| == |lines[0]| + if atEnd then 1 else 0
  {
  }

  // Joining the lines of a text gives back the text.
  lemma JoinOfSplit(text: string)
    ensures var (lines, trailingNewline) := Split(text); Join(lines, trailingNewline) == text
  {
    if text != "" {
      T.JoinOfSplit(text, '\n');
      T.JoinOfSplit(text[..|text| - 1], '\n');
    }
  }
}
