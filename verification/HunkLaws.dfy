// What the hunks of a script mean: which changes share one, that they never
// overlap, and that patching with them turns the old text into the new one.
module HunkLaws {
  import opened Wrappers
  import opened EditScript
  import opened Hunks

  lemma SpanOrder(edits: seq<Edit<Line>>, context: nat, spans: seq<Span>, k: nat, l: nat)
    requires Grouped(edits, context, spans, |edits|) && k < |spans| && l < |spans|
    ensures SpanFits(edits, context, spans[k]) && spans[k].first < spans[k].past <= |edits|
    ensures k < l ==> spans[k].past + 2 * context < spans[l].first
  {
    hide Linked, Unchanged, Changed, Covered;
    if k < l {
      assert FarBefore(context, spans[k], spans[l]);
    }
  }

  lemma SpanOf(edits: seq<Edit<Line>>, context: nat, spans: seq<Span>, i: nat) returns (k: nat)
    requires Grouped(edits, context, spans, |edits|) && Changed(edits, i)
    ensures k < |spans| && InSpan(spans[k], i)
  {
    assert Covered(spans, i);
    k :| 0 <= k < |spans| && InSpan(spans[k], i);
  }

  // Hunks never touch, not even with their context.
  lemma HunksAreApart(edits: seq<Edit<Line>>, context: nat, spans: seq<Span>, k: nat, l: nat)
    requires Grouped(edits, context, spans, |edits|) && k < l < |spans|
    ensures spans[k].end < spans[l].start
  {
    SpanOrder(edits, context, spans, k, l);
    SpanOrder(edits, context, spans, l, k);
    hide Grouped, Linked, Unchanged, Changed;
  }

  ghost predicate ShareHunk(spans: seq<Span>, i: int, j: int) {
    exists k :: 0 <= k < |spans| && InSpan(spans[k], i) && InSpan(spans[k], j)
  }

  lemma {:induction false} NextChange(edits: seq<Edit<Line>>, i: nat, j: nat) returns (next: nat)
    requires i < j && Changed(edits, i) && Changed(edits, j)
    ensures next <= j && Neighbours(edits, i, next)
    decreases j - i
  {
    next := i + 1;
    while !Changed(edits, next)
      invariant i < next <= j && Unchanged(edits, i + 1, next)
      decreases j - next
    {
      next := next + 1;
    }
  }

  // Two changes share a hunk exactly when no more than twice the context of
  // equal lines separates any neighbouring changes from the one to the other.
  lemma ShareHunkIffLinked(edits: seq<Edit<Line>>, context: nat, spans: seq<Span>, i: nat, j: nat)
    requires Grouped(edits, context, spans, |edits|)
    requires i < j && Changed(edits, i) && Changed(edits, j)
    ensures ShareHunk(spans, i, j) <==> Linked(edits, context, i, j + 1)
  {
    hide Grouped, SpanFits, Linked, Changed;
    var k := SpanOf(edits, context, spans, i);
    var l := SpanOf(edits, context, spans, j);
    SpanOrder(edits, context, spans, k, l);
    SpanOrder(edits, context, spans, l, k);
    if k < l {
      ApartIsNotLinked(edits, context, spans, i, j, k, l);
      NotShared(edits, context, spans, i, j, k, l);
    } else {
      SharedIsLinked(edits, context, spans[k], i, j);
    }
  }

  lemma SharedIsLinked(edits: seq<Edit<Line>>, context: nat, span: Span, i: nat, j: nat)
    requires SpanFits(edits, context, span) && InSpan(span, i) && InSpan(span, j)
    ensures Linked(edits, context, i, j + 1)
  {
    hide Unchanged;
  }

  lemma ApartIsNotLinked(edits: seq<Edit<Line>>, context: nat, spans: seq<Span>, i: nat, j: nat, k: nat, l: nat)
    requires Grouped(edits, context, spans, |edits|) && k < l < |spans|
    requires InSpan(spans[k], i) && InSpan(spans[l], j) && Changed(edits, j)
    ensures !Linked(edits, context, i, j + 1)
  {
    hide Grouped, Unchanged;
    SpanOrder(edits, context, spans, k, l);
    var last := spans[k].past - 1;
    var next := NextChange(edits, last, j);
    NextIsFar(edits, context, spans, k, next);
  }

  lemma NotShared(edits: seq<Edit<Line>>, context: nat, spans: seq<Span>, i: nat, j: nat, k: nat, l: nat)
    requires Grouped(edits, context, spans, |edits|) && k < l < |spans|
    requires InSpan(spans[k], i) && InSpan(spans[l], j)
    ensures !ShareHunk(spans, i, j)
  {
    hide Grouped;
    forall h: nat | h < |spans| && InSpan(spans[h], i)
      ensures h == k
    {
      SpanOrder(edits, context, spans, h, k);
      SpanOrder(edits, context, spans, k, h);
    }
    SpanOrder(edits, context, spans, k, l);
    hide SpanFits;
  }

  lemma NextIsFar(edits: seq<Edit<Line>>, context: nat, spans: seq<Span>, k: nat, next: nat)
    requires Grouped(edits, context, spans, |edits|) && k < |spans|
    requires Changed(edits, next) && spans[k].past <= next
    ensures next - spans[k].past > 2 * context
  {
    hide Grouped, SpanFits, Changed;
    var l := SpanOf(edits, context, spans, next);
    SpanOrder(edits, context, spans, k, l);
    SpanOrder(edits, context, spans, l, k);
  }

  // Reads the lines of a hunk against the old text from a position on.
  function ApplyLines(a: seq<Line>, position: nat, lines: seq<Edit<Line>>): Option<seq<Line>>
    decreases lines
  {
    if lines == [] then Some([])
    else if lines[0].op == Insert then
      match ApplyLines(a, position, lines[1..])
      case None => None
      case Some(rest) => Some([lines[0].line] + rest)
    else if position >= |a| || a[position] != lines[0].line then None
    else
      match ApplyLines(a, position + 1, lines[1..])
      case None => None
      case Some(rest) => Some((if lines[0].op == Equal then [lines[0].line] else []) + rest)
  }

  // Patches the old text. A hunk must start at the stated line of both texts,
  // and its lines must be those of the old text there.
  function Patch(a: seq<Line>, aPosition: nat, bPosition: nat, hunks: seq<Hunk>): Option<seq<Line>>
    requires aPosition <= |a|
    decreases |hunks|
  {
    if hunks == [] then Some(a[aPosition..])
    else
      var hunk := hunks[0];
      if hunk.aStart < aPosition || hunk.aStart + hunk.aCount > |a|
          || hunk.bStart - bPosition != hunk.aStart - aPosition then None
      else
        match ApplyLines(a, hunk.aStart, hunk.lines)
        case None => None
        case Some(patched) =>
          if |patched| != hunk.bCount then None
          else
            match Patch(a, hunk.aStart + hunk.aCount, hunk.bStart + hunk.bCount, hunks[1..])
            case None => None
            case Some(rest) => Some(a[aPosition..hunk.aStart] + patched + rest)
  }

  lemma {:induction false} LinesApply(a: seq<Line>, position: nat, lines: seq<Edit<Line>>)
    requires position + |OldSide(lines)| <= |a|
    requires a[position..position + |OldSide(lines)|] == OldSide(lines)
    ensures ApplyLines(a, position, lines) == Some(NewSide(lines))
    decreases lines
  {
    if lines != [] {
      var rest := lines[1..];
      if lines[0].op == Insert {
        assert OldSide(lines) == OldSide(rest);
        LinesApply(a, position, rest);
      } else {
        var n := |OldSide(lines)|;
        var part := a[position..position + n];
        assert part[0] == lines[0].line && part[1..] == OldSide(rest);
        assert part[1..] == a[position + 1..position + n];
        LinesApply(a, position + 1, rest);
      }
    }
  }

  // The positions in both texts before a place of the script.
  ghost function APosition(edits: seq<Edit<Line>>, i: nat): nat
    requires i <= |edits|
  {
    |OldSide(edits[..i])|
  }

  ghost function BPosition(edits: seq<Edit<Line>>, i: nat): nat
    requires i <= |edits|
  {
    |NewSide(edits[..i])|
  }

  // The part of a text that a range of the script reads.
  lemma SideOfRange(edits: seq<Edit<Line>>, low: nat, high: nat)
    requires low <= high <= |edits|
    ensures APosition(edits, low) + |OldSide(edits[low..high])| == APosition(edits, high) <= |OldSide(edits)|
    ensures OldSide(edits)[APosition(edits, low)..APosition(edits, high)] == OldSide(edits[low..high])
    ensures BPosition(edits, low) + |NewSide(edits[low..high])| == BPosition(edits, high) <= |NewSide(edits)|
    ensures NewSide(edits)[BPosition(edits, low)..BPosition(edits, high)] == NewSide(edits[low..high])
  {
    hide OldSide, NewSide;
    CountRange(edits, low, high);
    CountRange(edits, high, |edits|);
    assert edits[..|edits|] == edits;
  }

  ghost function GapLow(spans: seq<Span>, k: nat): nat
    requires k <= |spans|
  {
    if k == 0 then 0 else spans[k - 1].end
  }

  ghost function GapHigh(edits: seq<Edit<Line>>, spans: seq<Span>, k: nat): nat
    requires k <= |spans|
  {
    if k == |spans| then |edits| else spans[k].start
  }

  lemma GapIsOrdered(edits: seq<Edit<Line>>, context: nat, spans: seq<Span>, k: nat)
    requires Grouped(edits, context, spans, |edits|) && k <= |spans|
    ensures GapLow(spans, k) <= GapHigh(edits, spans, k) <= |edits|
  {
    hide Grouped, Linked, Changed, Unchanged;
    if k > 0 {
      SpanOrder(edits, context, spans, k - 1, k - 1);
    }
    if k < |spans| {
      SpanOrder(edits, context, spans, k, k);
    }
    if 0 < k < |spans| {
      HunksAreApart(edits, context, spans, k - 1, k);
    }
  }

  // Only equal lines lie between one hunk and the next, or the end of the script.
  lemma GapIsUnchanged(edits: seq<Edit<Line>>, context: nat, spans: seq<Span>, k: nat)
    requires Grouped(edits, context, spans, |edits|) && k <= |spans|
    ensures GapLow(spans, k) <= GapHigh(edits, spans, k) <= |edits|
    ensures Unchanged(edits, GapLow(spans, k), GapHigh(edits, spans, k))
  {
    hide Grouped, Changed;
    GapIsOrdered(edits, context, spans, k);
    forall i: nat | GapLow(spans, k) <= i < GapHigh(edits, spans, k)
      ensures !Changed(edits, i)
    {
      GapHasNoSpan(edits, context, spans, k, i);
    }
  }

  lemma GapHasNoSpan(edits: seq<Edit<Line>>, context: nat, spans: seq<Span>, k: nat, i: nat)
    requires Grouped(edits, context, spans, |edits|) && k <= |spans|
    requires k > 0 ==> spans[k - 1].end <= i
    requires k < |spans| ==> i < spans[k].start
    ensures !Changed(edits, i)
  {
    hide Grouped, Linked, Changed;
    if Changed(edits, i) {
      var l := SpanOf(edits, context, spans, i);
      SpanOrder(edits, context, spans, l, l);
      if l < k {
        SpanOrder(edits, context, spans, k - 1, k - 1);
        SpanOrder(edits, context, spans, l, k - 1);
      } else {
        SpanOrder(edits, context, spans, k, l);
      }
    }
  }

  // An unchanged range moves the positions of both texts alike.
  lemma UnchangedRange(edits: seq<Edit<Line>>, low: nat, high: nat)
    requires low <= high <= |edits| && Unchanged(edits, low, high)
    ensures APosition(edits, high) - APosition(edits, low) == BPosition(edits, high) - BPosition(edits, low) ==
            high - low
    ensures APosition(edits, high) <= |OldSide(edits)| && BPosition(edits, high) <= |NewSide(edits)|
    ensures OldSide(edits)[APosition(edits, low)..APosition(edits, high)] ==
            NewSide(edits)[BPosition(edits, low)..BPosition(edits, high)]
  {
    hide OldSide, NewSide, APosition, BPosition, Unchanged;
    UnchangedSides(edits, low, high);
    SideOfRange(edits, low, high);
  }

  // Patching on from the end of a hunk gives the rest of the new text.
  lemma {:induction false} PatchRest(edits: seq<Edit<Line>>, context: nat, spans: seq<Span>, hunks: seq<Hunk>, k: nat)
    requires Grouped(edits, context, spans, |edits|) && HunksOf(edits, spans, hunks) && k <= |spans|
    requires GapLow(spans, k) <= |edits|
    ensures var low := GapLow(spans, k);
            && APosition(edits, low) <= |OldSide(edits)| && BPosition(edits, low) <= |NewSide(edits)|
            && Patch(OldSide(edits), APosition(edits, low), BPosition(edits, low), hunks[k..])
               == Some(NewSide(edits)[BPosition(edits, low)..])
    decreases |spans| - k
  {
    hide OldSide, NewSide, APosition, BPosition, Unchanged, Grouped, ApplyLines;
    var a, b := OldSide(edits), NewSide(edits);
    var low := GapLow(spans, k);
    GapIsUnchanged(edits, context, spans, k);
    if k == |spans| {
      UnchangedRange(edits, low, |edits|);
      WholeSides(edits);
      assert hunks[k..] == [];
      assert a[APosition(edits, low)..] == a[APosition(edits, low)..|a|];
      assert b[BPosition(edits, low)..] == b[BPosition(edits, low)..|b|];
    } else {
      var start, end := spans[k].start, spans[k].end;
      UnchangedRange(edits, low, start);
      SideOfRange(edits, start, end);
      LinesApply(a, APosition(edits, start), edits[start..end]);
      PatchRest(edits, context, spans, hunks, k + 1);
      assert hunks[k..][1..] == hunks[k + 1..] && hunks[k..][0] == hunks[k];
      HunkPositions(edits, start, end);
      ThreePieces(b, BPosition(edits, low), BPosition(edits, start), BPosition(edits, end));
    }
  }

  lemma WholeSides(edits: seq<Edit<Line>>)
    ensures APosition(edits, |edits|) == |OldSide(edits)| && BPosition(edits, |edits|) == |NewSide(edits)|
  {
    assert edits[..|edits|] == edits;
  }

  lemma HunkPositions(edits: seq<Edit<Line>>, start: nat, end: nat)
    requires start <= end <= |edits|
    ensures var hunk := HunkAt(edits, start, end);
            && hunk.aStart == APosition(edits, start) && hunk.bStart == BPosition(edits, start)
            && hunk.aStart + hunk.aCount == APosition(edits, end) && hunk.bStart + hunk.bCount == BPosition(edits, end)
  {
    hide OldSide, NewSide;
    CountRange(edits, start, end);
  }

  lemma ThreePieces<T>(s: seq<T>, i: nat, j: nat, k: nat)
    requires i <= j <= k <= |s|
    ensures s[i..j] + s[j..k] + s[k..] == s[i..]
  {
  }

  // Patching the old text with the hunks of a script, whatever their context,
  // gives the new text.
  lemma PatchGivesNew(edits: seq<Edit<Line>>, context: nat, spans: seq<Span>, hunks: seq<Hunk>, a: seq<Line>,
                      b: seq<Line>)
    requires IsScript(edits, a, b)
    requires Grouped(edits, context, spans, |edits|) && HunksOf(edits, spans, hunks)
    ensures Patch(a, 0, 0, hunks) == Some(b)
  {
    PatchRest(edits, context, spans, hunks, 0);
    assert hunks[0..] == hunks && edits[..0] == [];
  }
}
