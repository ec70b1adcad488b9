// Grouping the changes of a script into hunks, and patching a text with them.
module Hunks {
  import opened EditScript

  // Offsets are zero-based.
  datatype Hunk = Hunk(aStart: nat, aCount: nat, bStart: nat, bCount: nat, lines: seq<Edit<Line>>)

  // Where a hunk lies in its script: first is its first change and past is
  // the place after its last change.
  datatype Span = Span(start: nat, first: nat, past: nat, end: nat)

  ghost predicate Changed(edits: seq<Edit<Line>>, i: int) {
    0 <= i < |edits| && edits[i].op != Equal
  }

  ghost predicate Unchanged(edits: seq<Edit<Line>>, low: int, high: int) {
    forall i :: low <= i < high ==> !Changed(edits, i)
  }

  // Two changes with only equal lines between them.
  ghost predicate Neighbours(edits: seq<Edit<Line>>, i: int, j: int) {
    i < j && Changed(edits, i) && Changed(edits, j) && Unchanged(edits, i + 1, j)
  }

  // No two neighbouring changes of a range are far apart.
  ghost predicate Linked(edits: seq<Edit<Line>>, context: nat, low: int, high: int) {
    forall i, j :: low <= i && j < high && Neighbours(edits, i, j) ==> j - i - 1 <= 2 * context
  }

  // The range reaches from its first to its last change and takes exactly the
  // context before and after them that the script has.
  ghost predicate SpanFits(edits: seq<Edit<Line>>, context: nat, span: Span) {
    && span.first < span.past <= |edits|
    && Changed(edits, span.first) && Changed(edits, span.past - 1)
    && span.start == Max(span.first - context, 0) && span.end == Min(span.past + context, |edits|)
    && Unchanged(edits, span.start, span.first) && Unchanged(edits, span.past, span.end)
    && Linked(edits, context, span.first, span.past)
  }

  ghost predicate FarBefore(context: nat, left: Span, right: Span) {
    left.past + 2 * context < right.first
  }

  ghost predicate InSpan(span: Span, i: int) {
    span.first <= i < span.past
  }

  ghost predicate Covered(spans: seq<Span>, i: int) {
    exists k :: 0 <= k < |spans| && InSpan(spans[k], i)
  }

  // The ranges hold all changes below high, in order and far apart.
  ghost predicate Grouped(edits: seq<Edit<Line>>, context: nat, spans: seq<Span>, high: int) {
    && (forall k :: 0 <= k < |spans| ==> SpanFits(edits, context, spans[k]))
    && FarApart(context, spans)
    && (forall i :: Changed(edits, i) && i < high ==> Covered(spans, i))
  }

  ghost predicate FarApart(context: nat, spans: seq<Span>) {
    forall k, l :: 0 <= k < l < |spans| ==> FarBefore(context, spans[k], spans[l])
  }

  ghost function HunkAt(edits: seq<Edit<Line>>, start: nat, end: nat): Hunk
    requires start <= end <= |edits|
  {
    Hunk(|OldSide(edits[..start])|, |OldSide(edits[start..end])|,
         |NewSide(edits[..start])|, |NewSide(edits[start..end])|, edits[start..end])
  }

  // Each hunk holds the lines of its range and counts both of its sides exactly.
  ghost predicate HunksOf(edits: seq<Edit<Line>>, spans: seq<Span>, hunks: seq<Hunk>) {
    && |hunks| == |spans|
    && forall k :: 0 <= k < |spans| ==>
         spans[k].start <= spans[k].end <= |edits| && hunks[k] == HunkAt(edits, spans[k].start, spans[k].end)
  }

  // A later change lies more than twice the context behind this place.
  ghost predicate FarFrom(edits: seq<Edit<Line>>, context: nat, past: int) {
    forall j :: past <= j && Changed(edits, j) ==> j - past > 2 * context
  }

  lemma CountStep(edits: seq<Edit<Line>>, i: nat)
    requires i < |edits|
    ensures |OldSide(edits[..i + 1])| == |OldSide(edits[..i])| + (if edits[i].op != Insert then 1 else 0)
    ensures |NewSide(edits[..i + 1])| == |NewSide(edits[..i])| + (if edits[i].op != Delete then 1 else 0)
  {
    assert edits[..i + 1] == edits[..i] + [edits[i]];
    SidesConcat(edits[..i], [edits[i]]);
  }

  lemma CountRange(edits: seq<Edit<Line>>, low: nat, high: nat)
    requires low <= high <= |edits|
    ensures OldSide(edits[..high]) == OldSide(edits[..low]) + OldSide(edits[low..high])
    ensures NewSide(edits[..high]) == NewSide(edits[..low]) + NewSide(edits[low..high])
  {
    assert edits[..high] == edits[..low] + edits[low..high];
    SidesConcat(edits[..low], edits[low..high]);
  }

  // Equal lines read the same on both sides.
  lemma {:induction false} UnchangedSides(edits: seq<Edit<Line>>, low: nat, high: nat)
    requires low <= high <= |edits| && Unchanged(edits, low, high)
    ensures OldSide(edits[low..high]) == NewSide(edits[low..high])
    ensures |OldSide(edits[low..high])| == high - low
    decreases high - low
  {
    if low < high {
      assert !Changed(edits, low);
      assert edits[low..high][1..] == edits[low + 1..high];
      UnchangedSides(edits, low + 1, high);
    }
  }

  lemma LinkedGrows(edits: seq<Edit<Line>>, context: nat, low: nat, last: nat, next: nat)
    requires low <= last <= next < |edits| && Changed(edits, last) && Changed(edits, next)
    requires Unchanged(edits, last + 1, next) && next - last - 1 <= 2 * context
    requires Linked(edits, context, low, last + 1)
    ensures Linked(edits, context, low, next + 1)
  {
    forall i, j | low <= i && j < next + 1 && Neighbours(edits, i, j)
      ensures j - i - 1 <= 2 * context
    {
      if j > last {
        assert j == next && !(i < last);
      }
    }
  }

  // The place after the last change of the hunk that starts at index, and the
  // end of its context.
  method HunkEnd(edits: seq<Edit<Line>>, context: nat, index: nat) returns (end: nat, ghost past: nat)
    requires Changed(edits, index)
    ensures index < past <= |edits| && Changed(edits, past - 1)
    ensures end == Min(past + context, |edits|) && past <= end && Unchanged(edits, past, end)
    ensures Linked(edits, context, index, past) && FarFrom(edits, context, past)
  {
    end := index;
    ghost var last := index;
    while end < |edits|
      invariant index <= last <= end <= |edits| && Changed(edits, last) && Unchanged(edits, last + 1, end)
      invariant end - last - 1 <= 2 * context && Linked(edits, context, index, last + 1)
      invariant end == index || end == last + 1 || Changed(edits, end)
      decreases |edits| - end
    {
      if edits[end].op != Equal {
        LinkedGrows(edits, context, index, last, end);
        last := end;
        end := end + 1;
        continue;
      }
      var gap := 0;
      while end + gap < |edits| && edits[end + gap].op == Equal
        invariant end + gap <= |edits| && Unchanged(edits, end, end + gap)
      {
        gap := gap + 1;
      }
      if end + gap == |edits| || gap > 2 * context {
        past := end;
        end := Min(end + context, |edits|);
        return;
      }
      end := end + gap;
    }
    past := end;
  }

  method CountSides(lines: seq<Edit<Line>>) returns (aCount: nat, bCount: nat)
    ensures aCount == |OldSide(lines)| && bCount == |NewSide(lines)|
  {
    aCount, bCount := 0, 0;
    for i := 0 to |lines|
      invariant aCount == |OldSide(lines[..i])| && bCount == |NewSide(lines[..i])|
    {
      CountStep(lines, i);
      if lines[i].op != Insert {
        aCount := aCount + 1;
      }
      if lines[i].op != Delete {
        bCount := bCount + 1;
      }
    }
    assert lines[..|lines|] == lines;
  }

  // Only equal lines lie between the last range and this place, and the next
  // change is far from that range.
  ghost predicate Behind(edits: seq<Edit<Line>>, context: nat, spans: seq<Span>, index: int) {
    if spans == [] then Unchanged(edits, 0, index)
    else
      var last := spans[|spans| - 1];
      last.past <= last.end <= index && Unchanged(edits, last.past, index) && FarFrom(edits, context, last.past)
  }

  lemma BehindFits(edits: seq<Edit<Line>>, context: nat, spans: seq<Span>, index: nat)
    requires Behind(edits, context, spans, index) && Changed(edits, index)
    ensures Unchanged(edits, Max(index - context, 0), index)
    ensures spans != [] ==> spans[|spans| - 1].past + 2 * context < index
  {
  }

  lemma BehindGrows(edits: seq<Edit<Line>>, context: nat, spans: seq<Span>, span: Span)
    requires SpanFits(edits, context, span) && FarFrom(edits, context, span.past)
    ensures Behind(edits, context, spans + [span], span.end)
  {
    hide Linked, FarFrom, Changed;
  }

  lemma FarApartGrows(context: nat, spans: seq<Span>, span: Span)
    requires FarApart(context, spans)
    requires spans != [] ==>
             FarBefore(context, spans[|spans| - 1], span) && spans[|spans| - 1].first < spans[|spans| - 1].past
    ensures FarApart(context, spans + [span])
  {
    var last := |spans| - 1;
    forall k | 0 <= k < last
      ensures FarBefore(context, spans[k], span)
    {
      assert FarBefore(context, spans[k], spans[last]);
    }
  }

  lemma CoveredGrows(spans: seq<Span>, span: Span, i: int)
    requires Covered(spans, i) || InSpan(span, i)
    ensures Covered(spans + [span], i)
  {
    var grown := spans + [span];
    if Covered(spans, i) {
      var k :| 0 <= k < |spans| && InSpan(spans[k], i);
      assert InSpan(grown[k], i);
    } else {
      assert InSpan(grown[|spans|], i);
    }
  }

  // Adding the next range keeps all that is known about the earlier ones.
  lemma GroupedGrows(edits: seq<Edit<Line>>, context: nat, spans: seq<Span>, span: Span)
    requires Grouped(edits, context, spans, span.first)
    requires spans != [] ==> FarBefore(context, spans[|spans| - 1], span)
    requires SpanFits(edits, context, span)
    ensures Grouped(edits, context, spans + [span], span.end)
  {
    hide SpanFits, FarApart, FarBefore, Covered, Changed;
    if spans != [] {
      SpanIsForward(edits, context, spans[|spans| - 1]);
    }
    FarApartGrows(context, spans, span);
    forall i | Changed(edits, i) && i < span.end
      ensures Covered(spans + [span], i)
    {
      if i >= span.first {
        ChangeInSpan(edits, context, span, i);
      }
      CoveredGrows(spans, span, i);
    }
  }

  lemma ChangeInSpan(edits: seq<Edit<Line>>, context: nat, span: Span, i: int)
    requires SpanFits(edits, context, span) && Changed(edits, i) && span.first <= i < span.end
    ensures InSpan(span, i)
  {
    hide Linked;
  }

  lemma SpanIsForward(edits: seq<Edit<Line>>, context: nat, span: Span)
    requires SpanFits(edits, context, span)
    ensures span.start <= span.first < span.past <= span.end <= |edits|
  {
  }

  lemma EqualStep(edits: seq<Edit<Line>>, context: nat, spans: seq<Span>, index: nat)
    requires index < |edits| && !Changed(edits, index)
    requires Grouped(edits, context, spans, index) && Behind(edits, context, spans, index)
    ensures Grouped(edits, context, spans, index + 1) && Behind(edits, context, spans, index + 1)
  {
  }

  lemma HunksGrow(edits: seq<Edit<Line>>, spans: seq<Span>, hunks: seq<Hunk>, span: Span)
    requires HunksOf(edits, spans, hunks) && span.start <= span.end <= |edits|
    ensures HunksOf(edits, spans + [span], hunks + [HunkAt(edits, span.start, span.end)])
  {
  }

  // The hunk of the change at index, when the context before it is unchanged.
  method NextHunk(edits: seq<Edit<Line>>, context: nat, index: nat, aPosition: nat, bPosition: nat)
    returns (hunk: Hunk, end: nat, ghost span: Span)
    requires Changed(edits, index) && Unchanged(edits, Max(index - context, 0), index)
    requires aPosition == |OldSide(edits[..index])| && bPosition == |NewSide(edits[..index])|
    ensures SpanFits(edits, context, span) && span.first == index && span.end == end
    ensures FarFrom(edits, context, span.past)
    ensures span.start <= end <= |edits| && hunk == HunkAt(edits, span.start, end)
  {
    hide OldSide, NewSide, Linked, FarFrom, Unchanged;
    var start := Max(index - context, 0);
    ghost var past;
    end, past := HunkEnd(edits, context, index);
    span := Span(start, index, past, end);
    CountRange(edits, start, index);
    UnchangedSides(edits, start, index);
    var aCount, bCount := CountSides(edits[start..end]);
    hunk := Hunk(aPosition - (index - start), aCount, bPosition - (index - start), bCount, edits[start..end]);
  }

  // The hunks of a script with at most this many equal lines around changes.
  method Hunks(edits: seq<Edit<Line>>, wanted: int) returns (hunks: seq<Hunk>, ghost spans: seq<Span>)
    ensures HunksOf(edits, spans, hunks)
    ensures Grouped(edits, Max(wanted, 0), spans, |edits|)
  {
    var context := Max(wanted, 0);
    hunks, spans := [], [];
    var aPosition, bPosition := 0, 0;
    var index := 0;
    while index < |edits|
      invariant index <= |edits|
      invariant aPosition == |OldSide(edits[..index])| && bPosition == |NewSide(edits[..index])|
      invariant HunksOf(edits, spans, hunks)
      invariant Grouped(edits, context, spans, index) && Behind(edits, context, spans, index)
    {
      hide OldSide, NewSide, Grouped, Behind, Unchanged, SpanFits, FarFrom, HunksOf;
      if edits[index].op == Equal {
        CountStep(edits, index);
        EqualStep(edits, context, spans, index);
        aPosition, bPosition, index := aPosition + 1, bPosition + 1, index + 1;
        continue;
      }
      var hunk, end;
      ghost var span;
      BehindFits(edits, context, spans, index);
      hunk, end, span := NextHunk(edits, context, index, aPosition, bPosition);
      SpanIsForward(edits, context, span);
      GroupedGrows(edits, context, spans, span);
      BehindGrows(edits, context, spans, span);
      CountRange(edits, span.start, end);
      HunksGrow(edits, spans, hunks, span);
      hunks, spans := hunks + [hunk], spans + [span];
      aPosition, bPosition, index := hunk.aStart + hunk.aCount, hunk.bStart + hunk.bCount, end;
    }
  }
}
