// Conflicts in a merged text, and a reader of them that is written from their
// format alone.
module Conflicts {
  import opened Wrappers
  import opened EditScript
  import opened Blocks
  import opened Merge3

  // A line of the merged text, or a conflict with the three sides and their labels.
  datatype Chunk =
    | Same(line: Line)
    | Conflict(ours: seq<Line>, base: seq<Line>, theirs: seq<Line>, labels: Labels)

  // The label behind a marker; None for another line.
  function LabelOf(line: Line, marker: string): Option<string> {
    if line == marker then Some("")
    else if |line| > |marker| && line[..|marker|] == marker && line[|marker|] == ' ' then Some(line[|marker| + 1..])
    else None
  }

  function OurLabel(line: Line): Option<string> {
    LabelOf(line, "<<<<<<<")
  }

  function BaseLabel(line: Line): Option<string> {
    LabelOf(line, "|||||||")
  }

  function TheirLabel(line: Line): Option<string> {
    LabelOf(line, ">>>>>>>")
  }

  datatype Mark = ToBase | ToTheirs | ToEnd

  // The line ends one side of a conflict and starts the next one.
  predicate Leads(line: Line, mark: Mark) {
    match mark
    case ToBase => BaseLabel(line).Some?
    case ToTheirs => line == "======="
    case ToEnd => TheirLabel(line).Some?
  }

  predicate IsMarker(line: Line) {
    OurLabel(line).Some? || Leads(line, ToBase) || Leads(line, ToTheirs) || Leads(line, ToEnd)
  }

  // The lines before the first one of a mark, and those behind it.
  datatype Cut = NoMark | Cut(side: seq<Line>, marker: Line, rest: seq<Line>)

  function CutAt(lines: seq<Line>, mark: Mark): (r: Cut)
    ensures r.Cut? ==> Leads(r.marker, mark) && |r.rest| < |lines|
  {
    if lines == [] then NoMark
    else if Leads(lines[0], mark) then Cut([], lines[0], lines[1..])
    else
      var more := CutAt(lines[1..], mark);
      if more.Cut? then more.(side := [lines[0]] + more.side) else NoMark
  }

  // One conflict whose first marker is read already, and what follows it.
  datatype Reading = Broken | Reading(conflict: Chunk, rest: seq<Line>)

  function ReadConflict(lines: seq<Line>, name: string): (r: Reading)
    ensures r.Reading? ==> |r.rest| < |lines|
  {
    var ours := CutAt(lines, ToBase);
    if ours.NoMark? then Broken else ReadBase(ours, name)
  }

  function ReadBase(ours: Cut, name: string): (r: Reading)
    requires ours.Cut? && Leads(ours.marker, ToBase)
    ensures r.Reading? ==> |r.rest| < |ours.rest|
  {
    var base := CutAt(ours.rest, ToTheirs);
    if base.NoMark? then Broken else ReadTheirs(ours, base, name)
  }

  function ReadTheirs(ours: Cut, base: Cut, name: string): (r: Reading)
    requires ours.Cut? && Leads(ours.marker, ToBase) && base.Cut?
    ensures r.Reading? ==> |r.rest| < |base.rest|
  {
    var theirs := CutAt(base.rest, ToEnd);
    if theirs.NoMark? then Broken
    else
      Reading(Conflict(ours.side, base.side, theirs.side,
                       Labels(name, BaseLabel(ours.marker).value, TheirLabel(theirs.marker).value)),
              theirs.rest)
  }

  function Prepend(chunk: Chunk, rest: Option<seq<Chunk>>): Option<seq<Chunk>> {
    if rest.Some? then Some([chunk] + rest.value) else None
  }

  // Reads a merged text from its first line on.
  function Read(lines: seq<Line>): Option<seq<Chunk>>
    decreases |lines|
  {
    if lines == [] then Some([])
    else if OurLabel(lines[0]).None? then Prepend(Same(lines[0]), Read(lines[1..]))
    else
      var reading := ReadConflict(lines[1..], OurLabel(lines[0]).value);
      if reading.Broken? then None else Prepend(reading.conflict, Read(reading.rest))
  }

  function Sames(lines: seq<Line>): seq<Chunk> {
    seq(|lines|, i requires 0 <= i < |lines| => Same(lines[i]))
  }

  predicate AllDiffer(piece: Piece) {
    piece.ours != piece.base && piece.theirs != piece.base && piece.ours != piece.theirs
  }

  // What a merge should say of the pieces: a conflict where both sides changed a
  // piece in different ways, and else the lines of the side that changed it.
  function ChunksOf(pieces: seq<Piece>, labels: Labels): seq<Chunk> {
    if pieces == [] then []
    else
      var piece := pieces[0];
      (if AllDiffer(piece) then [Conflict(piece.ours, piece.base, piece.theirs, labels)]
       else Sames(if piece.ours == piece.base then piece.theirs else piece.ours))
      + Sames(piece.common) + ChunksOf(pieces[1..], labels)
  }

  ghost predicate NoMarkers(lines: seq<Line>) {
    forall i :: 0 <= i < |lines| ==> !IsMarker(lines[i])
  }

  ghost predicate PlainPieces(pieces: seq<Piece>) {
    forall i :: 0 <= i < |pieces| ==>
      NoMarkers(pieces[i].base) && NoMarkers(pieces[i].ours) && NoMarkers(pieces[i].theirs)
          && NoMarkers(pieces[i].common)
  }

  lemma MarkerReads(prefix: string, name: string)
    ensures LabelOf(Marker(prefix, name), prefix) == Some(name)
  {
    if name != "" {
      var line := prefix + " " + name;
      assert line[..|prefix|] == prefix && line[|prefix|] == ' ' && line[|prefix| + 1..] == name;
    }
  }

  lemma {:induction false} CutMarker(side: seq<Line>, marker: Line, rest: seq<Line>, mark: Mark)
    requires Leads(marker, mark) && forall i :: 0 <= i < |side| ==> !Leads(side[i], mark)
    ensures CutAt(side + [marker] + rest, mark) == Cut(side, marker, rest)
    decreases side
  {
    hide Leads;
    var all := side + [marker] + rest;
    if side == [] {
      assert all == [marker] + rest && all[1..] == rest;
    } else {
      assert all[0] == side[0] && all[1..] == side[1..] + [marker] + rest;
      CutMarker(side[1..], marker, rest, mark);
    }
  }

  lemma NoMarkersMeans(lines: seq<Line>)
    requires NoMarkers(lines)
    ensures forall i :: 0 <= i < |lines| ==> OurLabel(lines[i]).None?
    ensures forall i, mark :: 0 <= i < |lines| ==> !Leads(lines[i], mark)
  {
    hide OurLabel, Leads;
    forall i, mark | 0 <= i < |lines|
      ensures !Leads(lines[i], mark)
    {
      match mark
      case ToBase =>
      case ToTheirs =>
      case ToEnd =>
    }
  }

  // A conflict that is written with these markers reads back.
  lemma PartsRead(piece: Piece, first: Line, second: Line, third: Line, rest: seq<Line>, labels: Labels)
    requires NoMarkers(piece.ours) && NoMarkers(piece.base) && NoMarkers(piece.theirs)
    requires BaseLabel(first) == Some(labels.base) && TheirLabel(third) == Some(labels.theirs)
             && Leads(second, ToTheirs)
    ensures ReadConflict(piece.ours + [first] + (piece.base + [second] + (piece.theirs + [third] + rest)), labels.ours)
         == Reading(Conflict(piece.ours, piece.base, piece.theirs, labels), rest)
  {
    hide BaseLabel, TheirLabel;
    assert Leads(first, ToBase) && Leads(third, ToEnd);
    NoMarkersMeans(piece.ours);
    NoMarkersMeans(piece.base);
    NoMarkersMeans(piece.theirs);
    hide Leads, NoMarkers, CutAt;
    var last := piece.theirs + [third] + rest;
    var middle := piece.base + [second] + last;
    CutMarker(piece.ours, first, middle, ToBase);
    CutMarker(piece.base, second, last, ToTheirs);
    CutMarker(piece.theirs, third, rest, ToEnd);
  }

  lemma MarkersRead(labels: Labels)
    ensures OurLabel(Marker("<<<<<<<", labels.ours)) == Some(labels.ours)
    ensures BaseLabel(Marker("|||||||", labels.base)) == Some(labels.base)
    ensures TheirLabel(Marker(">>>>>>>", labels.theirs)) == Some(labels.theirs)
    ensures Leads("=======", ToTheirs)
  {
    MarkerReads("<<<<<<<", labels.ours);
    MarkerReads("|||||||", labels.base);
    MarkerReads(">>>>>>>", labels.theirs);
    hide LabelOf, Marker;
  }

  // A written conflict reads back with its labels.
  lemma ConflictReads(piece: Piece, labels: Labels, rest: seq<Line>)
    requires NoMarkers(piece.ours) && NoMarkers(piece.base) && NoMarkers(piece.theirs)
    ensures var lines := ConflictLines(piece, labels) + rest;
            && lines != [] && OurLabel(lines[0]) == Some(labels.ours)
            && ReadConflict(lines[1..], labels.ours)
               == Reading(Conflict(piece.ours, piece.base, piece.theirs, labels), rest)
  {
    var first, third := Marker("|||||||", labels.base), Marker(">>>>>>>", labels.theirs);
    var lines := ConflictLines(piece, labels) + rest;
    MarkersRead(labels);
    hide OurLabel, BaseLabel, TheirLabel, LabelOf, Leads, Marker, NoMarkers, ReadConflict;
    PartsRead(piece, first, "=======", third, rest, labels);
    assert lines[1..] == piece.ours + [first] + (piece.base + ["======="] + (piece.theirs + [third] + rest));
  }

  lemma {:induction false} SamesRead(lines: seq<Line>, rest: seq<Line>)
    requires NoMarkers(lines) && Read(rest).Some?
    ensures Read(lines + rest) == Some(Sames(lines) + Read(rest).value)
    decreases lines
  {
    if lines == [] {
      hide Read, IsMarker;
      assert lines + rest == rest && Sames(lines) == [] && [] + Read(rest).value == Read(rest).value;
    } else {
      NoMarkersMeans(lines);
      RestHasNoMarkers(lines);
      hide *;
      SamesRead(lines[1..], rest);
      OneLineReads(lines[0], lines[1..] + rest);
      assert lines + rest == [lines[0]] + (lines[1..] + rest);
      SamesPrepend(lines, Read(rest).value);
    }
  }

  lemma RestHasNoMarkers(lines: seq<Line>)
    requires NoMarkers(lines) && lines != []
    ensures NoMarkers(lines[1..])
  {
    hide IsMarker;
  }

  lemma SamesPrepend(lines: seq<Line>, chunks: seq<Chunk>)
    requires lines != []
    ensures Prepend(Same(lines[0]), Some(Sames(lines[1..]) + chunks)) == Some(Sames(lines) + chunks)
  {
    assert Sames(lines) == [Same(lines[0])] + Sames(lines[1..]);
    assert [Same(lines[0])] + (Sames(lines[1..]) + chunks) == [Same(lines[0])] + Sames(lines[1..]) + chunks;
  }

  lemma OneLineReads(line: Line, rest: seq<Line>)
    requires OurLabel(line).None?
    ensures Read([line] + rest) == Prepend(Same(line), Read(rest))
  {
    hide OurLabel, ReadConflict;
    assert ([line] + rest)[1..] == rest;
  }

  // The merged text reads back as the conflicts and the lines that it should have.
  lemma {:induction false} MergedReads(pieces: seq<Piece>, labels: Labels)
    requires PlainPieces(pieces)
    ensures Read(MergePieces(pieces, labels).lines) == Some(ChunksOf(pieces, labels))
    decreases pieces
  {
    if pieces != [] {
      var rest := MergePieces(pieces[1..], labels).lines;
      assert forall i :: 0 <= i < |pieces[1..]| ==> pieces[1..][i] == pieces[i + 1];
      MergedReads(pieces[1..], labels);
      hide Read, ConflictLines, NoMarkers, Sames, MergePiece;
      PieceReads(pieces[0], labels, rest);
      var first := MergePiece(pieces[0], labels);
      assert first + (pieces[0].common + rest) == first + pieces[0].common + rest;
    }
  }

  lemma PieceReads(piece: Piece, labels: Labels, rest: seq<Line>)
    requires NoMarkers(piece.ours) && NoMarkers(piece.base) && NoMarkers(piece.theirs) && NoMarkers(piece.common)
    requires Read(rest).Some?
    ensures Read(MergePiece(piece, labels) + (piece.common + rest)) ==
            Some((if AllDiffer(piece) then [Conflict(piece.ours, piece.base, piece.theirs, labels)]
                  else Sames(if piece.ours == piece.base then piece.theirs else piece.ours))
                 + Sames(piece.common) + Read(rest).value)
  {
    hide Read, ConflictLines, NoMarkers, Sames;
    SamesRead(piece.common, rest);
    var more, chunks := piece.common + rest, Read(rest).value;
    if AllDiffer(piece) {
      OneConflict(piece, labels, more);
      var first := [Conflict(piece.ours, piece.base, piece.theirs, labels)];
      assert first + (Sames(piece.common) + chunks) == first + Sames(piece.common) + chunks;
    } else {
      var first := MergePiece(piece, labels);
      SamesRead(first, more);
      assert Sames(first) + (Sames(piece.common) + chunks) == Sames(first) + Sames(piece.common) + chunks;
    }
  }

  lemma OneConflict(piece: Piece, labels: Labels, rest: seq<Line>)
    requires NoMarkers(piece.ours) && NoMarkers(piece.base) && NoMarkers(piece.theirs) && Read(rest).Some?
    ensures Read(ConflictLines(piece, labels) + rest)
         == Some([Conflict(piece.ours, piece.base, piece.theirs, labels)] + Read(rest).value)
  {
    ConflictReads(piece, labels, rest);
    hide ConflictLines, ReadConflict, OurLabel;
  }

  // The text with one side of every conflict.
  datatype Side = Ours | Base | Theirs

  function Keep(chunks: seq<Chunk>, side: Side): seq<Line> {
    if chunks == [] then []
    else
      (match chunks[0]
       case Same(line) => [line]
       case Conflict(ours, base, theirs, _) =>
         match side
         case Ours => ours
         case Base => base
         case Theirs => theirs)
      + Keep(chunks[1..], side)
  }

  lemma {:induction false} KeepConcat(s: seq<Chunk>, t: seq<Chunk>, side: Side)
    ensures Keep(s + t, side) == Keep(s, side) + Keep(t, side)
    decreases s
  {
    if s == [] {
      assert s + t == t;
    } else {
      assert (s + t)[0] == s[0] && (s + t)[1..] == s[1..] + t;
      KeepConcat(s[1..], t, side);
    }
  }

  lemma {:induction false} KeepSames(lines: seq<Line>, side: Side)
    ensures Keep(Sames(lines), side) == lines
    decreases lines
  {
    if lines != [] {
      assert Sames(lines)[0] == Same(lines[0]) && Sames(lines)[1..] == Sames(lines[1..]);
      KeepSames(lines[1..], side);
    }
  }

  // Theirs changed no piece but those in conflict and those where ours made the
  // same change.
  ghost predicate OnlyOursChanged(pieces: seq<Piece>) {
    forall i :: 0 <= i < |pieces| && !AllDiffer(pieces[i]) ==>
      pieces[i].theirs == pieces[i].base || pieces[i].ours == pieces[i].theirs
  }

  ghost predicate OnlyTheirsChanged(pieces: seq<Piece>) {
    forall i :: 0 <= i < |pieces| && !AllDiffer(pieces[i]) ==>
      pieces[i].ours == pieces[i].base || pieces[i].ours == pieces[i].theirs
  }

  ghost predicate OnlyConflictsChanged(pieces: seq<Piece>) {
    forall i :: 0 <= i < |pieces| && !AllDiffer(pieces[i]) ==> pieces[i].ours == pieces[i].theirs == pieces[i].base
  }

  // Keeping one side of every conflict gives that text, when the others changed
  // nothing else.
  lemma {:induction false} KeepsSide(pieces: seq<Piece>, labels: Labels)
    ensures OnlyOursChanged(pieces) ==> Keep(ChunksOf(pieces, labels), Ours) == OurText(pieces)
    ensures OnlyTheirsChanged(pieces) ==> Keep(ChunksOf(pieces, labels), Theirs) == TheirText(pieces)
    ensures OnlyConflictsChanged(pieces) ==> Keep(ChunksOf(pieces, labels), Base) == BaseText(pieces)
    decreases pieces
  {
    if pieces != [] {
      var piece, rest := pieces[0], pieces[1..];
      KeepsSide(rest, labels);
      assert forall i :: 0 <= i < |rest| ==> rest[i] == pieces[i + 1];
      forall side: Side
        ensures Keep(ChunksOf(pieces, labels), side) ==
                KeptOf(piece, side) + piece.common + Keep(ChunksOf(rest, labels), side)
      {
        KeepsFirst(pieces, labels, side);
      }
    }
  }

  function KeptOf(piece: Piece, side: Side): seq<Line> {
    if AllDiffer(piece) then
      match side
      case Ours => piece.ours
      case Base => piece.base
      case Theirs => piece.theirs
    else if piece.ours == piece.base then piece.theirs
    else piece.ours
  }

  lemma KeepsFirst(pieces: seq<Piece>, labels: Labels, side: Side)
    requires pieces != []
    ensures Keep(ChunksOf(pieces, labels), side)
         == KeptOf(pieces[0], side) + pieces[0].common + Keep(ChunksOf(pieces[1..], labels), side)
  {
    var piece := pieces[0];
    var first := if AllDiffer(piece) then [Conflict(piece.ours, piece.base, piece.theirs, labels)]
                 else Sames(if piece.ours == piece.base then piece.theirs else piece.ours);
    var rest := ChunksOf(pieces[1..], labels);
    assert Keep(first, side) == KeptOf(piece, side) by {
      if AllDiffer(piece) {
        assert first[1..] == [];
      } else {
        KeepSames(KeptOf(piece, side), side);
      }
    }
    hide Sames;
    KeepSames(piece.common, side);
    KeepConcat(first, Sames(piece.common), side);
    KeepConcat(first + Sames(piece.common), rest, side);
  }

  function CountConflicts(chunks: seq<Chunk>): nat {
    if chunks == [] then 0 else (if chunks[0].Conflict? then 1 else 0) + CountConflicts(chunks[1..])
  }

  lemma {:induction false} CountConcat(s: seq<Chunk>, t: seq<Chunk>)
    ensures CountConflicts(s + t) == CountConflicts(s) + CountConflicts(t)
    decreases s
  {
    if s == [] {
      assert s + t == t;
    } else {
      assert (s + t)[0] == s[0] && (s + t)[1..] == s[1..] + t;
      CountConcat(s[1..], t);
    }
  }

  lemma {:induction false} NoneInSames(lines: seq<Line>)
    ensures CountConflicts(Sames(lines)) == 0
    decreases lines
  {
    if lines != [] {
      assert Sames(lines)[1..] == Sames(lines[1..]);
      NoneInSames(lines[1..]);
    }
  }

  // The number of conflicts that a merge reports is that of the conflicts in it.
  lemma {:induction false} ConflictsAreCounted(pieces: seq<Piece>, labels: Labels)
    ensures MergePieces(pieces, labels).conflicts == CountConflicts(ChunksOf(pieces, labels))
    decreases pieces
  {
    if pieces != [] {
      var piece := pieces[0];
      var first := if AllDiffer(piece) then [Conflict(piece.ours, piece.base, piece.theirs, labels)]
                   else Sames(if piece.ours == piece.base then piece.theirs else piece.ours);
      ConflictsAreCounted(pieces[1..], labels);
      assert CountConflicts(first) == if AllDiffer(piece) then 1 else 0 by {
        if AllDiffer(piece) {
          assert first[1..] == [];
        } else {
          NoneInSames(if piece.ours == piece.base then piece.theirs else piece.ours);
        }
      }
      hide Sames, MergePiece;
      NoneInSames(piece.common);
      CountConcat(first, Sames(piece.common));
      CountConcat(first + Sames(piece.common), ChunksOf(pieces[1..], labels));
    }
  }

  // The lines of the pieces are lines of the texts.
  lemma {:induction false} PiecesArePlain(pieces: seq<Piece>)
    requires NoMarkers(BaseText(pieces)) && NoMarkers(OurText(pieces)) && NoMarkers(TheirText(pieces))
    ensures PlainPieces(pieces)
    decreases pieces
  {
    if pieces != [] {
      hide IsMarker;
      var piece, rest := pieces[0], pieces[1..];
      PartIsPlain(piece.base, piece.common, BaseText(rest));
      PartIsPlain(piece.ours, piece.common, OurText(rest));
      PartIsPlain(piece.theirs, piece.common, TheirText(rest));
      PiecesArePlain(rest);
      hide NoMarkers;
      assert forall i :: 0 < i < |pieces| ==> pieces[i] == rest[i - 1];
    }
  }

  lemma PartIsPlain(first: seq<Line>, second: seq<Line>, third: seq<Line>)
    requires NoMarkers(first + second + third)
    ensures NoMarkers(first) && NoMarkers(second) && NoMarkers(third)
  {
    hide IsMarker;
    var all := first + second + third;
    forall i | 0 <= i < |first|
      ensures !IsMarker(first[i])
    {
      assert all[i] == first[i];
    }
    forall i | 0 <= i < |second|
      ensures !IsMarker(second[i])
    {
      assert all[|first| + i] == second[i];
    }
    forall i | 0 <= i < |third|
      ensures !IsMarker(third[i])
    {
      assert all[|first| + |second| + i] == third[i];
    }
  }

  // When no line of the three texts is a marker, the merged text reads back: each
  // piece that both sides changed in different ways is one conflict with exactly
  // its lines of ours, base and theirs under the given labels, and all else is as
  // the side that changed it has it. Keeping one side of every conflict gives that
  // text, when the others changed nothing else.
  lemma ConflictsReadBack(base: seq<Line>, ours: seq<Line>, theirs: seq<Line>, o: seq<Block>, t: seq<Block>,
                          labels: Labels)
    requires Aligned(base, ours, o) && Aligned(base, theirs, t)
    requires NoMarkers(base) && NoMarkers(ours) && NoMarkers(theirs)
    ensures var pieces, merged := PiecesOf(base, ours, theirs, o, t), MergeWith(base, ours, theirs, o, t, labels);
            var chunks := ChunksOf(pieces, labels);
            && Read(merged.lines) == Some(chunks) && merged.conflicts == CountConflicts(chunks)
            && (OnlyOursChanged(pieces) ==> Keep(chunks, Ours) == ours)
            && (OnlyTheirsChanged(pieces) ==> Keep(chunks, Theirs) == theirs)
            && (OnlyConflictsChanged(pieces) ==> Keep(chunks, Base) == base)
  {
    hide Aligned, PiecesOf, NoMarkers, Read, ChunksOf, Keep, MergePieces;
    var pieces := PiecesOf(base, ours, theirs, o, t);
    PiecesReadBack(base, ours, theirs, o, t);
    PiecesArePlain(pieces);
    MergedReads(pieces, labels);
    ConflictsAreCounted(pieces, labels);
    KeepsSide(pieces, labels);
  }
}
