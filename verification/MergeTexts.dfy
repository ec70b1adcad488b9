// What the merge of a changed file is made of: the stored base text, the text in
// the project and the stored text of theirs.
module MergeTexts {
  import opened Wrappers
  import opened EditScript
  import opened Paths
  import opened Tree
  import opened Project
  import opened Manifest
  import opened Blocks
  import opened Diff
  import opened MergePlan
  import opened CleanMerge
  import Lines
  import Merge3

  // The base of the merge is the stored text of a base file, and else no lines.
  ghost predicate IsBaseText(setting: Setting, base: Option<Entry>, lines: seq<Line>) {
    if base.Some? && base.value.kind.KindFile? && base.value.digest in setting.objects
       && setting.isText(setting.objects[base.value.digest]) then
      Lines.AreLinesOf(lines, setting.objects[base.value.digest])
    else lines == []
  }

  ghost predicate AreTexts(setting: Setting, path: Path, base: Option<Entry>, theirs: Entry, b: seq<Line>, o: seq<Line>,
                           t: seq<Line>) {
    && IsBaseText(setting, base, b)
    && path in setting.tree && setting.tree[path].File? && setting.isText(setting.tree[path].content)
    && Lines.AreLinesOf(o, setting.tree[path].content)
    && theirs.digest in setting.objects && setting.isText(setting.objects[theirs.digest])
    && Lines.AreLinesOf(t, setting.objects[theirs.digest])
  }

  ghost predicate MergedAlong(setting: Setting, b: seq<Line>, o: seq<Line>, t: seq<Line>, item: PlanItem,
                              ours: seq<Block>, theirs: seq<Block>)
    requires item.action.WriteLines?
  {
    && Aligned(b, o, ours) && Aligned(b, t, theirs)
    && LargestWhenClose(b, o, ours) && LargestWhenClose(b, t, theirs)
    && Merge3.MergeWith(b, o, t, ours, theirs, setting.labels) == Merge3.MergeResult(item.action.lines, item.conflicts)
  }

  // A written merge is that of the stored base text, the text in the project and the
  // stored text of theirs. It ends with a line break when one of the sides does or
  // is empty.
  lemma MergesTheTexts(setting: Setting, path: Path, base: Option<Entry>, ours: Entry, theirs: Entry, item: PlanItem)
      returns (b: seq<Line>, o: seq<Line>, t: seq<Line>)
    requires PlansFile(setting, path, base, ours, theirs, item) && item.action.WriteLines?
    ensures AreTexts(setting, path, base, theirs, b, o, t)
    ensures exists ourBlocks, theirBlocks :: MergedAlong(setting, b, o, t, item, ourBlocks, theirBlocks)
    ensures var ourText, theirText := setting.tree[path].content, setting.objects[theirs.digest];
            item.action.trailingNewline <==>
              || ourText == "" || ourText[|ourText| - 1] == '\n'
              || theirText == "" || theirText[|theirText| - 1] == '\n'
  {
    hide Lines.Split, Lines.AreLinesOf, Lines.EndsWithNewline, MergedLines, BaseLines, ResolveMode;
    b := BaseLines(setting, base);
    var ourText, theirText := setting.tree[path].content, setting.objects[theirs.digest];
    o, t := Lines.Split(ourText).0, Lines.Split(theirText).0;
    BaseIsText(setting, base);
    Lines.SplitGivesLines(ourText);
    Lines.SplitGivesLines(theirText);
    EndsMean(ourText);
    EndsMean(theirText);
    AlongSome(setting, b, o, t, item);
  }

  lemma EndsMean(text: string)
    ensures Lines.EndsWithNewline(text) <==> text == "" || text[|text| - 1] == '\n'
  {
  }

  lemma BaseIsText(setting: Setting, base: Option<Entry>)
    ensures IsBaseText(setting, base, BaseLines(setting, base))
  {
    hide Lines.Split, Lines.AreLinesOf;
    if base.Some? && base.value.digest in setting.objects {
      Lines.SplitGivesLines(setting.objects[base.value.digest]);
    }
  }

  lemma AlongSome(setting: Setting, b: seq<Line>, o: seq<Line>, t: seq<Line>, item: PlanItem)
    requires item.action.WriteLines? && MergedLines(setting, b, o, t, item.action.lines, item.conflicts)
    ensures exists ourBlocks, theirBlocks :: MergedAlong(setting, b, o, t, item, ourBlocks, theirBlocks)
  {
    hide Aligned, LargestWhenClose, Merge3.MergeWith;
    var ourBlocks, theirBlocks :| Aligned(b, o, ourBlocks) && Aligned(b, t, theirBlocks)
      && LargestWhenClose(b, o, ourBlocks) && LargestWhenClose(b, t, theirBlocks)
      && Merge3.MergeWith(b, o, t, ourBlocks, theirBlocks, setting.labels)
         == Merge3.MergeResult(item.action.lines, item.conflicts);
    assert MergedAlong(setting, b, o, t, item, ourBlocks, theirBlocks);
  }

  // When ours and theirs changed what lies on different sides of a line that each
  // text has once, the file gets both changes and there is no conflict.
  lemma SeparateChangesAreMerged(setting: Setting, path: Path, base: Option<Entry>, ours: Entry, theirs: Entry,
                                 item: PlanItem, b: seq<Line>, o: seq<Line>, t: seq<Line>, x: seq<Line>,
                                 x': seq<Line>, line: Line, y: seq<Line>, y': seq<Line>)
    requires PlansFile(setting, path, base, ours, theirs, item) && AreTexts(setting, path, base, theirs, b, o, t)
    requires SplitBy(b, x, line, y)
    requires || (SplitBy(o, x', line, y) && SplitBy(t, x, line, y'))
             || (SplitBy(t, x', line, y) && SplitBy(o, x, line, y'))
    requires Dist(x, x') <= 2048 && Dist(y, y') <= 2048
    ensures item.action.WriteLines? && item.conflicts == 0 && item.action.lines == x' + [line] + y'
  {
    hide Dist, SplitBy, Lines.AreLinesOf, Merge3.MergeWith, MergedLines, IsLargest, Aligned;
    var b', o', t' := MergesTheTexts(setting, path, base, ours, theirs, item);
    SameTexts(setting, path, base, theirs, b, o, t, b', o', t');
    if SplitBy(o, x', line, y) && SplitBy(t, x, line, y') {
      DistOfSplit(b, o, x, x', line, y, y);
      DistOfSplit(b, t, x, x, line, y, y');
    } else {
      DistOfSplit(b, t, x, x', line, y, y);
      DistOfSplit(b, o, x, x, line, y, y');
    }
    var ourBlocks, theirBlocks :| MergedAlong(setting, b, o, t, item, ourBlocks, theirBlocks);
    SeparateChangesMerge(b, o, t, x, x', line, y, y', ourBlocks, theirBlocks, setting.labels);
  }

  lemma SameTexts(setting: Setting, path: Path, base: Option<Entry>, theirs: Entry, b: seq<Line>, o: seq<Line>,
                  t: seq<Line>, b': seq<Line>, o': seq<Line>, t': seq<Line>)
    requires AreTexts(setting, path, base, theirs, b, o, t) && AreTexts(setting, path, base, theirs, b', o', t')
    ensures b == b' && o == o' && t == t'
  {
    hide Lines.AreLinesOf;
    Lines.LinesAreUnique(o, o', setting.tree[path].content);
    Lines.LinesAreUnique(t, t', setting.objects[theirs.digest]);
    if b != [] || b' != [] {
      Lines.LinesAreUnique(b, b', setting.objects[base.value.digest]);
    }
  }
}
