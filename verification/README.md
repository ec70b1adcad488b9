# Prison: a verified model

This project models the parts of Prison that decide what happens to a user's
files, secrets and network access, and proves what they promise.

- **Line diffs and merges** (`EditScript` to `Merge3`, `CleanMerge`, `Conflicts`,
  `Lines`, `MergeTexts`): the linear-space Myers search on its two reused arrays, the
  trimming and filtering around it, hunks, the unified format ("Diff -u or -U Output
  Format" of the `diff` utility in POSIX.1-2017) with a reader written from the
  format alone, and the three-way merge with a reader of its conflict blocks.
- **Checkpoints** (`Paths` to `StoreRuns`): the project as a finite map from paths
  to directories, files and links that is closed under parents, with file system
  steps that can fail; scanning, ignore rules, the stored manifest text, restoring,
  planning and applying merges, and the content-addressed store. Every command
  compiles the ignore patterns of the configuration of its time, so a checkpoint may
  have been recorded under other rules than those that restore or merge it.
- **The vault** (`VaultProtocol`, `Vault`): several processes on one file with a
  lock and a cache each, as a state machine over single steps; and one process on
  the heap, with the copies that it takes and gives.
- **The broker log**, **the rate limiter** and **the egress patterns**
  (`BrokerLog`, `RateLimiter`, `Policy`, `PolicyLaws`).

Code that changes things step by step is modelled by classes and loops that do the
same. Each such method is tied to a specification, and the specification has its
own laws. Ghost results such as `cut`, `spans`, `ours` and `versions` only say more
about a result.

Four things are parameters: how a content is hashed (two contents never share a
digest where a lemma needs that), how one glob matches one text, which contents are
text, and how a log entry is encoded. Deriving a key from a passphrase is a
parameter too, and a sealed document opens with its own key only. Clocks and the
times that the file system gives are inputs. Characters stand for bytes.

Where the code does other than its comments or its users may expect, the model
follows the code:

- A directory pattern such as `node_modules/` does not match the files below the
  directory (`Ignore.DirectoryPatternsMissFiles`). They are left out because the
  scan does not enter the directory.
- A file that was recorded without any permission comes back with mode 0644, so a
  restore gives back exactly the recorded tree if and only if no recorded file is
  like that (`RestoreLaws.RewrittenIsSame`).
- A read from the vault cache can miss a write that keeps size and time
  (`VaultProtocol.SameStampHidesAWrite`). Reads are fresh if and only if every version
  with the size and time of the last one has its document
  (`VaultProtocol.ReadsAreFresh`).
- Creating a vault takes no lock. Two processes that both see no file can lose an
  update (`VaultProtocol.CreatingTwiceLosesAnUpdate`). No update is lost if and only
  if no creation replaces a file that has updates
  (`VaultProtocol.NoUpdateIsLost`); once the file is there, none ever is
  (`VaultProtocol.NoUpdateIsLostInAFile`).
- The automatic checkpoint of a restore does not always give the tree back. An
  ignored empty directory can be lost (`RestoreBack.IgnoredDirectoryIsLost`). When
  patterns were added since the wanted checkpoint, an ignored file can be replaced
  while no checkpoint has a copy (`RestoreBack.IgnoredFileIsReplaced`), and a file
  that the restore adds can stay (`RestoreBack.AddedFileStays`). Going back, under
  any rules, gives the same tree if and only if each left out node is recorded just
  so or is in the place of no recorded file, link or temporary name, no file to
  record is without any permission or has a left out node at its temporary name, and
  the later rules see all that was added and leave out what was left out
  (`RestoreBack.BackAgain`, `StoreRuns.RestoreAndBack`).
- A merge into a changed tree can stop although there is no conflict
  (`MergeLaws.NewFileBelowAFile`). It finishes if and only if each directory above a
  path to write is there, missing or planned, and nothing lies below a file or link
  to write or below its temporary name (`Writing.AllAreWritten`,
  `Store.Store.Merge`).
- The rate limiter reads the clock before it takes its lock, so calls can come in
  another order than their moments. When none is more than some lag behind an
  earlier one, no span of a minute less that lag holds more calls than the limit
  (`RateLimiter.NoSpanIsOverfull`); a longer span can, for every limit but one
  (`RateLimiter.LagFillsLongerSpan`, `RateLimiter.OneIsNeverTwo`).
- A reader of the broker log skips lines of more than 4 MiB, which the writer does
  not refuse (`BrokerLog.WriteAndRead`).
- Two patterns that differ in their ports only can print the same text
  (`Policy.SomePatternsPrintTheSame`). Patterns that the parser makes never do.
- The parser accepts `a#b`, which reads back from a printed list as `a`
  (`Policy.CommentSignIsLost`). A printed list reads back if and only if each pattern
  is canonical and fits a line (`Policy.PrintedListReadsBack`).

## Model

| member | source | states |
|---|---|---|
| EditScript.DistIsLeast | internal/checkpoint/textdiff/diff.go:24-53 | the distance of two texts is the least number of deletes and inserts over all scripts that turn one into the other, and some script has it |
| EditScript.DistByLcs | internal/checkpoint/textdiff/diff.go:24-53 | the distance is the two lengths minus twice the longest common subsequence |
| EditScript.DistConcat | internal/checkpoint/textdiff/diff.go:155-181 | solving two parts of a problem on their own never beats the whole |
| EditScript.DistRev | internal/checkpoint/textdiff/diff.go:227-238 | reversing both texts keeps their distance, which the backward search relies on |
| EditScript.DistParity | internal/checkpoint/textdiff/diff.go:189-190 | the distance has the parity of the sum of the lengths, so only one of the two overlap tests can ever apply to a pair of texts |
| EditScript.DistCommonPrefix | internal/checkpoint/textdiff/diff.go:56-59 | trimming a common prefix keeps the distance |
| EditScript.DistCommonSuffix | internal/checkpoint/textdiff/diff.go:60-64 | trimming a common suffix keeps the distance |
| EditScript.DistAtLeastTwo | internal/checkpoint/textdiff/diff.go:183-188 | texts that differ in their first and their last element are at least two edits apart, so a middle point is never a corner |
| EditGraph.DiagonalMonotone | internal/checkpoint/textdiff/diff.go:204-246 | going further along a diagonal never makes the rest of the way longer |
| EditGraph.ThroughPoint | internal/checkpoint/textdiff/diff.go:155-181 | a grid point is at least as far from both corners together as the corners from each other |
| EditGraph.LastMove | internal/checkpoint/textdiff/diff.go:262-272 | a shortest way into a point comes from the left or from above with one edit less, or along a match |
| MiddlePoint.DiagonalBounds | internal/checkpoint/textdiff/diff.go:250-260 | the bounds of a step are the outermost diagonals of its parity inside the grid |
| MiddlePoint.ReachableIsSound | internal/checkpoint/textdiff/diff.go:262-272 | the point that a step starts from on a diagonal lies in the grid and costs no more than the step |
| MiddlePoint.Dominated | internal/checkpoint/textdiff/diff.go:262-272 | next to a point of a shortest way no reached neighbour is at the far edge of the grid, so the clamping skips no way that matters |
| MiddlePoint.EditIsReached | internal/checkpoint/textdiff/diff.go:206-225 | a step starts at least as far as every shortest way that comes to the diagonal by an edit |
| MiddlePoint.Meeting | internal/checkpoint/textdiff/diff.go:221-225 | when the two searches overlap, the distance is at most the sum of their steps, and when it is that sum the point lies on a shortest way with each cost on its side |
| MiddlePoint.NotMet | internal/checkpoint/textdiff/diff.go:204-247 | when no diagonal of a step overlaps, the distance is not the sum of the steps |
| Blocks.MatchingIsAligned | internal/checkpoint/textdiff/diff.go:77-87 | merged blocks are increasing, disjoint, in bounds and equal on both sides |
| Filtering.DistFilter | internal/checkpoint/textdiff/diff.go:89-125 | dropping lines that are on one side only changes the distance by exactly their number |
| Filtering.DistNamed | internal/checkpoint/textdiff/diff.go:95-104 | giving equal lines equal numbers and different lines different ones keeps the distance |
| Myers.IntegerSqrt | internal/checkpoint/textdiff/diff.go:201-201 | the whole part of the square root in the step limit |
| Myers.StepLimitMeans | internal/checkpoint/textdiff/diff.go:201-201 | a search has 1024 steps below 66049 lines, and else four times the root of their number |
| Myers.Aligner.FindMiddle | internal/checkpoint/textdiff/diff.go:183-248 | the search on the two arrays never leaves their bounds; it is cut exactly when the distance exceeds twice the step limit, and else its point is the middle of a shortest way |
| Myers.Aligner.Split | internal/checkpoint/textdiff/diff.go:183-248 | the split point is inside its rectangle and never its low or high corner, also when the search is cut; uncut, both parts cost half of the whole |
| Myers.Aligner.Align | internal/checkpoint/textdiff/diff.go:155-181 | the recursion ends on every input and appends a matching of the two ranges, the largest one when no search is cut |
| Diff.AppendMiddleBlocks | internal/checkpoint/textdiff/diff.go:89-134 | after filtering, naming and mapping the indices back, the blocks match the two middles, and their number of pairs is the best one when no search is cut |
| Diff.CommonBlocks | internal/checkpoint/textdiff/diff.go:55-75 | the blocks are increasing, disjoint, in bounds and matching; without a cut no other matching has more pairs; equal texts have one whole block; no search is cut up to distance 2048 |
| Diff.DistIsShortest | internal/checkpoint/textdiff/diff.go:24-53 | a script is shortest if and only if its cost is the distance |
| Diff.Diff | internal/checkpoint/textdiff/diff.go:24-53 | equals and deletes read back the first text, equals and inserts the second, also when a search is cut; without a cut no script is shorter, and its cost is the lengths minus twice the longest common subsequence |
| Hunks.Hunks | internal/checkpoint/textdiff/hunk.go:15-65 | the hunks are exactly the groups of changes with their context, with the start and count of both sides |
| HunkLaws.HunksAreApart | internal/checkpoint/textdiff/hunk.go:15-65 | two hunks never touch or overlap |
| HunkLaws.ShareHunkIffLinked | internal/checkpoint/textdiff/hunk.go:15-16 | two changes share a hunk if and only if no gap between neighbouring changes from one to the other has more than twice the context of equal lines |
| HunkLaws.HunkPositions | internal/checkpoint/textdiff/hunk.go:46-61 | start and count of a hunk are where its lines lie in the two texts and how many they are |
| HunkLaws.PatchGivesNew | internal/checkpoint/textdiff/hunk.go:17-65 | applying the hunks to the first text gives the second |
| Unified.RangeReadsBack | internal/checkpoint/textdiff/hunk.go:92-103 | a printed range reads back as its start and count, with the rule for the start of an empty range |
| Unified.HunksReadBack | internal/checkpoint/textdiff/hunk.go:77-88 | a reader of the format gets back the hunks from their text, with the marks for a missing final newline |
| Unified.Unified | internal/checkpoint/textdiff/hunk.go:69-90 | the text is empty if and only if both texts are equal; else its first two lines are `--- ` with the old name and `+++ ` with the new one, reading it and patching the first text with it gives the second, and no other line of it holds a line feed when the lines of the texts hold one at their end only |
| Merge3.SyncRegions | internal/checkpoint/textdiff/merge.go:52-87 | the regions are the overlaps of the kept blocks of both diffs, with the sentinel |
| Merge3.SyncFollows | internal/checkpoint/textdiff/merge.go:22-49 | the regions follow each other in range, with equal slices of all three texts, so no slice of the merge is out of range |
| Merge3.PiecesReadBack | internal/checkpoint/textdiff/merge.go:22-49 | the pieces of the merge concatenate back to exactly base, ours and theirs |
| Merge3.MergeIsSymmetric | internal/checkpoint/textdiff/merge.go:16-50 | swapping ours and theirs keeps the number of conflicts, and the result when there are none, for any diffs |
| Merge3.MergeWithUnchangedOurs | internal/checkpoint/textdiff/merge.go:29-32 | merging with ours equal to base gives theirs without conflicts |
| Merge3.MergeWithUnchangedTheirs | internal/checkpoint/textdiff/merge.go:29-32 | merging with theirs equal to base gives ours without conflicts |
| Merge3.MergeOfSame | internal/checkpoint/textdiff/merge.go:27-28 | merging two equal changes gives that change without conflicts |
| Merge3.MergeByOneDiff | internal/checkpoint/textdiff/merge.go:16-50 | when the diff is a function of its two texts, two merges with swapped sides have the same conflicts and the same clean result, and a side that is unchanged or the same as the other one takes the other one |
| Merge3.Merge3 | internal/checkpoint/textdiff/merge.go:16-50 | the result is the merge along two diffs that match the texts and are largest when the changes are few, with all three laws |
| CleanMerge.LargestHasMost | internal/checkpoint/textdiff/diff.go:55-75 | no other matching of two texts has more pairs than one that costs the distance |
| CleanMerge.RegionsAreKeptByBoth | internal/checkpoint/textdiff/merge.go:52-87 | a line of the base is in a region, next to its lines of ours and theirs, if and only if both diffs keep it there |
| CleanMerge.SeparateChangesMerge | internal/checkpoint/textdiff/merge.go:16-50 | when one side changed only what stands before a line, and the other only what stands behind it, and that line is once in each text, then every merge along largest diffs has both changes and no conflict |
| Conflicts.ConflictsReadBack | internal/checkpoint/textdiff/merge.go:33-42 | when no line of the texts looks like a marker, a reader of conflict blocks gets from the merged lines each conflicting piece with its ours, base and theirs in this order and under the given labels; it finds as many blocks as were counted; keeping one side of every block gives that text when nothing else was changed |
| Lines.JoinOfSplit | internal/checkpoint/textdiff/lines.go:5-25 | joining the lines of a text gives back the text |
| Lines.SplitGivesLines | internal/checkpoint/textdiff/lines.go:5-14 | the lines of a text hold no line feed and give the text when joined, and the mark says whether the text ends with one |
| Lines.LinesAreUnique | internal/checkpoint/textdiff/lines.go:5-14 | no other lines do that |
| Paths.LessMeans | internal/checkpoint/checkpoint.go:135-139 | one path comes before another at the first character where they differ, or when it ends first |
| Paths.AncestorMeans | internal/checkpoint/scan.go:59-62 | a path is below another one if and only if it goes on behind it with a slash |
| Tree.StepsAreSound | internal/checkpoint/restore.go:186-264 | every file system step leaves a tree with directories above each path; one that succeeds has made or removed just its own nodes, and a failed one changes nothing |
| Project.Project.RemovePath | internal/checkpoint/restore.go:246-264 | a missing path is fine, a directory with children stays and says so, and anything else goes alone |
| Project.Project.WriteEntry | internal/checkpoint/restore.go:186-242 | it succeeds exactly when nothing on the way is a file and no full directory is replaced; then exactly the entry is placed; and in any case only the path, its temporary name and missing parents are touched |
| Project.TemporaryIsBeside | internal/checkpoint/restore.go:226-228 | the temporary name is the path with a suffix of its own, in the same directory, and no two paths share one |
| Project.FileIsWritten | internal/checkpoint/restore.go:216-219 | a file is written with its recorded mode, or as 0644 when it has no permission |
| Scan.VisibleInChild | internal/checkpoint/scan.go:47-78 | what the walk records of a directory is what it records of its children |
| Scan.Walk | internal/checkpoint/scan.go:47-132 | the walk adds exactly the visible paths below a directory, each once, and stops exactly when there are too many entries or bytes |
| Scan.Scan | internal/checkpoint/scan.go:33-45 | the manifest lists, once each and in order, the nodes that the walk sees, each with its kind, mode and digest; it fails exactly when these are too many or hold too much |
| Scan.SeenPaths | internal/checkpoint/scan.go:58-71 | a path is seen if and only if it is there, no rule matches it or a directory above it, and it has no line feed and no carriage return |
| Scan.WholeTreeIsScanned | internal/checkpoint/scan.go:33-78 | without rules and line breaks every path of the tree is in the manifest |
| Scan.ListedAsItIs | internal/checkpoint/scan.go:80-132 | an entry has the kind of its node; a file has its mode, and files and links the digest of their content or target; the other fields are empty |
| Scan.LimitsOfScan | internal/checkpoint/scan.go:16-18 | a scan takes up to 100000 paths and 2 GiB, for which only files count, each with its length |
| Ignore.NewIgnore | internal/checkpoint/ignore.go:38-53 | exactly the texts that hold more than slashes become patterns |
| Ignore.PatternOfText | internal/checkpoint/ignore.go:38-53 | the slashes at the end go and make a pattern for directories only, and a slash before them makes it rooted |
| Ignore.Matches | internal/checkpoint/ignore.go:55-83 | a rooted pattern matches the path or a directory above it, another one any segment, and a directory pattern no file |
| Ignore.BelowIgnoredIsIgnored | internal/checkpoint/ignore.go:64-80 | what lies below an ignored path is ignored as that path is |
| Ignore.DirectoriesAreIgnoredToo | internal/checkpoint/ignore.go:61-63 | a path that is ignored as a file is ignored as a directory |
| Ignore.DirectoryPatternsMissFiles | internal/checkpoint/ignore.go:61-63 | directory patterns alone match no file |
| Ignore.TemporariesAreIgnored | internal/checkpoint/ignore.go:8-26 | with the default patterns every temporary name of a restore is ignored |
| Ignore.PartialGlob | internal/checkpoint/ignore.go:24-24 | that pattern is a star and the suffix `.prison-partial` |
| Manifest.IndexHolds | internal/checkpoint/checkpoint.go:38-44 | the index has exactly the recorded paths, each with an entry of that path |
| Manifest.IndexIsLast | internal/checkpoint/checkpoint.go:38-44 | of several entries of one path the index has the last one |
| ManifestText.FormatManifest | internal/checkpoint/checkpoint.go:164-175 | the loop writes the lines of all entries in order |
| ManifestText.ParseManifest | internal/checkpoint/checkpoint.go:177-204 | the loop reads all lines, skips empty ones and fails on any bad one |
| ManifestText.LinesInOrder | internal/checkpoint/checkpoint.go:180-203 | the entries of two parts of a text follow each other, and a bad line in either makes the whole an error |
| ManifestText.ReturnIsDropped | internal/checkpoint/checkpoint.go:182-182 | one carriage return at the end of a line does not count |
| ManifestText.LineMeans | internal/checkpoint/checkpoint.go:186-201 | the reader takes exactly the lines of a kind, a number that fits 64 bits, a digest and a path that stays inside, with tabs between them, and keeps nine bits of the number |
| ManifestText.LocalMeans | internal/checkpoint/checkpoint.go:193-193 | a path is refused exactly when it is empty, starts at the root or leaves the project on its way |
| ManifestText.BadLineFails | internal/checkpoint/checkpoint.go:177-195 | one line of another form makes the whole text unreadable, wherever it stands |
| ManifestText.ManifestReadsBack | internal/checkpoint/checkpoint.go:164-204 | a manifest reads back from its text if and only if each entry has storable mode bits, a digest without tab and line break, and a local path without a line break at a place that matters |
| ManifestText.ScansReadBack | internal/checkpoint/scan.go:67-71 | every manifest that a scan makes reads back, with tabs in its paths too |
| Changes.Compare | internal/checkpoint/checkpoint.go:114-141 | the changes are exactly the added, removed and changed entries, each list in order and without repetitions when each path is recorded once |
| Changes.EmptyIffSame | internal/checkpoint/checkpoint.go:106-112 | there are no changes if and only if every path has the same entry in both |
| MergeLaws.SameMeansAlike | internal/checkpoint/checkpoint.go:123-125 | two scans have the same entry at a path if and only if both trees show a node of the same kind, content and permission there, or both show none |
| Restore.RemoveObsolete | internal/checkpoint/restore.go:103-114 | removing from the last path to the first removes exactly the paths below which nothing stays, and counts them |
| Restore.WriteEntries | internal/checkpoint/restore.go:116-137 | when all is ready every entry is written and counted; in any case only recorded paths, temporary names and missing parents are touched |
| Restore.RestoreTree | internal/checkpoint/restore.go:83-143 | when the recording can be restored the tree is exactly the recorded nodes over what is kept, without the temporary names of the written files, with both counts; whether it finishes or stops, what the scan leaves out stays |
| RestoreLaws.RestorableUnlessInTheWay | internal/checkpoint/restore.go:103-137 | a sound recording can be restored if and only if no left out node lies below a recorded file or link or below the temporary name of a recorded file |
| RestoreLaws.RecordedStandsOver | internal/checkpoint/restore.go:83-143 | a finished restore leaves every recorded node, every left out node as it was but for freed temporary names, and another visible path only if it is a directory that holds something left out |
| RestoreLaws.WholeTreeIsRestored | internal/checkpoint/restore.go:83-143 | without left out paths every sound recording can be restored from any tree, and exactly the recorded tree remains |
| RestoreLaws.LeftOutNodesSurvive | internal/checkpoint/restore.go:83-143 | left out nodes survive every restore, under any rules, unless they are recorded or have a temporary name; a finished one leaves them as they were if and only if they are recorded just so, or are not recorded and have no freed temporary name |
| RestoreLaws.LeftOutFilesSurvive | internal/checkpoint/restore.go:246-248 | files and links that the rules leave out survive every restore of a scan under the same rules, unless they have one of its temporary names |
| RestoreLaws.ScanRecordsVisibleTree | internal/checkpoint/scan.go:80-132 | the tree that a scan records is the visible part of the scanned tree, with usable modes |
| RestoreLaws.RewrittenIsSame | internal/checkpoint/restore.go:216-219 | that tree is exactly the visible part if and only if no visible file is without any permission |
| MergePlan.ResolveModeMergesBits | internal/checkpoint/merge.go:242-260 | the merged mode is that of the side that changed it, ours when both did, and theirs when there is no base |
| MergePlan.PlanMeans | internal/checkpoint/merge.go:95-192 | a path is planned exactly when theirs changed it and not just as ours did; ours is overwritten or removed only where it is the base; and there is a conflict only where all three differ, and always then but for two texts that merge cleanly; a row that keeps ours counts as one conflict, and so does one that restores a removed path |
| MergePlan.PlanMergedFile | internal/checkpoint/merge.go:194-236 | a changed file gets the three-way merge of the lines of base, ours and theirs and the merged mode, or a conflict when a side is no text |
| MergeTexts.MergesTheTexts | internal/checkpoint/merge.go:194-240 | the merge is along diffs of the lines of the stored base, or of none when there is no base text, of the file in the tree and of the stored theirs; the result ends its last line exactly when ours or theirs is empty or does |
| MergeTexts.SeparateChangesAreMerged | internal/checkpoint/merge.go:213-218 | when ours changed the text only before a line that is once in each, and theirs only behind it, each by up to 2048 edits, then the planned file has both changes and no conflict, and the other way round |
| MergePlan.PlanManifests | internal/checkpoint/merge.go:95-122 | the plan has the items of all paths of the three manifests, once each and in order |
| MergeApply.WriteDirectories | internal/checkpoint/merge.go:341-350 | the tree is that after exactly the planned directories; it stops only when some write of the plan cannot be made, and touches nothing else |
| Writing.PathAfterWrites | internal/checkpoint/restore.go:186-242 | after some writes in turn each path holds what the write of that path put there, is free when it is a temporary name, is a new directory when it is missing above a written path, and else is as it was |
| Writing.AllAreWritten | internal/checkpoint/merge.go:341-362 | writes in order all succeed if and only if, in the tree before, each directory above a path to write is there, missing or written itself, and nothing lies below a file or link to write or below its temporary name |
| MergeWrites.WritesAreOrderly | internal/checkpoint/merge.go:341-362 | the writes of every plan have different paths, directories come before what lies below them, and no temporary name is in the way |
| MergeApply.WriteFiles | internal/checkpoint/merge.go:351-362 | the tree is that after all planned writes; it stops only when a content is missing or some write cannot be made |
| MergeApply.DropPaths | internal/checkpoint/merge.go:364-381 | dropping from the last path to the first leaves exactly the dropped directories that still hold something else |
| MergeApply.ApplyMergePlan | internal/checkpoint/merge.go:324-388 | for any plan, merged texts included, it finishes if and only if the contents are stored and all writes can be made, given that the removals find files and links; it then leaves exactly the tree of all writes and removals; whether it finishes or stops, no path that the plan leaves alone is disturbed |
| MergeLaws.EveryPathEndsRight | internal/checkpoint/merge.go:151-236 | after a merge each path holds theirs where ours is base, ours where theirs is base or both are the same, and else what the conflict row or the line merge says |
| MergeLaws.UnchangedIsReady | internal/checkpoint/merge.go:341-362 | in the unchanged tree of its base, left out nodes included, all writes of a merge succeed when no node lies below a changed file or link of theirs or below the temporary name of such a file |
| MergeLaws.UnchangedBecomesTheirs | internal/checkpoint/merge.go:326-388 | the writes and removals then leave the tree that a restore of theirs leaves, but that only changed paths are written |
| MergeLaws.AppliedIsNotBlocked | internal/checkpoint/merge.go:351-362 | a merge that finishes there had no node below such a place |
| MergeLaws.TheirsStandsOver | internal/checkpoint/merge.go:326-388 | when no recorded file is without any permission, all of theirs is then there, left out nodes are as they were but for freed temporary names, and a dropped directory stays only to hold one |
| MergeLaws.ReadyCanWrite | internal/checkpoint/merge.go:341-362 | when nothing is in the way of a plan without texts, its writes can be made and put exactly the planned entries over the tree |
| MergeLaws.DropsAreThere | internal/checkpoint/merge.go:364-388 | a plan for a scanned tree only removes files and links that are there |
| MergeLaws.MergeMeaning | internal/checkpoint/merge.go:263-301 | a merge into any tree finishes if and only if all writes can be made; in the unchanged tree of its base that is so if and only if no changed file or link of theirs is blocked, and it leaves theirs without conflicts over what is left out, and exactly theirs when nothing is left out and every recorded file may be used |
| MergeLaws.NewFileBelowAFile | internal/checkpoint/merge.go:351-362 | a merge without a conflict that stops: a directory of base and theirs is a file in the working tree, and theirs has a new file in it |
| MergeLaws.LeftOutNodesSurviveMerge | internal/checkpoint/merge.go:324-388 | left out nodes survive every merge, under any rules and whether it finishes or stops, unless theirs changed an entry at their path or they have a temporary name; a finished merge puts what theirs changed in their place |
| Identifiers.NamesAreUnique | internal/checkpoint/store.go:170-190 | a text names at most one checkpoint |
| Identifiers.NamesMean | internal/checkpoint/store.go:77-79 | a checkpoint is listed as its number with zeros in front, four characters at least, and every text that is its number names it |
| Decimal.AtoiMeans | internal/checkpoint/checkpoint.go:190-190 | a number is an optional sign and digits, and is refused exactly when it does not fit 64 bits |
| Decimal.DigitsMean | internal/checkpoint/checkpoint.go:190-190 | digits are read from the left, each one ten times the value before it and its own |
| Identifiers.Resolve | internal/checkpoint/store.go:170-190 | the named checkpoint is found if and only if it is stored |
| Identifiers.Step | internal/checkpoint/restore.go:157-184 | the checkpoint that many places from the current one, or from the last one when none is current |
| Identifiers.StepBack | internal/checkpoint/restore.go:157-184 | a step and its opposite come back to the same checkpoint |
| Store.Store.WriteObject | internal/checkpoint/store.go:308-341 | a content is stored under its digest, and no other content changes |
| Store.Store.StoreContents | internal/checkpoint/store.go:279-306 | each entry gets the digest of the content that was read, also when the file changed after the scan |
| Store.Store.Take | internal/checkpoint/store.go:223-277 | it succeeds exactly when the tree can be scanned under the present rules and every scanned file or link still has its kind when it is read; a new checkpoint has the number behind the last one, becomes the current one and reads back as the tree that was read; an error changes no checkpoint, and earlier ones stay sound whatever rules they were recorded under |
| Store.Store.Remove | internal/checkpoint/store.go:343-360 | only the named checkpoint goes, and the current mark when it is on it |
| Store.Store.Prune | internal/checkpoint/store.go:362-418 | exactly the contents that no stored manifest mentions go, and they are counted |
| Store.PruneIsSound | internal/checkpoint/store.go:362-418 | every stored checkpoint still resolves afterwards |
| Store.Store.Restore | internal/checkpoint/restore.go:22-35 | for a checkpoint recorded under any rules, the tree before is a new checkpoint; the restore succeeds if and only if nothing left out is in the way, and has all properties of the restored tree |
| Store.Store.RestoreWithoutAutomatic | internal/checkpoint/restore.go:37-58 | it starts exactly when the wanted checkpoint is stored and the tree can be scanned and has no change from the current or last checkpoint; then it restores like any restore, whether it finishes or stops, and moves the mark only when it finishes; else nothing changes |
| Store.Store.MergeBase | internal/checkpoint/merge.go:303-322 | the base is the one that is asked for or the current one, and never the merged checkpoint |
| Store.Store.Merge | internal/checkpoint/merge.go:262-301 | it plans exactly when both checkpoints resolve and the tree can be scanned, takes a checkpoint before it changes anything, finishes in any tree if and only if all writes can be made, and has all properties above |
| StoreRuns.ProjectRules | internal/cli/checkpoint.go:197-207 | the rules of any compiled patterns with the partial glob leave out every temporary name, and whatever they leave out as a file they leave out as a directory |
| StoreRuns.Run | internal/checkpoint/store.go:223-418 | over every run of all operations, each under its own patterns, each stored manifest resolves, all contents have their digests, and the current checkpoint is stored; no command, finished or stopped, touches a node that its patterns match by name or by a directory above, unless the manifest that it restores or merges has that path or the node has a temporary name; and new checkpoints list only what the patterns of their command let them see |
| StoreRuns.NeverTouched | internal/cli/checkpoint.go:197-207 | a path that no stored manifest has and that the patterns of every command of a run ignore is in no manifest of the run, and no command touches it |
| StoreRuns.RestoreAndBack | internal/checkpoint/restore.go:22-35 | a restore of a checkpoint of any rules, followed under any later rules by a restore of its automatic checkpoint, through the stored texts, succeeds and gives back the tree if and only if both scans fit and the condition of going back holds |
| RestoreBack.BackAgain | internal/checkpoint/restore.go:83-143 | for the trees alone: two restores, each under its own rules, of a recording of any rules and of the tree before give back exactly that tree if and only if there is room for the recording, temporary names are free, modes are usable, and the later rules see what was added and leave out what was left out |
| RestoreBack.UnderSameRules | internal/checkpoint/restore.go:83-143 | under unchanging rules what was added is always seen and what is left out stays so, and there is room if and only if no left out node is in the place of a recorded file or link or of a temporary name |
| RestoreBack.IgnoredDirectoryIsLost | internal/checkpoint/restore.go:246-264 | a tree with an ignored empty directory that a restore replaces by a file and the way back removes |
| RestoreBack.AddedFileStays | internal/cli/checkpoint.go:197-207 | a file that a restore adds and the later patterns ignore stays on the way back, although all other conditions hold |
| RestoreBack.IgnoredFileIsReplaced | internal/cli/checkpoint.go:197-207 | a restore of a checkpoint from before the patterns ignored a file replaces it, and its automatic checkpoint has no copy |
| VaultProtocol.StepKeepsInvariant | internal/vault/vault.go:87-334 | every step of every process keeps: one lock holder at a time, the file and what was loaded from it are the updates of their logs, and a creator has seen that there was no file |
| VaultProtocol.NoUpdateIsLost | internal/vault/vault.go:87-285 | in any interleaving, with creations without the lock, the file is the updates of its log in lock order, and these are all updates that were written if and only if no creation comes after an update, other than one that a writer takes back because it loaded the file before |
| VaultProtocol.NoUpdateIsLostInAFile | internal/vault/vault.go:184-285 | when the file is there from the start, it equals all written updates applied in lock order |
| VaultProtocol.LastOfName | internal/vault/vault.go:184-224 | after any updates a secret is what the last update of its name made of it, the value put or nothing, and as before when there was none; updates of other names and of authorities never touch it |
| VaultProtocol.LastOfHost | internal/vault/vault.go:239-262 | after any updates an authority is the last one set for its host, and nothing else touches it |
| VaultProtocol.CreatingTwiceLosesAnUpdate | internal/vault/vault.go:87-114 | a run of two creators that loses the update of the first one |
| VaultProtocol.OneWriterAtATime | internal/vault/vault.go:264-285 | no two processes are between locking and unlocking |
| VaultProtocol.ReadsAreFresh | internal/vault/vault.go:287-312 | every run over some list of versions reads what the file holds at its end if and only if each version with the size and time of the last one has its document |
| VaultProtocol.SameStampHidesAWrite | internal/vault/vault.go:296-299 | a run in which replacing a secret by one of the same length at the same time is not seen |
| Vault.CopySecret | internal/vault/vault.go:517-535 | a copy has the same value and shares nothing that can be changed |
| Vault.ValueIsAllFields | internal/vault/vault.go:517-535 | two secrets have the same value if and only if they agree in every field, and in every field of what they refer to |
| Vault.CopyDocument | internal/vault/vault.go:496-515 | a copied document has the same contents in new objects |
| Vault.Vault.Reload | internal/vault/vault.go:287-318 | a reload gives the cache while the file has its size and time, and else what the file holds; it fails exactly when there is neither, and gives what the file holds when size and time tell which version that is |
| Vault.Vault.LockAndReload | internal/vault/vault.go:264-285 | under the lock the file is read again whatever its stamp says |
| Vault.Vault.WriteDocument | internal/vault/vault.go:320-334 | the file gets a new version with the document, which becomes the cache |
| Vault.Vault.PutSecret | internal/vault/vault.go:184-205 | the file then has this secret under its name, every other secret and every authority is as the file held it, and the answer says whether the name was there |
| Vault.Vault.DeleteSecret | internal/vault/vault.go:207-224 | exactly this name goes, every other secret keeps its value and every authority too, and a missing name writes nothing |
| Vault.Vault.SetAuthority | internal/vault/vault.go:239-262 | the file then has this authority under the host, and every other authority and every secret is as the file held it |
| Vault.Vault.FindSecret | internal/vault/vault.go:151-162 | a returned secret is a new copy; it is returned exactly when the cache or the file has the name, and always comes from a version with the size and time of the file |
| Vault.ReadAfterChange | internal/vault/vault.go:151-162 | changing all that a returned secret reaches never changes the vault |
| Vault.UseLocked | internal/vault/vault.go:139-149 | after locking, every read returns nothing and every write fails, in any sequence, and the file is untouched |
| Vault.CreateVault | internal/vault/vault.go:87-114 | with no other process between its check and its write, a new vault never replaces a file, and is empty |
| Vault.OpenVault | internal/vault/vault.go:116-137 | a vault opens exactly with the key that sealed it |
| BrokerLog.Writer.Write | internal/broker/brokerlog/writer.go:53-90 | the files stay the end of all that was written, in order; each is within the limit or holds one line; none is begun early |
| BrokerLog.Writer.ShiftFiles | internal/broker/brokerlog/writer.go:92-113 | every file moves up one place and only the oldest goes |
| BrokerLog.WrittenIsSelected | internal/broker/brokerlog/reader.go:74-100 | reading written lines selects exactly the matching entries whose lines are not too long |
| BrokerLog.ShortLinesAreReadable | internal/broker/brokerlog/reader.go:11-11 | no entry is skipped if and only if no line is longer than the limit of the reader |
| BrokerLog.Read | internal/broker/brokerlog/reader.go:43-72 | reading gives the last matching entries of the current file and of at most 64 rotated ones, the oldest first |
| BrokerLog.MatchingMeans | internal/broker/brokerlog/reader.go:25-39 | exactly the entries whose kind, project, secret and inmate are the wanted ones are kept, where an empty one wants nothing |
| BrokerLog.LastOfMeans | internal/broker/brokerlog/reader.go:54-56 | a limit keeps that many entries at the end, and no limit keeps all |
| BrokerLog.LimitsOfLog | internal/broker/brokerlog/reader.go:11-13 | a file holds 16 MiB unless another limit is wanted, lines of up to 4 MiB are read, and so are the current file and 64 rotated ones |
| BrokerLog.DroppedMeansFull | internal/broker/brokerlog/writer.go:68-73 | nothing is dropped before more than a whole file of entries is kept |
| BrokerLog.WriteAndRead | internal/broker/brokerlog/reader.go:43-58 | after any run of writes, closes and reopenings, with any file limit and number of files, reading gives the last matching entries of an end of all that was written, but for lines that are too long; that end is all or more than one file |
| RateLimiter.KeptAreCounting | internal/broker/limits/limits.go:30-35 | the pruned list is exactly the passed calls that every later call found less than a minute old, for any clock |
| RateLimiter.RateLimiter.Allow | internal/broker/limits/limits.go:23-42 | under any clock a call passes if and only if fewer than the limit of the passed calls of its key still count |
| RateLimiter.NoSpanIsOverfull | internal/broker/limits/limits.go:23-42 | when no call comes more than a lag behind an earlier one, no span of a minute less the lag holds more passed calls than the limit |
| RateLimiter.LagFillsLongerSpan | internal/broker/limits/limits.go:27-28 | for every lag up to a minute and every limit above one, some calls pass that fill a span longer by one |
| RateLimiter.OneIsNeverTwo | internal/broker/limits/limits.go:36-39 | with a limit of one no clock lets two calls pass within a minute |
| RateLimiter.KeptAreBetween | internal/broker/limits/limits.go:30-35 | the number that decides a call lies between the passed calls of the minute that no lag reaches and those of the minute with the lag added |
| RateLimiter.InOrderIsExact | internal/broker/limits/limits.go:36-39 | with moments in order a call passes if and only if the last 60000000000 nanoseconds have room, and a refusal means that they hold exactly the limit |
| RateLimiter.NoMinuteIsOverfull | internal/broker/limits/limits.go:8-8 | with moments in order no 60000000000 nanoseconds hold more passed calls than the limit |
| RateLimiter.Serve | internal/broker/limits/limits.go:23-42 | over any run that mixes keys, each with its own limit and any history, under any clock, every call is answered by what still counts, and no span of a minute less the lag of a key holds more passed calls than its limit |
| Policy.ParsingIsCanonical | internal/policy/policy.go:24-64 | the parser makes names in lower case without special characters, with all ports, the default ones or one port |
| PolicyLaws.ParserMeans | internal/policy/policy.go:24-64 | the parser takes exactly the entries that have, inside of white space, a name or a name behind `*.`, with one final dot or none, and a star, a number from 1 to 65535 or nothing as port, and gives what they spell |
| PolicyLaws.TrimMeans | internal/policy/policy.go:26-26 | trimming gives the one part that neither starts nor ends with white space, with only white space around it |
| PolicyLaws.PortPartMeans | internal/policy/policy.go:50-62 | no port part opens 80 and 443, a star every port and a number that port |
| PolicyLaws.DefaultPorts | internal/policy/policy.go:13-13 | an entry without a colon opens exactly 80 and 443 |
| Policy.PatternReadsBack | internal/policy/policy.go:101-114 | a pattern parses back from its printed text if and only if it is canonical and has no white space around it |
| Policy.HostNamesReadBack | internal/policy/policy.go:101-114 | canonical patterns over host-name characters always parse back, and fit on one line of a list without a comment sign |
| Policy.PrintedIsUnique | internal/policy/policy.go:165-179 | canonical patterns with the same text are the same, so dropping repetitions loses nothing |
| Policy.SomePatternsPrintTheSame | internal/policy/policy.go:165-179 | two other patterns with the same text that allow different ports |
| Policy.NewAllowList | internal/policy/policy.go:165-179 | the list keeps the first pattern of each text, in order |
| Policy.Allows | internal/policy/policy.go:189-204 | a request is allowed if and only if some pattern opens the port and covers the host: the lower-case host without one final dot is the name of the pattern, or, for a wildcard, any text, a dot and that name; the host is known if and only if some pattern covers it |
| Policy.HostMatches | internal/policy/policy.go:206-213 | a host matches if and only if some pattern covers it in that way |
| Policy.NameOfHost | internal/policy/policy.go:148-150 | the compared name is the lower-case host without one final dot |
| Policy.MatchingIsCovering | internal/policy/policy.go:128-146 | a pattern matches a host and a port exactly as it covers the one and opens the other |
| Policy.WildcardNeedsDot | internal/policy/policy.go:133-133 | a wildcard never matches a longer name with another character than a dot before the name of the pattern |
| Policy.SuggestionAllows | internal/policy/policy.go:200-202 | the suggested entry parses to the pattern of the refused host and port, which allows the request, if and only if that pattern is canonical and has no white space around it, as with every host name and good port |
| Policy.ParseList | internal/policy/policy.go:66-87 | the loop reads all lines, skips comments and empty ones and fails on any bad one |
| PolicyLaws.LineMeans | internal/policy/policy.go:72-84 | of a line counts what stands before the first comment sign, without white space around it; a line without text is skipped, and any other one is the pattern that it spells or an error |
| PolicyLaws.LinesInOrder | internal/policy/policy.go:66-87 | the patterns of two parts of a list follow each other, and a bad line in either makes the whole an error |
| Policy.PrintedListReadsBack | internal/policy/policy.go:66-87 | a printed list parses back if and only if each pattern is canonical, without a line break or a comment sign in it and without white space around it |
| Policy.CommentSignIsLost | internal/policy/policy.go:73-75 | a pattern that parses to itself and reads back from its printed line as another one |
| Policy.GuestList | internal/guest/allowlist.go:34-40 | the list that the guest parses from what the broker prints is the list of the broker if and only if each pattern fits a line, and then it allows and matches exactly what some original pattern does, for every host and port |

## Left out

- Diff.Diff: a script is claimed to be shortest only when no search is cut; a cut search keeps the script valid but not shortest.
- Merge3.SyncRegions: the second diff is not computed again when ours equals theirs, because the diff of the same two texts is the same. That the array search is a function of its two texts is not proved.
- Unified.Unified: patching gives back the second text when lines keep their newlines, or have none; other lines lose what the format does not show.
- Project.Project.WriteEntry: paths that go through a link fail here, while the file system can follow a link that stays inside the project; permission bits of directories and failing disks are not modelled.
- Scan.Walk: the children of a directory come in any order; unreadable, special and vanishing files and the list of skipped paths are not modelled.
- Ignore.Matches: the glob match of one pattern and one text is a parameter.
- MergePlan.PlanMergedFile: labels and notes of the rows are not modelled.
- MergeApply.ApplyMergePlan: the list of applied rows with their counts, which only the report reads, and dry runs, whose test for a dropped directory looks at a tree in which nothing is deleted yet.
- Identifiers.Resolve: white space around the wanted name is taken to be trimmed already.
- Store.Store.Take: labels, times and other details of a checkpoint, the lock of the store, partial files of crashed writes, and files of other programs in the store directory.
- Vault.Vault.PutSecret: validation is a parameter, and its normalizing of fields, failing writes and null records of a foreign document are not modelled; the list of all secrets follows the same copy rule and is left out.
- VaultProtocol.NoUpdateIsLost: a creation also changes the key, so that a process that opened the older file cannot load the new one; the model lets it load. Other programs that write or remove the file are not modelled.
- BrokerLog.Writer.Write: failing disks, torn lines and a change of the number of kept files between runs are not modelled.
- RateLimiter.RateLimiter.Allow: the time between two calls fits the duration type.
- Policy.ParsePattern: letters outside of ASCII keep their case, white space outside of ASCII is not trimmed, and the length limit of a scanned line is not modelled.
- Picking single paths from a checkpoint, reports, the broker, certificates, name resolution, isolators, configuration and the command line.
