// The rotating log of the broker and its reader. File 0 is the current file and
// file n the n-th rotated one. How one entry is encoded is a parameter.
module BrokerLog {
  import opened Wrappers
  import opened Text

  datatype Entry = Entry(kind: string, project: string, secret: string, inmate: string, details: string)

  // An empty field matches all, and a limit of zero or less is none.
  datatype Filter = Filter(kind: string, project: string, secret: string, inmate: string, limit: int)

  datatype Codec = Codec(encode: Entry -> string, decode: string -> Option<Entry>)

  type Files = map<nat, string>

  const DEFAULT_MAX_BYTES: int := 16 * 1024 * 1024

  const DEFAULT_KEEP: nat := 3

  function FileLimit(maxBytes: int): int {
    if maxBytes <= 0 then DEFAULT_MAX_BYTES else maxBytes
  }

  const MAX_LINE_BYTES: nat := 4 * 1024 * 1024

  const MAX_ROTATED_FILES: nat := 64

  // An encoded entry has no line break, and its line decodes to it.
  ghost predicate GoodCodec(codec: Codec) {
    forall e :: '\n' !in codec.encode(e) && codec.decode(LineOf(codec, e)) == Some(e)
  }

  function LineOf(codec: Codec, entry: Entry): string {
    codec.encode(entry) + "\n"
  }

  function TextOf(codec: Codec, entries: seq<Entry>): string {
    if entries == [] then "" else LineOf(codec, entries[0]) + TextOf(codec, entries[1..])
  }

  lemma {:induction false} TextOfAppend(codec: Codec, entries: seq<Entry>, entry: Entry)
    ensures TextOf(codec, entries + [entry]) == TextOf(codec, entries) + LineOf(codec, entry)
    decreases entries
  {
    var all := entries + [entry];
    if entries == [] {
      assert all[1..] == [];
    } else {
      assert all[1..] == entries[1..] + [entry] && all[0] == entries[0];
      TextOfAppend(codec, entries[1..], entry);
      hide LineOf;
      assert (LineOf(codec, entries[0]) + TextOf(codec, entries[1..])) + LineOf(codec, entry)
          == LineOf(codec, entries[0]) + (TextOf(codec, entries[1..]) + LineOf(codec, entry));
    }
  }

  predicate Matches(filter: Filter, entry: Entry) {
    && (filter.kind != "" ==> entry.kind == filter.kind)
    && (filter.project != "" ==> entry.project == filter.project)
    && (filter.secret != "" ==> entry.secret == filter.secret)
    && (filter.inmate != "" ==> entry.inmate == filter.inmate)
  }

  function Matching(entries: seq<Entry>, filter: Filter): seq<Entry> {
    if entries == [] then []
    else (if Matches(filter, entries[0]) then [entries[0]] else []) + Matching(entries[1..], filter)
  }

  lemma {:induction false} MatchingConcat(s: seq<Entry>, t: seq<Entry>, filter: Filter)
    ensures Matching(s + t, filter) == Matching(s, filter) + Matching(t, filter)
    decreases s
  {
    hide Matches;
    if s == [] {
      assert s + t == t;
    } else {
      assert (s + t)[1..] == s[1..] + t && (s + t)[0] == s[0];
      MatchingConcat(s[1..], t, filter);
    }
  }

  function LastOf(entries: seq<Entry>, limit: int): seq<Entry> {
    if 0 < limit < |entries| then entries[|entries| - limit..] else entries
  }

  // All entries of some files, the newest file first in the list.
  function Flatten(files: seq<seq<Entry>>): seq<Entry> {
    if files == [] then [] else Flatten(files[1..]) + files[0]
  }

  // What reading the lines of a text selects.
  function Selected(codec: Codec, text: string, filter: Filter): seq<Entry>
    decreases |text|
  {
    if text == "" then []
    else
      var i := IndexOf(text, '\n');
      var line := if i < |text| then text[..i + 1] else text;
      var rest := text[|line|..];
      var entry := if |line| <= MAX_LINE_BYTES then codec.decode(line) else None;
      (if entry.Some? && Matches(filter, entry.value) then [entry.value] else []) + Selected(codec, rest, filter)
  }

  // The entries whose lines are not too long to be read.
  function Readable(codec: Codec, entries: seq<Entry>): seq<Entry> {
    if entries == [] then []
    else (if |LineOf(codec, entries[0])| <= MAX_LINE_BYTES then [entries[0]] else []) + Readable(codec, entries[1..])
  }

  lemma {:induction false} ReadableConcat(codec: Codec, s: seq<Entry>, t: seq<Entry>)
    ensures Readable(codec, s + t) == Readable(codec, s) + Readable(codec, t)
    decreases s
  {
    hide LineOf;
    if s == [] {
      assert s + t == t;
    } else {
      assert (s + t)[1..] == s[1..] + t && (s + t)[0] == s[0];
      ReadableConcat(codec, s[1..], t);
    }
  }

  // Without lines that are too long, all entries are readable.
  lemma {:induction false} ShortLinesAreReadable(codec: Codec, entries: seq<Entry>)
    ensures Readable(codec, entries) == entries <==> forall e :: e in entries ==> |LineOf(codec, e)| <= MAX_LINE_BYTES
    ensures |Readable(codec, entries)| <= |entries|
    decreases entries
  {
    hide LineOf;
    if entries != [] {
      ShortLinesAreReadable(codec, entries[1..]);
      var rest := Readable(codec, entries[1..]);
      assert forall e :: e in entries <==> e == entries[0] || e in entries[1..];
      if |LineOf(codec, entries[0])| <= MAX_LINE_BYTES {
        assert ([entries[0]] + rest)[1..] == rest;
      } else {
        assert entries[0] in entries;
      }
    }
  }

  // Reading back written entries selects the matching ones that are readable.
  lemma {:induction false} WrittenIsSelected(codec: Codec, entries: seq<Entry>, filter: Filter)
    requires GoodCodec(codec)
    ensures Selected(codec, TextOf(codec, entries), filter) == Matching(Readable(codec, entries), filter)
    decreases entries
  {
    if entries != [] {
      var line, rest := LineOf(codec, entries[0]), TextOf(codec, entries[1..]);
      IndexOfFirst(codec.encode(entries[0]), '\n', "\n" + rest);
      assert line + rest == codec.encode(entries[0]) + ("\n" + rest);
      var text := line + rest;
      assert text[..|line|] == line && text[|line|..] == rest;
      WrittenIsSelected(codec, entries[1..], filter);
      hide Matches, Matching, LineOf, TextOf;
      SelectedStep(codec, text, filter, line, rest, entries[0]);
      MatchingStep(codec, entries, filter);
      TextStep(codec, entries);
    }
  }

  lemma SelectedStep(codec: Codec, text: string, filter: Filter, line: string, rest: string, entry: Entry)
    requires text != "" && IndexOf(text, '\n') + 1 == |line| <= |text|
    requires text[..|line|] == line && text[|line|..] == rest && codec.decode(line) == Some(entry)
    ensures Selected(codec, text, filter) ==
            (if |line| <= MAX_LINE_BYTES && Matches(filter, entry) then [entry] else []) + Selected(codec, rest, filter)
  {
  }

  lemma MatchingStep(codec: Codec, entries: seq<Entry>, filter: Filter)
    requires entries != []
    ensures Matching(Readable(codec, entries), filter) ==
            (if |LineOf(codec, entries[0])| <= MAX_LINE_BYTES && Matches(filter, entries[0]) then [entries[0]] else [])
            + Matching(Readable(codec, entries[1..]), filter)
  {
    var first := if |LineOf(codec, entries[0])| <= MAX_LINE_BYTES then [entries[0]] else [];
    MatchingConcat(first, Readable(codec, entries[1..]), filter);
    assert first != [] ==> first[1..] == [];
  }

  lemma TextStep(codec: Codec, entries: seq<Entry>)
    requires entries != []
    ensures TextOf(codec, entries) == LineOf(codec, entries[0]) + TextOf(codec, entries[1..])
  {
  }

  // The files hold these entries, and no other file is there.
  ghost predicate Holds(codec: Codec, disk: Files, files: seq<seq<Entry>>) {
    forall n: nat :: if n < |files| then n in disk && disk[n] == TextOf(codec, files[n]) else n !in disk
  }

  // A new file was begun because its first line did not fit into the older one.
  ghost predicate Begun(codec: Codec, older: seq<Entry>, newer: seq<Entry>, maxBytes: int) {
    older != [] && newer != [] && |TextOf(codec, older)| + |LineOf(codec, newer[0])| > maxBytes
  }

  // Each file is within the limit or holds one line, and none was begun early.
  ghost predicate WellFilled(codec: Codec, files: seq<seq<Entry>>, maxBytes: int) {
    && (forall n :: 0 <= n < |files| ==> |TextOf(codec, files[n])| <= maxBytes || |files[n]| == 1)
    && (forall m, n :: 0 <= m < |files| && n == m + 1 < |files| ==> Begun(codec, files[n], files[m], maxBytes))
  }

  // The log is the end of all that was written, and all of it while there is
  // room for another file.
  ghost predicate Retains(files: seq<seq<Entry>>, history: seq<Entry>, keep: nat) {
    && |Flatten(files)| <= |history| && history[|history| - |Flatten(files)|..] == Flatten(files)
    && (|files| <= keep ==> Flatten(files) == history)
  }

  lemma {:induction false} FlattenFirst(files: seq<seq<Entry>>, k: nat)
    requires k <= |files|
    ensures Flatten(files) == Flatten(files[k..]) + Flatten(files[..k])
    decreases files
  {
    if k == 0 {
      assert files[0..] == files;
    } else {
      FlattenFirst(files[1..], k - 1);
      assert files[1..][k - 1..] == files[k..];
      assert files[..k][1..] == files[1..][..k - 1] && files[..k][0] == files[0];
    }
  }

  function Rotated(files: seq<seq<Entry>>, keep: nat): seq<seq<Entry>> {
    [[]] + if |files| <= keep then files else files[..keep]
  }

  lemma RotatedRetains(files: seq<seq<Entry>>, history: seq<Entry>, keep: nat)
    requires Retains(files, history, keep) && |files| <= keep + 1
    ensures Retains(Rotated(files, keep), history, keep) && |Rotated(files, keep)| <= keep + 1
  {
    var rotated := Rotated(files, keep);
    assert rotated[1..] == if |files| <= keep then files else files[..keep];
    assert Flatten(rotated) == Flatten(rotated[1..]);
    if |files| > keep {
      FlattenFirst(files, keep);
      hide Flatten;
      var all, kept := Flatten(files), Flatten(files[..keep]);
      assert history[|history| - |kept|..] == history[|history| - |all|..][|all| - |kept|..] == kept;
    }
  }

  lemma WrittenRetains(files: seq<seq<Entry>>, history: seq<Entry>, keep: nat, entry: Entry)
    requires Retains(files, history, keep) && files != []
    ensures Retains(files[0 := files[0] + [entry]], history + [entry], keep)
  {
    var written := files[0 := files[0] + [entry]];
    assert written[1..] == files[1..];
    assert Flatten(written) == Flatten(files) + [entry];
    var all := Flatten(files);
    assert (history + [entry])[|history| - |all|..] == history[|history| - |all|..] + [entry];
  }

  class Writer {
    const codec: Codec
    const maxBytes: int
    const keep: nat
    var disk: Files
    var isOpen: bool
    var size: int
    // The entries of each file, the newest file first, and all that was written.
    ghost var files: seq<seq<Entry>>
    ghost var history: seq<Entry>

    ghost predicate Valid()
      reads this
    {
      && GoodCodec(codec) && keep >= 1 && 1 <= |files| <= keep + 1
      && Holds(codec, disk, files) && WellFilled(codec, files, maxBytes) && Retains(files, history, keep)
      && (isOpen ==> size == |TextOf(codec, files[0])|)
    }

    // Starts a new log.
    constructor (codec: Codec, maxBytes: int, keep: int)
      requires GoodCodec(codec)
      ensures Valid() && isOpen && history == []
      ensures this.codec == codec && this.maxBytes == FileLimit(maxBytes)
      ensures this.keep == if keep <= 0 then 3 else keep
    {
      this.codec := codec;
      this.maxBytes := FileLimit(maxBytes);
      this.keep := if keep <= 0 then DEFAULT_KEEP else keep;
      disk, isOpen, size := map[0 := ""], true, 0;
      files, history := [[]], [];
      new;
      EmptyLog(codec, this.maxBytes, this.keep);
    }

    // Opens the current file, and creates it when it is missing.
    method Open()
      modifies this`disk, this`isOpen, this`size
      ensures isOpen && disk == (if 0 in old(disk) then old(disk) else old(disk)[0 := ""]) && size == |disk[0]|
    {
      if 0 !in disk {
        disk := disk[0 := ""];
      }
      isOpen := true;
      size := |disk[0]|;
    }

    method Reopen()
      requires Valid()
      modifies this`disk, this`isOpen, this`size
      ensures Valid() && isOpen
    {
      hide TextOf, WellFilled, Retains, GoodCodec;
      Open();
    }

    method Close()
      requires Valid()
      modifies this`isOpen
      ensures Valid() && !isOpen
    {
      hide TextOf, WellFilled, Retains, GoodCodec, Holds;
      isOpen := false;
    }

    // Appends an entry and starts a new file when its line does not fit. A
    // closed log takes no entries.
    method Write(entry: Entry) returns (ok: bool)
      requires Valid()
      modifies this`disk, this`isOpen, this`size, this`files, this`history
      ensures Valid() && ok == old(isOpen) == isOpen
      ensures history == if ok then old(history) + [entry] else old(history)
    {
      hide TextOf, LineOf, WellFilled, Retains, GoodCodec, Holds, Flatten;
      var line := LineOf(codec, entry);
      if !isOpen {
        return false;
      }
      ghost var before := files;
      HoldsCurrent(codec, disk, files);
      if size > 0 && size + |line| > maxBytes {
        ghost var d := disk;
        ShiftFiles();
        ghost var shifted := disk;
        Open();
        assert disk - {0} == shifted;
        files := Rotated(files, keep);
        HoldsRotated(codec, d, disk, before, keep);
        RotatedRetains(before, history, keep);
        RotatedIsFilled(codec, before, maxBytes, keep, entry);
      } else {
        WrittenIsFilled(codec, before, maxBytes, entry);
      }
      HoldsWritten(codec, disk, files, entry);
      WrittenRetains(files, history, keep, entry);
      disk := disk[0 := disk[0] + line];
      size := size + |line|;
      files := files[0 := files[0] + [entry]];
      history := history + [entry];
      ok := true;
    }

    // Removes the oldest file and renames the others, the oldest first.
    method ShiftFiles()
      requires keep >= 1 && 0 in disk
      modifies this`disk, this`isOpen
      ensures Shifted(old(disk), disk, keep)
    {
      hide SameFile, MovedUp;
      isOpen := false;
      ghost var d := disk;
      disk := disk - {keep};
      ShiftStarts(d, keep);
      var number := keep - 1;
      while number >= 1
        invariant 0 <= number < keep && Shifting(d, disk, number, keep)
      {
        hide Shifting;
        ShiftStep(d, disk, number, keep);
        if number in disk {
          disk := disk[number + 1 := disk[number]] - {number};
        }
        number := number - 1;
      }
      ShiftEnds(d, disk, keep);
      disk := disk[1 := disk[0]] - {0};
    }
  }

  lemma EmptyLog(codec: Codec, maxBytes: int, keep: nat)
    requires maxBytes >= 0
    ensures Holds(codec, map[0 := ""], [[]]) && WellFilled(codec, [[]], maxBytes) && Retains([[]], [], keep)
    ensures TextOf(codec, []) == ""
  {
    var files: seq<seq<Entry>> := [[]];
    assert files[0] == [] && TextOf(codec, files[0]) == "";
    assert files[1..] == [] && Flatten(files) == Flatten(files[1..]) + files[0] == [];
  }

  // The files down to a number are as they were, and the later ones moved up.
  ghost predicate Shifting(d: Files, disk: Files, number: nat, keep: nat) {
    && number + 1 !in disk
    && (forall n: nat :: n <= number ==> SameFile(disk, n, d))
    && (forall n: nat :: number + 1 < n <= keep ==> MovedUp(disk, n, d))
    && (forall n: nat :: n > keep ==> SameFile(disk, n, d))
  }

  lemma ShiftStarts(d: Files, keep: nat)
    requires keep >= 1
    ensures Shifting(d, d - {keep}, keep - 1, keep)
  {
  }

  lemma ShiftStep(d: Files, disk: Files, number: nat, keep: nat)
    requires 1 <= number < keep && Shifting(d, disk, number, keep)
    ensures var disk' := if number in disk then disk[number + 1 := disk[number]] - {number} else disk;
            Shifting(d, disk', number - 1, keep)
  {
    var disk' := if number in disk then disk[number + 1 := disk[number]] - {number} else disk;
    forall n: nat | n != number && n != number + 1
      ensures n in disk <==> n in disk'
      ensures n in disk ==> disk'[n] == disk[n]
    {
    }
    assert SameFile(disk, number, d);
    forall n: nat | n < number || n > keep
      ensures SameFile(disk', n, d)
    {
      assert SameFile(disk, n, d);
    }
    forall n: nat | number < n <= keep
      ensures MovedUp(disk', n, d)
    {
      assert n > number + 1 ==> MovedUp(disk, n, d);
    }
  }

  lemma ShiftEnds(d: Files, disk: Files, keep: nat)
    requires keep >= 1 && 0 in d && Shifting(d, disk, 0, keep)
    ensures 0 in disk && Shifted(d, disk[1 := disk[0]] - {0}, keep)
  {
    assert SameFile(disk, 0, d);
    var disk' := disk[1 := disk[0]] - {0};
    forall n: nat | n > keep
      ensures SameFile(disk', n, d)
    {
      assert SameFile(disk, n, d);
    }
    forall n: nat | 1 <= n <= keep
      ensures MovedUp(disk', n, d)
    {
      assert n > 1 ==> MovedUp(disk, n, d);
    }
  }

  ghost predicate SameFile(disk: Files, n: nat, d: Files) {
    if n in d then n in disk && disk[n] == d[n] else n !in disk
  }

  ghost predicate MovedUp(disk: Files, n: nat, d: Files) {
    n >= 1 && if n - 1 in d then n in disk && disk[n] == d[n - 1] else n !in disk
  }

  // Every file has the place of the next older one, and the oldest is gone.
  ghost predicate Shifted(d: Files, disk: Files, keep: nat) {
    && 0 !in disk
    && (forall n: nat :: 1 <= n <= keep ==> MovedUp(disk, n, d))
    && (forall n: nat :: n > keep ==> SameFile(disk, n, d))
  }

  lemma HoldsCurrent(codec: Codec, disk: Files, files: seq<seq<Entry>>)
    requires Holds(codec, disk, files) && files != []
    ensures 0 in disk && disk[0] == TextOf(codec, files[0])
  {
    hide TextOf;
  }

  lemma HoldsRotated(codec: Codec, d: Files, disk: Files, files: seq<seq<Entry>>, keep: nat)
    requires Holds(codec, d, files) && 1 <= |files| <= keep + 1 && keep >= 1
    requires 0 in disk && disk[0] == "" && Shifted(d, disk - {0}, keep)
    ensures Holds(codec, disk, Rotated(files, keep)) && Rotated(files, keep)[0] == []
  {
    var rotated := Rotated(files, keep);
    assert TextOf(codec, []) == "";
    hide TextOf;
    forall n: nat
      ensures if n < |rotated| then n in disk && disk[n] == TextOf(codec, rotated[n]) else n !in disk
    {
      assert n > 0 ==> (n in disk <==> n in disk - {0});
      if 1 <= n <= keep {
        assert MovedUp(disk - {0}, n, d);
        assert if n - 1 < |files| then n - 1 in d && d[n - 1] == TextOf(codec, files[n - 1]) else n - 1 !in d;
        assert n < |rotated| ==> rotated[n] == files[n - 1];
        assert n in disk ==> disk[n] == (disk - {0})[n];
      } else if n > keep {
        assert SameFile(disk - {0}, n, d);
        assert n !in d;
      }
    }
  }

  lemma HoldsWritten(codec: Codec, disk: Files, files: seq<seq<Entry>>, entry: Entry)
    requires Holds(codec, disk, files) && files != []
    ensures 0 in disk
    ensures Holds(codec, disk[0 := disk[0] + LineOf(codec, entry)], files[0 := files[0] + [entry]])
    ensures |TextOf(codec, files[0] + [entry])| == |disk[0]| + |LineOf(codec, entry)|
  {
    TextOfAppend(codec, files[0], entry);
    hide TextOf, LineOf;
    HoldsCurrent(codec, disk, files);
  }

  lemma NoTextNoEntries(codec: Codec, entries: seq<Entry>)
    ensures |TextOf(codec, entries)| == 0 <==> entries == []
  {
  }

  // A line that fits, or the first line of a file, keeps the files well filled.
  lemma WrittenIsFilled(codec: Codec, files: seq<seq<Entry>>, maxBytes: int, entry: Entry)
    requires WellFilled(codec, files, maxBytes) && files != []
    requires var size := |TextOf(codec, files[0])|; size == 0 || size + |LineOf(codec, entry)| <= maxBytes
    ensures WellFilled(codec, files[0 := files[0] + [entry]], maxBytes)
  {
    TextOfAppend(codec, files[0], entry);
    NoTextNoEntries(codec, files[0]);
    hide TextOf, LineOf;
    var written := files[0 := files[0] + [entry]];
    if |files| > 1 {
      assert Begun(codec, files[1], files[0], maxBytes);
      assert written[0][0] == files[0][0] && written[1] == files[1];
    }
    forall m, n | 0 <= m < |written| && n == m + 1 < |written|
      ensures Begun(codec, written[n], written[m], maxBytes)
    {
      if m > 0 {
        assert Begun(codec, files[n], files[m], maxBytes);
      }
    }
  }

  // A line that does not fit begins the next file.
  lemma RotatedIsFilled(codec: Codec, files: seq<seq<Entry>>, maxBytes: int, keep: nat, entry: Entry)
    requires WellFilled(codec, files, maxBytes) && files != [] && keep >= 1
    requires var size := |TextOf(codec, files[0])|; size > 0 && size + |LineOf(codec, entry)| > maxBytes
    ensures WellFilled(codec, Rotated(files, keep)[0 := Rotated(files, keep)[0] + [entry]], maxBytes)
  {
    NoTextNoEntries(codec, files[0]);
    hide TextOf, LineOf;
    var rotated := Rotated(files, keep);
    var written := rotated[0 := rotated[0] + [entry]];
    assert written[0] == [entry] && forall n :: 0 < n < |written| ==> written[n] == files[n - 1];
    forall m, n | 0 <= m < |written| && n == m + 1 < |written|
      ensures Begun(codec, written[n], written[m], maxBytes)
    {
      if m > 0 {
        assert Begun(codec, files[n - 1], files[m - 1], maxBytes);
      }
    }
  }

  // The names of the files to read, the oldest first.
  method ReadOrder(disk: Files) returns (order: seq<nat>)
    ensures |order| >= 1 && |order| <= MAX_ROTATED_FILES + 1
    ensures forall i :: 0 <= i < |order| ==> order[i] == |order| - 1 - i
    ensures forall n: nat :: 1 <= n < |order| ==> n in disk
    ensures |order| <= MAX_ROTATED_FILES ==> |order| !in disk
  {
    var rotated: nat := 0;
    while rotated < MAX_ROTATED_FILES && rotated + 1 in disk
      invariant rotated <= MAX_ROTATED_FILES && forall n: nat :: 1 <= n <= rotated ==> n in disk
    {
      rotated := rotated + 1;
    }
    order := [];
    var index := rotated;
    while index > 0
      invariant 0 <= index <= rotated && |order| == rotated - index
      invariant forall i :: 0 <= i < |order| ==> order[i] == rotated - i
    {
      order := order + [index];
      index := index - 1;
    }
    order := order + [0];
  }

  // Selects the matching entries of one file, line by line.
  method ReadFile(codec: Codec, text: string, filter: Filter) returns (matched: seq<Entry>)
    ensures matched == Selected(codec, text, filter)
  {
    matched := [];
    var rest := text;
    while rest != ""
      invariant Selected(codec, text, filter) == matched + Selected(codec, rest, filter)
      decreases |rest|
    {
      var i := IndexOf(rest, '\n');
      var line := if i < |rest| then rest[..i + 1] else rest;
      var entry := if |line| <= MAX_LINE_BYTES then codec.decode(line) else None;
      var found := if entry.Some? && Matches(filter, entry.value) then [entry.value] else [];
      var after := rest[|line|..];
      assert Selected(codec, rest, filter) == found + Selected(codec, after, filter);
      hide *;
      Regroup(matched, found, Selected(codec, after, filter));
      matched := matched + found;
      rest := after;
    }
  }

  lemma Regroup(s: seq<Entry>, t: seq<Entry>, u: seq<Entry>)
    ensures s + (t + u) == (s + t) + u
  {
  }

  // The files that are read: so many rotated ones at most, and the current one.
  ghost function FilesRead(files: seq<seq<Entry>>): (read: seq<seq<Entry>>)
    ensures read != []
  {
    if files == [] then [[]] else if |files| <= MAX_ROTATED_FILES then files else files[..MAX_ROTATED_FILES + 1]
  }

  // Reads the matching entries of the files, the oldest first.
  method Read(codec: Codec, disk: Files, filter: Filter, ghost files: seq<seq<Entry>>) returns (entries: seq<Entry>)
    requires GoodCodec(codec) && Holds(codec, disk, files)
    ensures entries == LastOf(Matching(Readable(codec, Flatten(FilesRead(files))), filter), filter.limit)
  {
    hide TextOf, Flatten, Matching, Selected, Readable, GoodCodec, Holds, FilesRead;
    var order := ReadOrder(disk);
    ghost var read := FilesRead(files);
    AllFilesAreRead(codec, disk, files, |order|);
    var matched := [];
    NothingMatches(codec, read, filter);
    for index := 0 to |order|
      invariant matched == Matching(Readable(codec, Flatten(read[|read| - index..])), filter)
    {
      var name := order[index];
      assert name == |read| - 1 - index;
      var found := [];
      if name in disk {
        found := ReadFile(codec, disk[name], filter);
      }
      assert found == Selected(codec, TextOf(codec, read[name]), filter) by {
        if name !in disk {
          NothingSelected(codec, filter);
        }
      }
      WrittenIsSelected(codec, read[name], filter);
      NextFile(codec, read, name, filter);
      matched := matched + found;
    }
    assert read[0..] == read;
    if filter.limit > 0 && |matched| > filter.limit {
      matched := matched[|matched| - filter.limit..];
    }
    entries := matched;
  }

  lemma NothingSelected(codec: Codec, filter: Filter)
    ensures Selected(codec, TextOf(codec, []), filter) == []
  {
  }

  lemma AllFilesAreRead(codec: Codec, disk: Files, files: seq<seq<Entry>>, count: nat)
    requires Holds(codec, disk, files) && 1 <= count <= MAX_ROTATED_FILES + 1
    requires forall n: nat :: 1 <= n < count ==> n in disk
    requires count <= MAX_ROTATED_FILES ==> count !in disk
    ensures count == |FilesRead(files)|
    ensures forall n: nat :: n < count ==>
      if n in disk then disk[n] == TextOf(codec, FilesRead(files)[n]) else FilesRead(files)[n] == []
  {
    hide TextOf;
    assert count < |files| ==> count in disk;
    assert 1 <= |files| < count ==> |files| !in disk;
    assert |files| == 0 && 1 < count ==> 1 !in disk;
  }

  lemma NothingMatches(codec: Codec, files: seq<seq<Entry>>, filter: Filter)
    ensures Matching(Readable(codec, Flatten(files[|files|..])), filter) == []
  {
    assert files[|files|..] == [];
  }

  lemma NextFile(codec: Codec, files: seq<seq<Entry>>, n: nat, filter: Filter)
    requires n < |files|
    ensures Matching(Readable(codec, Flatten(files[n..])), filter) ==
            Matching(Readable(codec, Flatten(files[n + 1..])), filter) + Matching(Readable(codec, files[n]), filter)
  {
    assert files[n..][1..] == files[n + 1..] && files[n..][0] == files[n];
    ReadableConcat(codec, Flatten(files[n + 1..]), files[n]);
    MatchingConcat(Readable(codec, Flatten(files[n + 1..])), Readable(codec, files[n]), filter);
  }

  // A call of the log, in any order.
  datatype Call = WriteEntry(entry: Entry) | ReopenLog | CloseLog

  // After any run of writes and reopenings reading returns the last matching
  // entries of an end of all that was written, in order. Only entries whose
  // lines are too long for the reader are left out.
  method WriteAndRead(codec: Codec, maxBytes: int, keep: int, calls: seq<Call>, filter: Filter)
      returns (entries: seq<Entry>)
    requires GoodCodec(codec)
    ensures exists retained ::
              && IsEnd(codec, Accepted(calls, true), FileLimit(maxBytes), retained)
              && entries == LastOf(Matching(Readable(codec, retained), filter), filter.limit)
  {
    hide Accepted, TextOf, LineOf, Flatten, Matching, Readable, Holds, WellFilled, Retains, GoodCodec, FilesRead, IsEnd;
    var writer := new Writer(codec, maxBytes, keep);
    assert calls[0..] == calls;
    Regroup([], [], Accepted(calls, true));
    for index := 0 to |calls|
      invariant fresh(writer) && writer.Valid() && writer.codec == codec
      invariant writer.maxBytes == FileLimit(maxBytes)
      invariant Accepted(calls, true) == writer.history + Accepted(calls[index..], writer.isOpen)
    {
      hide *;
      ghost var before := writer.history;
      AcceptedStep(calls, index, writer.isOpen);
      match calls[index] {
        case WriteEntry(entry) =>
          var ok := writer.Write(entry);
          Regroup(before, [entry], Accepted(calls[index + 1..], true));
          Regroup(before, [], Accepted(calls[index + 1..], false));
        case ReopenLog =>
          writer.Reopen();
        case CloseLog =>
          writer.Close();
      }
    }
    AllAccepted(calls, writer.isOpen);
    ReadIsEnd(codec, writer.files, writer.maxBytes, writer.history, writer.keep);
    entries := Read(codec, writer.disk, filter, writer.files);
    assert Accepted(calls, true) == writer.history;
    assert IsEnd(codec, Accepted(calls, true), writer.maxBytes, Flatten(FilesRead(writer.files)));
  }

  // These are the last entries of all, and either all of them or more than fit
  // into one file.
  ghost predicate IsEnd(codec: Codec, all: seq<Entry>, maxBytes: int, retained: seq<Entry>) {
    && |retained| <= |all| && all[|all| - |retained|..] == retained
    && (retained == all || |TextOf(codec, retained)| > maxBytes)
  }

  lemma {:induction false} TextOfConcat(codec: Codec, s: seq<Entry>, t: seq<Entry>)
    ensures |TextOf(codec, s + t)| == |TextOf(codec, s)| + |TextOf(codec, t)|
    decreases s
  {
    hide LineOf;
    if s == [] {
      assert s + t == t;
    } else {
      assert (s + t)[1..] == s[1..] + t && (s + t)[0] == s[0];
      TextOfConcat(codec, s[1..], t);
    }
  }

  // Two files hold more than fits into one.
  lemma TwoFilesAreFull(codec: Codec, files: seq<seq<Entry>>, maxBytes: int)
    requires |files| >= 2 && Begun(codec, files[1], files[0], maxBytes)
    ensures |TextOf(codec, Flatten(files))| > maxBytes
  {
    var front := Flatten(files[1..]);
    assert files[1..][1..] == files[2..];
    TextOfConcat(codec, front, files[0]);
    TextOfConcat(codec, Flatten(files[2..]), files[1]);
    TextOfConcat(codec, [files[0][0]], files[0][1..]);
    assert [files[0][0]] + files[0][1..] == files[0];
    TextOfOne(codec, files[0][0]);
    hide TextOf, LineOf;
  }

  // Nothing is dropped before more than a whole file of entries is kept.
  lemma DroppedMeansFull(codec: Codec, files: seq<seq<Entry>>, maxBytes: int, history: seq<Entry>, keep: nat)
    requires WellFilled(codec, files, maxBytes) && Retains(files, history, keep) && keep >= 1
    ensures Flatten(files) == history || |TextOf(codec, Flatten(files))| > maxBytes
  {
    hide TextOf, LineOf, Flatten;
    if |files| > keep {
      TwoFilesAreFull(codec, files, maxBytes);
    }
  }

  // What is read is an end of what was written, and all of it or more than one
  // file.
  lemma ReadIsEnd(codec: Codec, files: seq<seq<Entry>>, maxBytes: int, history: seq<Entry>, keep: nat)
    requires WellFilled(codec, files, maxBytes) && Retains(files, history, keep) && keep >= 1 && files != []
    ensures IsEnd(codec, history, maxBytes, Flatten(FilesRead(files)))
  {
    hide TextOf, LineOf;
    var n := |FilesRead(files)|;
    var all, read := Flatten(files), Flatten(FilesRead(files));
    if |files| <= MAX_ROTATED_FILES {
      DroppedMeansFull(codec, files, maxBytes, history, keep);
    } else {
      assert Begun(codec, files[1], files[0], maxBytes);
      TwoFilesAreFull(codec, files[..n], maxBytes);
      FlattenFirst(files, n);
      hide Flatten;
      assert history[|history| - |read|..] == history[|history| - |all|..][|all| - |read|..] == read;
    }
  }

  lemma TextOfOne(codec: Codec, entry: Entry)
    ensures TextOf(codec, [entry]) == LineOf(codec, entry)
  {
    assert [entry][1..] == [];
  }

  // The entries that a log takes: those that are written while it is open.
  ghost function Accepted(calls: seq<Call>, isOpen: bool): seq<Entry> {
    if calls == [] then []
    else
      match calls[0]
      case WriteEntry(entry) => (if isOpen then [entry] else []) + Accepted(calls[1..], isOpen)
      case ReopenLog => Accepted(calls[1..], true)
      case CloseLog => Accepted(calls[1..], false)
  }

  lemma AcceptedStep(calls: seq<Call>, i: nat, isOpen: bool)
    requires i < |calls|
    ensures Accepted(calls[i..], isOpen) ==
      match calls[i]
      case WriteEntry(entry) => (if isOpen then [entry] else []) + Accepted(calls[i + 1..], isOpen)
      case ReopenLog => Accepted(calls[i + 1..], true)
      case CloseLog => Accepted(calls[i + 1..], false)
  {
    assert calls[i..][1..] == calls[i + 1..] && calls[i..][0] == calls[i];
  }

  lemma AllAccepted(calls: seq<Call>, isOpen: bool)
    ensures Accepted(calls[|calls|..], isOpen) == []
  {
    assert calls[|calls|..] == [];
  }

  // The entry has the wanted value in one field, when one is wanted.
  predicate FieldFits(wanted: string, field: string) {
    wanted == "" || field == wanted
  }

  // Matching keeps exactly the entries that have every wanted value, in order.
  lemma {:induction false} MatchingMeans(entries: seq<Entry>, filter: Filter)
    ensures forall e :: e in Matching(entries, filter) <==>
      e in entries && FieldFits(filter.kind, e.kind) && FieldFits(filter.project, e.project)
      && FieldFits(filter.secret, e.secret) && FieldFits(filter.inmate, e.inmate)
    ensures (forall e :: e in entries ==>
               FieldFits(filter.kind, e.kind) && FieldFits(filter.project, e.project)
               && FieldFits(filter.secret, e.secret) && FieldFits(filter.inmate, e.inmate)) ==>
      Matching(entries, filter) == entries
    decreases entries
  {
    if entries != [] {
      MatchingMeans(entries[1..], filter);
      assert entries == [entries[0]] + entries[1..];
      assert forall e :: e in entries <==> e == entries[0] || e in entries[1..];
    }
  }

  // The last entries are an end of all: all of them without a limit, and else as
  // many as the limit allows.
  lemma LastOfMeans(entries: seq<Entry>, limit: int)
    ensures exists front :: entries == front + LastOf(entries, limit)
    ensures limit <= 0 ==> LastOf(entries, limit) == entries
    ensures limit > 0 ==> |LastOf(entries, limit)| == if limit < |entries| then limit else |entries|
  {
    var last := LastOf(entries, limit);
    assert entries == entries[..|entries| - |last|] + last;
  }

  // A file holds 16 MiB unless another limit is wanted, a line of up to 4 MiB is
  // read, and so are the current file and 64 rotated ones.
  lemma LimitsOfLog(codec: Codec, entry: Entry, files: seq<seq<Entry>>, maxBytes: int)
    ensures FileLimit(maxBytes) == if maxBytes <= 0 then 16777216 else maxBytes
    ensures Readable(codec, [entry]) == if |codec.encode(entry) + "\n"| <= 4194304 then [entry] else []
    ensures files != [] ==> FilesRead(files) == files[..if |files| < 65 then |files| else 65]
  {
    assert [entry][1..] == [] && files[..|files|] == files;
  }
}
