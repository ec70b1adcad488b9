// The stored text of a manifest, one line an entry, and how it is read back.
module ManifestText {
  import opened Wrappers
  import opened Text
  import opened Paths
  import opened Tree
  import opened Project
  import opened Manifest
  import opened Scan
  import Decimal

  // The permission bits of a mode.
  function Perm(mode: int): nat {
    mode % 0x200
  }

  function KindText(kind: Kind): string {
    match kind
    case KindFile => "file"
    case KindLink => "link"
    case KindDirectory => "dir"
  }

  function ParseKind(s: string): Option<Kind> {
    if s == "file" then Some(KindFile)
    else if s == "link" then Some(KindLink)
    else if s == "dir" then Some(KindDirectory)
    else None
  }

  function FormatMode(entry: Entry): string {
    Decimal.Format(if entry.kind.KindFile? then Perm(entry.mode) else 0)
  }

  function FormatLine(entry: Entry): string {
    KindText(entry.kind) + "\t" + (FormatMode(entry) + "\t" + (entry.digest + "\t" + entry.path))
  }

  function FormatLines(m: Manifest): string {
    if m == [] then "" else FormatLine(m[0]) + "\n" + FormatLines(m[1..])
  }

  lemma {:induction false} FormatLinesAppend(m: Manifest, entry: Entry)
    ensures FormatLines(m + [entry]) == FormatLines(m) + (FormatLine(entry) + "\n")
    decreases m
  {
    var n := m + [entry];
    if m == [] {
      assert n[1..] == [];
    } else {
      assert n[1..] == m[1..] + [entry] && n[0] == m[0];
      FormatLinesAppend(m[1..], entry);
      assert (FormatLine(m[0]) + "\n" + FormatLines(m[1..])) + (FormatLine(entry) + "\n")
          == FormatLine(m[0]) + "\n" + (FormatLines(m[1..]) + (FormatLine(entry) + "\n"));
    }
  }

  method FormatManifest(m: Manifest) returns (text: string)
    ensures text == FormatLines(m)
  {
    text := "";
    for index := 0 to |m|
      invariant text == FormatLines(m[..index])
    {
      var entry := m[index];
      FormatLinesAppend(m[..index], entry);
      assert m[..index + 1] == m[..index] + [entry];
      hide FormatLine, FormatLines;
      text := text + (FormatLine(entry) + "\n");
    }
    assert m[..|m|] == m;
  }

  // No prefix of the segments leads above the start.
  predicate StaysBelow(segments: seq<string>, depth: nat) {
    if segments == [] then true
    else if segments[0] == "" || segments[0] == "." then StaysBelow(segments[1..], depth)
    else if segments[0] == ".." then depth > 0 && StaysBelow(segments[1..], depth - 1)
    else StaysBelow(segments[1..], depth + 1)
  }

  predicate IsLocal(p: Path) {
    p != "" && p[0] != '/' && StaysBelow(Split(p, '/'), 0)
  }

  // At most n fields; the last one keeps the other separators.
  function SplitN(s: string, separator: char, n: nat): (fields: seq<string>)
    ensures |fields| >= 1
  {
    var i := IndexOf(s, separator);
    if n <= 1 || i == |s| then [s] else [s[..i]] + SplitN(s[i + 1..], separator, n - 1)
  }

  function TrimReturn(line: string): string {
    if line != "" && line[|line| - 1] == '\r' then line[..|line| - 1] else line
  }

  function ParseLine(line: string): Option<Entry> {
    var fields := SplitN(line, '\t', 4);
    if |fields| != 4 then None
    else
      match (ParseKind(fields[0]), Decimal.Atoi(fields[1]))
      case (Some(kind), Some(mode)) => if IsLocal(fields[3]) then Some(Entry(kind, Perm(mode), fields[2], fields[3]))
          else None
      case _ => None
  }

  // Empty lines are skipped, and any other bad line is an error.
  function ParseLines(lines: seq<string>): Option<Manifest> {
    if lines == [] then Some([])
    else
      var line := TrimReturn(lines[0]);
      if line == "" then ParseLines(lines[1..])
      else
        match ParseLine(line)
        case None => None
        case Some(entry) =>
          match ParseLines(lines[1..])
          case None => None
          case Some(rest) => Some([entry] + rest)
  }

  function Parse(text: string): Option<Manifest> {
    ParseLines(Split(text, '\n'))
  }

  function After(manifest: Manifest, rest: Option<Manifest>): Option<Manifest> {
    match rest
    case None => None
    case Some(entries) => Some(manifest + entries)
  }

  lemma ParseLinesStep(manifest: Manifest, lines: seq<string>, i: nat)
    requires i < |lines|
    ensures var line := TrimReturn(lines[i]);
            After(manifest, ParseLines(lines[i..])) ==
              if line == "" then After(manifest, ParseLines(lines[i + 1..]))
              else
                match ParseLine(line)
                case None => None
                case Some(entry) => After(manifest + [entry], ParseLines(lines[i + 1..]))
  {
    assert lines[i..][1..] == lines[i + 1..];
    hide ParseLine;
    var line := TrimReturn(lines[i]);
    match (ParseLine(line), ParseLines(lines[i + 1..])) {
      case (Some(entry), Some(rest)) =>
        assert manifest + ([entry] + rest) == (manifest + [entry]) + rest;
      case _ =>
    }
  }

  method ParseManifest(text: string) returns (parsed: Option<Manifest>)
    ensures parsed == Parse(text)
  {
    hide ParseLines, ParseLine, TrimReturn;
    var manifest: Manifest := [];
    var lines := Split(text, '\n');
    NothingBefore(lines);
    for number := 0 to |lines|
      invariant Parse(text) == After(manifest, ParseLines(lines[number..]))
    {
      ParseLinesStep(manifest, lines, number);
      var line := TrimReturn(lines[number]);
      if line == "" {
        continue;
      }
      match ParseLine(line) {
        case None =>
          return None;
        case Some(entry) =>
          manifest := manifest + [entry];
      }
    }
    NoLines(manifest, lines);
    parsed := Some(manifest);
  }

  lemma NothingBefore(lines: seq<string>)
    ensures After([], ParseLines(lines[0..])) == ParseLines(lines)
  {
    assert lines[0..] == lines;
    assert forall m: Manifest :: [] + m == m;
  }

  lemma NoLines(manifest: Manifest, lines: seq<string>)
    ensures After(manifest, ParseLines(lines[|lines|..])) == Some(manifest)
  {
    assert lines[|lines|..] == [];
    assert manifest + [] == manifest;
  }

  // The entry is what its own line reads back as.
  predicate Recordable(entry: Entry) {
    && (if entry.kind.KindFile? then entry.mode < 0x200 else entry.mode == 0)
    && '\t' !in entry.digest && '\n' !in entry.digest
    && '\n' !in entry.path && TrimReturn(entry.path) == entry.path && IsLocal(entry.path)
  }

  lemma {:induction false} SplitNField(field: string, rest: string, separator: char, n: nat)
    requires separator !in field && n >= 2
    ensures SplitN(field + ([separator] + rest), separator, n) == [field] + SplitN(rest, separator, n - 1)
  {
    var s := field + ([separator] + rest);
    IndexOfFirst(field, separator, [separator] + rest);
    assert s[..|field|] == field && s[|field| + 1..] == rest;
  }

  lemma LineHasFields(entry: Entry)
    requires '\t' !in entry.digest
    ensures SplitN(FormatLine(entry), '\t', 4) == [KindText(entry.kind), FormatMode(entry), entry.digest, entry.path]
    ensures '\n' !in entry.digest && '\n' !in entry.path ==> '\n' !in FormatLine(entry)
  {
    hide SplitN;
    var mode := FormatMode(entry);
    var fromDigest := entry.digest + ("\t" + entry.path);
    var fromMode := mode + ("\t" + fromDigest);
    assert FormatLine(entry) == KindText(entry.kind) + ("\t" + fromMode) by {
      assert entry.digest + "\t" + entry.path == fromDigest;
      assert mode + "\t" + fromDigest == fromMode;
      Regroup(KindText(entry.kind), "\t", mode, entry.digest, entry.path);
    }
    Decimal.FormatHasNo(if entry.kind.KindFile? then Perm(entry.mode) else 0, '\t');
    Decimal.FormatHasNo(if entry.kind.KindFile? then Perm(entry.mode) else 0, '\n');
    SplitNField(KindText(entry.kind), fromMode, '\t', 4);
    SplitNField(mode, fromDigest, '\t', 3);
    SplitNField(entry.digest, entry.path, '\t', 2);
    LastOfSplitN(entry.path, '\t');
  }

  lemma Regroup(kind: string, tab: string, mode: string, digest: string, path: string)
    ensures kind + tab + (mode + tab + (digest + tab + path)) == kind + (tab + (mode + (tab + (digest + (tab + path)))))
  {
    assert digest + tab + path == digest + (tab + path);
    assert mode + tab + (digest + (tab + path)) == mode + (tab + (digest + (tab + path)));
    var rest := mode + (tab + (digest + (tab + path)));
    assert kind + tab + rest == kind + (tab + rest);
  }

  lemma LastOfSplitN(s: string, separator: char)
    ensures SplitN(s, separator, 1) == [s]
  {
  }

  lemma TrimOfLine(entry: Entry)
    ensures TrimReturn(FormatLine(entry)) == FormatLine(entry.(path := TrimReturn(entry.path)))
    ensures TrimReturn(FormatLine(entry)) != ""
  {
    var before := KindText(entry.kind) + "\t" + (FormatMode(entry) + "\t" + entry.digest) + "\t";
    assert FormatLine(entry) == before + entry.path;
    assert FormatLine(entry.(path := TrimReturn(entry.path))) == before + TrimReturn(entry.path);
    if entry.path != "" && entry.path[|entry.path| - 1] == '\r' {
      assert (before + entry.path)[..|before + entry.path| - 1] == before + entry.path[..|entry.path| - 1];
    }
  }

  lemma KindReadsBack(kind: Kind)
    ensures ParseKind(KindText(kind)) == Some(kind)
  {
  }

  // What reading a line back makes of its entry.
  function ReadBack(entry: Entry): Entry {
    Entry(entry.kind, if entry.kind.KindFile? then Perm(entry.mode) else 0, entry.digest, TrimReturn(entry.path))
  }

  lemma FieldsReadBack(entry: Entry)
    requires '\t' !in entry.digest
    ensures ParseLine(FormatLine(entry)) == if !IsLocal(entry.path) then None
      else Some(Entry(entry.kind, if entry.kind.KindFile? then Perm(entry.mode) else 0, entry.digest, entry.path))
  {
    hide SplitN, ParseKind, KindText, Decimal.Format, Decimal.Atoi, FormatLine, IsLocal;
    LineHasFields(entry);
    KindReadsBack(entry.kind);
    Decimal.AtoiOfFormat(if entry.kind.KindFile? then Perm(entry.mode) else 0);
  }

  lemma LineReadsBack(entry: Entry)
    requires '\t' !in entry.digest
    ensures var line := TrimReturn(FormatLine(entry));
            && line != ""
            && ParseLine(line) == if IsLocal(TrimReturn(entry.path)) then Some(ReadBack(entry)) else None
  {
    TrimOfLine(entry);
    FieldsReadBack(entry.(path := TrimReturn(entry.path)));
    hide FormatLine, ParseLine, TrimReturn, IsLocal;
  }

  // No field of the entry breaks a line or a field.
  predicate Unbroken(entry: Entry) {
    '\t' !in entry.digest && '\n' !in entry.digest && '\n' !in entry.path
  }

  function ReadAllBack(m: Manifest): Option<Manifest> {
    if m == [] then Some([])
    else if !IsLocal(TrimReturn(m[0].path)) then None
    else
      match ReadAllBack(m[1..])
      case None => None
      case Some(rest) => Some([ReadBack(m[0])] + rest)
  }

  lemma {:induction false} TextReadsBack(m: Manifest)
    requires forall e :: e in m ==> Unbroken(e)
    ensures Parse(FormatLines(m)) == ReadAllBack(m)
    decreases m
  {
    if m == [] {
    } else {
      var line := FormatLine(m[0]);
      assert m[0] in m;
      LineHasFields(m[0]);
      LineReadsBack(m[0]);
      SplitAt(line, '\n', FormatLines(m[1..]));
      SplitOfField(line, '\n');
      assert ([line] + Split(FormatLines(m[1..]), '\n'))[1..] == Split(FormatLines(m[1..]), '\n');
      TextReadsBack(m[1..]);
      hide FormatLine, ParseLine, TrimReturn, IsLocal, Split, ReadBack;
    }
  }

  ghost predicate AllRecordable(m: Manifest) {
    forall e :: e in m ==> Recordable(e)
  }

  lemma FirstIsSame(e: Entry, rest: Manifest)
    ensures ReadAllBack([e] + rest) == Some([e] + rest) <==>
      IsLocal(TrimReturn(e.path)) && ReadBack(e) == e && ReadAllBack(rest) == Some(rest)
  {
    hide IsLocal, TrimReturn, ReadBack;
    var m := [e] + rest;
    assert m[0] == e && m[1..] == rest;
    match ReadAllBack(rest) {
      case None =>
      case Some(read) =>
        assert [ReadBack(e)] + read == [e] + rest ==>
               ([ReadBack(e)] + read)[0] == e && ([ReadBack(e)] + read)[1..] == rest;
    }
  }

  lemma EntryIsSame(e: Entry)
    requires Unbroken(e)
    ensures IsLocal(TrimReturn(e.path)) && ReadBack(e) == e <==> Recordable(e)
  {
    hide IsLocal, TrimReturn;
  }

  lemma FirstIsRecordable(e: Entry, rest: Manifest)
    ensures AllRecordable([e] + rest) <==> Recordable(e) && AllRecordable(rest)
  {
    hide Recordable;
    assert e in [e] + rest && forall x :: x in rest ==> x in [e] + rest;
  }

  lemma {:induction false} ReadBackIsSame(m: Manifest)
    requires forall e :: e in m ==> Unbroken(e)
    ensures ReadAllBack(m) == Some(m) <==> AllRecordable(m)
    decreases m
  {
    if m == [] {
    } else {
      var e, rest := m[0], m[1..];
      assert m == [e] + rest && e in m && forall x :: x in rest ==> x in m;
      hide ReadAllBack, AllRecordable, Unbroken;
      ReadBackIsSame(rest);
      FirstIsSame(e, rest);
      EntryIsSame(e);
      FirstIsRecordable(e, rest);
    }
  }

  ghost predicate AllWithout(fields: seq<string>, count: int, c: char) {
    forall k :: 0 <= k < |fields| && k < count ==> c !in fields[k]
  }

  lemma SplitNStep(s: string, separator: char, n: nat)
    ensures var i := IndexOf(s, separator);
            SplitN(s, separator, n) ==
            if n <= 1 || i == |s| then [s] else [s[..i]] + SplitN(s[i + 1..], separator, n - 1)
  {
    hide IndexOf;
  }

  lemma {:induction false} SplitNIsUnbroken(s: string, separator: char, n: nat, c: char)
    ensures var fields := SplitN(s, separator, n);
            AllWithout(fields, |fields| - 1, separator) && (c !in s ==> AllWithout(fields, |fields|, c))
    decreases n
  {
    hide IndexOf, AllWithout, SplitN;
    SplitNStep(s, separator, n);
    var i := IndexOf(s, separator);
    if !(n <= 1 || i == |s|) {
      IndexIsFirst(s, separator);
      if c !in s {
        InPart(s, i, c);
      }
      SplitNIsUnbroken(s[i + 1..], separator, n - 1, c);
      var rest := SplitN(s[i + 1..], separator, n - 1);
      assert SplitN(s, separator, n) == [s[..i]] + rest;
      hide *;
      PutFirst(s[..i], rest, |rest| - 1, separator);
      if c !in s {
        PutFirst(s[..i], rest, |rest|, c);
      }
    } else {
      OnlyField(s, separator, c);
    }
  }

  lemma OnlyField(s: string, separator: char, c: char)
    ensures AllWithout([s], 0, separator) && (c !in s ==> AllWithout([s], 1, c))
  {
  }

  lemma InPart(s: string, i: nat, c: char)
    requires i < |s| && c !in s
    ensures c !in s[..i] && c !in s[i + 1..]
  {
  }

  lemma PutFirst(field: string, rest: seq<string>, count: int, c: char)
    requires c !in field && AllWithout(rest, count, c)
    ensures AllWithout([field] + rest, count + 1, c)
  {
  }

  lemma ParsedLineIsUnbroken(line: string)
    requires '\n' !in line
    ensures ParseLine(line).Some? ==> Unbroken(ParseLine(line).value)
  {
    hide SplitN, ParseKind, Decimal.Atoi, IsLocal;
    SplitNIsUnbroken(line, '\t', 4, '\n');
    var fields := SplitN(line, '\t', 4);
    assert |fields| == 4 ==> '\t' !in fields[2] && '\n' !in fields[2] && '\n' !in fields[3];
  }

  lemma {:induction false} ParsedIsUnbroken(lines: seq<string>)
    requires forall line :: line in lines ==> '\n' !in line
    ensures ParseLines(lines).Some? ==> forall e :: e in ParseLines(lines).value ==> Unbroken(e)
    decreases lines
  {
    if lines != [] {
      ParsedIsUnbroken(lines[1..]);
      var line := TrimReturn(lines[0]);
      assert lines[0] in lines && forall c :: c in line ==> c in lines[0];
      ParsedLineIsUnbroken(line);
      hide ParseLine, Unbroken, TrimReturn, SplitN;
    }
  }

  // The stored text of a manifest reads back as the manifest if and only if
  // every entry has only the mode bits that are stored, a digest without a tab
  // or a line break, and a local path without a line break.
  lemma ManifestReadsBack(m: Manifest)
    ensures Parse(FormatLines(m)) == Some(m) <==> AllRecordable(m)
  {
    hide *;
    if forall e :: e in m ==> Unbroken(e) {
      TextReadsBack(m);
      ReadBackIsSame(m);
    } else {
      ParsedIsUnbroken(Split(FormatLines(m), '\n'));
      UnfoldParse(FormatLines(m));
      RecordableIsUnbroken(m);
    }
  }

  lemma UnfoldParse(text: string)
    ensures Parse(text) == ParseLines(Split(text, '\n'))
  {
  }

  lemma RecordableIsUnbroken(m: Manifest)
    requires !(forall e :: e in m ==> Unbroken(e))
    ensures !AllRecordable(m)
  {
  }

  // What a file system can hold: real names on the way to every node, and only
  // permission bits.
  ghost predicate RealTree(t: Tree) {
    forall p :: p in t ==>
        (forall name :: name in Split(p, '/') ==> name !in {"", ".", ".."}) && (t[p].File? ==> t[p].mode < 0x200)
  }

  // Digests are written in hexadecimal digits.
  ghost predicate PlainDigests(hash: Hash) {
    forall content :: '\t' !in hash(content) && '\n' !in hash(content)
  }

  lemma {:induction false} RealNamesStayBelow(segments: seq<string>, depth: nat)
    requires forall name :: name in segments ==> name !in {"", ".", ".."}
    ensures StaysBelow(segments, depth)
    decreases segments
  {
    if segments != [] {
      assert forall name :: name in segments[1..] ==> name in segments;
      RealNamesStayBelow(segments[1..], depth + 1);
      assert segments[0] in segments;
    }
  }

  lemma LeadingSlash(p: Path)
    ensures p == "" || p[0] == '/' ==> Split(p, '/')[0] == ""
  {
  }

  lemma RealPathIsLocal(p: Path)
    requires forall name :: name in Split(p, '/') ==> name !in {"", ".", ".."}
    ensures IsLocal(p)
  {
    RealNamesStayBelow(Split(p, '/'), 0);
    LeadingSlash(p);
    assert Split(p, '/')[0] in Split(p, '/');
  }

  lemma RealTreeIsProper(t: Tree)
    requires RealTree(t)
    ensures ProperPaths(t)
  {
    forall p | p in t
      ensures p != "" && p[0] != '/'
    {
      RealPathIsLocal(p);
    }
  }

  // Every manifest that a scan makes reads back from its text, with tabs in
  // its paths too.
  lemma ScansReadBack(t: Tree, rule: Rule, hash: Hash, m: Manifest)
    requires RealTree(t) && PlainDigests(hash) && IsScan(t, rule, hash, m)
    ensures Parse(FormatLines(m)) == Some(m)
  {
    forall e | e in m
      ensures Recordable(e)
    {
      ScannedIsRecordable(t, rule, hash, m, e);
    }
    hide *;
    AllAreRecordable(m);
    ManifestReadsBack(m);
  }

  lemma AllAreRecordable(m: Manifest)
    requires forall e :: e in m ==> Recordable(e)
    ensures AllRecordable(m)
  {
    hide Recordable;
  }

  lemma ScannedEntry(t: Tree, rule: Rule, hash: Hash, m: Manifest, e: Entry)
    requires IsScan(t, rule, hash, m) && e in m
    ensures e.path in t && e == EntryOf(e.path, t[e.path], hash) && !HasBreak(e.path)
  {
    var i :| 0 <= i < |m| && m[i] == e;
    assert e.path in PathSet(m) && OnTheWay(e.path, e.path) && !Hidden(t, rule, e.path);
  }

  lemma ScannedIsRecordable(t: Tree, rule: Rule, hash: Hash, m: Manifest, e: Entry)
    requires RealTree(t) && PlainDigests(hash) && IsScan(t, rule, hash, m) && e in m
    ensures Recordable(e)
  {
    ScannedEntry(t, rule, hash, m, e);
    RealPathIsLocal(e.path);
    hide IsLocal, Split, IsScan;
    NoReturn(e.path);
  }

  lemma NoReturn(p: Path)
    requires !HasBreak(p)
    ensures TrimReturn(p) == p && '\n' !in p
  {
  }

  // What a stored line looks like, field by field.
  ghost predicate IsLine(line: string, number: string, n: int, entry: Entry) {
    && line == (match entry.kind case KindFile => "file" case KindLink => "link" case KindDirectory => "dir")
               + ("\t" + (number + ("\t" + (entry.digest + ("\t" + entry.path)))))
    && '\t' !in number && '\t' !in entry.digest
    && Decimal.Atoi(number) == Some(n) && entry.mode == n % 512 && StaysInside(entry.path)
  }

  function Ups(segments: seq<string>): nat {
    if segments == [] then 0 else Ups(segments[..|segments| - 1]) + if segments[|segments| - 1] == ".." then 1 else 0
  }

  function Downs(segments: seq<string>): nat {
    if segments == [] then 0
    else Downs(segments[..|segments| - 1]) + if segments[|segments| - 1] in {"", ".", ".."} then 0 else 1
  }

  // The path is relative, and on no part of it there are more steps up than down.
  ghost predicate StaysInside(p: Path) {
    && p != "" && p[0] != '/'
    && forall k :: 0 <= k <= |Split(p, '/')| ==> Ups(Split(p, '/')[..k]) <= Downs(Split(p, '/')[..k])
  }

  ghost predicate NeverAbove(segments: seq<string>, depth: int) {
    forall k :: 0 <= k <= |segments| ==> Ups(segments[..k]) <= Downs(segments[..k]) + depth
  }

  lemma {:induction false} DepthMeans(segments: seq<string>, depth: nat)
    ensures StaysBelow(segments, depth) <==> NeverAbove(segments, depth)
    decreases segments
  {
    if segments != [] {
      var up, down := if segments[0] == ".." then 1 else 0, if segments[0] in {"", ".", ".."} then 0 else 1;
      OneStep(segments, depth, up, down);
      if depth + down >= up {
        DepthMeans(segments[1..], depth + down - up);
      }
      hide NeverAbove;
    } else {
      assert segments[..0] == [];
    }
  }

  lemma OneStep(segments: seq<string>, depth: nat, up: nat, down: nat)
    requires segments != [] && up == (if segments[0] == ".." then 1 else 0)
    requires down == if segments[0] in {"", ".", ".."} then 0 else 1
    ensures NeverAbove(segments, depth) <==> depth + down >= up && NeverAbove(segments[1..], depth + down - up)
  {
    var rest := segments[1..];
    forall k | 1 <= k <= |segments|
      ensures Ups(segments[..k]) == up + Ups(rest[..k - 1]) && Downs(segments[..k]) == down + Downs(rest[..k - 1])
    {
      StepsOfFirst(segments[..k]);
      assert segments[..k][1..] == rest[..k - 1];
    }
    hide Ups, Downs;
    if NeverAbove(segments, depth) {
      NothingYet(rest);
      assert Ups(segments[..1]) <= Downs(segments[..1]) + depth;
      forall k | 0 <= k <= |rest|
        ensures Ups(rest[..k]) <= Downs(rest[..k]) + depth + down - up
      {
        assert Ups(segments[..k + 1]) <= Downs(segments[..k + 1]) + depth;
      }
    }
    if NeverAbove(rest, depth + down - up) {
      NothingYet(segments);
      forall k | 1 <= k <= |segments|
        ensures Ups(segments[..k]) <= Downs(segments[..k]) + depth
      {
        assert Ups(rest[..k - 1]) <= Downs(rest[..k - 1]) + depth + down - up;
      }
    }
  }

  lemma NothingYet(segments: seq<string>)
    ensures Ups(segments[..0]) == 0 && Downs(segments[..0]) == 0
  {
  }

  lemma {:induction false} StepsOfFirst(segments: seq<string>)
    requires segments != []
    ensures Ups(segments) == (if segments[0] == ".." then 1 else 0) + Ups(segments[1..])
    ensures Downs(segments) == (if segments[0] in {"", ".", ".."} then 0 else 1) + Downs(segments[1..])
    decreases segments
  {
    var front := segments[..|segments| - 1];
    if front == [] {
      assert segments[1..] == [];
    } else {
      StepsOfFirst(front);
      assert segments[1..][..|segments| - 2] == front[1..];
    }
  }

  // Only paths that stay inside of the project are local.
  lemma LocalMeans(p: Path)
    ensures IsLocal(p) <==> StaysInside(p)
  {
    DepthMeans(Split(p, '/'), 0);
  }

  // The first field ends at the first separator.
  lemma FirstField(s: string, a: string, rest: seq<string>, n: nat)
    requires n >= 2 && rest != []
    ensures SplitN(s, '\t', n) == [a] + rest <==>
            '\t' !in a && |a| < |s| && s[..|a|] == a && s[|a|] == '\t' && SplitN(s[|a| + 1..], '\t', n - 1) == rest
  {
    var i := IndexOf(s, '\t');
    IndexIsFirst(s, '\t');
    if SplitN(s, '\t', n) == [a] + rest {
      assert SplitN(s, '\t', n)[0] == a && SplitN(s, '\t', n)[1..] == rest;
    }
    if '\t' !in a && |a| < |s| && s[..|a|] == a && s[|a|] == '\t' {
      var t := s[|a|..];
      assert s == a + t;
      IndexOfFirst(a, '\t', t);
    }
  }

  // Four fields are the text before each of three separators, and the rest.
  lemma FourFields(s: string, a: string, b: string, c: string, rest: string)
    ensures SplitN(s, '\t', 4) == [a, b, c, rest] <==>
            '\t' !in a && '\t' !in b && '\t' !in c && s == a + ("\t" + (b + ("\t" + (c + ("\t" + rest)))))
  {
    hide SplitN;
    var third := c + ("\t" + rest);
    var second := b + ("\t" + third);
    assert [a] + [b, c, rest] == [a, b, c, rest] && [b] + [c, rest] == [b, c, rest] && [c] + [rest] == [c, rest];
    FirstField(s, a, [b, c, rest], 4);
    CutsAt(s, a, second);
    if '\t' !in a && |a| < |s| && s[..|a|] == a && s[|a|] == '\t' {
      var s' := s[|a| + 1..];
      FirstField(s', b, [c, rest], 3);
      CutsAt(s', b, third);
      if '\t' !in b && |b| < |s'| && s'[..|b|] == b && s'[|b|] == '\t' {
        var s'' := s'[|b| + 1..];
        FirstField(s'', c, [rest], 2);
        CutsAt(s'', c, rest);
        LastOfSplitN(s''[if |c| + 1 <= |s''| then |c| + 1 else 0..], '\t');
      }
    }
  }

  lemma CutsAt(s: string, a: string, rest: string)
    ensures s == a + ("\t" + rest) <==>
            |a| < |s| && s[..|a|] == a && s[|a|] == '\t' && s[|a| + 1..] == rest
  {
    if |a| < |s| && s[..|a|] == a && s[|a|] == '\t' {
      assert s == a + ("\t" + s[|a| + 1..]);
    }
  }

  // The reader takes exactly the lines of this form.
  lemma LineMeans(line: string, entry: Entry)
    ensures ParseLine(line) == Some(entry) <==> exists number, n :: IsLine(line, number, n, entry)
  {
    hide SplitN, IsLocal, StaysInside, Decimal.Atoi;
    LocalMeans(entry.path);
    if number, n :| IsLine(line, number, n, entry) {
      FourFields(line, KindText(entry.kind), number, entry.digest, entry.path);
    }
    if ParseLine(line) == Some(entry) {
      var fields := SplitN(line, '\t', 4);
      assert fields == [fields[0], fields[1], fields[2], fields[3]];
      FourFields(line, fields[0], fields[1], fields[2], fields[3]);
      assert IsLine(line, fields[1], Decimal.Atoi(fields[1]).value, entry);
    }
  }

  // A line without one carriage return at its end.
  lemma ReturnIsDropped(line: string)
    ensures TrimReturn(line + "\r") == line
    ensures line == "" || line[|line| - 1] != '\r' ==> TrimReturn(line) == line
  {
    assert (line + "\r")[..|line|] == line;
  }

  // A text is read line by line, and a bad line is an error of the whole.
  lemma {:induction false} LinesInOrder(lines: seq<string>, more: seq<string>)
    ensures ParseLines(lines + more) ==
            if ParseLines(lines).Some? && ParseLines(more).Some? then
              Some(ParseLines(lines).value + ParseLines(more).value)
            else None
    decreases lines
  {
    hide ParseLine, TrimReturn;
    if lines == [] {
      assert lines + more == more;
      assert ParseLines(more).Some? ==> [] + ParseLines(more).value == ParseLines(more).value;
    } else {
      assert (lines + more)[0] == lines[0] && (lines + more)[1..] == lines[1..] + more;
      LinesInOrder(lines[1..], more);
      OneInFront(lines, more);
    }
  }

  lemma OneInFront(lines: seq<string>, more: seq<string>)
    requires lines != []
    ensures ParseLines(lines).Some? && ParseLines(lines[1..]).Some? && ParseLines(more).Some?
            && TrimReturn(lines[0]) != "" && ParseLine(TrimReturn(lines[0])).Some? ==>
      [ParseLine(TrimReturn(lines[0])).value] + (ParseLines(lines[1..]).value + ParseLines(more).value)
      == ParseLines(lines).value + ParseLines(more).value
  {
    hide ParseLine, TrimReturn;
  }

  lemma OneLine(line: string)
    ensures ParseLines([line]) ==
            if TrimReturn(line) == "" then Some([])
            else if ParseLine(TrimReturn(line)).Some? then Some([ParseLine(TrimReturn(line)).value])
            else None
  {
    hide ParseLine, TrimReturn;
    assert [line][1..] == [] && ParseLines([]) == Some([]);
    assert forall entry: Entry :: [entry] + [] == [entry];
  }

  // A line that leaves the project, or is no line of a manifest, makes the whole
  // text unreadable, so that a restore never takes what follows for all there is.
  lemma BadLineFails(text: string, i: nat)
    requires i < |Split(text, '\n')|
    requires var line := TrimReturn(Split(text, '\n')[i]);
             line != "" && forall entry, number, n :: !IsLine(line, number, n, entry)
    ensures Parse(text) == None
  {
    var lines := Split(text, '\n');
    var line := TrimReturn(lines[i]);
    if ParseLine(line).Some? {
      LineMeans(line, ParseLine(line).value);
    }
    BadLineIn(lines, i);
  }

  lemma {:induction false} BadLineIn(lines: seq<string>, i: nat)
    requires i < |lines| && TrimReturn(lines[i]) != "" && ParseLine(TrimReturn(lines[i])).None?
    ensures ParseLines(lines) == None
    decreases i
  {
    hide ParseLine, TrimReturn;
    if i > 0 {
      BadLineIn(lines[1..], i - 1);
    }
  }
}
