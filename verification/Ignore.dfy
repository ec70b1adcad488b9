// The ignore rules: which paths a scan leaves out. How one glob matches one
// text is a parameter.
module Ignore {
  import opened Paths
  import opened Project
  import opened Text

  type Glob = (string, string) -> bool

  datatype Pattern = Pattern(text: string, rooted: bool, directoryOnly: bool)

  const PARTIAL_GLOB := "*" + PARTIAL

  function TrimSlashes(s: string): (r: string)
    ensures r != "" ==> r[|r| - 1] != '/'
    ensures |r| <= |s| && r == s[..|r|] && forall i :: |r| <= i < |s| ==> s[i] == '/'
  {
    if s != "" && s[|s| - 1] == '/' then TrimSlashes(s[..|s| - 1]) else s
  }

  function PatternOf(pattern: string): Pattern {
    var cleaned := TrimSlashes(pattern);
    Pattern(cleaned, '/' in cleaned, pattern != "" && pattern[|pattern| - 1] == '/')
  }

  // A text is a pattern and the slashes behind it. The pattern is for the whole path
  // when it holds a slash itself, and for directories only when one follows it.
  lemma PatternOfText(text: string, slashes: string)
    requires text == "" || text[|text| - 1] != '/'
    requires forall i :: 0 <= i < |slashes| ==> slashes[i] == '/'
    ensures var pattern := PatternOf(text + slashes);
            && pattern.text == text && (pattern.rooted <==> exists i :: 0 <= i < |text| && text[i] == '/')
            && (pattern.directoryOnly <==> slashes != "")
  {
    SlashesGo(text, slashes);
    assert slashes != "" ==> (text + slashes)[|text + slashes| - 1] == slashes[|slashes| - 1];
    assert slashes == "" ==> text + slashes == text;
  }

  lemma {:induction false} SlashesGo(text: string, slashes: string)
    requires text == "" || text[|text| - 1] != '/'
    requires forall i :: 0 <= i < |slashes| ==> slashes[i] == '/'
    ensures TrimSlashes(text + slashes) == text
    decreases slashes
  {
    var all := text + slashes;
    if slashes == "" {
      assert all == text;
    } else {
      assert all[|all| - 1] == slashes[|slashes| - 1] && all[..|all| - 1] == text + slashes[..|slashes| - 1];
      SlashesGo(text, slashes[..|slashes| - 1]);
    }
  }

  // The patterns in use are those of the texts that hold more than slashes.
  ghost predicate Compiled(texts: seq<string>, patterns: seq<Pattern>) {
    forall pattern :: pattern in patterns <==>
      pattern.text != "" && exists i :: 0 <= i < |texts| && pattern == PatternOf(texts[i])
  }

  method NewIgnore(texts: seq<string>) returns (patterns: seq<Pattern>)
    ensures Compiled(texts, patterns)
  {
    patterns := [];
    for index := 0 to |texts|
      invariant forall pattern :: pattern in patterns <==>
        pattern.text != "" && exists i :: 0 <= i < index && pattern == PatternOf(texts[i])
    {
      var pattern := texts[index];
      var directoryOnly := pattern != "" && pattern[|pattern| - 1] == '/';
      var cleaned := TrimSlashes(pattern);
      if cleaned == "" {
        continue;
      }
      patterns := patterns + [Pattern(cleaned, '/' in cleaned, directoryOnly)];
    }
  }

  // A pattern with a slash matches the whole path or a directory above it. One
  // without matches any one segment. A directory pattern matches no file.
  ghost predicate PatternMatches(glob: Glob, pattern: Pattern, p: Path, isDirectory: bool) {
    && (pattern.directoryOnly ==> isDirectory)
    && if pattern.rooted then
         glob(pattern.text, p) || exists i :: 0 <= i < |p| && p[i] == '/' && glob(pattern.text, p[..i])
       else exists k :: 0 <= k < |Split(p, '/')| && glob(pattern.text, Split(p, '/')[k])
  }

  ghost predicate Ignored(glob: Glob, patterns: seq<Pattern>, p: Path, isDirectory: bool) {
    p != "" && exists k :: 0 <= k < |patterns| && PatternMatches(glob, patterns[k], p, isDirectory)
  }

  method Matches(glob: Glob, patterns: seq<Pattern>, p: Path, isDirectory: bool) returns (matched: bool)
    ensures matched <==> Ignored(glob, patterns, p, isDirectory)
  {
    if p == "" {
      return false;
    }
    var segments := Split(p, '/');
    for index := 0 to |patterns|
      invariant forall k :: 0 <= k < index ==> !PatternMatches(glob, patterns[k], p, isDirectory)
    {
      var pattern := patterns[index];
      if pattern.directoryOnly && !isDirectory {
        continue;
      }
      var found := MatchesPath(glob, pattern, p, segments);
      if found {
        assert PatternMatches(glob, patterns[index], p, isDirectory);
        return true;
      }
    }
    matched := false;
  }

  method MatchesPath(glob: Glob, pattern: Pattern, p: Path, segments: seq<string>) returns (matched: bool)
    requires segments == Split(p, '/')
    ensures matched <==> PatternMatches(glob, pattern, p, true)
  {
    if pattern.rooted {
      if glob(pattern.text, p) {
        return true;
      }
      for depth := 1 to |segments|
        invariant forall d :: 1 <= d < depth ==> !glob(pattern.text, Join(segments[..d], '/'))
      {
        if glob(pattern.text, Join(segments[..depth], '/')) {
          JoinOfFirst(p, '/', depth);
          return true;
        }
      }
      forall i | 0 <= i < |p| && p[i] == '/'
        ensures !glob(pattern.text, p[..i])
      {
        var depth := FirstOfJoin(p, '/', i);
      }
      return false;
    }
    for k := 0 to |segments|
      invariant forall d :: 0 <= d < k ==> !glob(pattern.text, segments[d])
    {
      if glob(pattern.text, segments[k]) {
        return true;
      }
    }
    matched := false;
  }

  // Being a directory never saves a path from the rules.
  lemma DirectoriesAreIgnoredToo(glob: Glob, patterns: seq<Pattern>, p: Path)
    requires Ignored(glob, patterns, p, false)
    ensures Ignored(glob, patterns, p, true)
  {
    var k :| 0 <= k < |patterns| && PatternMatches(glob, patterns[k], p, false);
    assert PatternMatches(glob, patterns[k], p, true);
  }

  // Whatever lies below an ignored path is ignored as that path is.
  lemma BelowIgnoredIsIgnored(glob: Glob, patterns: seq<Pattern>, a: Path, p: Path, isDirectory: bool)
    requires Ignored(glob, patterns, a, isDirectory) && Ancestor(a, p)
    ensures Ignored(glob, patterns, p, isDirectory)
  {
    var k :| 0 <= k < |patterns| && PatternMatches(glob, patterns[k], a, isDirectory);
    var pattern := patterns[k];
    if pattern.rooted {
      if glob(pattern.text, a) {
        assert p[|a|] == '/' && glob(pattern.text, p[..|a|]);
      } else {
        var i :| 0 <= i < |a| && a[i] == '/' && glob(pattern.text, a[..i]);
        assert p[..|a|][i] == p[i] && p[..|a|][..i] == p[..i];
      }
    } else {
      assert p == a + "/" + p[|a| + 1..];
      SplitAt(a, '/', p[|a| + 1..]);
      var j :| 0 <= j < |Split(a, '/')| && glob(pattern.text, Split(a, '/')[j]);
      assert Split(p, '/')[j] == Split(a, '/')[j];
    }
    assert PatternMatches(glob, pattern, p, isDirectory);
  }

  // A directory pattern leaves a file below the directory to the walk, which
  // does not enter the directory: the rule itself does not match the file.
  lemma DirectoryPatternsMissFiles(glob: Glob, patterns: seq<Pattern>, p: Path)
    requires forall pattern :: pattern in patterns ==> pattern.directoryOnly
    ensures !Ignored(glob, patterns, p, false)
  {
  }

  // The default pattern for temporary names is a star and their suffix.
  lemma PartialGlob()
    ensures PARTIAL_GLOB == "*.prison-partial"
  {
    assert |PARTIAL_GLOB| == |"*.prison-partial"|;
    assert PARTIAL_GLOB[0] == '*' && PARTIAL_GLOB[1..] == ".prison-partial";
  }

  // When the star glob matches every name with its suffix, the rules leave out
  // the temporary name of every path.
  lemma TemporariesAreIgnored(glob: Glob, texts: seq<string>, patterns: seq<Pattern>, p: Path, isDirectory: bool)
    requires Compiled(texts, patterns) && PARTIAL_GLOB in texts
    requires forall s :: '/' !in s ==> glob(PARTIAL_GLOB, s + PARTIAL)
    ensures Ignored(glob, patterns, Temporary(p), isDirectory)
  {
    var pattern := PatternOf(PARTIAL_GLOB);
    assert pattern == Pattern(PARTIAL_GLOB, false, false) && pattern in patterns;
    var k :| 0 <= k < |patterns| && patterns[k] == pattern;
    var last := |Split(p, '/')| - 1;
    assert '/' !in PARTIAL;
    LastFieldGrows(p, PARTIAL, '/');
    assert Split(p, '/')[last] in Split(p, '/');
    assert glob(PARTIAL_GLOB, Split(Temporary(p), '/')[last]);
    assert PatternMatches(glob, patterns[k], Temporary(p), isDirectory);
  }
}
