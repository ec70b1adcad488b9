// The egress patterns: parsing, printing, matching, and the list that the
// broker prints and the guest parses.
module Policy {
  import opened Wrappers
  import opened Text
  import Decimal

  datatype Pattern = Pattern(host: string, wildcard: bool, allPorts: bool, ports: seq<int>)

  const DEFAULT_PORTS: seq<int> := [80, 443]

  const HIGHEST_PORT: int := 65535

  predicate IsSpace(c: char) {
    c == ' ' || '\t' <= c <= '\r'
  }

  function TrimLeft(s: string): (r: string)
    ensures |r| <= |s| && r == s[|s| - |r|..]
  {
    if s != "" && IsSpace(s[0]) then TrimLeft(s[1..]) else s
  }

  function TrimRight(s: string): (r: string)
    ensures |r| <= |s| && r == s[..|r|]
  {
    if s != "" && IsSpace(s[|s| - 1]) then TrimRight(s[..|s| - 1]) else s
  }

  function TrimSpace(s: string): string {
    TrimRight(TrimLeft(s))
  }

  function Lower(c: char): char {
    if 'A' <= c <= 'Z' then c - 'A' + 'a' else c
  }

  function ToLower(s: string): (r: string)
    ensures |r| == |s| && forall i :: 0 <= i < |s| ==> r[i] == Lower(s[i])
  {
    if s == "" then "" else [Lower(s[0])] + ToLower(s[1..])
  }

  function TrimDot(s: string): string {
    if s != "" && s[|s| - 1] == '.' then s[..|s| - 1] else s
  }

  predicate IsRefused(c: char) {
    c == '/' || c == '@' || c == ' ' || c == '\t'
  }

  predicate HasPrefix(s: string, start: string) {
    |start| <= |s| && s[..|start|] == start
  }

  predicate HasSuffix(s: string, end: string) {
    |end| <= |s| && s[|s| - |end|..] == end
  }

  predicate GoodHost(host: string) {
    host != "" && '*' !in host && host[0] != '.' && host[|host| - 1] != '.'
  }

  // The host part of an entry, in lower case and without a dot at the end.
  function ParseHost(text: string): Option<(string, bool)> {
    var host := ToLower(TrimDot(text));
    var wildcard := HasPrefix(host, "*.");
    var name := if wildcard then host[2..] else host;
    if GoodHost(name) then Some((name, wildcard)) else None
  }

  function ParsePorts(portText: Option<string>): Option<(bool, seq<int>)> {
    match portText
    case None => Some((false, DEFAULT_PORTS))
    case Some(text) =>
      if text == "*" then Some((true, []))
      else
        match Decimal.Atoi(text)
        case Some(port) => if 1 <= port <= HIGHEST_PORT then Some((false, [port])) else None
        case None => None
  }

  function ParseEntry(entry: string): Option<Pattern> {
    var colon := IndexOf(entry, ':');
    var portText := if colon < |entry| then Some(entry[colon + 1..]) else None;
    if portText.Some? && ':' in portText.value then None
    else
      match (ParseHost(entry[..colon]), ParsePorts(portText))
      case (Some((host, wildcard)), Some((allPorts, ports))) => Some(Pattern(host, wildcard, allPorts, ports))
      case _ => None
  }

  function ParsePattern(text: string): Option<Pattern> {
    var entry := TrimSpace(text);
    if entry == "" || exists i :: 0 <= i < |entry| && IsRefused(entry[i]) then None else ParseEntry(entry)
  }

  function HostText(p: Pattern): string {
    if p.wildcard then "*." + p.host else p.host
  }

  function PortSuffix(p: Pattern): string {
    if p.allPorts then ":*"
    else if |p.ports| == 1 && p.ports != DEFAULT_PORTS then ":" + FormatInt(p.ports[0])
    else ""
  }

  function FormatInt(n: int): string {
    if n < 0 then "-" + Decimal.Format(-n) else Decimal.Format(n)
  }

  function String(p: Pattern): string {
    HostText(p) + PortSuffix(p)
  }

  // What parsing makes: a name in lower case without the characters that mean
  // something else, and all ports, the default ones or one port.
  ghost predicate Canonical(p: Pattern) {
    && GoodHost(p.host) && ToLower(p.host) == p.host
    && (forall i :: 0 <= i < |p.host| ==> !IsRefused(p.host[i]) && p.host[i] != ':')
    && (if p.allPorts then p.ports == []
        else p.ports == DEFAULT_PORTS || (|p.ports| == 1 && 1 <= p.ports[0] <= HIGHEST_PORT))
  }

  lemma {:induction false} ShortestDecimal(s: string)
    requires Decimal.IsDecimal(s)
    ensures |Decimal.Format(Decimal.Value(s))| <= |s|
    decreases s
  {
    if |s| > 1 {
      ShortestDecimal(s[..|s| - 1]);
    }
  }

  // No text of a pattern is shorter than the printed one.
  lemma ParsedIsCanonical(entry: string)
    requires ParseEntry(entry).Some? && forall i :: 0 <= i < |entry| ==> !IsRefused(entry[i])
    ensures Canonical(ParseEntry(entry).value) && |String(ParseEntry(entry).value)| <= |entry|
  {
    var colon := IndexOf(entry, ':');
    var p := ParseEntry(entry).value;
    IndexIsFirst(entry, ':');
    ParsedHost(entry[..colon]);
    if colon < |entry| {
      ParsedPort(entry[colon + 1..]);
    }
    hide ParseHost, ParsePorts, IsRefused, GoodHost, FormatInt, ToLower;
  }

  lemma ParsedHost(text: string)
    requires ParseHost(text).Some? && ':' !in text && forall i :: 0 <= i < |text| ==> !IsRefused(text[i])
    ensures var (host, wildcard) := ParseHost(text).value;
            && GoodHost(host) && ToLower(host) == host && |host| + (if wildcard then 2 else 0) <= |text|
            && forall i :: 0 <= i < |host| ==> !IsRefused(host[i]) && host[i] != ':'
  {
    var trimmed := TrimDot(text);
    var lower := ToLower(trimmed);
    assert forall i :: 0 <= i < |trimmed| ==> trimmed[i] == text[i];
    LowerIsClean(trimmed);
    var skip := if HasPrefix(lower, "*.") then 2 else 0;
    var host := ParseHost(text).value.0;
    assert host == lower[skip..];
    hide *;
    CleanSlice(lower, skip);
    AllLower(host);
  }

  // In lower case and without the characters that mean something else.
  ghost predicate IsName(s: string) {
    forall i :: 0 <= i < |s| ==> !IsRefused(s[i]) && s[i] != ':' && Lower(s[i]) == s[i]
  }

  lemma CleanSlice(s: string, k: nat)
    requires IsName(s) && k <= |s|
    ensures IsName(s[k..])
  {
    hide IsRefused, Lower;
  }

  lemma LowerIsClean(s: string)
    requires ':' !in s && forall i :: 0 <= i < |s| ==> !IsRefused(s[i])
    ensures IsName(ToLower(s))
  {
    hide Lower, IsRefused, ToLower;
    var lower := ToLower(s);
    forall i | 0 <= i < |lower|
      ensures !IsRefused(lower[i]) && lower[i] != ':' && Lower(lower[i]) == lower[i]
    {
      var c := s[i];
      assert c in s && lower[i] == Lower(c);
      LowerChar(c);
    }
  }

  lemma LowerChar(c: char)
    ensures Lower(Lower(c)) == Lower(c) && (IsRefused(Lower(c)) <==> IsRefused(c)) && (Lower(c) == ':' <==> c == ':')
  {
  }

  lemma AllLower(s: string)
    requires IsName(s)
    ensures ToLower(s) == s && forall i :: 0 <= i < |s| ==> !IsRefused(s[i]) && s[i] != ':'
  {
  }

  lemma ParsedPort(text: string)
    requires ParsePorts(Some(text)).Some?
    ensures var (allPorts, ports) := ParsePorts(Some(text)).value;
            if allPorts then text == "*" && ports == []
            else |ports| == 1 && 1 <= ports[0] <= HIGHEST_PORT && |FormatInt(ports[0])| <= |text|
  {
    if text != "*" {
      var signed := text != "" && (text[0] == '+' || text[0] == '-');
      var digits := if signed then text[1..] else text;
      ShortestDecimal(digits);
    }
  }

  lemma FormatIntReads(n: int)
    requires 1 <= n <= HIGHEST_PORT
    ensures Decimal.Atoi(FormatInt(n)) == Some(n) && FormatInt(n) != "*"
    ensures ':' !in FormatInt(n) && forall i :: 0 <= i < |FormatInt(n)| ==>
                                      !IsRefused(FormatInt(n)[i]) && !IsSpace(FormatInt(n)[i])
  {
    Decimal.AtoiOfFormat(n);
    Decimal.ValueOfFormat(n);
    assert forall i :: 0 <= i < |FormatInt(n)| ==> Decimal.IsDigit(FormatInt(n)[i]);
  }

  lemma HostReadsBack(p: Pattern)
    requires Canonical(p)
    ensures ParseHost(HostText(p)) == Some((p.host, p.wildcard))
  {
    var text := HostText(p);
    assert text[|text| - 1] == p.host[|p.host| - 1];
    assert TrimDot(text) == text;
    if p.wildcard {
      LowerOfWildcard(p.host);
      assert ("*." + p.host)[2..] == p.host && ("*." + p.host)[..2] == "*.";
    } else {
      NoStar(p.host);
    }
    hide ToLower, GoodHost, IsRefused;
  }

  lemma HostIsClean(p: Pattern)
    requires Canonical(p)
    ensures HostText(p) != "" && ':' !in HostText(p) && forall i :: 0 <= i < |HostText(p)| ==>
                                                          !IsRefused(HostText(p)[i])
  {
    hide GoodHost, ToLower;
    assert p.host != "" by { HostIsNotEmpty(p.host); }
    assert forall i :: 0 <= i < |"*."| ==> !IsRefused("*."[i]) && "*."[i] != ':';
  }

  lemma HostIsNotEmpty(host: string)
    requires GoodHost(host)
    ensures host != ""
  {
  }

  lemma LowerOfWildcard(host: string)
    ensures ToLower("*." + host) == "*." + ToLower(host)
  {
    var text := "*." + host;
    assert forall i :: 2 <= i < |text| ==> text[i] == host[i - 2];
  }

  lemma NoStar(host: string)
    requires '*' !in host
    ensures !HasPrefix(host, "*.")
  {
    if |host| >= 2 {
      assert host[0] in host && host[..2][0] == host[0];
    }
  }

  lemma PortsReadBack(p: Pattern)
    requires Canonical(p)
    ensures var suffix := PortSuffix(p);
            && (suffix == "" ==> ParsePorts(None) == Some((p.allPorts, p.ports)))
            && (suffix != "" ==>
                suffix[0] == ':' && ':' !in suffix[1..] && ParsePorts(Some(suffix[1..])) == Some((p.allPorts, p.ports)))
            && forall i :: 0 <= i < |suffix| ==> !IsRefused(suffix[i]) && !IsSpace(suffix[i])
  {
    if !p.allPorts && p.ports != DEFAULT_PORTS {
      FormatIntReads(p.ports[0]);
      assert (":" + FormatInt(p.ports[0]))[1..] == FormatInt(p.ports[0]);
      assert p.ports == [p.ports[0]];
      hide FormatInt, Decimal.Atoi;
    }
  }

  // The printed text of a canonical pattern parses to that pattern.
  lemma CanonicalReadsBack(p: Pattern)
    requires Canonical(p)
    ensures ParseEntry(String(p)) == Some(p)
    ensures String(p) != "" && forall i :: 0 <= i < |String(p)| ==> !IsRefused(String(p)[i])
  {
    hide Canonical, ParseHost, ParsePorts, IsRefused, HostText, PortSuffix;
    var text, suffix := HostText(p), PortSuffix(p);
    HostReadsBack(p);
    HostIsClean(p);
    PortsReadBack(p);
    var entry := text + suffix;
    if suffix == "" {
      IndexOfNone(entry, ':');
      assert entry == text && entry[..|entry|] == entry;
    } else {
      IndexOfFirst(text, ':', suffix);
      assert entry[..|text|] == text && entry[|text| + 1..] == suffix[1..];
    }
  }

  // A pattern parses back from its printed text if and only if it is canonical
  // and its printed text has no white space around it.
  lemma PatternReadsBack(p: Pattern)
    ensures ParsePattern(String(p)) == Some(p) <==> Canonical(p) && TrimSpace(String(p)) == String(p)
  {
    var entry := TrimSpace(String(p));
    assert |entry| <= |TrimLeft(String(p))| <= |String(p)|;
    hide Canonical, ParseEntry, IsRefused, String, TrimLeft, TrimRight;
    if ParsePattern(String(p)) == Some(p) {
      ParsedIsCanonical(entry);
      TrimKeepsAll(String(p));
    }
    if Canonical(p) && entry == String(p) {
      CanonicalReadsBack(p);
    }
  }

  lemma TrimKeepsAll(s: string)
    ensures |TrimSpace(s)| >= |s| ==> TrimSpace(s) == s
  {
  }

  // Parsing makes canonical patterns only.
  lemma ParsingIsCanonical(text: string)
    ensures ParsePattern(text).Some? ==> Canonical(ParsePattern(text).value)
  {
    if ParsePattern(text).Some? {
      ParsedIsCanonical(TrimSpace(text));
    }
  }

  // Canonical patterns with the same printed text are the same.
  lemma PrintedIsUnique(p: Pattern, q: Pattern)
    requires Canonical(p) && Canonical(q) && String(p) == String(q)
    ensures p == q
  {
    CanonicalReadsBack(p);
    CanonicalReadsBack(q);
  }

  // Other patterns can be told apart by their ports only, and then the list
  // keeps the first one alone.
  lemma SomePatternsPrintTheSame()
    ensures var p, q := Pattern("a", false, false, DEFAULT_PORTS), Pattern("a", false, false, [22, 25]);
            String(p) == String(q) && Opens(q, 22) && !Opens(p, 22)
  {
    var q := Pattern("a", false, false, [22, 25]);
    assert q.ports[0] == 22;
  }

  predicate MatchesPort(p: Pattern, port: int) {
    p.allPorts || port in p.ports
  }

  function NormalizeHost(host: string): string {
    ToLower(TrimDot(host))
  }

  predicate MatchesHost(p: Pattern, host: string) {
    var name := NormalizeHost(host);
    name == p.host || (p.wildcard && HasSuffix(name, "." + p.host))
  }

  // Letters in lower case, digits and the characters of a host name.
  predicate IsHostChar(c: char) {
    'a' <= c <= 'z' || '0' <= c <= '9' || c == '-' || c == '.' || c == '_'
  }

  ghost predicate HostName(host: string) {
    forall i :: 0 <= i < |host| ==> IsHostChar(host[i])
  }

  // Patterns over the characters of host names always parse back, and a line
  // of a list holds them whole.
  lemma HostNamesReadBack(p: Pattern)
    requires Canonical(p) && HostName(p.host)
    ensures ParsePattern(String(p)) == Some(p) && TrimSpace(String(p)) == String(p)
    ensures FitsLine(p) && '\n' !in String(p) && '#' !in String(p)
  {
    hide *;
    PrintedIsClean(p);
    CanonicalReadsBack(p);
    NothingToTrim(String(p));
    PatternReadsBack(p);
    HostIsPrinted(p);
  }

  // The printed pattern is one line of a list, without a comment sign in it or
  // white space around it.
  ghost predicate FitsLine(p: Pattern) {
    Canonical(p) && '\n' !in p.host && '#' !in p.host && TrimSpace(String(p)) == String(p)
  }

  lemma HostIsPrinted(p: Pattern)
    requires Canonical(p) && TrimSpace(String(p)) == String(p)
    ensures FitsLine(p) <==> '\n' !in String(p) && '#' !in String(p)
  {
    PortsReadBack(p);
    NoHash(p);
    assert IsSpace('\n');
    hide Canonical, IsRefused, TrimSpace, PortSuffix, IsSpace;
    forall c | c == '\n' || c == '#'
      ensures c in HostText(p) + PortSuffix(p) <==> c in p.host
    {
      InHostText(p, c);
      hide HostText;
    }
  }

  lemma InHostText(p: Pattern, c: char)
    requires c != '*' && c != '.'
    ensures c in HostText(p) <==> c in p.host
  {
    if p.wildcard && c in p.host {
      var i :| 0 <= i < |p.host| && p.host[i] == c;
      assert HostText(p)[i + 2] == c;
    }
  }

  ghost predicate Clean(s: string) {
    forall i :: 0 <= i < |s| ==> !IsSpace(s[i]) && s[i] != '#'
  }

  lemma CleanConcat(s: string, t: string)
    requires Clean(s) && Clean(t)
    ensures Clean(s + t)
  {
  }

  lemma PrintedIsClean(p: Pattern)
    requires Canonical(p) && HostName(p.host)
    ensures Clean(String(p))
  {
    HostHasNoSpace(p);
    PortsReadBack(p);
    NoHash(p);
    hide HostText, PortSuffix, Canonical, IsRefused, HostName, IsSpace;
    CleanConcat(HostText(p), PortSuffix(p));
  }

  lemma NothingToTrim(s: string)
    requires Clean(s)
    ensures TrimSpace(s) == s && '\n' !in s && '#' !in s
  {
    assert IsSpace('\n');
  }

  lemma HostHasNoSpace(p: Pattern)
    requires HostName(p.host)
    ensures forall i :: 0 <= i < |HostText(p)| ==> !IsSpace(HostText(p)[i]) && HostText(p)[i] != '#'
  {
  }

  lemma NoHash(p: Pattern)
    requires Canonical(p)
    ensures forall i :: 0 <= i < |PortSuffix(p)| ==> PortSuffix(p)[i] != '#'
  {
    if !p.allPorts && p.ports != DEFAULT_PORTS {
      FormatIntReads(p.ports[0]);
      Decimal.ValueOfFormat(p.ports[0]);
      assert forall i :: 0 <= i < |FormatInt(p.ports[0])| ==> Decimal.IsDigit(FormatInt(p.ports[0])[i]);
    }
  }

  // The patterns without those whose printed text came before, in order.
  function Unique(patterns: seq<Pattern>, seen: set<string>): seq<Pattern> {
    if patterns == [] then []
    else if String(patterns[0]) in seen then Unique(patterns[1..], seen)
    else [patterns[0]] + Unique(patterns[1..], seen + {String(patterns[0])})
  }

  function Concat(lists: seq<seq<Pattern>>): seq<Pattern> {
    if lists == [] then [] else lists[0] + Concat(lists[1..])
  }

  method NewAllowList(lists: seq<seq<Pattern>>) returns (list: seq<Pattern>)
    ensures list == Unique(Concat(lists), {})
  {
    var seen: set<string> := {};
    list := [];
    ghost var all := Concat(lists);
    for i := 0 to |lists|
      invariant Unique(all, {}) == list + Unique(Concat(lists[i..]), seen)
    {
      hide String, Unique;
      var patterns := lists[i];
      ghost var rest := Concat(lists[i + 1..]);
      assert lists[i..][0] == patterns && lists[i..][1..] == lists[i + 1..];
      assert patterns[0..] == patterns;
      for k := 0 to |patterns|
        invariant Unique(all, {}) == list + Unique(patterns[k..] + rest, seen)
      {
        var pattern := patterns[k];
        NextUnique(patterns, k, rest, seen, list);
        var key := String(pattern);
        if key in seen {
          continue;
        }
        seen := seen + {key};
        list := list + [pattern];
      }
      assert patterns[|patterns|..] + rest == rest;
    }
    assert Concat(lists[|lists|..]) == [];
  }

  lemma NextUnique(patterns: seq<Pattern>, k: nat, rest: seq<Pattern>, seen: set<string>, list: seq<Pattern>)
    requires k < |patterns|
    ensures var key := String(patterns[k]);
            list + Unique(patterns[k..] + rest, seen) ==
              if key in seen then list + Unique(patterns[k + 1..] + rest, seen)
              else list + [patterns[k]] + Unique(patterns[k + 1..] + rest, seen + {key})
  {
    hide String;
    var all := patterns[k..] + rest;
    assert all[0] == patterns[k] && all[1..] == patterns[k + 1..] + rest;
  }

  // In lower case, letter by letter.
  ghost predicate IsLowerOf(name: string, text: string) {
    |name| == |text| && forall i :: 0 <= i < |text| ==>
      name[i] as int == if 'A' <= text[i] <= 'Z' then text[i] as int + 32 else text[i] as int
  }

  // The host in lower case, without one dot at its end.
  ghost predicate IsNameOf(name: string, host: string) {
    exists base :: IsLowerOf(name, base)
      && (host == base + "." || (host == base && (base == "" || base[|base| - 1] != '.')))
  }

  // The pattern is for this name, or for a name that it is a domain of.
  ghost predicate Covers(p: Pattern, name: string) {
    name == p.host || (p.wildcard && exists sub: string :: name == sub + "." + p.host)
  }

  ghost predicate CoversHost(p: Pattern, host: string) {
    exists name :: IsNameOf(name, host) && Covers(p, name)
  }

  ghost predicate Opens(p: Pattern, port: int) {
    p.allPorts || exists k :: 0 <= k < |p.ports| && p.ports[k] == port
  }

  ghost predicate AllowedBy(patterns: seq<Pattern>, host: string, port: int) {
    exists i :: 0 <= i < |patterns| && CoversHost(patterns[i], host) && Opens(patterns[i], port)
  }

  ghost predicate KnownTo(patterns: seq<Pattern>, host: string) {
    exists i :: 0 <= i < |patterns| && CoversHost(patterns[i], host)
  }

  // A host has one name.
  lemma NameOfHost(host: string, name: string)
    ensures IsNameOf(name, host) <==> name == NormalizeHost(host)
  {
    hide ToLower;
    var base := TrimDot(host);
    LowerMeans(base, ToLower(base));
    assert IsNameOf(ToLower(base), host) by {
      assert base != host ==> host == base + ".";
    }
    if IsNameOf(name, host) {
      var b :| IsLowerOf(name, b) && (host == b + "." || (host == b && (b == "" || b[|b| - 1] != '.')));
      assert b == base;
      LowerMeans(base, name);
    }
  }

  lemma LowerMeans(text: string, name: string)
    ensures IsLowerOf(name, text) <==> name == ToLower(text)
  {
    hide ToLower;
    var lower := ToLower(text);
    forall i | 0 <= i < |text|
      ensures lower[i] as int == if 'A' <= text[i] <= 'Z' then text[i] as int + 32 else text[i] as int
    {
      LowerOfChar(text[i]);
    }
  }

  lemma LowerOfChar(c: char)
    ensures Lower(c) as int == if 'A' <= c <= 'Z' then c as int + 32 else c as int
  {
  }

  // A pattern matches a host exactly when it covers the name of the host.
  lemma MatchingIsCovering(p: Pattern, host: string, port: int)
    ensures MatchesHost(p, host) <==> CoversHost(p, host)
    ensures MatchesPort(p, port) <==> Opens(p, port)
  {
    var name := NormalizeHost(host);
    forall other
      ensures IsNameOf(other, host) <==> other == name
    {
      NameOfHost(host, other);
    }
    hide NormalizeHost, IsNameOf, Covers;
    SuffixIsEnd(p, name);
    assert IsNameOf(name, host);
  }

  lemma SuffixIsEnd(p: Pattern, name: string)
    ensures Covers(p, name) <==> name == p.host || (p.wildcard && HasSuffix(name, "." + p.host))
  {
    if HasSuffix(name, "." + p.host) {
      assert name == name[..|name| - |p.host| - 1] + "." + p.host;
    }
    if sub: string :| name == sub + "." + p.host {
      assert name == sub + ("." + p.host);
    }
  }

  // A wildcard covers no longer name that has another character than a dot before
  // the host of the pattern.
  lemma WildcardNeedsDot(p: Pattern, before: string, c: char)
    requires c != '.'
    ensures !Covers(p, before + [c] + p.host)
  {
    var name := before + [c] + p.host;
    forall sub: string
      ensures name != sub + "." + p.host
    {
      if |sub| == |before| {
        assert name[|before|] == c && (sub + "." + p.host)[|before|] == '.';
      }
    }
  }

  datatype Decision = Decision(allowed: bool, hostKnown: bool, suggested: string)

  // A request is allowed when some pattern covers the name of its host and opens
  // its port.
  method Allows(patterns: seq<Pattern>, host: string, port: int) returns (decision: Decision)
    ensures decision.allowed <==> AllowedBy(patterns, host, port)
    ensures decision.hostKnown <==> KnownTo(patterns, host)
    ensures decision.suggested == if decision.hostKnown && !decision.allowed then
            NormalizeHost(host) + ":" + FormatInt(port) else ""
  {
    hide MatchesHost, MatchesPort, CoversHost, Opens, NormalizeHost, FormatInt;
    var hostKnown := false;
    for i := 0 to |patterns|
      invariant hostKnown <==> exists k :: 0 <= k < i && CoversHost(patterns[k], host)
      invariant forall k :: 0 <= k < i ==> !(CoversHost(patterns[k], host) && Opens(patterns[k], port))
    {
      MatchingIsCovering(patterns[i], host, port);
      if !MatchesHost(patterns[i], host) {
        continue;
      }
      if MatchesPort(patterns[i], port) {
        return Decision(true, true, "");
      }
      hostKnown := true;
    }
    decision := Decision(false, hostKnown, if hostKnown then NormalizeHost(host) + ":" + FormatInt(port) else "");
  }

  method HostMatches(patterns: seq<Pattern>, host: string) returns (matches: bool)
    ensures matches <==> KnownTo(patterns, host)
  {
    hide MatchesHost, MatchesPort, CoversHost, Opens;
    for i := 0 to |patterns|
      invariant forall k :: 0 <= k < i ==> !CoversHost(patterns[k], host)
    {
      MatchingIsCovering(patterns[i], host, 0);
      if MatchesHost(patterns[i], host) {
        return true;
      }
    }
    matches := false;
  }

  // Two lists that say the same about every host and port.
  ghost predicate SayTheSame(s: seq<Pattern>, t: seq<Pattern>) {
    && (forall host, port :: AllowedBy(s, host, port) <==> AllowedBy(t, host, port))
    && (forall host :: KnownTo(s, host) <==> KnownTo(t, host))
  }

  ghost predicate AllCanonical(patterns: seq<Pattern>) {
    forall p :: p in patterns ==> Canonical(p)
  }

  lemma {:induction false} UniqueHasAll(patterns: seq<Pattern>, seen: set<string>)
    requires AllCanonical(patterns)
    ensures forall p :: p in Unique(patterns, seen) <==> p in patterns && String(p) !in seen
    ensures AllCanonical(Unique(patterns, seen))
    decreases patterns
  {
    if patterns != [] {
      var p, rest := patterns[0], patterns[1..];
      hide Canonical, String;
      assert patterns == [p] + rest;
      if String(p) in seen {
        UniqueHasAll(rest, seen);
      } else {
        UniqueHasAll(rest, seen + {String(p)});
        forall q | q in rest && String(q) == String(p)
          ensures q == p
        {
          PrintedIsUnique(p, q);
        }
      }
    }
  }

  lemma SameMembersSayTheSame(s: seq<Pattern>, t: seq<Pattern>)
    requires forall p :: p in s <==> p in t
    ensures SayTheSame(s, t)
  {
    hide CoversHost, Opens;
    forall i | 0 <= i < |s|
      ensures exists k :: 0 <= k < |t| && t[k] == s[i]
    {
      assert s[i] in t;
    }
    forall i | 0 <= i < |t|
      ensures exists k :: 0 <= k < |s| && s[k] == t[i]
    {
      assert t[i] in s;
    }
    forall host, port
      ensures AllowedBy(s, host, port) <==> AllowedBy(t, host, port)
      ensures KnownTo(s, host) <==> KnownTo(t, host)
    {
    }
  }

  // One line of a list without its comment and the white space around it.
  function LineText(line: string): string {
    TrimSpace(line[..IndexOf(line, '#')])
  }

  function ParseLines(lines: seq<string>): Option<seq<Pattern>> {
    if lines == [] then Some([])
    else if LineText(lines[0]) == "" then ParseLines(lines[1..])
    else
      match (ParsePattern(LineText(lines[0])), ParseLines(lines[1..]))
      case (Some(pattern), Some(rest)) => Some([pattern] + rest)
      case _ => None
  }

  function Joined(patterns: seq<Pattern>, rest: Option<seq<Pattern>>): Option<seq<Pattern>> {
    match rest
    case None => None
    case Some(more) => Some(patterns + more)
  }

  // Empty lines and comments are skipped, and any other bad line is an error.
  method ParseList(text: string) returns (patterns: Option<seq<Pattern>>)
    ensures patterns == ParseLines(Split(text, '\n'))
  {
    hide Split, LineText, ParsePattern;
    var lines := Split(text, '\n');
    var found: seq<Pattern> := [];
    assert lines[0..] == lines;
    NothingJoined(ParseLines(lines));
    for i := 0 to |lines|
      invariant ParseLines(lines) == Joined(found, ParseLines(lines[i..]))
    {
      hide LineText, ParsePattern, ParseLines;
      NextLine(found, lines, i);
      var line := LineText(lines[i]);
      if line == "" {
        continue;
      }
      var pattern := ParsePattern(line);
      if pattern.None? {
        return None;
      }
      found := found + [pattern.value];
    }
    assert lines[|lines|..] == [] && found + [] == found;
    patterns := Some(found);
  }

  lemma NothingJoined(rest: Option<seq<Pattern>>)
    ensures Joined([], rest) == rest
  {
    assert forall s: seq<Pattern> :: [] + s == s;
  }

  lemma NextLine(found: seq<Pattern>, lines: seq<string>, i: nat)
    requires i < |lines|
    ensures Joined(found, ParseLines(lines[i..])) ==
      if LineText(lines[i]) == "" then Joined(found, ParseLines(lines[i + 1..]))
      else
        match ParsePattern(LineText(lines[i]))
        case None => None
        case Some(pattern) => Joined(found + [pattern], ParseLines(lines[i + 1..]))
  {
    hide LineText, ParsePattern;
    assert lines[i..][0] == lines[i] && lines[i..][1..] == lines[i + 1..];
    assert forall p: Pattern, s: seq<Pattern> :: found + ([p] + s) == (found + [p]) + s;
  }

  // The printed list: one line a pattern.
  function Print(patterns: seq<Pattern>): string {
    if patterns == [] then "" else String(patterns[0]) + "\n" + Print(patterns[1..])
  }

  ghost predicate AllFit(patterns: seq<Pattern>) {
    forall p :: p in patterns ==> FitsLine(p)
  }

  lemma EmptyListReadsBack(patterns: seq<Pattern>)
    requires patterns == []
    ensures ParseLines(Split(Print(patterns), '\n')) == Some(patterns)
  {
    var lines := Split("", '\n');
    assert lines == [""] && lines[1..] == [];
    assert LineText("") == "";
    hide ParsePattern, LineText, Split;
  }

  // The length of all printed texts with their line breaks.
  function Size(patterns: seq<Pattern>): nat {
    if patterns == [] then 0 else |String(patterns[0])| + 1 + Size(patterns[1..])
  }

  function TextSize(lines: seq<string>): nat {
    if lines == [] then 0 else |lines[0]| + 1 + TextSize(lines[1..])
  }

  lemma {:induction false} SplitSize(s: string)
    ensures TextSize(Split(s, '\n')) == |s| + 1
    decreases s
  {
    if s == "" {
      assert Split(s, '\n')[1..] == [];
    } else {
      SplitSize(s[1..]);
      var rest := Split(s[1..], '\n');
      assert Split(s, '\n')[1..] == if s[0] == '\n' then rest else rest[1..];
    }
  }

  lemma {:induction false} PrintSize(patterns: seq<Pattern>)
    ensures |Print(patterns)| == Size(patterns)
    ensures var lines := Split(Print(patterns), '\n'); lines[|lines| - 1] == ""
    decreases patterns
  {
    hide String;
    if patterns != [] {
      PrintSize(patterns[1..]);
      SplitAt(String(patterns[0]), '\n', Print(patterns[1..]));
    }
  }

  // Reading a line makes no pattern that prints longer, or on two lines.
  lemma LineSize(line: string)
    requires ParsePattern(LineText(line)).Some?
    ensures var p := ParsePattern(LineText(line)).value;
            && Canonical(p) && |String(p)| <= |LineText(line)| <= |line|
            && ('\n' !in line ==> '\n' !in p.host)
            && (String(p) == line ==> '#' !in line && TrimSpace(line) == line)
  {
    hide *;
    EntrySize(LineText(line));
    LineIsCut(line);
  }

  lemma LineIsCut(line: string)
    ensures |LineText(line)| <= |line| && forall c :: c in LineText(line) ==> c in line
    ensures |LineText(line)| == |line| ==> '#' !in line && TrimSpace(line) == line
  {
    var front := line[..IndexOf(line, '#')];
    IndexIsFirst(line, '#');
    TrimKeepsAll(front);
    TrimIsPart(front);
    assert |front| == |line| ==> front == line;
    hide TrimSpace, IndexOf;
  }

  lemma EntrySize(text: string)
    requires ParsePattern(text).Some?
    ensures var p := ParsePattern(text).value;
            Canonical(p) && |String(p)| <= |text| && ('\n' !in text ==> '\n' !in p.host)
  {
    var entry := TrimSpace(text);
    ParsedIsCanonical(entry);
    TrimIsPart(text);
    NoNewBreak(entry);
    hide Canonical, ParseEntry, String, TrimSpace, IsRefused;
  }

  // Trimming makes no new characters.
  lemma TrimIsPart(s: string)
    ensures |TrimSpace(s)| <= |s| && forall c :: c in TrimSpace(s) ==> c in s
  {
    var left := TrimLeft(s);
    hide TrimLeft, TrimRight;
    assert forall i :: 0 <= i < |left| ==> left[i] == s[|s| - |left| + i];
  }

  lemma NoNewBreak(entry: string)
    requires ParseEntry(entry).Some?
    ensures '\n' !in entry ==> '\n' !in ParseEntry(entry).value.host
  {
    HostOfText(entry[..IndexOf(entry, ':')]);
    hide ParseHost, ParsePorts;
  }

  lemma HostOfText(text: string)
    requires ParseHost(text).Some?
    ensures '\n' !in text ==> '\n' !in ParseHost(text).value.0
  {
    hide GoodHost, ToLower;
    var name := TrimDot(text);
    var host := ParseHost(text).value.0;
    assert host == ToLower(name)[|name| - |host|..];
    hide ParseHost;
    BreakStays(name, |name| - |host|);
    assert forall i :: 0 <= i < |name| ==> name[i] == text[i];
  }

  lemma BreakStays(s: string, k: nat)
    requires k <= |s|
    ensures '\n' in ToLower(s)[k..] ==> '\n' in s
  {
    var end := ToLower(s)[k..];
    hide ToLower, Lower;
    if i :| 0 <= i < |end| && end[i] == '\n' {
      assert end[i] == Lower(s[k + i]);
      LowerIsNoBreak(s[k + i]);
    }
  }

  lemma LowerIsNoBreak(c: char)
    ensures Lower(c) == '\n' ==> c == '\n'
  {
  }

  lemma {:induction false} ParsedSize(lines: seq<string>)
    requires ParseLines(lines).Some? && lines != [] && lines[|lines| - 1] == ""
    ensures Size(ParseLines(lines).value) < TextSize(lines)
    decreases lines
  {
    hide LineText, ParsePattern, String, ParseLines, Size;
    var front, rest := lines[0], lines[1..];
    ParsedStep(lines);
    if rest == [] {
      NoLines();
      LastLineIsEmpty();
    } else {
      assert rest[|rest| - 1] == "";
      ParsedSize(rest);
      if LineText(front) != "" {
        LineSize(front);
      }
    }
  }

  lemma NoLines()
    ensures ParseLines([]) == Some([]) && Size([]) == 0
  {
  }

  lemma ParsedStep(lines: seq<string>)
    requires lines != [] && ParseLines(lines).Some?
    ensures ParseLines(lines[1..]).Some?
    ensures var rest := Size(ParseLines(lines[1..]).value);
            if LineText(lines[0]) == "" then Size(ParseLines(lines).value) == rest
            else
              var p := ParsePattern(LineText(lines[0]));
              p.Some? && Size(ParseLines(lines).value) == |String(p.value)| + 1 + rest
  {
    hide LineText, ParsePattern, String;
    if LineText(lines[0]) != "" {
      var p, rest := ParsePattern(LineText(lines[0])).value, ParseLines(lines[1..]).value;
      assert ([p] + rest)[1..] == rest;
    }
  }

  lemma LastLineIsEmpty()
    ensures LineText("") == ""
  {
  }

  // No list reads back longer than it was printed.
  lemma ReadIsNotLonger(patterns: seq<Pattern>)
    ensures var read := ParseLines(Split(Print(patterns), '\n')); read.Some? ==> Size(read.value) <= Size(patterns)
  {
    hide ParseLines, Print, Size, TextSize, Split;
    PrintSize(patterns);
    SplitSize(Print(patterns));
    if ParseLines(Split(Print(patterns), '\n')).Some? {
      ParsedSize(Split(Print(patterns), '\n'));
    }
  }

  // No pattern that is read prints on two lines.
  lemma {:induction false} ReadHasNoBreak(lines: seq<string>, p: Pattern)
    requires ParseLines(lines).Some? && p in ParseLines(lines).value && forall l :: l in lines ==> '\n' !in l
    ensures Canonical(p) && '\n' !in String(p)
    decreases lines
  {
    hide LineText, ParsePattern, String, Canonical;
    if LineText(lines[0]) != "" && p == ParsePattern(LineText(lines[0])).value {
      LineSize(lines[0]);
      assert '\n' !in lines[0];
      NoBreakInHost(p);
    } else {
      assert forall l :: l in lines[1..] ==> l in lines;
      ReadHasNoBreak(lines[1..], p);
    }
  }

  lemma NoBreakInHost(p: Pattern)
    requires Canonical(p) && '\n' !in p.host
    ensures '\n' !in String(p)
  {
    PortsReadBack(p);
    hide Canonical, IsRefused, PortSuffix;
    assert IsSpace('\n') && '\n' !in HostText(p);
  }

  // A printed list reads back if and only if each of its patterns fits a line.
  lemma PrintedListReadsBack(patterns: seq<Pattern>)
    ensures ParseLines(Split(Print(patterns), '\n')) == Some(patterns) <==> AllFit(patterns)
  {
    hide *;
    if ParseLines(Split(Print(patterns), '\n')) == Some(patterns) {
      forall p | p in patterns
        ensures '\n' !in String(p)
      {
        ReadHasNoBreak(Split(Print(patterns), '\n'), p);
      }
      ListsOfLines(patterns);
    }
    if AllFit(patterns) {
      forall p | p in patterns
        ensures '\n' !in String(p)
      {
        FittingLine(patterns, p);
      }
      ListsOfLines(patterns);
    }
  }

  lemma FittingLine(patterns: seq<Pattern>, p: Pattern)
    requires AllFit(patterns) && p in patterns
    ensures '\n' !in String(p)
  {
    HostIsPrinted(p);
  }

  lemma {:induction false} ListsOfLines(patterns: seq<Pattern>)
    requires forall p :: p in patterns ==> '\n' !in String(p)
    ensures ParseLines(Split(Print(patterns), '\n')) == Some(patterns) <==> AllFit(patterns)
    decreases patterns
  {
    hide String, LineText, ParsePattern, ParseLines, Split, FitsLine;
    if patterns == [] {
      EmptyListReadsBack(patterns);
    } else {
      var p, rest := patterns[0], patterns[1..];
      assert Print(patterns) == String(p) + "\n" + Print(rest) && p in patterns;
      assert forall q :: q in rest ==> q in patterns;
      assert patterns == [p] + rest;
      assert AllFit(patterns) <==> FitsLine(p) && AllFit(rest);
      ListsOfLines(rest);
      ReadIsNotLonger(rest);
      SplitAt(String(p), '\n', Print(rest));
      SplitOfField(String(p), '\n');
      hide Print, AllFit;
      PrintedLine(p);
      FirstLine(p, Split(Print(rest), '\n'), rest);
    }
  }

  // A line reads as the pattern printed on it exactly when that fits.
  lemma PrintedLine(p: Pattern)
    requires '\n' !in String(p)
    ensures FitsLine(p) <==> LineText(String(p)) != "" && ParsePattern(LineText(String(p))) == Some(p)
  {
    var line := String(p);
    hide Canonical, ParsePattern, String, TrimSpace;
    if FitsLine(p) {
      CanonicalReadsBack(p);
      PatternReadsBack(p);
      HostIsPrinted(p);
      IndexOfNone(line, '#');
      assert line[..|line|] == line;
    } else if ParsePattern(LineText(line)) == Some(p) {
      LineSize(line);
      HostIsPrinted(p);
    }
  }

  lemma FirstLine(p: Pattern, lines: seq<string>, rest: seq<Pattern>)
    requires ParseLines(lines).Some? ==> Size(ParseLines(lines).value) <= Size(rest)
    ensures ParseLines([String(p)] + lines) == Some([p] + rest) <==>
            LineText(String(p)) != "" && ParsePattern(LineText(String(p))) == Some(p) && ParseLines(lines) == Some(rest)
  {
    hide LineText, ParsePattern, String;
    assert ([String(p)] + lines)[1..] == lines && ([p] + rest)[1..] == rest;
    if LineText(String(p)) == "" {
      assert Size([p] + rest) > Size(rest);
    }
  }

  // The parser keeps a comment sign inside of an entry, but a printed list ends
  // the line there.
  lemma CommentSignIsLost()
    ensures var p := Pattern("a#b", false, false, DEFAULT_PORTS);
            && ParsePattern("a#b") == Some(p) && String(p) == "a#b"
            && ParseLines(Split(Print([p]), '\n')) == Some([Pattern("a", false, false, DEFAULT_PORTS)])
  {
    hide *;
    var p, q := Pattern("a#b", false, false, DEFAULT_PORTS), Pattern("a", false, false, DEFAULT_PORTS);
    SignIsKept();
    PatternReadsBack(p);
    PatternReadsBack(q);
    PrintedAlone(p);
    SplitAt("a#b", '\n', "");
    SplitOfField("a#b", '\n');
    SplitOfField("", '\n');
    LinesOfSign();
  }

  lemma SignIsKept()
    ensures var p, q := Pattern("a#b", false, false, DEFAULT_PORTS), Pattern("a", false, false, DEFAULT_PORTS);
            && Canonical(p) && String(p) == "a#b" && TrimSpace("a#b") == "a#b"
            && Canonical(q) && String(q) == "a" && TrimSpace("a") == "a"
  {
    hide ToLower, TrimLeft, TrimRight;
    AllLower("a#b");
    AllLower("a");
    Untrimmed("a#b");
    Untrimmed("a");
  }

  lemma Untrimmed(s: string)
    requires s != "" && !IsSpace(s[0]) && !IsSpace(s[|s| - 1])
    ensures TrimSpace(s) == s
  {
  }

  lemma PrintedAlone(p: Pattern)
    ensures Print([p]) == String(p) + "\n" + ""
  {
    assert [p][1..] == [];
  }

  lemma LinesOfSign()
    requires ParsePattern("a").Some?
    ensures ParseLines(["a#b"] + [""]) == Some([ParsePattern("a").value])
  {
    hide *;
    assert LineText("a#b") == "a" by {
      SignIsCut();
    }
    OneLine("a#b");
  }

  lemma SignIsCut()
    ensures LineText("a#b") == "a"
  {
    hide TrimSpace, IndexOf;
    assert "a" + "#b" == "a#b" && "a#b"[..1] == "a";
    IndexOfFirst("a", '#', "#b");
    Untrimmed("a");
  }

  lemma OneLine(line: string)
    requires LineText(line) != "" && ParsePattern(LineText(line)).Some?
    ensures ParseLines([line] + [""]) == Some([ParsePattern(LineText(line)).value])
  {
    LastLineIsEmpty();
    hide LineText, ParsePattern;
    var p, none: seq<Pattern> := ParsePattern(LineText(line)).value, [];
    assert ([line] + [""])[1..] == [""] && [""][1..] == [];
    assert ParseLines([""]) == Some(none) && [p] + none == [p];
  }

  // The list that the guest parses from what the broker prints is the same list
  // if and only if each pattern fits a line, and then it allows and matches
  // exactly what some pattern of the original lists does.
  method GuestList(lists: seq<seq<Pattern>>) returns (broker: seq<Pattern>, guest: Option<seq<Pattern>>)
    requires AllCanonical(Concat(lists))
    ensures SayTheSame(broker, Concat(lists))
    ensures guest == Some(broker) <==> AllFit(Concat(lists))
    ensures guest == Some(broker) ==> SayTheSame(guest.value, Concat(lists))
  {
    hide AllFit, SayTheSame, Unique, ParseLines, Print, AllCanonical;
    ghost var all := Concat(lists);
    broker := NewAllowList(lists);
    UniqueHasAll(all, {});
    SameMembersFit(all, broker);
    SameMembersSayTheSame(broker, all);
    PrintedListReadsBack(broker);
    ReadIsNotLonger(broker);
    var parsed := ParseList(Print(broker));
    if parsed.None? {
      return broker, None;
    }
    var list := NewAllowList([parsed.value]);
    guest := Some(list);
    OneList(parsed.value);
    UniqueSize(parsed.value, {});
    UniqueTwice(all, {}, {});
  }

  lemma SameMembersFit(s: seq<Pattern>, t: seq<Pattern>)
    requires forall p :: p in s <==> p in t
    ensures AllFit(s) <==> AllFit(t)
  {
  }

  // Dropping repetitions makes a list shorter, or leaves it as it is.
  lemma {:induction false} UniqueSize(patterns: seq<Pattern>, seen: set<string>)
    ensures Size(Unique(patterns, seen)) <= Size(patterns)
    ensures Size(Unique(patterns, seen)) == Size(patterns) ==> Unique(patterns, seen) == patterns
    decreases patterns
  {
    hide String;
    if patterns != [] {
      var key := String(patterns[0]);
      UniqueSize(patterns[1..], if key in seen then seen else seen + {key});
      var rest := Unique(patterns[1..], seen + {key});
      assert ([patterns[0]] + rest)[1..] == rest;
    }
  }

  lemma OneList(patterns: seq<Pattern>)
    ensures Concat([patterns]) == patterns
  {
    assert [patterns][1..] == [];
  }

  // A list without repetitions stays as it is.
  lemma {:induction false} UniqueTwice(patterns: seq<Pattern>, seen: set<string>, fewer: set<string>)
    requires fewer <= seen
    ensures Unique(Unique(patterns, seen), fewer) == Unique(patterns, seen)
    decreases patterns
  {
    hide String;
    if patterns != [] {
      var key := String(patterns[0]);
      if key in seen {
        UniqueTwice(patterns[1..], seen, fewer);
      } else {
        UniqueTwice(patterns[1..], seen + {key}, fewer + {key});
        var list := Unique(patterns, seen);
        assert list[0] == patterns[0] && list[1..] == Unique(patterns[1..], seen + {key});
      }
    }
  }

  // The suggested entry of a refused request parses to the pattern of its host and
  // port, which allows it, if and only if that is canonical and has no white space
  // around it. Host names and good ports always meet this.
  lemma SuggestionAllows(host: string, port: int)
    ensures var p, suggested := Pattern(NormalizeHost(host), false, false, [port]),
                                NormalizeHost(host) + ":" + FormatInt(port);
            && CoversHost(p, host) && Opens(p, port)
            && (ParsePattern(suggested) == Some(p) <==> Canonical(p) && TrimSpace(suggested) == suggested)
            && (HostName(p.host) && GoodHost(p.host) && 1 <= port <= HIGHEST_PORT ==>
                  ParsePattern(suggested) == Some(p))
  {
    var name := NormalizeHost(host);
    var p := Pattern(name, false, false, [port]);
    hide *;
    PrintOnePort(name, port);
    PatternReadsBack(p);
    OnePortMatches(host, port);
    if HostName(name) && GoodHost(name) && 1 <= port <= HIGHEST_PORT {
      OnePortIsCanonical(name, port);
      HostNamesReadBack(p);
    }
  }

  lemma OnePortIsCanonical(name: string, port: int)
    requires HostName(name) && GoodHost(name) && 1 <= port <= HIGHEST_PORT
    ensures var p := Pattern(name, false, false, [port]); Canonical(p) && HostName(p.host)
  {
    HostCharsAreClean(name);
    hide GoodHost, ToLower, IsRefused, HostName;
  }

  lemma OnePortMatches(host: string, port: int)
    ensures var p := Pattern(NormalizeHost(host), false, false, [port]); CoversHost(p, host) && Opens(p, port)
  {
    MatchingIsCovering(Pattern(NormalizeHost(host), false, false, [port]), host, port);
    hide NormalizeHost;
  }

  lemma PrintOnePort(name: string, port: int)
    ensures String(Pattern(name, false, false, [port])) == name + ":" + FormatInt(port)
  {
    assert name + (":" + FormatInt(port)) == name + ":" + FormatInt(port);
  }

  lemma HostCharsAreClean(host: string)
    requires HostName(host)
    ensures ToLower(host) == host
    ensures forall i :: 0 <= i < |host| ==> !IsRefused(host[i]) && host[i] != ':'
  {
  }
}
