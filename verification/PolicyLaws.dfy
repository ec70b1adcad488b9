// The language of the egress patterns: which texts are entries and what they say.
module PolicyLaws {
  import opened Wrappers
  import opened Text
  import opened Policy
  import Decimal

  predicate IsBlank(c: char) {
    c as int == 32 || 9 <= c as int <= 13
  }

  ghost predicate Blank(s: string) {
    forall i :: 0 <= i < |s| ==> IsBlank(s[i])
  }

  // The text is the body with white space around it.
  ghost predicate Around(text: string, body: string) {
    && (exists left, right :: Blank(left) && Blank(right) && text == left + body + right)
    && (body != "" ==> !IsBlank(body[0]) && !IsBlank(body[|body| - 1]))
  }

  lemma BlankIsSpace(s: string)
    ensures forall i :: 0 <= i < |s| ==> (IsSpace(s[i]) <==> IsBlank(s[i]))
  {
  }

  lemma {:induction false} LeftIsBlank(s: string)
    ensures Blank(s[..|s| - |TrimLeft(s)|]) && (TrimLeft(s) != "" ==> !IsBlank(TrimLeft(s)[0]))
    decreases s
  {
    BlankIsSpace(s);
    hide IsBlank, IsSpace;
    if s != "" && IsSpace(s[0]) {
      LeftIsBlank(s[1..]);
      assert TrimLeft(s) == TrimLeft(s[1..]);
      hide TrimLeft;
      var front := s[1..][..|s| - 1 - |TrimLeft(s)|];
      forall i | 0 <= i < |front| + 1
        ensures IsBlank(s[i])
      {
        assert i > 0 ==> s[i] == front[i - 1];
      }
    }
  }

  lemma {:induction false} RightIsBlank(s: string)
    ensures Blank(s[|TrimRight(s)|..]) && (TrimRight(s) != "" ==> !IsBlank(TrimRight(s)[|TrimRight(s)| - 1]))
    decreases s
  {
    BlankIsSpace(s);
    hide IsBlank, IsSpace;
    if s != "" && IsSpace(s[|s| - 1]) {
      var front := s[..|s| - 1];
      RightIsBlank(front);
      assert TrimRight(s) == TrimRight(front);
      hide TrimRight;
      var end := front[|TrimRight(s)|..];
      forall i | |TrimRight(s)| <= i < |s|
        ensures IsBlank(s[i])
      {
        assert i < |front| ==> s[i] == end[i - |TrimRight(s)|];
      }
    }
  }

  lemma {:induction false} LeftGoes(left: string, rest: string)
    requires Blank(left) && (rest != "" ==> !IsBlank(rest[0]))
    ensures TrimLeft(left + rest) == rest
    decreases left
  {
    BlankIsSpace(left);
    BlankIsSpace(rest);
    hide IsBlank, IsSpace;
    if left == "" {
      assert left + rest == rest;
    } else {
      assert (left + rest)[1..] == left[1..] + rest && (left + rest)[0] == left[0];
      LeftGoes(left[1..], rest);
    }
  }

  lemma {:induction false} RightGoes(rest: string, right: string)
    requires Blank(right) && (rest != "" ==> !IsBlank(rest[|rest| - 1]))
    ensures TrimRight(rest + right) == rest
    decreases right
  {
    BlankIsSpace(rest);
    BlankIsSpace(right);
    hide IsBlank, IsSpace;
    var all := rest + right;
    if right == "" {
      assert all == rest;
    } else {
      assert all[..|all| - 1] == rest + right[..|right| - 1] && all[|all| - 1] == right[|right| - 1];
      RightGoes(rest, right[..|right| - 1]);
    }
  }

  lemma {:induction false} AllGoes(s: string)
    requires Blank(s)
    ensures TrimLeft(s) == ""
    decreases s
  {
    BlankIsSpace(s);
    hide IsBlank, IsSpace;
    if s != "" {
      AllGoes(s[1..]);
    }
  }

  // Trimming finds the one body of a text.
  lemma TrimMeans(text: string, body: string)
    ensures TrimSpace(text) == body <==> Around(text, body)
  {
    hide TrimLeft, TrimRight, IsBlank;
    if TrimSpace(text) == body {
      var rest := TrimLeft(text);
      LeftIsBlank(text);
      RightIsBlank(rest);
      assert text == text[..|text| - |rest|] + body + rest[|body|..];
    }
    if Around(text, body) {
      var left, right :| Blank(left) && Blank(right) && text == left + body + right;
      if body == "" {
        assert Blank(text);
        AllGoes(text);
        RightGoes("", "");
        assert "" + "" == "";
      } else {
        assert text == left + (body + right);
        LeftGoes(left, body + right);
        RightGoes(body, right);
      }
    }
  }

  // The part of an entry that names a host.
  ghost predicate IsHostPart(name: string) {
    && name != "" && name[0] != '.' && name[|name| - 1] != '.'
    && forall i :: 0 <= i < |name| ==> name[i] !in {'/', '@', ' ', '\t', ':', '*'}
  }

  // The part of an entry that says which ports are open: none for 80 and 443, a
  // star for all, or one number.
  ghost predicate IsPortPart(text: string, p: Pattern) {
    if p.allPorts then text == ":*" && p.ports == []
    else if text == "" then p.ports == [80, 443]
    else
      exists number, n :: text == ":" + number && Decimal.Atoi(number) == Some(n) && 1 <= n <= 65535 && p.ports == [n]
  }

  // A host name in any case, behind `*.` for a wildcard, perhaps with a dot at its
  // end.
  ghost predicate IsHostText(text: string, p: Pattern) {
    exists name :: IsHostPart(name) && IsLowerOf(p.host, name) && SpellsHost(text, p.wildcard, name)
  }

  ghost predicate SpellsHost(text: string, wildcard: bool, name: string) {
    var base := (if wildcard then "*." else "") + name;
    text == base || text == base + "."
  }

  // An entry is a host and its ports.
  ghost predicate IsEntry(body: string, p: Pattern) {
    exists host, ports :: IsHostText(host, p) && IsPortPart(ports, p) && body == host + ports
  }

  // The parser accepts exactly the entries, with white space around them, and gives
  // the pattern that they spell.
  lemma ParserMeans(text: string, p: Pattern)
    ensures ParsePattern(text) == Some(p) <==> exists body :: Around(text, body) && IsEntry(body, p)
  {
    hide TrimSpace, ParseEntry, Around, IsRefused, IsEntry;
    var entry := TrimSpace(text);
    forall body
      ensures Around(text, body) <==> body == entry
    {
      TrimMeans(text, body);
    }
    EntryMeans(entry, p);
  }

  ghost predicate NoneRefused(s: string) {
    forall i :: 0 <= i < |s| ==> !IsRefused(s[i])
  }

  lemma EntryMeans(entry: string, p: Pattern)
    ensures IsEntry(entry, p) <==>
      entry != "" && (forall i :: 0 <= i < |entry| ==> !IsRefused(entry[i])) && ParseEntry(entry) == Some(p)
  {
    hide ParseEntry, IsHostText, IsPortPart, IsRefused;
    if host, ports :| IsHostText(host, p) && IsPortPart(ports, p) && entry == host + ports {
      SpelledParses(p, host, ports);
    }
    if NoneRefused(entry) && ParseEntry(entry) == Some(p) {
      ParsedIsSpelled(entry, p);
    }
  }

  lemma SpelledParses(p: Pattern, host: string, ports: string)
    requires IsHostText(host, p) && IsPortPart(ports, p)
    ensures host + ports != "" && NoneRefused(host + ports) && ParseEntry(host + ports) == Some(p)
  {
    hide ParseHost, ParsePorts, IsHostText, IsPortPart, NoneRefused, ParseEntry;
    HostParses(p, host);
    PortsParse(ports, p);
    PartsParse(host, ports);
    NoneInBoth(host, ports);
  }

  lemma NoneInBoth(s: string, s': string)
    requires NoneRefused(s) && NoneRefused(s')
    ensures NoneRefused(s + s')
  {
    hide IsRefused;
  }

  // An entry is parsed part by part.
  lemma PartsParse(host: string, ports: string)
    requires ':' !in host && (ports != "" ==> ports[0] == ':' && ':' !in ports[1..])
    ensures ParseEntry(host + ports) ==
      match (ParseHost(host), ParsePorts(if ports == "" then None else Some(ports[1..])))
      case (Some((host, wildcard)), Some((allPorts, ports))) => Some(Pattern(host, wildcard, allPorts, ports))
      case _ => None
  {
    var entry := host + ports;
    hide ParseHost, ParsePorts;
    if ports == "" {
      IndexOfNone(entry, ':');
      assert entry == host && entry[..|entry|] == entry;
    } else {
      IndexOfFirst(host, ':', ports);
      assert entry[..|host|] == host && entry[|host| + 1..] == ports[1..];
    }
  }

  lemma HostParses(p: Pattern, host: string)
    requires IsHostText(host, p)
    ensures ParseHost(host) == Some((p.host, p.wildcard))
    ensures host != "" && ':' !in host && NoneRefused(host)
  {
    var name :| IsHostPart(name) && IsLowerOf(p.host, name) && SpellsHost(host, p.wildcard, name);
    var base := (if p.wildcard then "*." else "") + name;
    HostIsClean(host, p.wildcard, name);
    OneDot(base);
    LowerKeeps(p.host, name);
    LowerOfBase(p, name);
    hide ToLower, IsHostPart, IsLowerOf, GoodHost, IsRefused;
    assert TrimDot(host) == base;
  }

  lemma HostIsClean(host: string, wildcard: bool, name: string)
    requires IsHostPart(name) && SpellsHost(host, wildcard, name)
    ensures host != "" && ':' !in host && NoneRefused(host)
    ensures var base := (if wildcard then "*." else "") + name; base != "" && base[|base| - 1] != '.'
  {
    var skip := if wildcard then 2 else 0;
    forall i | 0 <= i < |host|
      ensures host[i] != ':' && !IsRefused(host[i])
    {
      assert skip <= i < skip + |name| ==> host[i] == name[i - skip];
    }
  }

  lemma OneDot(base: string)
    requires base != "" && base[|base| - 1] != '.'
    ensures TrimDot(base) == base && TrimDot(base + ".") == base
  {
    assert (base + ".")[..|base|] == base;
  }

  lemma LowerOfBase(p: Pattern, name: string)
    requires IsLowerOf(p.host, name) && '*' !in p.host
    ensures var lower := ToLower((if p.wildcard then "*." else "") + name);
            && HasPrefix(lower, "*.") == p.wildcard
            && (if p.wildcard then lower[2..] == p.host else lower == p.host)
  {
    LowerMeans(name, p.host);
    hide ToLower;
    if p.wildcard {
      LowerOfWildcard(name);
      assert ("*." + p.host)[..2] == "*." && ("*." + p.host)[2..] == p.host;
    } else {
      NoStar(p.host);
      assert "" + name == name;
    }
  }

  // A name in lower case has its other characters where they were.
  lemma LowerKeeps(host: string, name: string)
    requires IsLowerOf(host, name)
    ensures IsHostPart(name) ==> GoodHost(host)
    ensures GoodHost(host) ==> name != "" && name[0] != '.' && name[|name| - 1] != '.' && '*' !in name
  {
    forall i | 0 <= i < |name|
      ensures host[i] == '*' <==> name[i] == '*'
      ensures host[i] == '.' <==> name[i] == '.'
    {
    }
    hide IsLowerOf;
  }

  lemma PortsParse(ports: string, p: Pattern)
    requires IsPortPart(ports, p)
    ensures ports != "" ==> ports[0] == ':' && ':' !in ports[1..]
    ensures ParsePorts(if ports == "" then None else Some(ports[1..])) == Some((p.allPorts, p.ports))
    ensures NoneRefused(ports)
  {
    if !p.allPorts && ports != "" {
      var number, n :|
        ports == ":" + number && Decimal.Atoi(number) == Some(n) && 1 <= n <= 65535 && p.ports == [n];
      assert ports[1..] == number;
      NumberIsClean(number);
    } else if p.allPorts {
      assert ports[1..] == "*";
    }
  }

  lemma NumberIsClean(number: string)
    requires Decimal.Atoi(number).Some?
    ensures number != "*" && ':' !in number && NoneRefused(number)
  {
    if number[0] == '+' || number[0] == '-' {
      assert number == [number[0]] + number[1..] && Decimal.IsDecimal(number[1..]);
    }
  }

  lemma ParsedIsSpelled(entry: string, p: Pattern)
    requires NoneRefused(entry) && ParseEntry(entry) == Some(p)
    ensures IsEntry(entry, p)
  {
    hide ParseHost, ParsePorts, IsPortPart, IsHostText, IsRefused;
    var host, ports := PartsOf(entry);
    hide ParseEntry;
    PartsParse(host, ports);
    PortsAreSpelled(if ports == "" then None else Some(ports[1..]), p);
    assert ports != "" ==> ports == ":" + ports[1..];
    HostIsSpelled(host, p);
  }

  lemma PartsOf(entry: string) returns (host: string, ports: string)
    requires NoneRefused(entry) && ParseEntry(entry).Some?
    ensures entry == host + ports && NoneRefused(host)
    ensures ':' !in host && (ports != "" ==> ports[0] == ':' && ':' !in ports[1..])
  {
    hide ParseHost, ParsePorts, IsRefused;
    var colon := IndexOf(entry, ':');
    host, ports := entry[..colon], entry[colon..];
    IndexIsFirst(entry, ':');
    assert colon < |entry| ==> ports[1..] == entry[colon + 1..];
  }

  lemma PortsAreSpelled(portText: Option<string>, p: Pattern)
    requires ParsePorts(portText) == Some((p.allPorts, p.ports))
    ensures IsPortPart(if portText.Some? then ":" + portText.value else "", p)
  {
    hide Decimal.Atoi;
    assert portText.Some? ==> ":" + portText.value != "";
  }

  lemma HostIsSpelled(text: string, p: Pattern)
    requires ParseHost(text) == Some((p.host, p.wildcard)) && ':' !in text && NoneRefused(text)
    ensures IsHostText(text, p)
  {
    hide ParseHost, TrimDot, ToLower, IsLowerOf, GoodHost;
    var base := TrimDot(text);
    BaseOf(text, p);
    var name := if p.wildcard then base[2..] else base;
    LowerKeeps(p.host, name);
    PartIsClean(text, |base| - |name|, name);
    assert IsHostPart(name) && SpellsHost(text, p.wildcard, name);
  }

  lemma PartIsClean(text: string, skip: nat, name: string)
    requires ':' !in text && NoneRefused(text) && skip + |name| <= |text| && text[skip..][..|name|] == name
    requires name != "" && name[0] != '.' && name[|name| - 1] != '.' && '*' !in name
    ensures IsHostPart(name)
  {
    forall i | 0 <= i < |name|
      ensures name[i] !in {'/', '@', ' ', '\t', ':', '*'}
    {
      assert name[i] == text[skip + i] && !IsRefused(text[skip + i]);
    }
  }

  lemma BaseOf(text: string, p: Pattern)
    requires ParseHost(text) == Some((p.host, p.wildcard))
    ensures var base := TrimDot(text);
            && (text == base || text == base + ".") && base == text[..|base|] && GoodHost(p.host)
            && (p.wildcard ==> |base| >= 2 && base == "*." + base[2..])
            && IsLowerOf(p.host, if p.wildcard then base[2..] else base)
  {
    var base := TrimDot(text);
    var lower := ToLower(base);
    LowerMeans(base, lower);
    hide ToLower, GoodHost;
    if p.wildcard {
      assert lower[..2][0] == '*' && lower[..2][1] == '.';
      StarAndDot(base, lower);
    }
  }

  lemma StarAndDot(base: string, lower: string)
    requires IsLowerOf(lower, base) && |lower| >= 2 && lower[0] == '*' && lower[1] == '.'
    ensures base == "*." + base[2..] && IsLowerOf(lower[2..], base[2..])
  {
    assert base[0] == '*' && base[1] == '.';
  }

  // What the port part says: none opens 80 and 443, a star every port, and a number
  // that port.
  lemma PortPartMeans(ports: string, p: Pattern, port: int)
    requires IsPortPart(ports, p)
    ensures ports == "" ==> (Opens(p, port) <==> port == 80 || port == 443)
    ensures ports == ":*" ==> Opens(p, port)
    ensures forall number, n :: ports == ":" + number && Decimal.Atoi(number) == Some(n) ==>
      (Opens(p, port) <==> port == n)
  {
    forall number, n | ports == ":" + number && Decimal.Atoi(number) == Some(n)
      ensures Opens(p, port) <==> port == n
    {
      NumberIsClean(number);
      assert ports[1..] == number;
      var other, m :| ports == ":" + other && Decimal.Atoi(other) == Some(m) && p.ports == [m];
      assert ports[1..] == other && p.ports[0] == n;
    }
    forall number, n | ports == ":" + number && Decimal.Atoi(number) == Some(n)
      ensures ports != ":*"
    {
      NumberIsClean(number);
      assert ports[1..] == number;
    }
    assert p.ports == [80, 443] ==> p.ports[0] == 80 && p.ports[1] == 443;
  }

  // An entry without a colon opens 80 and 443.
  lemma DefaultPorts(text: string, p: Pattern, port: int)
    requires ParsePattern(text) == Some(p) && ':' !in text
    ensures Opens(p, port) <==> port == 80 || port == 443
  {
    hide ParsePattern, IsHostText, Opens, IsPortPart;
    ParserMeans(text, p);
    var body :| Around(text, body) && IsEntry(body, p);
    var host, ports :| IsHostText(host, p) && IsPortPart(ports, p) && body == host + ports;
    PortsParse(ports, p);
    PartOf(text, body, host, ports);
    PortPartMeans(ports, p, port);
  }

  lemma PartOf(text: string, body: string, host: string, ports: string)
    requires Around(text, body) && body == host + ports
    ensures ports != "" ==> ports[0] in text
  {
    var left, right :| Blank(left) && Blank(right) && text == left + body + right;
    if ports != "" {
      assert text[|left| + |host|] == ports[0];
    }
  }

  // The text of a line is what stands before the first comment sign, without white
  // space around it.
  lemma TextOfLine(line: string, front: string, rest: string)
    requires '#' !in front && (line == front || line == front + "#" + rest)
    ensures Around(front, LineText(line))
  {
    hide TrimSpace;
    if line == front {
      IndexOfNone(line, '#');
      assert line[..|line|] == front;
    } else {
      assert line == front + ("#" + rest);
      IndexOfFirst(front, '#', "#" + rest);
      assert line[..|front|] == front;
    }
    TrimMeans(front, LineText(line));
  }

  // A line is skipped when it has no text, and is an error when its text is no entry.
  lemma LineMeans(line: string, front: string, rest: string, body: string)
    requires '#' !in front && (line == front || line == front + "#" + rest) && Around(front, body)
    ensures ParseLines([line]) ==
            if body == "" then Some([])
            else if ParsePattern(body).Some? then Some([ParsePattern(body).value])
            else None
  {
    hide LineText, ParsePattern, Around, TrimSpace;
    TextOfLine(line, front, rest);
    TrimMeans(front, body);
    TrimMeans(front, LineText(line));
    assert [line][1..] == [] && ParseLines([]) == Some([]);
    assert forall p: Pattern :: [p] + [] == [p];
  }

  // A list is read line by line, lines without text are skipped, and a bad line is
  // an error of the whole.
  lemma {:induction false} LinesInOrder(lines: seq<string>, more: seq<string>)
    ensures ParseLines(lines + more) ==
            if ParseLines(lines).Some? && ParseLines(more).Some? then
              Some(ParseLines(lines).value + ParseLines(more).value)
            else None
    decreases lines
  {
    hide LineText, ParsePattern;
    if lines == [] {
      assert lines + more == more;
      assert ParseLines(more).Some? ==> [] + ParseLines(more).value == ParseLines(more).value;
    } else {
      assert (lines + more)[0] == lines[0] && (lines + more)[1..] == lines[1..] + more;
      LinesInOrder(lines[1..], more);
      OneInFront(lines, more);
    }
  }

  lemma OneInFront(lines: seq<string>, more: seq<string>)
    requires lines != []
    ensures ParseLines(lines).Some? && ParseLines(lines[1..]).Some? && ParseLines(more).Some?
            && LineText(lines[0]) != "" && ParsePattern(LineText(lines[0])).Some? ==>
      [ParsePattern(LineText(lines[0])).value] + (ParseLines(lines[1..]).value + ParseLines(more).value)
      == ParseLines(lines).value + ParseLines(more).value
  {
    hide LineText, ParsePattern;
  }
}
