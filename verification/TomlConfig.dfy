/** How the setup command replaces its section in a TOML configuration file. */
module TomlConfig {
  import opened LineBreaks
  import opened Text

  const OVA_MCP_SECTION_NAME := "mcp_servers.ova_mcp"
  const LEGACY_OPENVIKING_MCP_SECTION_NAME := "mcp_servers.openviking"

  // ---- Section headers ----

  /** \s*(?:#.*)?$ */
  predicate TailOk(s: string) {
    var t := TrimStart(s);
    t == "" || (t[0] == '#' && DotOnly(t))
  }

  /** TOML_SECTION_HEADER_RE: a bracket, at least one character, and some closing bracket with
      nothing but white space and a comment behind it. The optional second brackets of the pattern
      make no difference to what it matches. */
  predicate IsHeader(line: string) {
    var t := TrimStart(line);
    t != "" && t[0] == '[' && exists q | 2 <= q < |t| :: t[q] == ']' && DotOnly(t[1..q]) && TailOk(t[q + 1..])
  }

  function ClosingAt(s: string): (n: nat)
    ensures n <= |s| && ']' !in s[..n]
    ensures n < |s| ==> s[n] == ']'
  {
    if s == "" || s[0] == ']' then 0 else 1 + ClosingAt(s[1..])
  }

  /** What TOML_SECTION_NAME_RE captures, trimmed: the text before the first closing bracket. A
      second opening bracket is not part of it unless it is all there is. */
  function SectionName(line: string): Option<string> {
    var t := TrimStart(line);
    if t == "" || t[0] != '[' then None
    else
      var q := ClosingAt(t);
      var a := if q > 2 && t[1] == '[' then 2 else 1;
      if q == |t| || q <= a then None
      else
        var tail := t[q + 1..];
        if TailOk(if tail != "" && tail[0] == ']' then tail[1..] else tail) then Some(Trim(t[a..q])) else None
  }

  predicate IsOpenVikingTomlSection(line: string) {
    match SectionName(line)
    case None => false
    case Some(name) =>
      || name == OVA_MCP_SECTION_NAME || OVA_MCP_SECTION_NAME + "." <= name
      || name == LEGACY_OPENVIKING_MCP_SECTION_NAME || LEGACY_OPENVIKING_MCP_SECTION_NAME + "." <= name
  }

  predicate IsOurHeader(line: string) {
    IsHeader(line) && IsOpenVikingTomlSection(line)
  }

  // ---- Removing and writing ----

  predicate Skips(line: string, skipping: bool) {
    if IsHeader(line) then IsOpenVikingTomlSection(line) else skipping
  }

  /** The lines outside the sections to remove. */
  function Kept(lines: seq<string>, skipping: bool): seq<string> {
    if lines == [] then []
    else
      var skip := Skips(lines[0], skipping);
      (if skip then [] else [lines[0]]) + Kept(lines[1..], skip)
  }

  predicate SkipsAfter(lines: seq<string>, skipping: bool) {
    if lines == [] then skipping else SkipsAfter(lines[1..], Skips(lines[0], skipping))
  }

  lemma {:induction false} KeptConcat(a: seq<string>, b: seq<string>, skipping: bool)
    ensures Kept(a + b, skipping) == Kept(a, skipping) + Kept(b, SkipsAfter(a, skipping))
  {
    if a == [] {
      assert a + b == b;
    } else {
      assert (a + b)[1..] == a[1..] + b;
      KeptConcat(a[1..], b, Skips(a[0], skipping));
    }
  }

  lemma {:induction false} SkipsAfterPush(lines: seq<string>, line: string, skipping: bool)
    ensures SkipsAfter(lines + [line], skipping) == Skips(line, SkipsAfter(lines, skipping))
  {
    if lines == [] {
      assert lines + [line] == [line];
    } else {
      assert (lines + [line])[1..] == lines[1..] + [line];
      SkipsAfterPush(lines[1..], line, Skips(lines[0], skipping));
    }
  }

  lemma KeptPush(lines: seq<string>, line: string, skipping: bool)
    ensures var skip := SkipsAfter(lines + [line], skipping);
            && skip == Skips(line, SkipsAfter(lines, skipping))
            && Kept(lines + [line], skipping) == Kept(lines, skipping) + if skip then [] else [line]
  {
    KeptConcat(lines, [line], skipping);
    SkipsAfterPush(lines, line, skipping);
    assert [line][1..] == [];
  }

  method RemoveOpenVikingTomlSections(content: string) returns (result: string)
    ensures result == Join(Kept(Lines(content), false), "\n")
  {
    hide IsHeader, IsOpenVikingTomlSection, Lines, Join;
    var keptLines := [];
    var skipping := false;
    var lines := Lines(content);
    var i := 0;
    while i < |lines|
      invariant 0 <= i <= |lines|
      invariant keptLines == Kept(lines[..i], false) && skipping == SkipsAfter(lines[..i], false)
    {
      var line := lines[i];
      KeptPush(lines[..i], line, false);
      assert lines[..i + 1] == lines[..i] + [line];
      i := i + 1;
      if IsHeader(line) {
        skipping := IsOpenVikingTomlSection(line);
        if skipping {
          continue;
        }
      }
      if !skipping {
        keptLines := keptLines + [line];
      }
    }
    assert lines[..i] == lines;
    result := Join(keptLines, "\n");
  }

  function Cleaned(content: string): string {
    TrimEnd(Join(Kept(Lines(content), false), "\n"))
  }

  function HexDigit(n: int): char
    requires 0 <= n < 16
  {
    if n < 10 then ('0' as int + n) as char else ('a' as int + n - 10) as char
  }

  /** How JSON.stringify writes a character inside a string. */
  function JsonChar(c: char): string {
    if c == '"' then "\\\""
    else if c == '\\' then "\\\\"
    else if c as int == 8 then "\\b"
    else if c as int == 12 then "\\f"
    else if c == '\n' then "\\n"
    else if c == '\r' then "\\r"
    else if c == '\t' then "\\t"
    else if c as int < 32 then "\\u00" + [HexDigit(c as int / 16), HexDigit(c as int % 16)]
    else [c]
  }

  function JsonChars(s: string): string {
    if s == "" then "" else JsonChar(s[0]) + JsonChars(s[1..])
  }

  function JsonString(s: string): string { "\"" + JsonChars(s) + "\"" }

  const ARGS_START := "args = [\"-y\",\"mcp-remote\","
  const ARGS_END := ",\"--transport\",\"sse-only\"]"

  function ArgsLine(url: string): string { ARGS_START + JsonString(url) + ARGS_END }

  function SectionLines(url: string): seq<string> {
    ["[mcp_servers.ova_mcp]", "type = \"stdio\"", "command = \"npx\"", ArgsLine(url)]
  }

  function WithSection(cleaned: string, url: string): string {
    (if cleaned != "" then cleaned + "\n\n" else "") + Join(SectionLines(url), "\n") + "\n"
  }

  /** The new content of the file; a missing file counts as empty. */
  function Upserted(content: string, url: string): string {
    WithSection(Cleaned(content), url)
  }

  class ConfigFile {
    var content: Option<string>

    constructor (content: Option<string>)
      ensures this.content == content
    {
      this.content := content;
    }
  }

  method UpsertTomlMcpConfig(file: ConfigFile, url: string)
    modifies file
    ensures file.content == Some(Upserted(if old(file.content).Some? then old(file.content).value else "", url))
  {
    hide Kept, Lines, Join, TrimEnd;
    var raw := if file.content.Some? then file.content.value else "";
    var removed := RemoveOpenVikingTomlSections(raw);
    var cleaned := TrimEnd(removed);
    var section := Join(SectionLines(url), "\n");
    file.content := Some(if cleaned != "" then cleaned + "\n\n" + section + "\n" else section + "\n");
    assert "" + section + "\n" == section + "\n";
  }

  // ---- What is kept ----

  /** Line `i` belongs to a section to remove: the last header up to it is one of ours. */
  ghost predicate InOurSection(lines: seq<string>, i: int)
    requires i < |lines|
  {
    exists h | 0 <= h <= i :: IsOurHeader(lines[h]) && forall k | h < k <= i :: !IsHeader(lines[k])
  }

  lemma {:induction false} SkippingIsSection(lines: seq<string>, i: nat)
    requires i < |lines|
    ensures SkipsAfter(lines[..i + 1], false) <==> InOurSection(lines, i)
  {
    hide IsHeader, IsOpenVikingTomlSection, SkipsAfter;
    assert lines[..i + 1] == lines[..i] + [lines[i]];
    SkipsAfterPush(lines[..i], lines[i], false);
    if i == 0 {
      assert lines[..0] == [] && !SkipsAfter([], false) by { NothingSkipped(); }
    } else {
      SkippingIsSection(lines, i - 1);
      if !IsHeader(lines[i]) && InOurSection(lines, i) {
        var h :| 0 <= h <= i && IsOurHeader(lines[h]) && forall k | h < k <= i :: !IsHeader(lines[k]);
        assert h <= i - 1;
      }
    }
  }

  lemma NothingSkipped()
    ensures !SkipsAfter([], false)
  {
  }

  /** Removing sections keeps, in order, exactly the lines whose last header is not one of ours. */
  lemma KeptIsOutside(lines: seq<string>, i: nat)
    requires i < |lines|
    ensures Kept(lines[..i + 1], false)
            == Kept(lines[..i], false) + if InOurSection(lines, i) then [] else [lines[i]]
  {
    hide SkipsAfter, InOurSection, Skips, Kept;
    assert lines[..i + 1] == lines[..i] + [lines[i]];
    KeptPush(lines[..i], lines[i], false);
    SkippingIsSection(lines, i);
  }

  // ---- Written files as lines ----

  predicate EndsInCR(line: string) {
    line != "" && line[|line| - 1] == '\r'
  }

  function DropCR(line: string): string {
    if EndsInCR(line) then line[..|line| - 1] else line
  }

  function AllDropped(lines: seq<string>): seq<string> {
    if lines == [] then [] else [DropCR(lines[0])] + AllDropped(lines[1..])
  }

  lemma {:induction false} LinesNone(a: string)
    requires '\n' !in a
    ensures Lines(a) == [a]
  {
    if a != "" {
      LinesNone(a[1..]);
      assert [a[0]] + a[1..] == a;
    }
  }

  lemma {:induction false} LinesFirst(a: string, b: string)
    requires '\n' !in a
    ensures Lines(a + "\n" + b) == [DropCR(a)] + Lines(b)
  {
    var s := a + "\n" + b;
    if a == "" {
      assert s[1..] == b;
    } else if a == "\r" {
      assert s[2..] == b;
    } else {
      assert s[0] == a[0] && s[1..] == a[1..] + "\n" + b;
      assert |a| > 1 ==> s[1] == a[1];
      LinesFirst(a[1..], b);
      assert [a[0]] + DropCR(a[1..]) == DropCR(a);
    }
  }

  /** Reading joined lines back takes a CR off every line that has one in front of the break. */
  lemma {:induction false} LinesOfJoin(lines: seq<string>, last: string)
    requires '\n' !in last && forall l <- lines :: '\n' !in l
    ensures Lines(Join(lines + [last], "\n")) == AllDropped(lines) + [last]
  {
    if lines == [] {
      LinesNone(last);
      assert lines + [last] == [last];
    } else {
      var rest := lines[1..] + [last];
      assert lines + [last] == [lines[0]] + rest && ([lines[0]] + rest)[1..] == rest;
      LinesOfJoin(lines[1..], last);
      LinesFirst(lines[0], Join(rest, "\n"));
    }
  }

  lemma {:induction false} AllDroppedConcat(a: seq<string>, b: seq<string>)
    ensures AllDropped(a + b) == AllDropped(a) + AllDropped(b)
  {
    if a == [] {
      assert a + b == b;
    } else {
      assert (a + b)[1..] == a[1..] + b;
      AllDroppedConcat(a[1..], b);
    }
  }

  predicate NoneEndsInCR(lines: seq<string>) {
    forall l <- lines :: !EndsInCR(l)
  }

  lemma {:induction false} NothingDropped(lines: seq<string>)
    requires NoneEndsInCR(lines)
    ensures AllDropped(lines) == lines
  {
    if lines != [] {
      NothingDropped(lines[1..]);
    }
  }

  lemma JsonCharIsPlain(c: char)
    ensures '\n' !in JsonChar(c) && '\r' !in JsonChar(c)
  {
  }

  lemma {:induction false} JsonCharsArePlain(s: string)
    ensures '\n' !in JsonChars(s) && '\r' !in JsonChars(s)
  {
    hide JsonChar;
    if s != "" {
      JsonCharIsPlain(s[0]);
      JsonCharsArePlain(s[1..]);
    }
  }

  lemma ArgsIsPlain(url: string)
    ensures '\n' !in ArgsLine(url) && !EndsInCR(ArgsLine(url)) && ArgsLine(url)[0] == 'a'
  {
    hide JsonChars;
    JsonCharsArePlain(url);
    assert '\n' !in ARGS_START && '\n' !in ARGS_END;
    assert ArgsLine(url)[|ArgsLine(url)| - 1] == ARGS_END[|ARGS_END| - 1];
  }

  lemma SectionIsPlain(url: string)
    ensures forall l <- SectionLines(url) :: '\n' !in l && !EndsInCR(l)
  {
    hide ArgsLine;
    ArgsIsPlain(url);
  }

  lemma LinesOfSection(url: string)
    ensures Lines(WithSection("", url)) == SectionLines(url) + [""]
  {
    hide Lines, Join, SectionLines, EndsInCR;
    var section := SectionLines(url);
    assert section != [] by { SectionNotEmpty(url); }
    SectionIsPlain(url);
    LinesOfJoin(section, "");
    NothingDropped(section);
    JoinConcat(section, [""], "\n");
    assert Join([""], "\n") == "" by { JoinOne(""); }
    assert WithSection("", url) == Join(section, "\n") + "\n" + "";
  }

  lemma JoinOne(s: string)
    ensures Join([s], "\n") == s
  {
  }

  lemma SectionNotEmpty(url: string)
    ensures SectionLines(url) != []
  {
  }

  lemma WrittenIsJoin(head: seq<string>, section: seq<string>)
    requires head != [] && section != []
    ensures Join(head + ([""] + section) + [""], "\n") == Join(head, "\n") + "\n\n" + Join(section, "\n") + "\n"
  {
    hide Join;
    JoinOne("");
    JoinConcat([""], section, "\n");
    JoinConcat(head, [""] + section, "\n");
    JoinConcat(head + ([""] + section), [""], "\n");
    var h, t := Join(head, "\n"), Join(section, "\n");
    assert h + "\n" + ("" + "\n" + t) + "\n" + "" == h + "\n\n" + t + "\n";
  }

  /** The lines of a file that was written behind a text. */
  lemma LinesOfWritten(cleaned: string, url: string)
    requires cleaned != ""
    ensures Lines(WithSection(cleaned, url))
            == AllDropped(Split(cleaned, '\n')) + ([""] + (SectionLines(url) + [""]))
  {
    hide Lines, Join, Split, TrimEnd, SectionLines, EndsInCR, AllDropped;
    var head, section := Split(cleaned, '\n'), SectionLines(url);
    var front := head + ([""] + section);
    SectionIsPlain(url);
    SectionNotEmpty(url);
    JoinOfSplit(cleaned, '\n');
    WrittenIsJoin(head, section);
    assert WithSection(cleaned, url) == Join(front + [""], "\n");
    LinesOfJoin(front, "");
    AllDroppedConcat(head, [""] + section);
    assert !EndsInCR("") by { EmptyEndsNowhere(); }
    NothingDropped([""] + section);
    assert AllDropped(head) + ([""] + section) + [""] == AllDropped(head) + ([""] + (section + [""]));
  }

  lemma EmptyEndsNowhere()
    ensures !EndsInCR("")
  {
  }

  // ---- Cleaning a written file ----

  lemma FirstVisible(s: string)
    requires s != "" && !IsSpace(s[0])
    ensures TrimStart(s) == s
  {
  }

  lemma {:induction false} ClosingBehind(a: string)
    requires ']' !in a
    ensures ClosingAt(a + "]") == |a|
  {
    if a != "" {
      assert (a + "]")[0] == a[0] && (a + "]")[1..] == a[1..] + "]";
      ClosingBehind(a[1..]);
    }
  }

  lemma PlainHeader(name: string)
    requires name != "" && name[0] != '[' && ']' !in name && Trimmed(name) && DotOnly(name)
    ensures IsHeader("[" + name + "]") && SectionName("[" + name + "]") == Some(name)
  {
    hide *;
    var line := "[" + name + "]";
    assert !IsSpace('[') by { BracketIsVisible(); }
    FirstVisible(line);
    PlainHeaderMatches(name, line);
    PlainHeaderName(name, line);
  }

  lemma BracketIsVisible()
    ensures !IsSpace('[')
  {
  }

  lemma EmptyTailIsOk()
    ensures TailOk("")
  {
  }

  lemma PlainHeaderMatches(name: string, line: string)
    requires name != "" && DotOnly(name) && line == "[" + name + "]" && TrimStart(line) == line
    ensures IsHeader(line)
  {
    hide TailOk, DotOnly, TrimStart;
    var q := |line| - 1;
    EmptyTailIsOk();
    assert line[1..q] == name && line[q + 1..] == "";
    assert line[q] == ']' && DotOnly(line[1..q]) && TailOk(line[q + 1..]);
  }

  lemma PlainHeaderName(name: string, line: string)
    requires name != "" && name[0] != '[' && ']' !in name && Trimmed(name)
    requires line == "[" + name + "]" && TrimStart(line) == line
    ensures SectionName(line) == Some(name)
  {
    hide TailOk, TrimStart, ClosingAt, Trim, Trimmed;
    var q := |line| - 1;
    EmptyTailIsOk();
    ClosingBehind("[" + name);
    assert line == ("[" + name) + "]";
    assert ClosingAt(line) == q;
    assert line[1..q] == name && line[q + 1..] == "" && line[1] == name[0];
    TrimOfTrimmed(name);
  }

  lemma OurHeaderIsOurs()
    ensures IsOurHeader("[mcp_servers.ova_mcp]")
  {
    hide IsHeader, SectionName;
    assert "[" + OVA_MCP_SECTION_NAME + "]" == "[mcp_servers.ova_mcp]";
    PlainHeader(OVA_MCP_SECTION_NAME);
  }

  // ---- Which headers are ours ----

  /** A header line: one pair of brackets or two, white space around the brackets and the name, and
      perhaps a comment. */
  function HeaderLine(left: string, two: bool, before: string, name: string, after: string, tail: string): string {
    left + ((if two then "[[" else "[") + (before + name + after) + (if two then "]]" else "]") + tail)
  }

  predicate IsTail(tail: string) {
    exists n | 0 <= n <= |tail| :: IsSpaces(tail[..n]) && (tail[n..] == "" || (tail[n] == '#' && DotOnly(tail[n..])))
  }

  predicate IsSpaces(s: string) {
    forall c <- s :: IsSpace(c)
  }

  lemma TailIsOk(tail: string)
    requires IsTail(tail)
    ensures TailOk(tail)
  {
    var n :| 0 <= n <= |tail| && IsSpaces(tail[..n]) && (tail[n..] == "" || (tail[n] == '#' && DotOnly(tail[n..])));
    hide DotOnly;
    assert forall i | 0 <= i < n :: tail[i] in tail[..n];
    LeadingSpacesAt(tail, n);
  }

  lemma HeaderStarts(left: string, t: string)
    requires IsSpaces(left) && t != "" && t[0] == '['
    ensures TrimStart(left + t) == t
  {
    LeadingSpacesAt(left + t, |left|);
  }

  lemma InnerIsHeader(line: string, two: bool, inner: string, tail: string)
    requires inner != "" && DotOnly(inner) && TailOk(tail)
    requires TrimStart(line) == (if two then "[[" else "[") + inner + (if two then "]]" else "]") + tail
    ensures IsHeader(line)
  {
    hide TailOk, TrimStart;
    var t := TrimStart(line);
    var q := if two then |inner| + 3 else |inner| + 1;
    assert t[q] == ']' && t[q + 1..] == tail;
    assert t[1..q] == (if two then "[" else "") + inner + (if two then "]" else "");
    assert DotOnly(t[1..q]) && TailOk(t[q + 1..]);
  }

  lemma InnerIsName(line: string, two: bool, inner: string, tail: string)
    requires inner != "" && inner[0] != '[' && ']' !in inner && TailOk(tail) && (tail == "" || tail[0] != ']')
    requires TrimStart(line) == (if two then "[[" else "[") + inner + (if two then "]]" else "]") + tail
    ensures SectionName(line) == Some(Trim(inner))
  {
    hide TailOk, TrimStart, ClosingAt, Trim;
    var t := TrimStart(line);
    var o := if two then "[[" else "[";
    var q := |o| + |inner|;
    var rest := (if two then "]]" else "]") + tail;
    assert t == (o + inner) + rest && t[q] == ']' && ']' !in o + inner;
    ClosingBefore(o + inner, rest);
    assert t[|o|..q] == inner && t[q + 1..] == (if two then "]" else "") + tail;
    assert t[1] == if two then '[' else inner[0];
    if two {
      assert t[q + 1..][1..] == tail;
    }
  }

  lemma {:induction false} ClosingBefore(a: string, b: string)
    requires ']' !in a && b != "" && b[0] == ']'
    ensures ClosingAt(a + b) == |a|
  {
    if a == "" {
      assert a + b == b;
    } else {
      assert (a + b)[0] == a[0] && (a + b)[1..] == a[1..] + b;
      ClosingBefore(a[1..], b);
    }
  }

  /** The sections the command replaces are those of its own server, under its old and its new name, with
      all their subsections, however the header is written; and no others. */
  lemma OurSectionsAre(left: string, two: bool, before: string, name: string, after: string, tail: string)
    requires name != "" && name[0] != '[' && ']' !in name && Trimmed(name) && DotOnly(name)
    requires IsSpaces(left) && IsSpaces(before) && IsSpaces(after) && DotOnly(before) && DotOnly(after) && IsTail(tail)
    ensures var line := HeaderLine(left, two, before, name, after, tail);
            && IsHeader(line)
            && (IsOurHeader(line) <==>
                  || name == "mcp_servers.ova_mcp" || "mcp_servers.ova_mcp." <= name
                  || name == "mcp_servers.openviking" || "mcp_servers.openviking." <= name)
  {
    hide IsHeader, SectionName, TrimStart, TailOk, IsTail, IsSpaces, DotOnly, Trim, Trimmed;
    var inner := before + name + after;
    var line := HeaderLine(left, two, before, name, after, tail);
    TailIsOk(tail);
    TailHasNoBracket(tail);
    HeaderStarts(left, (if two then "[[" else "[") + inner + (if two then "]]" else "]") + tail);
    InnerIs(before, name, after);
    InnerIsHeader(line, two, inner, tail);
    InnerIsName(line, two, inner, tail);
    assert OVA_MCP_SECTION_NAME + "." == "mcp_servers.ova_mcp.";
    assert LEGACY_OPENVIKING_MCP_SECTION_NAME + "." == "mcp_servers.openviking.";
  }

  lemma TailHasNoBracket(tail: string)
    requires IsTail(tail)
    ensures tail == "" || tail[0] != ']'
  {
    var n :| 0 <= n <= |tail| && IsSpaces(tail[..n]) && (tail[n..] == "" || (tail[n] == '#' && DotOnly(tail[n..])));
    if n > 0 {
      assert tail[0] in tail[..n];
    }
  }

  lemma InnerIs(before: string, name: string, after: string)
    requires name != "" && name[0] != '[' && ']' !in name && Trimmed(name) && DotOnly(name)
    requires IsSpaces(before) && IsSpaces(after) && DotOnly(before) && DotOnly(after)
    ensures var inner := before + name + after;
            inner != "" && inner[0] != '[' && ']' !in inner && DotOnly(inner) && Trim(inner) == name
  {
    var inner := before + name + after;
    TrimOfPadded(before, name, after);
    hide Trim, TrimStart, TrimEnd;
    assert forall c <- inner :: c in before || c in name || c in after;
    assert inner[0] in before || inner[0] == name[0];
  }

  lemma NoBracketNoHeader(line: string)
    requires line == "" || (line[0] != '[' && !IsSpace(line[0]))
    ensures !IsHeader(line)
  {
    if line != "" {
      FirstVisible(line);
    }
  }

  lemma {:induction false} KeptPlain(lines: seq<string>, skipping: bool)
    requires forall l <- lines :: !IsHeader(l)
    ensures Kept(lines, skipping) == (if skipping then [] else lines) && SkipsAfter(lines, skipping) == skipping
  {
    hide IsHeader, IsOpenVikingTomlSection;
    if lines != [] {
      KeptPlain(lines[1..], skipping);
    }
  }

  lemma KeptOfSection(url: string, skipping: bool)
    ensures Kept(SectionLines(url) + [""], skipping) == []
    ensures Kept([""] + (SectionLines(url) + [""]), skipping) == if skipping then [] else [""]
  {
    hide IsHeader, IsOpenVikingTomlSection, ArgsLine, Kept;
    var header, rest := "[mcp_servers.ova_mcp]", ["type = \"stdio\"", "command = \"npx\"", ArgsLine(url), ""];
    var lines := SectionLines(url) + [""];
    OurHeaderIsOurs();
    ArgsIsPlain(url);
    forall l | l in rest ensures !IsHeader(l) {
      NoBracketNoHeader(l);
    }
    NoBracketNoHeader("");
    KeptPlain(rest, true);
    KeptPlain([""], skipping);
    assert lines == [header] + rest;
    KeptConcat([header], rest, skipping);
    KeptPush([], header, skipping);
    assert [] + [header] == [header] && Kept([], skipping) == [] by { KeptOfNothing(skipping); }
    KeptConcat([""], lines, skipping);
  }

  lemma KeptOfNothing(skipping: bool)
    ensures Kept([], skipping) == []
  {
  }

  /** No line of the text ends in a CR or is one of the headers that are removed. */
  predicate Settled(text: string) {
    forall l <- Split(text, '\n') :: !EndsInCR(l) && !IsOurHeader(l)
  }

  lemma {:induction false} KeptNone(lines: seq<string>)
    requires forall l <- lines :: !IsOurHeader(l)
    ensures Kept(lines, false) == lines && !SkipsAfter(lines, false)
  {
    hide IsHeader, IsOpenVikingTomlSection;
    if lines != [] {
      assert !IsOurHeader(lines[0]);
      KeptNone(lines[1..]);
    }
  }

  function Total(lines: seq<string>): nat {
    if lines == [] then 0 else |lines[0]| + 1 + Total(lines[1..])
  }

  lemma {:induction false} JoinLength(lines: seq<string>)
    requires lines != []
    ensures |Join(lines, "\n")| == Total(lines) - 1
  {
    if |lines| > 1 {
      JoinLength(lines[1..]);
    }
  }

  lemma {:induction false} DroppedTotal(lines: seq<string>)
    ensures Total(AllDropped(lines)) <= Total(lines)
    ensures !NoneEndsInCR(lines) ==> Total(AllDropped(lines)) < Total(lines)
  {
    if lines != [] {
      DroppedTotal(lines[1..]);
      assert NoneEndsInCR(lines) <==> !EndsInCR(lines[0]) && NoneEndsInCR(lines[1..]);
    }
  }

  lemma {:induction false} KeptTotal(lines: seq<string>, skipping: bool)
    ensures Total(Kept(lines, skipping)) <= Total(lines)
    ensures (exists l <- lines :: IsOurHeader(l)) ==> Total(Kept(lines, skipping)) < Total(lines)
  {
    hide IsHeader, IsOpenVikingTomlSection;
    if lines != [] {
      var skip := Skips(lines[0], skipping);
      KeptTotal(lines[1..], skip);
      assert ([lines[0]] + Kept(lines[1..], skip))[1..] == Kept(lines[1..], skip);
      assert [] + Kept(lines[1..], skip) == Kept(lines[1..], skip);
    }
  }

  /** Cleaning a file that was written behind a settled text gives that text again. */
  lemma CleaningSettled(cleaned: string, url: string)
    requires TrimEnd(cleaned) == cleaned && Settled(cleaned)
    ensures Cleaned(WithSection(cleaned, url)) == cleaned
  {
    hide Lines, Join, Split, TrimEnd, SectionLines, EndsInCR, IsOurHeader, Kept, WithSection;
    if cleaned == "" {
      LinesOfSection(url);
      KeptOfSection(url, false);
      assert Join([], "\n") == "" by { JoinNone(); }
    } else {
      var head := Split(cleaned, '\n');
      var tail := [""] + (SectionLines(url) + [""]);
      LinesOfWritten(cleaned, url);
      NothingDropped(head);
      KeptNone(head);
      KeptConcat(head, tail, false);
      KeptOfSection(url, false);
      JoinOfSplit(cleaned, '\n');
      JoinConcat(head, [""], "\n");
      JoinOne("");
      TrimEndOfBreak(cleaned);
      assert cleaned + "\n" + "" == cleaned + "\n";
    }
  }

  lemma JoinNone()
    ensures Join([], "\n") == ""
  {
  }

  lemma TrimEndOfBreak(s: string)
    ensures TrimEnd(s + "\n") == TrimEnd(s)
  {
    assert (s + "\n")[..|s|] == s;
  }

  /** Cleaning a file that was written behind a text that is not settled gives something shorter. */
  lemma CleaningUnsettled(cleaned: string, url: string)
    requires !Settled(cleaned)
    ensures |Cleaned(WithSection(cleaned, url))| < |cleaned|
  {
    hide Lines, Join, Split, TrimEnd, SectionLines, EndsInCR, IsOurHeader, Kept, WithSection, Total;
    if cleaned == "" {
      EmptyIsSettled();
    }
    var head, tail := Split(cleaned, '\n'), [""] + (SectionLines(url) + [""]);
    var again := AllDropped(head);
    var m := Kept(again, false);
    LinesOfWritten(cleaned, url);
    KeptConcat(again, tail, false);
    var skipping := SkipsAfter(again, false);
    KeptOfSection(url, skipping);
    JoinOfSplit(cleaned, '\n');
    JoinLength(head);
    assert Total(m) < Total(head) by {
      DroppedTotal(head);
      KeptTotal(again, false);
      if NoneEndsInCR(head) {
        NothingDropped(head);
      }
    }
    CleanedLength(m, skipping);
  }

  lemma EmptyIsSettled()
    ensures Settled("")
  {
    NoBracketNoHeader("");
  }

  lemma CleanedLength(m: seq<string>, skipping: bool)
    ensures var text := Join(m + if skipping then [] else [""], "\n");
            |TrimEnd(text)| <= if m == [] then 0 else Total(m) - 1
  {
    hide Join, Total;
    var text := Join(m + if skipping then [] else [""], "\n");
    JoinOne("");
    JoinNone();
    if m == [] {
      assert text == "" by { assert m + [] == [] && m + [""] == [""]; }
    } else if skipping {
      assert m + [] == m;
      JoinLength(m);
    } else {
      JoinConcat(m, [""], "\n");
      JoinLength(m);
      assert text == Join(m, "\n") + "\n";
      TrimEndOfBreak(Join(m, "\n"));
    }
  }

  lemma WithSectionLength(cleaned: string, url: string)
    ensures |WithSection(cleaned, url)|
            == (if cleaned == "" then 0 else |cleaned| + 2) + |Join(SectionLines(url), "\n")| + 1
  {
    hide Join;
  }

  lemma CleanedIsTrimmed(content: string)
    ensures TrimEnd(Cleaned(content)) == Cleaned(content)
  {
    hide Lines, Kept, Join;
    var t := Cleaned(content);
    TrimEndAt(t, |t|);
  }

  /** Writing one URL and then another is the same as writing the second at once if and only if, in
      what the first cleaning keeps, no line ends in a CR and no line is one of our headers. */
  lemma LastWriteWinsIff(content: string, url1: string, url2: string)
    ensures Upserted(Upserted(content, url1), url2) == Upserted(content, url2) <==> Settled(Cleaned(content))
  {
    hide Settled, Cleaned, WithSection, SectionLines, Join;
    var cleaned := Cleaned(content);
    CleanedIsTrimmed(content);
    if Settled(cleaned) {
      CleaningSettled(cleaned, url1);
    } else {
      CleaningUnsettled(cleaned, url1);
      WithSectionLength(cleaned, url2);
      WithSectionLength(Cleaned(WithSection(cleaned, url1)), url2);
    }
  }

  // ---- What a written file holds ----

  lemma TrimEndOfConcat(a: string, b: string)
    ensures TrimEnd(b) != "" ==> TrimEnd(a + b) == a + TrimEnd(b)
    ensures TrimEnd(b) == "" ==> TrimEnd(a + b) == TrimEnd(a)
  {
    var t := TrimEnd(b);
    var all := a + b;
    if t != "" {
      var n := |a| + |t|;
      assert all[..n] == a + t && all[n - 1] == t[|t| - 1];
      forall i | n <= i < |all| ensures IsSpace(all[i]) {
        assert all[i] == b[i - |a|];
      }
      TrimEndAt(all, n);
    } else {
      var n := |TrimEnd(a)|;
      assert all[..n] == a[..n];
      forall i | n <= i < |all| ensures IsSpace(all[i]) {
        assert all[i] == if i < |a| then a[i] else b[i - |a|];
      }
      assert n > 0 ==> all[n - 1] == a[n - 1];
      TrimEndAt(all, n);
    }
  }

  /** Trimming the end of joined lines drops a blank last line, and trims any other last line. */
  lemma TrimEndOfLast(init: seq<string>, last: string)
    ensures TrimEnd(last) != "" ==> TrimEnd(Join(init + [last], "\n")) == Join(init + [TrimEnd(last)], "\n")
    ensures TrimEnd(last) == "" ==> TrimEnd(Join(init + [last], "\n")) == TrimEnd(Join(init, "\n"))
  {
    hide *;
    JoinOne(last);
    JoinOne(TrimEnd(last));
    if init == [] {
      NothingTrims();
      assert init + [last] == [last] && init + [TrimEnd(last)] == [TrimEnd(last)];
    } else {
      var front := Join(init, "\n");
      JoinConcat(init, [last], "\n");
      JoinConcat(init, [TrimEnd(last)], "\n");
      TrimEndOfConcat(front + "\n", last);
      TrimEndOfBreak(front);
    }
  }

  lemma NothingTrims()
    ensures TrimEnd(Join([], "\n")) == ""
  {
  }

  /** Trimming the end of joined lines drops the blank lines at the end and trims the last line that
      stays; `n` lines stay. */
  lemma {:induction false} TrimmedLines(lines: seq<string>) returns (n: nat)
    ensures n <= |lines| && forall i | n <= i < |lines| :: TrimEnd(lines[i]) == ""
    ensures n > 0 ==> TrimEnd(lines[n - 1]) != ""
    ensures TrimEnd(Join(lines, "\n"))
            == if n == 0 then "" else Join(lines[..n - 1] + [TrimEnd(lines[n - 1])], "\n")
  {
    hide *;
    NothingTrims();
    if lines == [] {
      n := 0;
    } else {
      var init, last := lines[..|lines| - 1], lines[|lines| - 1];
      assert lines == init + [last];
      TrimEndOfLast(init, last);
      if TrimEnd(last) != "" {
        n := |lines|;
      } else {
        n := TrimmedLines(init);
        assert n > 0 ==> init[..n - 1] == lines[..n - 1];
      }
    }
  }

  lemma {:induction false} LinesChars(s: string)
    ensures forall l <- Lines(s), c <- l :: c in s && c != '\n'
    decreases |s|
  {
    if s == "" {
    } else if BreakAt(s) {
      LinesChars(AfterBreak(s));
    } else {
      LinesChars(s[1..]);
      var rest := Lines(s[1..]);
      assert rest[0] in rest;
    }
  }

  lemma {:induction false} KeptIsOfLines(lines: seq<string>, skipping: bool)
    ensures forall l <- Kept(lines, skipping) :: l in lines && !IsOurHeader(l)
  {
    hide IsHeader, IsOpenVikingTomlSection;
    if lines != [] {
      KeptIsOfLines(lines[1..], Skips(lines[0], skipping));
    }
  }

  /** The lines of the cleaned text: the kept ones without blank lines at the end, the last one
      trimmed. */
  lemma CleanedLines(content: string) returns (n: nat)
    ensures var kept := Kept(Lines(content), false);
            && n <= |kept| && (forall i | n <= i < |kept| :: TrimEnd(kept[i]) == "")
            && (n == 0 <==> Cleaned(content) == "") && (n > 0 ==> TrimEnd(kept[n - 1]) != "")
            && (n > 0 ==> Split(Cleaned(content), '\n') == kept[..n - 1] + [TrimEnd(kept[n - 1])])
  {
    hide TrimEnd, Join, Kept, Lines, Split;
    var kept := Kept(Lines(content), false);
    n := TrimmedLines(kept);
    if n > 0 {
      var lines := kept[..n - 1] + [TrimEnd(kept[n - 1])];
      LinesChars(content);
      KeptIsOfLines(Lines(content), false);
      forall i | 0 <= i < n ensures '\n' !in kept[i] {
        assert kept[i] in kept && kept[i] in Lines(content);
      }
      SplitOfJoin(lines, '\n');
      JoinLength(lines);
      TotalOfLast(kept[..n - 1], TrimEnd(kept[n - 1]));
    }
  }

  /** How many lines are left when blank lines at the end are dropped. */
  function VisibleCount(lines: seq<string>): (n: nat)
    ensures n <= |lines| && forall i | n <= i < |lines| :: TrimEnd(lines[i]) == ""
    ensures n > 0 ==> TrimEnd(lines[n - 1]) != ""
  {
    if lines == [] then 0
    else if TrimEnd(lines[|lines| - 1]) != "" then |lines|
    else VisibleCount(lines[..|lines| - 1])
  }

  /** No kept line but the last visible one ends in a CR, and that one, without the white space behind
      it, is no header of ours. */
  predicate KeptAreSettled(content: string) {
    var kept := Kept(Lines(content), false);
    var n := VisibleCount(kept);
    && (forall i | 0 <= i < n - 1 :: !EndsInCR(kept[i]))
    && (n > 0 ==> !IsOurHeader(TrimEnd(kept[n - 1])))
  }

  lemma SettledIffKept(content: string)
    ensures Settled(Cleaned(content)) <==> KeptAreSettled(content)
  {
    hide Lines, Kept, Cleaned, Split, IsOurHeader, TrimEnd, EndsInCR, VisibleCount;
    var kept := Kept(Lines(content), false);
    var n := CleanedLines(content);
    assert n == VisibleCount(kept);
    if n == 0 {
      EmptyIsSettled();
    } else {
      var head := Split(Cleaned(content), '\n');
      var last := TrimEnd(kept[n - 1]);
      KeptIsOfLines(Lines(content), false);
      TrimmedEndsVisibly(kept[n - 1]);
      assert |head| == n && head[n - 1] == last && forall i | 0 <= i < n - 1 :: head[i] == kept[i];
      if Settled(Cleaned(content)) {
        assert forall i | 0 <= i < n :: head[i] in head;
      }
      if KeptAreSettled(content) {
        forall l | l in head ensures !EndsInCR(l) && !IsOurHeader(l) {
          var i :| 0 <= i < n && head[i] == l;
          assert kept[i] in kept;
        }
      }
    }
  }

  lemma TrimmedEndsVisibly(line: string)
    ensures !EndsInCR(TrimEnd(line))
  {
    assert IsSpace('\r');
  }

  /** The same condition on the lines of the input that are kept: writing one URL and then another is
      the same as writing the second at once if and only if none of them, but for the last visible one,
      ends in a CR, and that one, trimmed, is no header of ours. */
  lemma LastWriteWinsIffKept(content: string, url1: string, url2: string)
    ensures Upserted(Upserted(content, url1), url2) == Upserted(content, url2) <==> KeptAreSettled(content)
  {
    hide *;
    LastWriteWinsIff(content, url1, url2);
    SettledIffKept(content);
  }

  lemma {:induction false} TotalOfLast(lines: seq<string>, last: string)
    ensures Total(lines + [last]) >= |last| + 1
  {
    if lines == [] {
      assert lines + [last] == [last];
    } else {
      assert (lines + [last])[1..] == lines[1..] + [last];
      TotalOfLast(lines[1..], last);
    }
  }

  function OurHeaders(lines: seq<string>): seq<string> {
    if lines == [] then []
    else (if IsOurHeader(lines[0]) then [lines[0]] else []) + OurHeaders(lines[1..])
  }

  lemma {:induction false} NoOurHeaders(lines: seq<string>, rest: seq<string>)
    requires forall l <- lines :: !IsOurHeader(l)
    ensures OurHeaders(lines + rest) == OurHeaders(rest)
  {
    hide IsOurHeader;
    if lines == [] {
      assert lines + rest == rest;
    } else {
      assert lines[0] in lines && (lines + rest)[1..] == lines[1..] + rest;
      NoOurHeaders(lines[1..], rest);
    }
  }

  lemma OurHeadersOfSection(url: string)
    ensures OurHeaders(SectionLines(url) + [""]) == ["[mcp_servers.ova_mcp]"]
  {
    hide IsHeader, IsOpenVikingTomlSection, ArgsLine;
    var rest := ["type = \"stdio\"", "command = \"npx\"", ArgsLine(url), ""];
    OurHeaderIsOurs();
    ArgsIsPlain(url);
    forall l | l in rest ensures !IsOurHeader(l) {
      NoBracketNoHeader(l);
    }
    NoOurHeaders(rest, []);
    assert rest + [] == rest;
    assert SectionLines(url) + [""] == ["[mcp_servers.ova_mcp]"] + rest;
    assert (["[mcp_servers.ova_mcp]"] + rest)[1..] == rest;
  }

  /** A written file has the kept lines in their order, up to white space at the end, then the new
      section; and if the first cleaning left a settled text, that section's header is the only one
      of ours. */
  lemma WrittenHolds(content: string, url: string) returns (n: nat)
    requires Settled(Cleaned(content))
    ensures var kept := Kept(Lines(content), false);
            && n <= |kept| && (forall i | n <= i < |kept| :: TrimEnd(kept[i]) == "")
            && Lines(Upserted(content, url))
               == (if n == 0 then [] else kept[..n - 1] + [TrimEnd(kept[n - 1])] + [""]) + (SectionLines(url) + [""])
    ensures OurHeaders(Lines(Upserted(content, url))) == ["[mcp_servers.ova_mcp]"]
  {
    hide Lines, Kept, Cleaned, WithSection, Split, SectionLines, OurHeaders, IsOurHeader, EndsInCR, TrimEnd;
    n := CleanedLines(content);
    var cleaned := Cleaned(content);
    var tail := SectionLines(url) + [""];
    OurHeadersOfSection(url);
    if cleaned == "" {
      LinesOfSection(url);
      assert [] + tail == tail;
    } else {
      var head := Split(cleaned, '\n');
      LinesOfWritten(cleaned, url);
      NothingDropped(head);
      assert head + ([""] + tail) == (head + [""]) + tail;
      assert !IsOurHeader("") by { NoBracketIsNotOurs(); }
      NoOurHeaders(head + [""], tail);
    }
  }

  lemma NoBracketIsNotOurs()
    ensures !IsOurHeader("")
  {
    NoBracketNoHeader("");
  }

  // ---- Ordinary files are settled ----

  lemma TailOkPadded(tail: string, right: string)
    requires TailOk(tail) && DotOnly(right) && forall c <- right :: IsSpace(c)
    ensures TailOk(tail + right)
  {
    var n := LeadingSpaces(tail);
    var all := tail + right;
    if n == |tail| {
      forall i | 0 <= i < |all| ensures IsSpace(all[i]) {
        assert i >= |tail| ==> all[i] in right;
      }
      LeadingSpacesAt(all, |all|);
    } else {
      assert forall i | 0 <= i < n :: all[i] == tail[i];
      LeadingSpacesAt(all, n);
      assert all[n..] == tail[n..] + right;
    }
  }

  lemma {:induction false} ClosingPadded(s: string, right: string)
    requires ClosingAt(s) < |s|
    ensures ClosingAt(s + right) == ClosingAt(s)
  {
    assert (s + right)[0] == s[0];
    if s[0] != ']' {
      assert (s + right)[1..] == s[1..] + right;
      ClosingPadded(s[1..], right);
    }
  }

  lemma PaddedHeader(t: string, right: string, line: string, bare: string)
    requires t != "" && TrimStart(line) == t + right && TrimStart(bare) == t
    requires DotOnly(right) && forall c <- right :: IsSpace(c)
    ensures IsHeader(bare) ==> IsHeader(line)
  {
    hide TrimStart, TailOk, DotOnly;
    var all := t + right;
    if IsHeader(bare) {
      var q :| 2 <= q < |t| && t[q] == ']' && DotOnly(t[1..q]) && TailOk(t[q + 1..]);
      assert all[q] == ']' && all[1..q] == t[1..q] && all[q + 1..] == t[q + 1..] + right;
      TailOkPadded(t[q + 1..], right);
    }
  }

  lemma PaddedName(t: string, right: string, line: string, bare: string)
    requires t != "" && TrimStart(line) == t + right && TrimStart(bare) == t
    requires DotOnly(right) && forall c <- right :: IsSpace(c)
    ensures SectionName(bare).Some? ==> SectionName(line) == SectionName(bare)
  {
    hide TrimStart, TailOk, Trim, DotOnly, ClosingAt;
    var all := t + right;
    var c := ClosingAt(t);
    if SectionName(bare).Some? {
      ClosingPadded(t, right);
      var tail := t[c + 1..];
      assert all[c + 1..] == tail + right;
      TailOkPadded(if tail != "" && tail[0] == ']' then tail[1..] else tail, right);
      assert tail != "" ==> (tail + right)[1..] == tail[1..] + right;
      assert tail == "" ==> tail + right == right && (right != "" ==> IsSpace(right[0]) && right[0] != ']');
      var a := if c > 2 && t[1] == '[' then 2 else 1;
      assert all[a..c] == t[a..c];
    }
  }

  lemma PaddedHeaderIsHeader(t: string, right: string, line: string, bare: string)
    requires t != "" && TrimStart(line) == t + right && TrimStart(bare) == t
    requires DotOnly(right) && forall c <- right :: IsSpace(c)
    requires IsOurHeader(bare)
    ensures IsOurHeader(line)
  {
    hide IsHeader, SectionName, TrimStart;
    PaddedHeader(t, right, line, bare);
    PaddedName(t, right, line, bare);
  }

  lemma TrimmedHeaderIsHeader(line: string)
    requires DotOnly(line) && IsOurHeader(TrimEnd(line))
    ensures IsOurHeader(line)
  {
    hide IsOurHeader, Trim, TrimEnd;
    var left, right := Padding(line);
    var t, bare := Trim(line), TrimEnd(line);
    if t == "" {
      NoBracketIsNotOurs();
    } else {
      TrimIsTrimmed(line);
      LeadingSpacesAt(left + t, |left|);
      assert (left + t)[|left|..] == t;
      assert forall c <- right :: c in line;
      PaddedHeaderIsHeader(t, right, line, bare);
    }
  }

  /** Every text whose CRs all stand in front of an LF, and which has no other line terminators, is
      settled after cleaning; so the last write wins. */
  lemma OrdinaryIsSettled(content: string)
    requires NoLoneCR(content)
    requires forall c <- content :: IsLineTerminator(c) ==> c == '\r' || c == '\n'
    ensures Settled(Cleaned(content))
  {
    hide Lines, Kept, Cleaned, Split, IsOurHeader, TrimEnd;
    var n := CleanedLines(content);
    if n == 0 {
      EmptyIsSettled();
    } else {
      var kept := Kept(Lines(content), false);
      LinesHaveNoBreaks(content);
      LinesChars(content);
      KeptIsOfLines(Lines(content), false);
      var head := Split(Cleaned(content), '\n');
      var last := kept[n - 1];
      forall i | 0 <= i < n ensures DotOnly(kept[i]) && !IsOurHeader(kept[i]) {
        assert kept[i] in kept && kept[i] in Lines(content);
        forall c | c in kept[i] ensures !IsLineTerminator(c) {
          assert c in content && !IsLineEnd(c);
        }
      }
      if IsOurHeader(TrimEnd(last)) {
        TrimmedHeaderIsHeader(last);
      }
      assert !IsOurHeader(TrimEnd(last));
      assert DotOnly(TrimEnd(last));
      forall l | l in head ensures !EndsInCR(l) && !IsOurHeader(l) {
        assert DotOnly(l) && IsLineTerminator('\r');
      }
    }
  }

  /** A text with a stray CR for which the second write does not win: the line it ends is kept, and
      is shorter the second time. */
  lemma StrayCRCounterexample(url1: string, url2: string)
    ensures Upserted(Upserted("a\r\r\nb", url1), url2) != Upserted("a\r\r\nb", url2)
  {
    hide Upserted, Lines, IsHeader, Kept;
    var content := "a\r\r\nb";
    LinesFirst("a\r\r", "b");
    LinesNone("b");
    assert "a\r\r" + "\n" + "b" == content && DropCR("a\r\r") == "a\r";
    assert Lines(content) == ["a\r", "b"];
    NoBracketNoHeader("a\r");
    NoBracketNoHeader("b");
    KeptPlain(["a\r", "b"], false);
    assert Join(["a\r", "b"], "\n") == "a\r\nb" by { assert ["a\r", "b"][1..] == ["b"]; }
    TrimEndAt("a\r\nb", 4);
    assert Cleaned(content) == "a\r\nb";
    SplitFirst("a\r", "b", '\n');
    assert "a\r" + ['\n'] + "b" == "a\r\nb";
    assert EndsInCR("a\r") && "a\r" in Split("a\r\nb", '\n');
    LastWriteWinsIff(content, url1, url2);
  }

  // ---- The URL can be read back ----

  function HexValue(c: char): int {
    if '0' <= c <= '9' then c as int - '0' as int
    else if 'a' <= c <= 'f' then c as int - 'a' as int + 10
    else 0
  }

  /** Reads a string literal up to its closing quote. */
  function ReadChars(s: string): Option<(string, string)>
    decreases |s|
  {
    if s == "" then None
    else if s[0] == '"' then Some(("", s[1..]))
    else if s[0] != '\\' then Prepend(s[0], ReadChars(s[1..]))
    else if |s| > 1 && s[1] != 'u' then Prepend(Unescaped(s[1]), ReadChars(s[2..]))
    else if |s| > 5 then Prepend((HexValue(s[4]) * 16 + HexValue(s[5])) as char, ReadChars(s[6..]))
    else None
  }

  function Unescaped(c: char): char {
    if c == 'b' then 8 as char
    else if c == 'f' then 12 as char
    else if c == 'n' then '\n'
    else if c == 'r' then '\r'
    else if c == 't' then '\t'
    else c
  }

  function Prepend(c: char, r: Option<(string, string)>): Option<(string, string)> {
    match r
    case None => None
    case Some((s, rest)) => Some(([c] + s, rest))
  }

  lemma ReadJsonChar(c: char, s: string)
    ensures ReadChars(JsonChar(c) + s) == Prepend(c, ReadChars(s))
  {
    var e := JsonChar(c);
    assert (e + s)[|e|..] == s;
    if e[0] == '\\' {
      assert (e + s)[1] == e[1];
      if |e| == 6 {
        assert (e + s)[4] == e[4] && (e + s)[5] == e[5];
        assert HexValue(HexDigit(c as int / 16)) == c as int / 16;
        assert HexValue(HexDigit(c as int % 16)) == c as int % 16;
      }
    }
  }

  /** The quoted URL, read as a JSON or TOML string, is the URL. */
  lemma {:induction false} UrlComesBack(url: string, rest: string)
    ensures ReadChars(JsonChars(url) + "\"" + rest) == Some((url, rest))
  {
    hide JsonChar;
    if url == "" {
      assert (JsonChars(url) + "\"" + rest)[1..] == rest;
    } else {
      var more := JsonChars(url[1..]) + "\"" + rest;
      UrlComesBack(url[1..], rest);
      ReadJsonChar(url[0], more);
      assert JsonChars(url) + "\"" + rest == JsonChar(url[0]) + more;
      assert [url[0]] + url[1..] == url;
    }
  }
}
