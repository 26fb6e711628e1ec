/** What the block parser makes of the spellings that the printer never uses, and where blocks that are
    not separated by a blank line end. */
module Spellings {
  import opened Text
  import opened DocumentTypes
  import opened InlineParser
  import opened LineRecognizers
  import opened BlockParser
  import opened FenceSafety
  import opened ListRoundTrip
  import opened BlockRoundTrip
  import opened LineEndings

  predicate IsSpaces(s: string) {
    forall c <- s :: IsSpace(c)
  }

  /** The block the lines begin with. */
  ghost predicate Reads(lines: seq<string>, block: Block, used: nat) {
    lines != [] && !IsBlank(lines[0]) && NextBlock(lines) == Step([block], used)
  }

  // ---- Where a paragraph ends ----

  lemma ForestOfSome(items: seq<Marker>)
    requires items != []
    ensures Forest(items) != [] && Forest(items)[0].shape.IsListItem()
  {
  }

  lemma ListStepIsList(lines: seq<string>)
    requires lines != [] && MatchListItem(lines[0]).Some?
    ensures ListStep(lines).blocks != [] && ListStep(lines).blocks[0].shape.IsListItem()
  {
    hide MatchListItem, Forest;
    ForestOfSome(CollectItems(lines).items);
  }

  /** The lines begin with a paragraph. */
  predicate BeginsParagraph(lines: seq<string>) {
    && lines != [] && !IsBlank(lines[0])
    && NextBlock(lines).blocks != [] && NextBlock(lines).blocks[0].shape.Paragraph?
  }

  predicate BeginsTable(lines: seq<string>) {
    && lines != [] && !IsBlank(lines[0])
    && NextBlock(lines).blocks != [] && NextBlock(lines).blocks[0].shape.Table?
  }

  lemma NextBlockKind(lines: seq<string>)
    requires lines != [] && !IsBlank(lines[0])
    ensures BeginsParagraph(lines) <==> !StartsBlock(lines[0]) && !IsTableStart(lines)
    ensures !StartsBlock(lines[0]) && IsTableStart(lines) ==> BeginsTable(lines)
    ensures BeginsParagraph(lines) ==> NextBlock(lines) == ParagraphStep(lines)
  {
    hide MatchFenceStart, IsHorizontalRule, MatchHeading, MatchListItem, IsBlockquote, MatchStandaloneImage,
      IsAlignmentLine, ListStep, CollectItems, Forest, IsBlank, Trim, ParseInline, FileName;
    if MatchListItem(lines[0]).Some? {
      ListStepIsList(lines);
    }
  }

  lemma {:induction false} CountWhileMeans(p: string -> bool, lines: seq<string>)
    ensures forall k | 0 <= k < CountWhile(p, lines) :: p(lines[k])
    ensures CountWhile(p, lines) < |lines| ==> !p(lines[CountWhile(p, lines)])
  {
    if lines != [] && p(lines[0]) {
      CountWhileMeans(p, lines[1..]);
      forall k | 0 < k < CountWhile(p, lines) ensures p(lines[k]) {
        assert lines[k] == lines[1..][k - 1];
      }
    }
  }

  /** A paragraph goes on over exactly the lines that would not start another block themselves: from
      any of its lines on there would be a paragraph or a table, and behind it there is nothing, or a
      blank line, or some block that is not a paragraph. */
  lemma ParagraphEndsAtBlocks(lines: seq<string>, n: nat)
    requires BeginsParagraph(lines) && n == NextBlock(lines).used
    ensures n <= |lines|
    ensures forall k | 0 <= k < n :: BeginsParagraph(lines[k..]) || BeginsTable(lines[k..])
    ensures !BeginsParagraph(lines[n..])
  {
    hide IsTableStart, ParseInline, NextBlock, IsBlank, StartsStructuredBlock, BeginsParagraph, BeginsTable;
    BeginsMeans(lines);
    NextBlockKind(lines);
    CountWhileMeans(ParagraphLines(), lines);
    forall k | 0 <= k < n ensures BeginsParagraph(lines[k..]) || BeginsTable(lines[k..]) {
      assert !StartsBlock(lines[k]);
      BlankStarts(lines[k]);
      assert lines[k..][0] == lines[k];
      NextBlockKind(lines[k..]);
    }
    if BeginsParagraph(lines[n..]) {
      BeginsMeans(lines[n..]);
      NextBlockKind(lines[n..]);
      assert false;
    }
  }

  lemma BeginsMeans(lines: seq<string>)
    requires BeginsParagraph(lines)
    ensures lines != [] && !IsBlank(lines[0])
  {
  }

  lemma BlankStarts(line: string)
    ensures IsBlank(line) ==> StartsBlock(line)
  {
  }

  // ---- The text of a paragraph ----

  /** `lines` are the texts with white space on either side. */
  ghost predicate Pads(lines: seq<string>, texts: seq<string>) {
    && |lines| == |texts|
    && forall i | 0 <= i < |lines| ::
         exists left, right :: IsSpaces(left) && IsSpaces(right) && lines[i] == left + texts[i] + right
  }

  predicate AllTrimmed(texts: seq<string>) {
    forall t <- texts :: t != "" && Trimmed(t)
  }

  lemma {:induction false} TrimAllAt(lines: seq<string>, i: nat)
    requires i < |lines|
    ensures TrimAll(lines)[i] == Trim(lines[i])
  {
    if i > 0 {
      TrimAllAt(lines[1..], i - 1);
    }
  }

  lemma PaddedTexts(lines: seq<string>, texts: seq<string>)
    requires Pads(lines, texts) && AllTrimmed(texts)
    ensures TrimAll(lines) == texts
  {
    hide Trim;
    forall i | 0 <= i < |lines| ensures TrimAll(lines)[i] == texts[i] {
      TrimAllAt(lines, i);
      var left, right :| IsSpaces(left) && IsSpaces(right) && lines[i] == left + texts[i] + right;
      assert texts[i] in texts;
      TrimOfPadded(left, texts[i], right);
    }
  }

  lemma {:induction false} JoinOfTrimmed(texts: seq<string>, sep: string)
    requires texts != [] && AllTrimmed(texts)
    ensures Join(texts, sep) != "" && Trimmed(Join(texts, sep))
  {
    assert texts[0] in texts;
    if |texts| > 1 {
      assert AllTrimmed(texts[1..]) by { assert forall t <- texts[1..] :: t in texts; }
      JoinOfTrimmed(texts[1..], sep);
      var rest := Join(texts[1..], sep);
      assert Join(texts, sep)[|Join(texts, sep)| - 1] == rest[|rest| - 1];
    }
  }

  /** The lines of a paragraph are joined by single spaces, without the white space around them. */
  lemma ParagraphJoinsLines(lines: seq<string>, texts: seq<string>, rest: seq<string>)
    requires lines != [] && Pads(lines, texts) && AllTrimmed(texts)
    requires (forall line <- lines :: !StartsBlock(line)) && !IsTableStart(lines + rest)
    requires rest == [] || IsBlank(rest[0]) || StartsBlock(rest[0])
    ensures Reads(lines + rest, Leaf(Paragraph(ParseInline(Join(texts, " ")))), |lines|)
  {
    hide StartsBlock, IsTableStart, NextBlock, IsBlank, Trim, ParseInline, Join, TrimAll, Trimmed, AllTrimmed, Pads,
      BeginsParagraph, BeginsTable;
    assert lines[0] in lines;
    BlankStarts(lines[0]);
    assert (lines + rest)[0] == lines[0];
    NextBlockKind(lines + rest);
    assert |texts| == |lines| by { assert Pads(lines, texts); PadsMeans(lines, texts); }
    if rest != [] {
      BlankStarts(rest[0]);
    }
    forall i | 0 <= i < |lines| ensures ParagraphLines()(lines[i]) {
      assert lines[i] in lines;
    }
    CountWhileIs(ParagraphLines(), lines, rest);
    assert (lines + rest)[..|lines|] == lines;
    PaddedTexts(lines, texts);
    JoinOfTrimmed(texts, " ");
    TrimOfTrimmed(Join(texts, " "));
  }

  lemma PadsMeans(lines: seq<string>, texts: seq<string>)
    requires Pads(lines, texts)
    ensures |texts| == |lines|
  {
  }

  // ---- Fences ----

  /** A line that cannot close a fence of `n` markers: it has some other character, or is too short. */
  predicate CannotClose(line: string, marker: char, n: nat) {
    |Trim(line)| < n || exists c <- line :: c != marker && !IsSpace(c)
  }

  lemma CannotCloseMeans(line: string, fence: Fence)
    requires CannotClose(line, fence.marker, fence.length)
    ensures !IsFenceEnd(line, fence)
  {
    if |Trim(line)| >= fence.length && All(Trim(line), fence.marker) {
      NothingElse(line, fence.marker);
      assert false;
    }
  }

  lemma NothingElse(line: string, c: char)
    requires All(Trim(line), c)
    ensures forall d <- line :: d == c || IsSpace(d)
  {
    hide Trim, IsSpace;
    var left, right := Padding(line);
    var core := Trim(line);
    forall d | d in line ensures d == c || IsSpace(d) {
      assert d in left || d in core || d in right;
    }
  }

  lemma FenceOpens(indent: string, marker: char, n: nat, info: string)
    requires IsSpaces(indent) && (marker == '`' || marker == '~') && n >= 3
    requires '`' !in info && (info == "" || info[0] != marker)
    ensures MatchFenceStart(indent + Repeat(marker, n) + info) == Some(Fence(marker, n, Trim(info)))
    ensures !IsBlank(indent + Repeat(marker, n) + info)
  {
    hide Trim, IsBlank;
    var body := Repeat(marker, n) + info;
    var line := indent + body;
    assert body[0] == marker && !IsSpace(marker);
    LeadingSpacesAt(line, |indent|);
    assert TrimStart(line) == body;
    assert body[..n] == Repeat(marker, n) && body[n..] == info;
    RunLengthIs(body, marker, n);
    assert line == indent + Repeat(marker, n) + info;
    FenceIsNotBlank(line);
  }

  lemma FenceCloses(left: string, marker: char, m: nat, right: string, fence: Fence)
    requires IsSpaces(left) && IsSpaces(right) && (marker == '`' || marker == '~') && fence.marker == marker
    requires m >= fence.length && m > 0
    ensures IsFenceEnd(left + Repeat(marker, m) + right, fence)
  {
    TrimOfPadded(left, Repeat(marker, m), right);
  }

  /** A fence of at least three backticks or tildes takes all lines up to the first that repeats its
      marker as often, as they are; without such a line it takes all there are. */
  lemma FenceIsRead(indent: string, marker: char, n: nat, info: string, body: seq<string>,
                    left: string, m: nat, right: string, rest: seq<string>)
    requires IsSpaces(indent) && (marker == '`' || marker == '~') && n >= 3
    requires '`' !in info && (info == "" || info[0] != marker)
    requires forall line <- body :: CannotClose(line, marker, n)
    requires IsSpaces(left) && IsSpaces(right) && m >= n
    ensures var open, close := indent + Repeat(marker, n) + info, left + Repeat(marker, m) + right;
            var code := Leaf(CodeBlock(Trim(info), ParseInline(Join(body, "\n"))));
            Reads([open] + body + [close] + rest, code, |body| + 2) && Reads([open] + body, code, |body| + 1)
  {
    hide *;
    var open, close := indent + Repeat(marker, n) + info, left + Repeat(marker, m) + right;
    var fence := Fence(marker, n, Trim(info));
    FenceOpens(indent, marker, n, info);
    FenceCloses(left, marker, m, right, fence);
    forall i | 0 <= i < |body| ensures !IsFenceEnd(body[i], fence) {
      assert body[i] in body;
      CannotCloseMeans(body[i], fence);
    }
    FencedReads(open, fence, body, [close] + rest);
    FencedReads(open, fence, body, []);
    assert [open] + body + [close] + rest == [open] + body + ([close] + rest);
    assert [open] + body + [] == [open] + body;
  }

  lemma FencedReads(open: string, fence: Fence, body: seq<string>, rest: seq<string>)
    requires !IsBlank(open) && MatchFenceStart(open) == Some(fence)
    requires forall i | 0 <= i < |body| :: !IsFenceEnd(body[i], fence)
    requires rest == [] || IsFenceEnd(rest[0], fence)
    ensures Reads([open] + body + rest, Leaf(CodeBlock(fence.language, ParseInline(Join(body, "\n")))),
                  |body| + if rest == [] then 1 else 2)
  {
    hide *;
    var lines := [open] + body + rest;
    assert lines[0] == open && lines[1..] == body + rest;
    FenceBodyIs(fence);
    CountWhileIs(FenceBody(fence), body, rest);
    assert (body + rest)[..|body|] == body;
    CodeTextIs(lines[1..], fence, Join(body, "\n"));
    CodeStepIs(lines, fence, Join(body, "\n"));
    CodeNext(lines, fence);
    ReadsIntro(lines, Leaf(CodeBlock(fence.language, ParseInline(Join(body, "\n")))),
               |body| + if rest == [] then 1 else 2);
  }

  lemma ReadsIntro(lines: seq<string>, block: Block, used: nat)
    requires lines != [] && !IsBlank(lines[0]) && NextBlock(lines) == Step([block], used)
    ensures Reads(lines, block, used)
  {
  }

  // ---- Rules ----

  /** Signs with white space between them. */
  function Spread(c: char, gaps: seq<string>): string {
    if gaps == [] then [c] else [c] + gaps[0] + Spread(c, gaps[1..])
  }

  lemma {:induction false} CountOfConcat(a: string, b: string, c: char)
    ensures CountOf(a + b, c) == CountOf(a, c) + CountOf(b, c)
  {
    if a == "" {
      assert a + b == b;
    } else {
      assert (a + b)[1..] == a[1..] + b;
      CountOfConcat(a[1..], b, c);
    }
  }

  lemma {:induction false} CountOfSpaces(s: string, c: char)
    requires IsSpaces(s) && !IsSpace(c)
    ensures CountOf(s, c) == 0
  {
    if s != "" {
      CountOfSpaces(s[1..], c);
    }
  }

  lemma {:induction false} SpreadIs(c: char, gaps: seq<string>)
    requires !IsSpace(c) && forall gap <- gaps :: IsSpaces(gap)
    ensures var s := Spread(c, gaps);
            s != "" && s[0] == c && s[|s| - 1] == c && OnlySpaceAnd(s, c) && CountOf(s, c) == |gaps| + 1
  {
    hide CountOf, IsSpace;
    CountOfOne(c);
    if gaps != [] {
      assert gaps[0] in gaps && forall gap <- gaps[1..] :: gap in gaps;
      SpreadIs(c, gaps[1..]);
      CountOfConcat([c] + gaps[0], Spread(c, gaps[1..]), c);
      CountOfConcat([c], gaps[0], c);
      CountOfSpaces(gaps[0], c);
    }
  }

  lemma CountOfOne(c: char)
    ensures CountOf([c], c) == 1
  {
    assert [c][1..] == "";
  }

  /** At least three stars, dashes or underscores, with any white space around and between them, are a
      rule. */
  lemma RuleIsRead(c: char, gaps: seq<string>, left: string, right: string, rest: seq<string>)
    requires (c == '*' || c == '-' || c == '_') && |gaps| >= 2
    requires IsSpaces(left) && IsSpaces(right) && forall gap <- gaps :: IsSpaces(gap)
    ensures Reads([left + Spread(c, gaps) + right] + rest, Leaf(HorizontalRule), 1)
  {
    hide CountOf, CodeStep, ListStep, QuoteStep, TableStep, ParagraphStep, Spread, MatchHeading, MatchListItem,
      TrimStart, TrimEnd, Trim;
    var s := Spread(c, gaps);
    var line := left + s + right;
    SpreadIs(c, gaps);
    TrimOfPadded(left, s, right);
    NoFence(left, s + right, c);
    assert line == left + (s + right);
    assert ([line] + rest)[0] == line;
  }

  lemma NoFence(left: string, body: string, c: char)
    requires IsSpaces(left) && body != "" && body[0] == c && !IsSpace(c) && c != '`' && c != '~'
    ensures MatchFenceStart(left + body).None?
  {
    LeadingSpacesAt(left + body, |left|);
    assert TrimStart(left + body) == body;
  }

  // ---- Headings ----

  /** The end of a heading has nothing but white space and hash signs. */
  lemma TailIsSpaceOrHash(s: string)
    requires IsHeadingTail(s)
    ensures forall c <- s :: IsSpace(c) || c == '#'
  {
    var n := LeadingSpaces(s);
    var t := s[n..];
    var k := RunLength(t, '#');
    RunLengthIsRun(t, '#');
    BlankIsAllSpace(t[k..]);
    forall i | 0 <= i < |s| ensures IsSpace(s[i]) || s[i] == '#' {
      if n <= i < n + k {
        assert s[i] == t[..k][i - n];
      } else if i >= n + k {
        assert s[i] == t[k..][i - n - k];
      }
    }
  }

  lemma ClosingIsTail(gap: string, k: nat)
    requires IsSpaces(gap)
    ensures IsHeadingTail(gap + Repeat('#', k))
  {
    var s := gap + Repeat('#', k);
    LeadingSpacesAt(s, |gap|);
    var t := TrimStart(s);
    assert t == Repeat('#', k);
    RunLengthIs(t, '#', k);
    assert t[k..] == "";
    TrimOfTrimmed("");
  }

  lemma {:induction false} HeadingTextStops(rest: string, m: nat, n: nat)
    requires 1 <= n <= m <= |rest| && !IsSpace(rest[m - 1]) && rest[m - 1] != '#' && IsHeadingTail(rest[m..])
    ensures HeadingTextLength(rest, n) == m
    decreases m - n
  {
    hide IsHeadingTail;
    if n < m {
      var tail := rest[n..];
      assert tail[m - 1 - n] in tail;
      assert !IsHeadingTail(tail) by {
        if IsHeadingTail(tail) {
          TailIsSpaceOrHash(tail);
        }
      }
      HeadingTextStops(rest, m, n + 1);
    }
  }

  /** A heading of one to six hash signs loses the hash signs that close it. */
  lemma ClosedHeadingIsRead(left: string, level: nat, gap: string, text: string, end: string, k: nat, right: string,
                            rest: seq<string>)
    requires 1 <= level <= 6 && IsSpaces(left) && gap != "" && IsSpaces(gap) && IsSpaces(end) && IsSpaces(right)
    requires text != "" && Trimmed(text) && DotOnly(text) && text[|text| - 1] != '#' && (k == 0 ==> end == "")
    ensures var line := left + (Repeat('#', level) + gap + text + end + Repeat('#', k)) + right;
            Reads([line] + rest, Leaf(Heading(level, ParseInline(text))), 1)
  {
    hide *;
    var core := Repeat('#', level) + gap + text + end + Repeat('#', k);
    var line := left + core + right;
    CoreIsTrimmed(level, gap, text, end, k);
    SpacesAre(left);
    SpacesAre(right);
    TrimOfPadded(left, core, right);
    HeadingCore(level, gap, text, end, k);
    HashLineNext(left, core, right, level, text, rest);
  }

  lemma SpacesAre(s: string)
    requires IsSpaces(s)
    ensures forall c <- s :: IsSpace(c)
  {
  }

  lemma CoreIsTrimmed(level: nat, gap: string, text: string, end: string, k: nat)
    requires level >= 1 && text != "" && Trimmed(text) && (k == 0 ==> end == "")
    ensures var core := Repeat('#', level) + gap + text + end + Repeat('#', k);
            Trimmed(core) && core != "" && core[0] == '#'
  {
    var core := Repeat('#', level) + gap + text + end + Repeat('#', k);
    assert core[0] == '#';
    if k > 0 {
      assert core[|core| - 1] == '#';
    } else {
      assert core[|core| - 1] == text[|text| - 1];
    }
  }

  lemma HeadingCore(level: nat, gap: string, text: string, end: string, k: nat)
    requires 1 <= level <= 6 && gap != "" && IsSpaces(gap) && IsSpaces(end)
    requires text != "" && Trimmed(text) && DotOnly(text) && text[|text| - 1] != '#'
    ensures MatchHeading(Repeat('#', level) + gap + text + end + Repeat('#', k)) == Some((level, text))
  {
    hide IsHeadingTail, HeadingTextLength, Trimmed, RunLength, LeadingSpaces, IsSpace, DotOnly, IsSpaces;
    var core := Repeat('#', level) + gap + text + end + Repeat('#', k);
    var tail := text + end + Repeat('#', k);
    HeadingTextIs(text, end, k);
    assert core == Repeat('#', level) + gap + tail;
    HeadingParts(level, gap, tail, core);
  }

  lemma HeadingParts(level: nat, gap: string, tail: string, core: string)
    requires core == Repeat('#', level) + gap + tail && gap != "" && IsSpaces(gap) && tail != "" && !IsSpace(tail[0])
    ensures RunLength(core, '#') == level && core[level..] == gap + tail && TrimStart(gap + tail) == tail
  {
    assert core[..level] == Repeat('#', level) && core[level] == gap[0] && gap[0] in gap && !IsSpace('#');
    assert core[level..] == gap + tail;
    RunLengthIs(core, '#', level);
    LeadingSpacesAt(gap + tail, |gap|);
  }

  lemma HeadingTextIs(text: string, end: string, k: nat)
    requires text != "" && Trimmed(text) && text[|text| - 1] != '#' && IsSpaces(end)
    ensures var tail := text + end + Repeat('#', k);
            !IsSpace(tail[0]) && HeadingTextLength(tail, 1) == |text| && tail[..|text|] == text
  {
    hide IsHeadingTail, IsSpace, RunLength;
    var tail := text + end + Repeat('#', k);
    ClosingIsTail(end, k);
    assert tail[|text|..] == end + Repeat('#', k) && tail[|text| - 1] == text[|text| - 1];
    HeadingTextStops(tail, |text|, 1);
  }

  lemma HashLineNext(left: string, core: string, right: string, level: nat, text: string, rest: seq<string>)
    requires IsSpaces(left) && core != "" && core[0] == '#' && Trim(left + core + right) == core
    requires MatchHeading(core) == Some((level, text))
    ensures Reads([left + core + right] + rest, Leaf(Heading(level, ParseInline(text))), 1)
  {
    hide CodeStep, ListStep, QuoteStep, TableStep, ParagraphStep, MatchHeading, MatchListItem, TrimStart, TrimEnd, Trim;
    var line := left + core + right;
    assert line == left + (core + right);
    NoFence(left, core + right, '#');
    assert ([line] + rest)[0] == line;
  }

  // ---- List items ----

  /** Tabs and spaces in front of an item. */
  function Indent(tabs: nat, spaces: nat): string {
    Repeat('\t', tabs) + Repeat(' ', spaces)
  }

  lemma {:induction false} CountIndentConcat(a: string, b: string)
    ensures CountIndent(a + b) == CountIndent(a) + CountIndent(b)
  {
    if a == "" {
      assert a + b == b;
    } else {
      assert (a + b)[1..] == a[1..] + b;
      CountIndentConcat(a[1..], b);
    }
  }

  lemma {:induction false} CountTabs(n: nat)
    ensures CountIndent(Repeat('\t', n)) == TAB_WIDTH * n
  {
    if n > 0 {
      assert Repeat('\t', n)[1..] == Repeat('\t', n - 1);
      CountTabs(n - 1);
    }
  }

  lemma ItemAfterIndent(tabs: nat, spaces: nat, body: string, kind: ItemKind, text: string)
    requires body != "" && !IsSpace(body[0]) && MatchItemBody(body) == Some((kind, text))
    ensures MatchListItem(Indent(tabs, spaces) + body) == Some(Marker(4 * tabs + spaces, kind, text))
  {
    hide MatchItemBody, CountIndent;
    var n := tabs + spaces;
    var line := Indent(tabs, spaces) + body;
    LeadingSpacesAt(line, n);
    assert line[n..] == body && line[..n] == Indent(tabs, spaces);
    CountIndentConcat(Repeat('\t', tabs), Repeat(' ', spaces));
    CountTabs(tabs);
    CountSpaces(spaces);
  }

  lemma SeparatedByAny(gap: string, text: string)
    requires gap != "" && IsSpaces(gap) && ItemLineText(text)
    ensures MatchSeparatedText(gap + text) == Some(text)
  {
    LeadingSpacesAt(gap + text, |gap|);
    assert (gap + text)[|gap|..] == text;
    TrimOfTrimmed(text);
  }

  /** A dash, a star or a plus sign and white space start a bullet item, at a depth at which a tab counts
      for four. */
  lemma BulletIsRead(tabs: nat, spaces: nat, sign: char, gap: string, text: string)
    requires sign == '-' || sign == '*' || sign == '+'
    requires gap != "" && IsSpaces(gap) && ItemLineText(text) && text[0] != '['
    ensures MatchListItem(Indent(tabs, spaces) + ([sign] + gap + text)) == Some(Marker(4 * tabs + spaces, Bullet, text))
  {
    hide Indent, MatchSeparatedText, MatchNumbered, MatchListItem;
    var body := [sign] + gap + text;
    assert body[1..] == gap + text && body[0] == sign && !IsSpace(sign);
    NoTask(gap, text);
    SeparatedByAny(gap, text);
    ItemAfterIndent(tabs, spaces, body, Bullet, text);
  }

  lemma NoTask(gap: string, text: string)
    requires gap != "" && IsSpaces(gap) && ItemLineText(text) && text[0] != '['
    ensures MatchTask(gap + text).None?
  {
    hide MatchSeparatedText;
    LeadingSpacesAt(gap + text, |gap|);
    assert TrimStart(gap + text) == text;
  }

  /** A bullet sign followed by a box starts a task, done if the box has an x, small or capital. */
  lemma TaskIsRead(tabs: nat, spaces: nat, sign: char, gap: string, mark: char, gap': string, text: string)
    requires (sign == '-' || sign == '*' || sign == '+') && (mark == ' ' || mark == 'x' || mark == 'X')
    requires gap != "" && IsSpaces(gap) && gap' != "" && IsSpaces(gap') && ItemLineText(text)
    ensures MatchListItem(Indent(tabs, spaces) + ([sign] + gap + ['[', mark, ']'] + gap' + text))
         == Some(Marker(4 * tabs + spaces, Check(mark != ' '), text))
  {
    hide Indent, MatchSeparatedText, MatchNumbered, MatchListItem, MatchTask;
    var box := ['[', mark, ']'] + (gap' + text);
    var body := [sign] + gap + ['[', mark, ']'] + gap' + text;
    assert body[1..] == gap + box && body[0] == sign && !IsSpace(sign);
    BoxIsRead(gap, mark, gap', text);
    ItemAfterIndent(tabs, spaces, body, Check(mark != ' '), text);
  }

  lemma BoxIsRead(gap: string, mark: char, gap': string, text: string)
    requires mark == ' ' || mark == 'x' || mark == 'X'
    requires gap != "" && IsSpaces(gap) && gap' != "" && IsSpaces(gap') && ItemLineText(text)
    ensures MatchTask(gap + (['[', mark, ']'] + (gap' + text))) == Some((Check(mark != ' '), text))
  {
    hide MatchSeparatedText;
    var box := ['[', mark, ']'] + (gap' + text);
    LeadingSpacesAt(gap + box, |gap|);
    assert TrimStart(gap + box) == box && box[3..] == gap' + text;
    SeparatedByAny(gap', text);
  }

  /** One to nine digits, a point or a parenthesis and white space start a numbered item. */
  lemma NumberIsRead(tabs: nat, spaces: nat, digits: string, sign: char, gap: string, text: string)
    requires 1 <= |digits| <= 9 && (forall i | 0 <= i < |digits| :: IsDigit(digits[i])) && (sign == '.' || sign == ')')
    requires gap != "" && IsSpaces(gap) && ItemLineText(text)
    ensures MatchListItem(Indent(tabs, spaces) + (digits + [sign] + gap + text))
         == Some(Marker(4 * tabs + spaces, Numbered(NumberOf(digits)), text))
  {
    hide Indent, MatchSeparatedText, MatchListItem, MatchTask, NumberOf;
    var body := digits + [sign] + gap + text;
    var after := [sign] + (gap + text);
    assert body == digits + after && body[|digits| + 1..] == gap + text && body[..|digits|] == digits;
    DigitsAtStartIs(digits, after);
    SeparatedByAny(gap, text);
    assert IsDigit(body[0]) && !IsSpace(body[0]);
    ItemAfterIndent(tabs, spaces, body, Numbered(NumberOf(digits)), text);
  }

  /** The lines that continue an item: every line that is not blank, starts no item and is longer, with a
      tab counting for four, than the item is indented. */
  predicate GoesOn(line: string, indent: nat) {
    !IsBlank(line) && MatchListItem(line).None? && CountIndent(line) > indent
  }

  /** An item takes the lines that go on from it, and joins them to its text by single spaces. */
  lemma ItemTakesLines(line: string, marker: Marker, lines: seq<string>, texts: seq<string>, rest: seq<string>)
    requires MatchListItem(line) == Some(marker) && !IsHorizontalRule(Trim(line))
    requires (forall l <- lines :: GoesOn(l, marker.indent)) && Pads(lines, texts) && AllTrimmed(texts)
    requires rest == [] || IsBlank(rest[0])
    ensures Reads([line] + lines + rest,
                  Leaf(ItemShape(marker.(content := Join([marker.content] + texts, " ")))), |lines| + 1)
  {
    hide *;
    var all := [line] + lines + rest;
    assert all[0] == line && all[1..] == lines + rest && all[1..1 + |lines|] == lines && all[1 + |lines|..] == rest;
    GoesOnMeans(marker.indent);
    forall i | 0 <= i < |lines| ensures Continues(marker.indent)(lines[i]) {
      assert lines[i] in lines;
    }
    CountWhileIs(Continues(marker.indent), lines, rest);
    PaddedTexts(lines, texts);
    CollectNone(rest);
    ItemThenNothing(all, marker, |lines|, texts);
    ItemIsNext(all);
    OneItem(marker.(content := Join([marker.content] + texts, " ")));
    ListStepOf(all, marker.(content := Join([marker.content] + texts, " ")), |lines| + 1);
    ReadsIntro(all, Leaf(ItemShape(marker.(content := Join([marker.content] + texts, " ")))), |lines| + 1);
  }

  lemma GoesOnMeans(indent: nat)
    ensures forall line :: Continues(indent)(line) == GoesOn(line, indent)
    ensures forall line :: IsBlank(line) ==> !GoesOn(line, indent)
  {
  }

  lemma ItemThenNothing(all: seq<string>, marker: Marker, n: nat, texts: seq<string>)
    requires all != [] && MatchListItem(all[0]) == Some(marker) && n < |all|
    requires CountWhile(Continues(marker.indent), all[1..]) == n && TrimAll(all[1..1 + n]) == texts
    requires CollectItems(all[1 + n..]) == ListRun([], 0)
    ensures CollectItems(all) == ListRun([marker.(content := Join([marker.content] + texts, " "))], n + 1)
  {
    hide MatchListItem, Continues, CountWhile, TrimAll, Join;
  }

  lemma OneItem(marker: Marker)
    ensures Forest([marker]) == [Leaf(ItemShape(marker))]
  {
    hide ItemShape;
    assert [marker][1..] == [];
  }

  lemma ListStepOf(lines: seq<string>, marker: Marker, n: nat)
    requires CollectItems(lines) == ListRun([marker], n) && Forest([marker]) == [Leaf(ItemShape(marker))]
    ensures ListStep(lines) == Step([Leaf(ItemShape(marker))], n)
  {
    hide CollectItems, Forest, ItemShape;
  }

  /** A line that starts a list item is neither blank nor a fence nor a heading. */
  lemma ItemIsNext(lines: seq<string>)
    requires lines != [] && MatchListItem(lines[0]).Some? && !IsHorizontalRule(Trim(lines[0]))
    ensures !IsBlank(lines[0]) && NextBlock(lines) == ListStep(lines)
  {
    ItemStarts(lines[0]);
    hide MatchFenceStart, IsHorizontalRule, MatchHeading, MatchListItem, ListStep, CodeStep, QuoteStep, TableStep,
      ParagraphStep, Trim;
  }

  lemma ItemStarts(line: string)
    requires MatchListItem(line).Some?
    ensures !IsBlank(line) && MatchFenceStart(line).None? && MatchHeading(Trim(line)).None?
  {
    hide MatchTask, MatchSeparatedText, NumberOf;
    var n := LeadingSpaces(line);
    var body := line[n..];
    assert body != "" && (IsBulletSign(body[0]) || IsDigit(body[0]));
    assert TrimStart(line) == body;
    assert TrimEnd(body) != "" && TrimEnd(body)[0] == body[0];
    assert RunLength(Trim(line), '#') == 0;
  }

  /** The item and the line below it are read as one item. */
  ghost predicate Swallows(line: string, marker: Marker, next: string) {
    Reads([line, next], Leaf(ItemShape(marker.(content := marker.content + " " + next))), 2)
  }

  /** A line directly below an item that starts no item itself becomes part of its text if and only if it
      is longer than the item is indented: below an item that is not indented that is every line, be it
      a heading, a quote, a fence or a rule. */
  lemma ItemSwallowsIff(line: string, marker: Marker, next: string)
    requires MatchListItem(line) == Some(marker) && !IsHorizontalRule(Trim(line))
    requires next != "" && Trimmed(next) && MatchListItem(next).None?
    ensures Swallows(line, marker, next) <==> CountIndent(next) > marker.indent
    ensures marker.indent == 0 ==> Swallows(line, marker, next)
  {
    hide *;
    NextIsThere(next);
    if CountIndent(next) > marker.indent {
      assert [line] + [next] + [] == [line, next];
      PadsItself(next);
      GoesOnIs(next, marker.indent);
      ItemTakesLines(line, marker, [next], [next], []);
      JoinOfTwo(marker.content, next);
      SwallowsIs(line, marker, next);
    } else {
      GoesOnIs(next, marker.indent);
      ItemAlone([line, next], marker);
      SwallowsIs(line, marker, next);
      UsedIs(line, marker, next);
    }
  }

  lemma NextIsThere(next: string)
    requires next != "" && Trimmed(next)
    ensures CountIndent(next) > 0 && !IsBlank(next)
  {
    TrimOfTrimmed(next);
  }

  lemma PadsItself(next: string)
    requires next != "" && Trimmed(next)
    ensures Pads([next], [next]) && AllTrimmed([next])
  {
    assert IsSpaces("") && [next][0] == "" + next + "";
  }

  lemma GoesOnIs(line: string, indent: nat)
    ensures GoesOn(line, indent) <==> !IsBlank(line) && MatchListItem(line).None? && CountIndent(line) > indent
  {
  }

  lemma SwallowsIs(line: string, marker: Marker, next: string)
    ensures Swallows(line, marker, next)
       <==> Reads([line, next], Leaf(ItemShape(marker.(content := marker.content + " " + next))), 2)
  {
  }

  lemma UsedIs(line: string, marker: Marker, next: string)
    requires !IsBlank(line) && NextBlock([line, next]).used != 2
    ensures !Swallows(line, marker, next)
  {
    hide NextBlock;
  }

  lemma JoinOfTwo(a: string, b: string)
    ensures Join([a] + [b], " ") == a + " " + b
  {
    assert ([a] + [b])[1..] == [b];
  }

  lemma ItemAlone(lines: seq<string>, marker: Marker)
    requires |lines| == 2 && MatchListItem(lines[0]) == Some(marker) && !IsHorizontalRule(Trim(lines[0]))
    requires MatchListItem(lines[1]).None? && !GoesOn(lines[1], marker.indent)
    ensures !IsBlank(lines[0]) && NextBlock(lines).used == 1
  {
    hide MatchListItem, IsHorizontalRule, NextBlock, IsBlank, Trim, Forest, Join;
    ItemIsNext(lines);
    GoesOnMeans(marker.indent);
    assert lines[1..][0] == lines[1];
    assert CountWhile(Continues(marker.indent), lines[1..]) == 0;
    assert CollectItems(lines[1..]) == ListRun([], 0);
    assert CollectItems(lines).used == 1 by { hide Continues, CountWhile, TrimAll; }
  }

  /** A heading directly below a list item is lost: the document is one bullet item. */
  lemma HeadingBelowItemIsLost()
    ensures ParseDocument("- a\n# b") == [Leaf(BulletItem(ParseInline("a # b")))]
  {
    hide *;
    var marker := Marker(0, Bullet, "a");
    ItemA();
    HashIsNoItem();
    ItemSwallowsIff("- a", marker, "# b");
    assert "a" + " " + "# b" == "a # b";
    SwallowsIs("- a", marker, "# b");
    TwoLines("- a", "# b", Leaf(ItemShape(marker.(content := "a # b"))));
    BulletShape(marker.(content := "a # b"));
    TwoLinesText();
    ParsedLines("- a\n# b", ["- a", "# b"], Leaf(ItemShape(marker.(content := "a # b"))));
  }

  lemma TwoLinesText()
    ensures Split("- a\n# b", '\n') == ["- a", "# b"] && '\r' !in "- a\n# b"
  {
    hide Split;
    assert "- a" + "\n" + "# b" == "- a\n# b";
    SplitFirst("- a", "# b", '\n');
    SplitNone("# b", '\n');
  }

  lemma ParsedLines(s: string, lines: seq<string>, block: Block)
    requires '\r' !in s && Split(s, '\n') == lines && Blocks(lines) == [block]
    ensures ParseDocument(s) == [block]
  {
    hide NormalizeLineEndings, Blocks, Split;
    LFIsMixed(s);
    MixedIsNormalised(s, s);
  }

  lemma ItemA()
    ensures MatchListItem("- a") == Some(Marker(0, Bullet, "a")) && !IsHorizontalRule(Trim("- a"))
  {
    hide MatchListItem;
    assert Indent(0, 0) + (['-'] + " " + "a") == "- a";
    BulletIsRead(0, 0, '-', " ", "a");
    TrimOfTrimmed("- a");
    assert "- a"[2] == 'a';
  }

  lemma HashIsNoItem()
    ensures MatchListItem("# b").None? && Trimmed("# b")
  {
    var line := "# b";
    assert !IsSpace(line[0]) && !IsSpace(line[2]) && !IsDigit(line[0]) && !IsBulletSign(line[0]);
    NoItem(line);
  }

  lemma NoItem(line: string)
    requires line != "" && !IsSpace(line[0]) && !IsDigit(line[0]) && !IsBulletSign(line[0])
    ensures MatchListItem(line).None?
  {
    hide MatchItemBody;
    LeadingSpacesAt(line, 0);
    assert line[0..] == line;
    NoItemBody(line);
  }

  lemma TwoLines(a: string, b: string, block: Block)
    requires Reads([a, b], block, 2)
    ensures Blocks([a, b]) == [block]
  {
    hide NextBlock, IsBlank;
    assert [a, b][2..] == [];
    assert Blocks([]) == [];
  }

  lemma BulletShape(marker: Marker)
    requires marker.kind == Bullet
    ensures ItemShape(marker) == BulletItem(ParseInline(marker.content))
  {
  }

  // ---- Quotes ----

  /** A quoted line: the sign behind any white space, at most one white space character, the text. */
  ghost predicate Quoted(line: string, text: string) {
    exists left, gap ::
      && IsSpaces(left) && IsSpaces(gap) && |gap| <= 1 && line == left + ">" + gap + text
      && (gap == "" ==> text == "" || !IsSpace(text[0]))
  }

  lemma QuotedIsRead(line: string, text: string)
    requires Quoted(line, text)
    ensures IsBlockquote(line) && UnquoteLine(line) == text
    ensures !IsBlank(line) && MatchFenceStart(line).None? && !IsHorizontalRule(Trim(line))
    ensures MatchHeading(Trim(line)).None? && MatchListItem(line).None?
  {
    hide *;
    var left, gap := QuotedParts(line, text);
    var body := ">" + (gap + text);
    assert line == left + body;
    SignStarts(left, body);
    SignTakenOff(line, body, gap, text);
  }

  lemma QuotedParts(line: string, text: string) returns (left: string, gap: string)
    requires Quoted(line, text)
    ensures IsSpaces(left) && IsSpaces(gap) && |gap| <= 1 && line == left + ">" + gap + text
    ensures gap == "" ==> text == "" || !IsSpace(text[0])
  {
    hide IsSpaces, IsSpace;
    left, gap :| IsSpaces(left) && IsSpaces(gap) && |gap| <= 1 && line == left + ">" + gap + text
                 && (gap == "" ==> text == "" || !IsSpace(text[0]));
  }

  lemma SignTakenOff(line: string, body: string, gap: string, text: string)
    requires IsBlockquote(line) && TrimStart(line) == body && body == ">" + (gap + text)
    requires IsSpaces(gap) && |gap| <= 1 && (gap == "" ==> text == "" || !IsSpace(text[0]))
    ensures UnquoteLine(line) == text
  {
    hide TrimStart, IsSpace;
    assert body[1..] == gap + text;
    if gap != "" {
      assert gap[0] in gap && (gap + text)[1..] == text;
    } else {
      assert gap + text == text;
    }
  }

  lemma SignStarts(left: string, body: string)
    requires IsSpaces(left) && body != "" && body[0] == '>'
    ensures var line := left + body;
            && TrimStart(line) == body && IsBlockquote(line) && !IsBlank(line) && MatchFenceStart(line).None?
            && !IsHorizontalRule(Trim(line)) && MatchHeading(Trim(line)).None? && MatchListItem(line).None?
  {
    hide MatchItemBody, DotOnly;
    var line := left + body;
    LeadingSpacesAt(line, |left|);
    assert line[|left|..] == body && TrimStart(line) == body;
    assert TrimEnd(body) != "" && TrimEnd(body)[0] == '>';
    assert RunLength(Trim(line), '#') == 0;
    NoItemBody(body);
  }

  lemma NoItemBody(body: string)
    requires body != "" && !IsDigit(body[0]) && !IsBulletSign(body[0])
    ensures MatchItemBody(body).None?
  {
    hide MatchSeparatedText, MatchTask, NumberOf;
  }

  lemma {:induction false} UnquotedTexts(lines: seq<string>, texts: seq<string>)
    requires |lines| == |texts| && forall i | 0 <= i < |lines| :: Quoted(lines[i], texts[i])
    ensures UnquoteAll(lines) == texts
  {
    hide Quoted, UnquoteLine;
    if lines != [] {
      QuotedIsRead(lines[0], texts[0]);
      assert forall i | 0 <= i < |lines[1..]| :: lines[1..][i] == lines[i + 1] && texts[1..][i] == texts[i + 1];
      UnquotedTexts(lines[1..], texts[1..]);
    }
  }

  /** A quote takes all lines with the sign, and their text without the sign and one white space character
      behind it. */
  lemma QuoteIsRead(lines: seq<string>, texts: seq<string>, rest: seq<string>)
    requires lines != [] && |lines| == |texts| && forall i | 0 <= i < |lines| :: Quoted(lines[i], texts[i])
    requires rest == [] || !IsBlockquote(rest[0])
    ensures Reads(lines + rest, Leaf(Quote(ParseInline(TrimEnd(Join(texts, "\n"))))), |lines|)
  {
    hide *;
    var all := lines + rest;
    assert all[0] == lines[0] && all[..|lines|] == lines;
    QuotedIsRead(lines[0], texts[0]);
    forall i | 0 <= i < |lines| ensures IsBlockquote(lines[i]) {
      QuotedIsRead(lines[i], texts[i]);
    }
    QuoteLinesAre();
    CountWhileIs(QuoteLines(), lines, rest);
    UnquotedTexts(lines, texts);
    QuoteStepOf(all, |lines|, texts);
    QuoteIsNext(all);
    ReadsIntro(all, Leaf(Quote(ParseInline(TrimEnd(Join(texts, "\n"))))), |lines|);
  }

  lemma QuoteLinesAre()
    ensures forall line :: QuoteLines()(line) == IsBlockquote(line)
  {
  }

  lemma QuoteStepOf(lines: seq<string>, n: nat, texts: seq<string>)
    requires CountWhile(QuoteLines(), lines) == n && UnquoteAll(lines[..n]) == texts
    ensures QuoteStep(lines) == Step([Leaf(Quote(ParseInline(TrimEnd(Join(texts, "\n")))))], n)
  {
    hide CountWhile, UnquoteAll, Join, TrimEnd, ParseInline;
  }

  lemma QuoteIsNext(lines: seq<string>)
    requires lines != [] && !IsBlank(lines[0]) && IsBlockquote(lines[0]) && MatchFenceStart(lines[0]).None?
    requires !IsHorizontalRule(Trim(lines[0])) && MatchHeading(Trim(lines[0])).None? && MatchListItem(lines[0]).None?
    ensures NextBlock(lines) == QuoteStep(lines)
  {
    hide MatchFenceStart, IsHorizontalRule, MatchHeading, MatchListItem, IsBlockquote, QuoteStep, CodeStep, ListStep,
      TableStep, ParagraphStep, Trim;
  }

  // ---- Tables ----

  /** The lines begin with running text: a paragraph, a table or an image. */
  predicate BeginsText(lines: seq<string>) {
    && lines != [] && !IsBlank(lines[0]) && NextBlock(lines).blocks != []
    && var shape := NextBlock(lines).blocks[0].shape;
       shape.Paragraph? || shape.Table? || shape.Image?
  }

  lemma NextBlockText(lines: seq<string>)
    requires lines != [] && !IsBlank(lines[0])
    ensures BeginsText(lines) <==> !StartsStructuredBlock(lines[0])
    ensures BeginsTable(lines) ==> IsTableStart(lines) && |lines| > 1 && NextBlock(lines) == TableStep(lines)
  {
    hide MatchFenceStart, IsHorizontalRule, MatchHeading, MatchListItem, IsBlockquote, MatchStandaloneImage,
      IsAlignmentLine, ListStep, CollectItems, Forest, IsBlank, Trim, ParseInline, FileName;
    if MatchListItem(lines[0]).Some? {
      ListStepIsList(lines);
    }
  }

  lemma BarInTrim(line: string)
    ensures '|' in Trim(line) <==> '|' in line
  {
    var left, right := Padding(line);
    var core := Trim(line);
    assert !IsSpace('|');
    hide Trim, IsSpace;
    assert '|' in line <==> '|' in left || '|' in core || '|' in right;
  }

  lemma TableLineIs(line: string)
    ensures TableLines()(line) <==> '|' in line && !StartsStructuredBlock(line)
    ensures IsBlank(line) ==> StartsStructuredBlock(line)
  {
    hide MatchFenceStart, IsHorizontalRule, MatchHeading, MatchListItem, IsBlockquote, IsBlank, Trim;
    BarInTrim(line);
  }

  /** A table goes on over exactly the lines with a bar from which on running text would begin. */
  lemma TableEndsAtBlocks(lines: seq<string>, n: nat)
    requires BeginsTable(lines) && n == NextBlock(lines).used
    ensures 2 <= n <= |lines|
    ensures forall k | 2 <= k < n :: '|' in lines[k] && BeginsText(lines[k..])
    ensures n < |lines| ==> !('|' in lines[n] && BeginsText(lines[n..]))
  {
    hide StartsStructuredBlock, ParseInline, NextBlock, IsBlank, BeginsText, BeginsTable, IsTableStart, TableLines,
      TableCells, TableRows, CellsOfAll, Width;
    TableIsThere(lines);
    NextBlockText(lines);
    var body := lines[2..];
    CountWhileMeans(TableLines(), body);
    assert n == 2 + CountWhile(TableLines(), body);
    forall k | 2 <= k < n ensures '|' in lines[k] && BeginsText(lines[k..]) {
      assert body[k - 2] == lines[k] && lines[k..][0] == lines[k];
      TableLineIs(lines[k]);
      NextBlockText(lines[k..]);
    }
    if n < |lines| {
      assert body[n - 2] == lines[n] && lines[n..][0] == lines[n];
      TableLineIs(lines[n]);
      if !IsBlank(lines[n]) {
        NextBlockText(lines[n..]);
      } else {
        BlankIsNoText(lines[n..]);
      }
    }
  }

  lemma TableIsThere(lines: seq<string>)
    requires BeginsTable(lines)
    ensures lines != [] && !IsBlank(lines[0])
  {
  }

  lemma BlankIsNoText(lines: seq<string>)
    requires lines != [] && IsBlank(lines[0])
    ensures !BeginsText(lines)
  {
  }

  /** The bars around a row may be left out. */
  lemma BarsAreOptional(left: string, first: bool, inner: string, last: bool, right: string)
    requires IsSpaces(left) && IsSpaces(right) && inner != ""
    requires !first ==> !IsSpace(inner[0]) && inner[0] != '|'
    requires !last ==> !IsSpace(inner[|inner| - 1]) && inner[|inner| - 1] != '|'
    ensures TableCells(left + ((if first then "|" else "") + inner + (if last then "|" else "")) + right)
         == Split(inner, '|')
  {
    hide *;
    var row := (if first then "|" else "") + inner + (if last then "|" else "");
    RowIsTrimmed(first, inner, last);
    SpacesAre(left);
    SpacesAre(right);
    TrimOfPadded(left, row, right);
    CellsOfRow(left + row + right, first, inner, last);
  }

  lemma RowIsTrimmed(first: bool, inner: string, last: bool)
    requires inner != "" && (!first ==> !IsSpace(inner[0])) && (!last ==> !IsSpace(inner[|inner| - 1]))
    ensures Trimmed((if first then "|" else "") + inner + (if last then "|" else ""))
  {
    var row := (if first then "|" else "") + inner + (if last then "|" else "");
    assert !IsSpace('|');
    hide IsSpace;
    assert row[0] == (if first then '|' else inner[0]);
    assert row[|row| - 1] == (if last then '|' else inner[|inner| - 1]);
  }

  lemma CellsOfRow(line: string, first: bool, inner: string, last: bool)
    requires inner != "" && (!first ==> inner[0] != '|') && (!last ==> inner[|inner| - 1] != '|')
    requires Trim(line) == (if first then "|" else "") + inner + (if last then "|" else "")
    ensures TableCells(line) == Split(inner, '|')
  {
    hide *;
    var close := if last then "|" else "";
    var row := (if first then "|" else "") + (inner + close);
    assert Trim(line) == row;
    WithoutFirstBar(first, inner + close);
    WithoutLastBar(inner, last);
    CellsAre(line, inner + close, inner);
  }

  lemma WithoutFirstBar(first: bool, rest: string)
    requires rest != "" && (!first ==> rest[0] != '|')
    ensures var row := (if first then "|" else "") + rest; (if row != "" && row[0] == '|' then row[1..] else row) == rest
  {
    assert ("|" + rest)[1..] == rest && "" + rest == rest;
  }

  lemma WithoutLastBar(inner: string, last: bool)
    requires inner != "" && (!last ==> inner[|inner| - 1] != '|')
    ensures var row := inner + (if last then "|" else "");
            (if row != "" && row[|row| - 1] == '|' then row[..|row| - 1] else row) == inner
  {
    assert (inner + "|")[..|inner|] == inner && inner + "" == inner;
  }

  lemma CellsAre(line: string, cut: string, inner: string)
    requires var t := Trim(line); (if t != "" && t[0] == '|' then t[1..] else t) == cut
    requires (if cut != "" && cut[|cut| - 1] == '|' then cut[..|cut| - 1] else cut) == inner
    ensures TableCells(line) == Split(inner, '|')
  {
    hide Trim, Split;
  }

  /** What a cell of dashes says: at least three of them, with a colon on the side its column is
      aligned to. */
  lemma DashesAlign(left: string, colon: bool, n: nat, colon': bool, right: string)
    requires IsSpaces(left) && IsSpaces(right) && n >= 1
    ensures var cell := left + ((if colon then ":" else "") + Repeat('-', n) + (if colon' then ":" else "")) + right;
            && (IsAlignmentCell(Trim(cell)) <==> n >= 3)
            && ParseAlignment(Trim(cell))
               == if colon' then (if colon then AlignCenter else AlignRight) else AlignLeft
  {
    hide TrimStart, TrimEnd, Trim;
    var open, close := if colon then ":" else "", if colon' then ":" else "";
    var mark := open + Repeat('-', n) + close;
    assert mark[0] == (if colon then ':' else '-') && mark[|mark| - 1] == (if colon' then ':' else '-');
    assert !IsSpace('-') && !IsSpace(':');
    TrimOfPadded(left, mark, right);
    var cut := if colon then mark[1..] else mark;
    assert cut == Repeat('-', n) + close;
    assert (if colon' then cut[..|cut| - 1] else cut) == Repeat('-', n);
  }

  // ---- File names ----

  lemma FirstPart(a: string, b: string, sep: char)
    requires sep !in a && (b == "" || b[0] == sep)
    ensures Split(a + b, sep)[0] == a
  {
    hide Split;
    if b == "" {
      assert a + b == a;
      SplitNone(a, sep);
    } else {
      assert a + b == a + [sep] + b[1..];
      SplitFirst(a, b[1..], sep);
    }
  }

  lemma WithoutQuery(base: string, tail: string)
    requires '?' !in base && '#' !in base && (tail == "" || tail[0] == '?' || tail[0] == '#')
    ensures Split(Split(base + tail, '?')[0], '#')[0] == base
  {
    hide Split;
    var i := FirstPlace(tail, '?');
    assert base + tail == base + tail[..i] + tail[i..];
    FirstPart(base + tail[..i], tail[i..], '?');
    FirstPart(base, tail[..i], '#');
  }

  lemma {:induction false} FirstPlace(s: string, c: char) returns (i: nat)
    ensures i <= |s| && c !in s[..i] && (s[i..] == "" || s[i..][0] == c)
  {
    i := 0;
    if s != "" && s[0] != c {
      var j := FirstPlace(s[1..], c);
      i := j + 1;
      assert s[..i] == [s[0]] + s[1..][..j] && s[i..] == s[1..][j..];
    }
  }

  lemma {:induction false} LastSegment(k: nat, base: string, name: string)
    requires name != "" && '/' !in name && base != "" && base[|base| - 1] == '/'
    ensures LastNonEmpty(Split(base + name + Repeat('/', k), '/')) == name
    decreases k
  {
    hide Split;
    var dir := base[..|base| - 1];
    if k == 0 {
      assert base + name + Repeat('/', k) == dir + ['/'] + name;
      SplitConcat(dir, name, '/');
      SplitNone(name, '/');
      var all := Split(dir, '/') + [name];
      assert all[|all| - 1] == name;
    } else {
      var shorter := base + name + Repeat('/', k - 1);
      assert base + name + Repeat('/', k) == shorter + ['/'] + "";
      SplitConcat(shorter, "", '/');
      SplitNone("", '/');
      LastSegment(k - 1, base, name);
      var all := Split(shorter, '/') + [""];
      assert all[..|all| - 1] == Split(shorter, '/');
    }
  }

  /** The name of an image is the last segment of its path, without the query and the fragment. */
  lemma FileNameIsLastSegment(base: string, name: string, k: nat, tail: string)
    requires base != "" && base[|base| - 1] == '/' && name != "" && '/' !in name
    requires '?' !in base + name && '#' !in base + name
    requires tail == "" || tail[0] == '?' || tail[0] == '#'
    ensures FileName(base + name + Repeat('/', k) + tail) == name
  {
    hide Split, LastNonEmpty;
    var path := base + name + Repeat('/', k);
    forall c | c in path ensures c in base + name || c == '/' {
    }
    WithoutQuery(path, tail);
    LastSegment(k, base, name);
  }
}
