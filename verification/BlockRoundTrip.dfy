/** Single blocks and whole documents: printing and parsing again. */
module BlockRoundTrip {
  import opened Text
  import opened DocumentTypes
  import opened InlineParser
  import opened InlineText
  import opened InlineRenderer
  import opened InlineRoundTrip
  import opened LineRecognizers
  import opened BlockParser
  import opened BlockRenderer
  import opened FenceSafety
  import opened ListRoundTrip

  // ---- Which blocks come back ----

  predicate OneLine(t: string) {
    '\n' !in t && '\r' !in t
  }

  /** A paragraph of one trimmed line that starts no other block. */
  predicate ParagraphText(t: string) {
    Trimmed(t) && OneLine(t) && !StartsBlock(t)
  }

  /** A heading whose text does not end in a hash sign, unless it is that one sign. */
  predicate HeadingText(t: string) {
    t != "" && Trimmed(t) && DotOnly(t) && (|t| == 1 || t[|t| - 1] != '#')
  }

  predicate QuoteText(t: string) {
    '\r' !in t && TrimEnd(t) == t && forall line <- Split(t, '\n') :: TrimEnd(line) == line
  }

  predicate CellText(t: string) {
    Trimmed(t) && OneLine(t) && '|' !in t
  }

  predicate CellComesBack(cell: Cell) {
    CellText(PlainText(cell.content)) && ParseInline(PlainText(cell.content)) == cell.content
  }

  /** Rows may have any lengths, but the header must have a column. */
  predicate RowsComeBack(rows: seq<seq<Cell>>) {
    && rows != [] && rows[0] != []
    && forall row <- rows :: forall cell <- row :: CellComesBack(cell)
  }

  predicate ImageComesBack(url: string, alt: string) {
    && TargetComesBack(url) && '\r' !in url
    && OneLine(alt) && (forall c <- alt :: c !in LABEL_SPECIALS)
  }

  predicate BlockComesBack(block: Block) {
    && block.children == []
    && match block.shape
       case Paragraph(content) =>
         content == [] || (ParagraphText(RenderInline(content)) && Faithful(content))
       case Heading(_, content) => HeadingText(RenderInline(content)) && Faithful(content)
       case Quote(content) => QuoteText(PlainText(content)) && ParseInline(PlainText(content)) == content
       case CodeBlock(language, content) =>
         LanguageComesBack(language) && '\r' !in PlainText(content) && ParseInline(PlainText(content)) == content
       case Table(rows) => RowsComeBack(rows)
       case Image(url, caption, name) => ImageComesBack(url, ImageAlt(caption, name))
       case HorizontalRule => true
       case _ => false
  }

  /** A list chunk comes back if its items do and its first line is not read as a rule. */
  predicate ListComesBack(blocks: seq<Block>) {
    && blocks != [] && ItemsComeBack(blocks, 1)
    && !IsHorizontalRule(Trim(ItemLine(blocks[0].shape, 0, 1)))
  }

  predicate DocumentComesBack(blocks: seq<Block>)
    decreases |blocks|
  {
    if blocks == [] then true
    else if blocks[0].shape.IsListItem() then
      var n := KindRun(blocks, blocks[0].shape);
      ListComesBack(blocks[..n]) && DocumentComesBack(blocks[n..])
    else BlockComesBack(blocks[0]) && DocumentComesBack(blocks[1..])
  }

  // ---- How they come back ----

  function CanonAlignment(align: Alignment): Alignment {
    if align == AlignJustify then AlignLeft else align
  }

  function RowsWidth(rows: seq<seq<Cell>>): nat {
    if rows == [] then 0 else Max(Max(1, |rows[0]|), RowsWidth(rows[1..]))
  }

  /** A row filled up with empty cells, aligned as the header says. */
  function CanonRow(row: seq<Cell>, header: seq<Cell>, width: nat): seq<Cell> {
    seq(width, c requires 0 <= c =>
      Cell(if c < |row| then row[c].content else [],
           if c < |header| then CanonAlignment(header[c].align) else AlignLeft))
  }

  function CanonRows(rows: seq<seq<Cell>>, header: seq<Cell>, width: nat): seq<seq<Cell>> {
    if rows == [] then [] else [CanonRow(rows[0], header, width)] + CanonRows(rows[1..], header, width)
  }

  function CanonBlockShape(shape: Shape): Shape {
    match shape
    case Heading(level, content) => Heading(ClampLevel(level), content)
    case Table(rows) => if rows == [] then shape else Table(CanonRows(rows, rows[0], RowsWidth(rows)))
    case Image(url, caption, name) => Image(url, ImageAlt(caption, name), FileName(url))
    case _ => shape
  }

  /** The document as it comes back: empty paragraphs disappear, heading levels are clamped, list
      numbers are made explicit, tables are filled up to their width, images get their file name. */
  function Canon(blocks: seq<Block>): seq<Block>
    decreases |blocks|
  {
    if blocks == [] then []
    else if blocks[0].shape.IsListItem() then
      var n := KindRun(blocks, blocks[0].shape);
      CanonItems(blocks[..n], 1) + Canon(blocks[n..])
    else if blocks[0].shape == Paragraph([]) then Canon(blocks[1..])
    else [Leaf(CanonBlockShape(blocks[0].shape))] + Canon(blocks[1..])
  }

  // ---- One chunk, then a blank line or the end ----

  /** The lines of a chunk are read as the given blocks, whatever follows after a blank line, and
      the chunk has no carriage return and no white space at its end. */
  ghost predicate ReadsAs(chunk: string, blocks: seq<Block>) {
    && '\r' !in chunk && chunk != "" && !IsSpace(chunk[|chunk| - 1])
    && var lines := Split(chunk, '\n');
       && !IsBlank(lines[0])
       && forall rest: seq<string> | rest == [] || IsBlank(rest[0]) ::
            NextBlock(lines + rest) == Step(blocks, |lines|)
  }

  lemma ReadsAsIntro(chunk: string, lines: seq<string>, blocks: seq<Block>)
    requires '\r' !in chunk && chunk != "" && !IsSpace(chunk[|chunk| - 1])
    requires lines == Split(chunk, '\n') && !IsBlank(lines[0])
    requires forall rest: seq<string> | rest == [] || IsBlank(rest[0]) ::
               NextBlock(lines + rest) == Step(blocks, |lines|)
    ensures ReadsAs(chunk, blocks)
  {
  }

  // Paragraph

  lemma BlankStartsBlock(line: string)
    requires IsBlank(line)
    ensures StartsBlock(line)
  {
  }

  lemma ParagraphNext(line: string, rest: seq<string>)
    requires !StartsBlock(line) && !IsTableStart([line] + rest)
    ensures NextBlock([line] + rest) == ParagraphStep([line] + rest)
  {
    hide MatchFenceStart, IsHorizontalRule, MatchHeading, MatchListItem, IsBlockquote, MatchStandaloneImage,
      IsTableStart, ParagraphStep, CodeStep, ListStep, QuoteStep, TableStep, Trim;
  }

  lemma BlankIsNoAlignment(line: string)
    requires IsBlank(line)
    ensures !IsAlignmentLine(line)
  {
    hide TrimStart;
    assert Trim(line) == "";
    assert TableCells(line) == [""];
    assert TrimStart("") == "" by { TrimOfTrimmed(""); }
    assert !IsAlignmentCell(Trim(""));
    assert "" in TableCells(line);
  }

  lemma NoTableBeforeBlank(line: string, rest: seq<string>)
    requires rest == [] || IsBlank(rest[0])
    ensures !IsTableStart([line] + rest)
  {
    if rest != [] {
      BlankIsNoAlignment(rest[0]);
      assert ([line] + rest)[1] == rest[0];
    }
  }

  lemma ParagraphStepIs(line: string, rest: seq<string>)
    requires !StartsBlock(line) && Trimmed(line)
    requires rest == [] || IsBlank(rest[0])
    ensures ParagraphStep([line] + rest) == Step([Leaf(Paragraph(ParseInline(line)))], 1)
  {
    if rest != [] {
      BlankStartsBlock(rest[0]);
    }
    CountWhileIs(ParagraphLines(), [line], rest);
    TrimOfTrimmed(line);
    hide StartsBlock, Trim, ParseInline;
    assert ([line] + rest)[..1] == [line];
    assert TrimAll([line]) == [Trim(line)] + TrimAll([line][1..]);
  }

  lemma ParagraphReads(content: seq<Inline>)
    requires ParagraphText(RenderInline(content)) && Faithful(content)
    ensures ReadsAs(RenderInline(content), [Leaf(Paragraph(content))])
  {
    hide *;
    var t := RenderInline(content);
    ParagraphTextMeans(t);
    FaithfulMeans(content);
    SplitNone(t, '\n');
    forall rest: seq<string> | rest == [] || IsBlank(rest[0])
      ensures NextBlock([t] + rest) == Step([Leaf(Paragraph(content))], |[t]|)
    {
      NoTableBeforeBlank(t, rest);
      ParagraphNext(t, rest);
      ParagraphStepIs(t, rest);
    }
    ReadsAsIntro(t, [t], [Leaf(Paragraph(content))]);
  }

  lemma ParagraphTextMeans(t: string)
    requires ParagraphText(t)
    ensures Trimmed(t) && '\n' !in t && '\r' !in t && !StartsBlock(t) && !IsBlank(t)
    ensures t != "" && !IsSpace(t[|t| - 1])
  {
    TrimOfTrimmed(t);
  }

  lemma FaithfulMeans(content: seq<Inline>)
    requires Faithful(content)
    ensures ParseInline(RenderInline(content)) == content
  {
  }

  // Heading

  lemma {:induction false} RunLengthIsRun(s: string, c: char)
    ensures All(s[..RunLength(s, c)], c)
  {
    if s != "" && s[0] == c {
      RunLengthIsRun(s[1..], c);
      var n := RunLength(s[1..], c);
      assert forall i | 0 < i < n + 1 :: s[i] == s[1..][..n][i - 1];
    }
  }

  /** What ends in neither white space nor a hash sign is no heading tail. */
  lemma LastIsNoHash(tail: string)
    requires tail != "" && !IsSpace(tail[|tail| - 1]) && tail[|tail| - 1] != '#'
    ensures !IsHeadingTail(tail)
  {
    var s := TrimStart(tail);
    assert s != "" && s[|s| - 1] == tail[|tail| - 1];
    var n := RunLength(s, '#');
    RunLengthIsRun(s, '#');
    assert forall i | 0 <= i < n :: s[i] == s[..n][i];
    var r := s[n..];
    assert r[|r| - 1] == s[|s| - 1] && r[|r| - 1] in r;
    BlankIsAllSpace(r);
  }

  lemma {:induction false} HeadingTextLengthIs(t: string, n: nat)
    requires HeadingText(t) && 1 <= n <= |t|
    ensures HeadingTextLength(t, n) == |t|
    decreases |t| - n
  {
    hide IsHeadingTail;
    if n < |t| {
      var tail := t[n..];
      assert tail[|tail| - 1] == t[|t| - 1];
      LastIsNoHash(tail);
      HeadingTextLengthIs(t, n + 1);
    }
  }

  lemma OneSpaceLeads(t: string)
    requires t != "" && Trimmed(t)
    ensures LeadingSpaces(" " + t) == 1 && TrimStart(" " + t) == t
  {
    LeadingSpacesAt(" " + t, 1);
    assert (" " + t)[1..] == t;
  }

  lemma HashRun(level: nat, t: string)
    ensures var line := Repeat('#', level) + " " + t; RunLength(line, '#') == level && line[level..] == " " + t
  {
    var line := Repeat('#', level) + " " + t;
    assert line[..level] == Repeat('#', level);
    RunLengthIs(line, '#', level);
  }

  /** What a printed heading line is read as. */
  lemma HeadingReadsUpTo(level: nat, t: string)
    requires 1 <= level <= 6 && t != "" && Trimmed(t) && DotOnly(t)
    ensures MatchHeading(Repeat('#', level) + " " + t) == Some((level, t[..HeadingTextLength(t, 1)]))
  {
    hide RunLength, TrimStart, HeadingTextLength, Trimmed;
    HashRun(level, t);
    OneSpaceLeads(t);
  }

  lemma HeadingMatches(level: nat, t: string)
    requires 1 <= level <= 6 && HeadingText(t)
    ensures MatchHeading(Repeat('#', level) + " " + t) == Some((level, t))
  {
    hide MatchHeading, HeadingTextLength, Trimmed;
    HeadingReadsUpTo(level, t);
    HeadingTextLengthIs(t, 1);
    assert t[..|t|] == t;
  }

  lemma {:induction false} HeadingTextLengthAtMost(t: string, n: nat, m: nat)
    requires n <= m <= |t| && IsHeadingTail(t[m..])
    ensures HeadingTextLength(t, n) <= m
    decreases m - n
  {
    hide IsHeadingTail;
    if n < m {
      HeadingTextLengthAtMost(t, n + 1, m);
    }
  }

  /** A one-line heading text is read back exactly when it is a single character or does not end
      in a hash sign. */
  lemma HeadingTextComesBackIff(level: nat, t: string)
    requires 1 <= level <= 6 && t != "" && Trimmed(t) && DotOnly(t)
    ensures MatchHeading(Repeat('#', level) + " " + t) == Some((level, t))
       <==> (|t| == 1 || t[|t| - 1] != '#')
  {
    hide MatchHeading, HeadingTextLength, IsHeadingTail, Trimmed;
    if |t| == 1 || t[|t| - 1] != '#' {
      HeadingMatches(level, t);
    } else {
      HashIsTail();
      assert t[|t| - 1..] == "#";
      HeadingTextLengthAtMost(t, 1, |t| - 1);
      HeadingReadsUpTo(level, t);
    }
  }

  lemma HashIsTail()
    ensures IsHeadingTail("#")
  {
  }

  lemma HashLine(line: string)
    requires line != "" && line[0] == '#'
    ensures MatchFenceStart(line).None? && !IsHorizontalRule(line) && TrimStart(line) == line
  {
  }

  lemma HeadingReads(level: int, content: seq<Inline>)
    requires HeadingText(RenderInline(content)) && Faithful(content)
    ensures ReadsAs(RenderBlock(Leaf(Heading(level, content))), [Leaf(Heading(ClampLevel(level), content))])
  {
    hide RenderInline, ParseInline, MatchHeading, MatchFenceStart, IsHorizontalRule, HeadingTextLength, Split,
      CodeStep, ListStep, QuoteStep, TableStep, ParagraphStep;
    var t := RenderInline(content);
    var n := ClampLevel(level);
    var line := Repeat('#', n) + " " + t;
    assert line[0] == '#' && line[|line| - 1] == t[|t| - 1];
    TrimOfTrimmed(line);
    assert RenderBlock(Leaf(Heading(level, content))) == line;
    HeadingMatches(n, t);
    HashLine(line);
    assert '\n' !in line && '\r' !in line by {
      assert '\n' !in t && '\r' !in t;
    }
    SplitNone(line, '\n');
    forall rest: seq<string> | rest == [] || IsBlank(rest[0])
      ensures NextBlock([line] + rest) == Step([Leaf(Heading(n, content))], |[line]|)
    {
      assert ([line] + rest)[0] == line;
    }
    ReadsAsIntro(line, [line], [Leaf(Heading(n, content))]);
  }

  // Lines that start with a sign of their own

  /** A line whose first character opens neither a fence, a rule, a heading nor a list item. */
  predicate StartsQuietly(line: string) {
    && line != "" && !IsSpace(line[0]) && !IsDigit(line[0]) && !IsBulletSign(line[0])
    && line[0] != '`' && line[0] != '~' && line[0] != '_' && line[0] != '#'
  }

  lemma QuietStart(line: string)
    requires StartsQuietly(line)
    ensures !IsBlank(line) && MatchFenceStart(line).None? && !IsHorizontalRule(Trim(line))
    ensures MatchHeading(Trim(line)).None? && MatchListItem(line).None?
    ensures IsBlockquote(line) <==> line[0] == '>'
  {
    hide NumberOf, MatchTask, MatchSeparatedText;
    assert LeadingSpaces(line) == 0;
    assert TrimStart(line) == line;
    var t := TrimEnd(line);
    assert t != "";
    assert t[0] == line[0];
    assert line[0..] == line;
    assert RunLength(t, '#') == 0;
  }

  // Quote

  lemma {:induction false} QuotedLinesAre(lines: seq<string>, i: nat)
    requires i < |lines|
    ensures QuotedLines(lines)[i] == TrimEnd("> " + lines[i])
  {
    if i > 0 {
      QuotedLinesAre(lines[1..], i - 1);
    }
  }

  lemma QuotedLine(line: string)
    requires TrimEnd(line) == line
    ensures var q := TrimEnd("> " + line);
            && q != "" && q[0] == '>' && !IsSpace(q[|q| - 1])
            && UnquoteLine(q) == line
            && forall c <- q :: c == '>' || c == ' ' || c in line
  {
    var s := "> " + line;
    if line == "" {
      TrimEndAt(s, 1);
    } else {
      assert s[|s| - 1] == line[|line| - 1];
      TrimEndAt(s, |s|);
      assert s[1..] == " " + line && (" " + line)[1..] == line;
    }
    var q := TrimEnd(s);
    assert TrimStart(q) == q;
  }

  lemma {:induction false} UnquoteQuoted(lines: seq<string>)
    requires forall line <- lines :: TrimEnd(line) == line
    ensures UnquoteAll(QuotedLines(lines)) == lines
  {
    hide UnquoteLine;
    if lines != [] {
      QuotedLine(lines[0]);
      UnquoteQuoted(lines[1..]);
    }
  }

  lemma BlankIsNoQuote(line: string)
    requires IsBlank(line)
    ensures !IsBlockquote(line)
  {
    BlankIsAllSpace(line);
    LeadingSpacesAt(line, |line|);
  }

  lemma QuoteNext(lines: seq<string>)
    requires lines != [] && StartsQuietly(lines[0]) && lines[0][0] == '>'
    ensures NextBlock(lines) == QuoteStep(lines)
  {
    QuietStart(lines[0]);
    hide MatchFenceStart, IsHorizontalRule, MatchHeading, MatchListItem, IsBlockquote, QuoteStep, CodeStep,
      ListStep, TableStep, ParagraphStep, Trim;
  }

  lemma QuoteStepIs(lines: seq<string>, t: string, rest: seq<string>)
    requires forall i | 0 <= i < |lines| :: IsBlockquote(lines[i])
    requires rest == [] || IsBlank(rest[0])
    requires Join(UnquoteAll(lines), "\n") == t && TrimEnd(t) == t
    ensures QuoteStep(lines + rest) == Step([Leaf(Quote(ParseInline(t)))], |lines|)
  {
    if rest != [] {
      BlankIsNoQuote(rest[0]);
    }
    CountWhileIs(QuoteLines(), lines, rest);
    hide IsBlockquote, UnquoteLine, ParseInline;
    assert (lines + rest)[..|lines|] == lines;
  }

  predicate LooksQuoted(q: string) {
    q != "" && q[0] == '>' && !IsSpace(q[|q| - 1]) && '\n' !in q && '\r' !in q && IsBlockquote(q)
  }

  lemma QuotedLineLooksRight(line: string)
    requires TrimEnd(line) == line && '\n' !in line && '\r' !in line
    ensures LooksQuoted(TrimEnd("> " + line))
  {
    hide TrimEnd, IsSpace, UnquoteLine;
    QuotedLine(line);
    assert !IsSpace('>') by { SignIsVisible(); }
  }

  lemma SignIsVisible()
    ensures !IsSpace('>')
  {
  }

  lemma QuotedLinesLook(lines: seq<string>)
    requires forall line <- lines :: TrimEnd(line) == line && '\n' !in line && '\r' !in line
    ensures var quoted := QuotedLines(lines); forall i | 0 <= i < |quoted| :: LooksQuoted(quoted[i])
  {
    hide LooksQuoted, TrimEnd, QuotedLines;
    forall i | 0 <= i < |lines| ensures LooksQuoted(QuotedLines(lines)[i]) {
      QuotedLinesAre(lines, i);
      assert lines[i] in lines;
      QuotedLineLooksRight(lines[i]);
    }
  }

  lemma QuotedLinesLookRight(lines: seq<string>)
    requires forall line <- lines :: TrimEnd(line) == line && '\n' !in line && '\r' !in line
    ensures var quoted := QuotedLines(lines);
            forall i | 0 <= i < |quoted| ::
              && quoted[i] != "" && quoted[i][0] == '>' && !IsSpace(quoted[i][|quoted[i]| - 1])
              && '\n' !in quoted[i] && '\r' !in quoted[i] && IsBlockquote(quoted[i])
  {
    hide IsBlockquote, IsSpace, TrimEnd, QuotedLines;
    QuotedLinesLook(lines);
  }

  lemma {:induction false} JoinEnds(parts: seq<string>)
    requires parts != [] && parts[|parts| - 1] != ""
    ensures var j := Join(parts, "\n"); var last := parts[|parts| - 1];
            j != "" && j[|j| - 1] == last[|last| - 1]
  {
    if |parts| > 1 {
      JoinEnds(parts[1..]);
      assert parts[1..][|parts| - 2] == parts[|parts| - 1];
    }
  }

  lemma QuoteReads(content: seq<Inline>)
    requires QuoteText(PlainText(content)) && ParseInline(PlainText(content)) == content
    ensures ReadsAs(RenderBlock(Leaf(Quote(content))), [Leaf(Quote(content))])
  {
    hide *;
    var t := PlainText(content);
    QuoteTextMeans(t);
    var lines := Split(t, '\n');
    var quoted := QuotedLines(lines);
    QuotedLinesLookRight(lines);
    UnquoteQuoted(lines);
    JoinOfSplit(t, '\n');
    SplitOfJoin(quoted, '\n');
    JoinEnds(quoted);
    RenderQuoteIs(content);
    var chunk := Join(quoted, "\n");
    if '\r' in chunk {
      JoinChars(quoted, "\n", '\r');
      assert false;
    }
    QuietQuote(quoted[0]);
    QuietStart(quoted[0]);
    forall rest: seq<string> | rest == [] || IsBlank(rest[0])
      ensures (quoted + rest)[0] == quoted[0]
      ensures NextBlock(quoted + rest) == Step([Leaf(Quote(content))], |quoted|)
    {
      QuoteNext(quoted + rest);
      QuoteStepIs(quoted, t, rest);
    }
    ReadsAsIntro(chunk, quoted, [Leaf(Quote(content))]);
  }

  lemma QuietQuote(line: string)
    requires line != "" && line[0] == '>'
    ensures StartsQuietly(line)
  {
  }

  lemma RenderQuoteIs(content: seq<Inline>)
    ensures RenderBlock(Leaf(Quote(content))) == Join(QuotedLines(Split(PlainText(content), '\n')), "\n")
  {
  }

  lemma QuoteTextMeans(t: string)
    requires QuoteText(t)
    ensures TrimEnd(t) == t
    ensures forall line <- Split(t, '\n') :: TrimEnd(line) == line && '\n' !in line && '\r' !in line
  {
    forall k | 0 <= k < |Split(t, '\n')| ensures '\r' !in Split(t, '\n')[k] {
      var i := PartIsSlice(t, '\n', k);
    }
  }

  // Code block

  lemma CodeNext(lines: seq<string>, fence: Fence)
    requires lines != [] && MatchFenceStart(lines[0]) == Some(fence) && !IsBlank(lines[0])
    ensures NextBlock(lines) == CodeStep(lines, fence)
  {
    hide MatchFenceStart, CodeStep;
  }

  lemma FenceIsNotBlank(line: string)
    requires MatchFenceStart(line).Some?
    ensures !IsBlank(line)
  {
    BlankIsAllSpace(line);
    assert line[LeadingSpaces(line)] in line;
  }

  lemma CodeReads(language: string, content: seq<Inline>)
    requires LanguageComesBack(language) && '\r' !in PlainText(content)
    requires ParseInline(PlainText(content)) == content
    ensures ReadsAs(RenderBlock(Leaf(CodeBlock(language, content))), [Leaf(CodeBlock(language, content))])
  {
    hide *;
    var code := PlainText(content);
    var lines := CodeBlockLines(code, language);
    CodeChunk(language, content);
    OpeningFence(code, language);
    FenceIsNotBlank(lines[0]);
    forall rest: seq<string> | rest == [] || IsBlank(rest[0])
      ensures (lines + rest)[0] == lines[0]
      ensures NextBlock(lines + rest) == Step([Leaf(CodeBlock(language, content))], |lines|)
    {
      FenceRoundTrip(code, language, rest);
      var fence := Fence('`', |CodeFence(code)|, language);
      CodeNext(lines + rest, fence);
    }
    ReadsAsIntro(RenderBlock(Leaf(CodeBlock(language, content))), lines, [Leaf(CodeBlock(language, content))]);
  }

  lemma CodeChunk(language: string, content: seq<Inline>)
    requires LanguageComesBack(language) && '\r' !in PlainText(content)
    ensures var chunk := RenderBlock(Leaf(CodeBlock(language, content)));
            var lines := CodeBlockLines(PlainText(content), language);
            && '\r' !in chunk && chunk != "" && !IsSpace(chunk[|chunk| - 1])
            && Split(chunk, '\n') == lines && lines[0] == CodeFence(PlainText(content)) + language
  {
    hide LongestBacktickRun, PlainText;
    var code := PlainText(content);
    var fence := CodeFence(code);
    var chunk := RenderBlock(Leaf(CodeBlock(language, content)));
    assert chunk == (fence + language) + "\n" + (code + "\n" + fence) by {
      var parts := [fence + language, code, fence];
      assert chunk == Join(parts, "\n");
      assert parts[1..] == [code, fence] && [code, fence][1..] == [fence];
      assert Join([code, fence], "\n") == code + "\n" + Join([fence], "\n");
    }
    assert '\n' !in fence && '\r' !in fence;
    SplitFirst(fence + language, code + "\n" + fence, '\n');
    SplitConcat(code, fence, '\n');
    SplitNone(fence, '\n');
    assert chunk == (fence + language) + ['\n'] + (code + ['\n'] + fence);
    assert chunk[|chunk| - 1] == fence[|fence| - 1];
    assert [fence + language] + (Split(code, '\n') + [fence]) == CodeBlockLines(code, language);
  }

  // Image

  lemma ImageMatches(alt: string, url: string)
    requires ImageComesBack(url, alt)
    ensures MatchStandaloneImage("![" + alt + "](" + url + ")") == Some((alt, url))
  {
    hide NormalizeLinkTarget;
    var line := "![" + alt + "](" + url + ")";
    var j := |alt| + 2;
    assert forall k | 2 <= k < j :: line[k] == alt[k - 2] && alt[k - 2] in alt;
    RunEndIs(line, 2, ']', j);
    var k := j + 2 + |url|;
    assert forall i | j + 2 <= i < k :: line[i] == url[i - j - 2] && url[i - j - 2] in url;
    RunEndIs(line, j + 2, ')', k);
    assert line[2..j] == alt && line[j + 2..k] == url;
  }

  lemma ImageNext(line: string, alt: string, url: string, rest: seq<string>)
    requires StartsQuietly(line) && line[0] == '!' && Trim(line) == line
    requires MatchStandaloneImage(line) == Some((alt, url))
    requires !IsTableStart([line] + rest)
    ensures NextBlock([line] + rest) == Step([Leaf(Image(url, alt, FileName(url)))], 1)
  {
    QuietStart(line);
    hide MatchFenceStart, IsHorizontalRule, MatchHeading, MatchListItem, IsBlockquote, QuoteStep, CodeStep,
      ListStep, TableStep, ParagraphStep, Trim, MatchStandaloneImage, IsTableStart, FileName;
  }

  lemma ImageLine(url: string, caption: string, name: string)
    requires ImageComesBack(url, ImageAlt(caption, name))
    ensures var line := "![" + ImageAlt(caption, name) + "](" + url + ")";
            && RenderBlock(Leaf(Image(url, caption, name))) == line
            && StartsQuietly(line) && line[0] == '!' && Trim(line) == line
            && '\n' !in line && '\r' !in line
  {
    hide NormalizeLinkTarget, ImageAlt;
    var alt := ImageAlt(caption, name);
    NothingToEscape(alt, LABEL_SPECIALS);
    NothingToEscape(url, TARGET_SPECIALS);
    TrimOfTrimmed("![" + alt + "](" + url + ")");
  }

  lemma ImageReads(url: string, caption: string, name: string)
    requires ImageComesBack(url, ImageAlt(caption, name))
    ensures ReadsAs(RenderBlock(Leaf(Image(url, caption, name))),
                    [Leaf(Image(url, ImageAlt(caption, name), FileName(url)))])
  {
    hide *;
    var alt := ImageAlt(caption, name);
    var line := "![" + alt + "](" + url + ")";
    ImageLine(url, caption, name);
    ImageMatches(alt, url);
    SplitNone(line, '\n');
    QuietStart(line);
    forall rest: seq<string> | rest == [] || IsBlank(rest[0])
      ensures NextBlock([line] + rest) == Step([Leaf(Image(url, alt, FileName(url)))], |[line]|)
    {
      NoTableBeforeBlank(line, rest);
      ImageNext(line, alt, url, rest);
    }
    NoSpaceAtEnd(line);
    ReadsAsIntro(line, [line], [Leaf(Image(url, alt, FileName(url)))]);
  }

  /** An image is printed with its caption, or with its name if it has none. */
  lemma ImageShowsCaptionOrName(url: string, caption: string, name: string)
    requires ImageComesBack(url, if caption == "" then name else caption)
    ensures ReadsAs(RenderBlock(Leaf(Image(url, caption, name))),
                    [Leaf(Image(url, if caption == "" then name else caption, FileName(url)))])
  {
    hide ReadsAs, RenderBlock, ImageComesBack, FileName;
    ImageReads(url, caption, name);
  }

  lemma NoSpaceAtEnd(line: string)
    requires line != "" && Trim(line) == line
    ensures !IsSpace(line[|line| - 1])
  {
  }

  // Rule

  lemma RuleReads()
    ensures ReadsAs("---", [Leaf(HorizontalRule)])
  {
    hide CodeStep, QuoteStep, ListStep, TableStep, ParagraphStep, Split;
    TrimOfTrimmed("---");
    SplitNone("---", '\n');
    assert IsHorizontalRule("---") by {
      assert CountOf("---", '-') == 1 + CountOf("--", '-');
    }
    assert MatchFenceStart("---").None?;
    forall rest: seq<string> | rest == [] || IsBlank(rest[0])
      ensures NextBlock(["---"] + rest) == Step([Leaf(HorizontalRule)], |["---"]|)
    {
      assert (["---"] + rest)[0] == "---";
    }
    ReadsAsIntro("---", ["---"], [Leaf(HorizontalRule)]);
  }
}
