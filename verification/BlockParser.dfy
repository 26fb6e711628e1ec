/** The block parser as a function of the remaining lines. */
module BlockParser {
  import opened Text
  import opened DocumentTypes
  import opened InlineParser
  import opened LineRecognizers

  /** The blocks one step yields, and how many lines it takes. */
  datatype Step = Step(blocks: seq<Block>, used: nat)

  /** How many lines at the front satisfy `p`. */
  function CountWhile(p: string -> bool, lines: seq<string>): (n: nat)
    ensures n <= |lines|
  {
    if lines != [] && p(lines[0]) then 1 + CountWhile(p, lines[1..]) else 0
  }

  function TrimAll(lines: seq<string>): (r: seq<string>)
    ensures |r| == |lines|
  {
    if lines == [] then [] else [Trim(lines[0])] + TrimAll(lines[1..])
  }

  // ---- Code, quotes, paragraphs ----

  function FenceBody(fence: Fence): string -> bool {
    line => !IsFenceEnd(line, fence)
  }

  /** The raw text between an opening fence and its end. */
  function CodeText(lines: seq<string>, fence: Fence): string {
    Join(lines[..CountWhile(FenceBody(fence), lines)], "\n")
  }

  function CodeStep(lines: seq<string>, fence: Fence): (r: Step)
    requires lines != []
    ensures 1 <= r.used <= |lines|
  {
    var body := lines[1..];
    var n := CountWhile(FenceBody(fence), body);
    Step([Leaf(CodeBlock(fence.language, ParseInline(CodeText(body, fence))))],
         if n < |body| then n + 2 else n + 1)
  }

  function UnquoteAll(lines: seq<string>): (r: seq<string>)
    ensures |r| == |lines|
  {
    if lines == [] then [] else [UnquoteLine(lines[0])] + UnquoteAll(lines[1..])
  }

  function QuoteLines(): string -> bool {
    line => IsBlockquote(line)
  }

  function QuoteStep(lines: seq<string>): Step {
    var n := CountWhile(QuoteLines(), lines);
    Step([Leaf(Quote(ParseInline(TrimEnd(Join(UnquoteAll(lines[..n]), "\n")))))], n)
  }

  function ParagraphLines(): string -> bool {
    line => !StartsBlock(line)
  }

  function ParagraphStep(lines: seq<string>): Step {
    var n := CountWhile(ParagraphLines(), lines);
    Step([Leaf(Paragraph(ParseInline(Trim(Join(TrimAll(lines[..n]), " ")))))], n)
  }

  // ---- Tables ----

  function TableLines(): string -> bool {
    line => IsTableDataLine(line)
  }

  function CellsOfAll(lines: seq<string>): (r: seq<seq<string>>)
    ensures |r| == |lines|
  {
    if lines == [] then [] else [TableCells(lines[0])] + CellsOfAll(lines[1..])
  }

  function Width(rows: seq<seq<string>>): nat {
    if rows == [] then 0 else Max(|rows[0]|, Width(rows[1..]))
  }

  /** The content of column `c`, empty where the row is too short. */
  function CellContent(cells: seq<string>, c: nat): seq<Inline> {
    ParseInline(if c < |cells| then Trim(cells[c]) else "")
  }

  /** The alignment of column `c`, left where the alignment row is too short. */
  function ColumnAlignment(alignments: seq<string>, c: nat): Alignment {
    if c < |alignments| then ParseAlignment(Trim(alignments[c])) else AlignLeft
  }

  function TableRow(cells: seq<string>, alignments: seq<string>, width: nat): (r: seq<Cell>)
    ensures |r| == width
  {
    seq(width, c requires 0 <= c => Cell(CellContent(cells, c), ColumnAlignment(alignments, c)))
  }

  function TableRows(rows: seq<seq<string>>, alignments: seq<string>, width: nat): (r: seq<seq<Cell>>)
    ensures |r| == |rows|
  {
    if rows == [] then []
    else [TableRow(rows[0], alignments, width)] + TableRows(rows[1..], alignments, width)
  }

  function TableStep(lines: seq<string>): Step
    requires |lines| > 1
  {
    var n := CountWhile(TableLines(), lines[2..]);
    var rows := [TableCells(lines[0])] + CellsOfAll(lines[2..2 + n]);
    Step([Leaf(Table(TableRows(rows, TableCells(lines[1]), Width(rows))))], n + 2)
  }

  // ---- Lists ----

  datatype ListRun = ListRun(items: seq<Marker>, used: nat)

  /** A line that continues the list item above it. */
  function Continues(indent: nat): string -> bool {
    line => !IsBlank(line) && MatchListItem(line).None? && CountIndent(line) > indent
  }

  /** The list items from the front of the lines on, each with its continuation lines. */
  function CollectItems(lines: seq<string>): (r: ListRun)
    ensures r.used <= |lines|
    ensures r.items == [] <==> r.used == 0
    decreases |lines|
  {
    if lines == [] || MatchListItem(lines[0]).None? then ListRun([], 0)
    else
      var marker := MatchListItem(lines[0]).value;
      var n := CountWhile(Continues(marker.indent), lines[1..]);
      var text := Join([marker.content] + TrimAll(lines[1..1 + n]), " ");
      var rest := CollectItems(lines[1 + n..]);
      ListRun([marker.(content := text)] + rest.items, 1 + n + rest.used)
  }

  function ItemShape(marker: Marker): Shape {
    var content := ParseInline(marker.content);
    match marker.kind
    case Bullet => BulletItem(content)
    case Check(checked) => CheckItem(checked, content)
    case Numbered(number) => NumberedItem(if number == 0 then None else Some(number), content)
  }

  /** How many items at the front are indented deeper than `indent`. */
  function DeeperThan(items: seq<Marker>, indent: nat): (n: nat)
    ensures n <= |items|
  {
    if items != [] && items[0].indent > indent then 1 + DeeperThan(items[1..], indent) else 0
  }

  /** The forest of a run of items: an item owns the items after it that are indented deeper. */
  function Forest(items: seq<Marker>): seq<Block>
    decreases |items|
  {
    if items == [] then []
    else
      var n := DeeperThan(items[1..], items[0].indent);
      [Block(ItemShape(items[0]), Forest(items[1..1 + n]))] + Forest(items[1 + n..])
  }

  function ListStep(lines: seq<string>): (r: Step)
    ensures r.used <= |lines|
  {
    var run := CollectItems(lines);
    Step(Forest(run.items), run.used)
  }

  // ---- One block, all blocks ----

  /** The next block. It always takes at least one line: a line that reaches the paragraph case
      starts no other block, because every such start has been ruled out before. */
  function NextBlock(lines: seq<string>): (r: Step)
    requires lines != [] && !IsBlank(lines[0])
    ensures 1 <= r.used <= |lines|
  {
    var line := lines[0];
    var trimmed := Trim(line);
    if MatchFenceStart(line).Some? then CodeStep(lines, MatchFenceStart(line).value)
    else if IsHorizontalRule(trimmed) then Step([Leaf(HorizontalRule)], 1)
    else if MatchHeading(trimmed).Some? then
      var (level, text) := MatchHeading(trimmed).value;
      Step([Leaf(Heading(level, ParseInline(text)))], 1)
    else if MatchListItem(line).Some? then ListStep(lines)
    else if IsBlockquote(line) then QuoteStep(lines)
    else if IsTableStart(lines) then TableStep(lines)
    else if MatchStandaloneImage(trimmed).Some? then
      var (caption, url) := MatchStandaloneImage(trimmed).value;
      Step([Leaf(Image(url, caption, FileName(url)))], 1)
    else ParagraphStep(lines)
  }

  function Blocks(lines: seq<string>): seq<Block>
    decreases |lines|
  {
    if lines == [] then []
    else if IsBlank(lines[0]) then Blocks(lines[1..])
    else
      var step := NextBlock(lines);
      step.blocks + Blocks(lines[step.used..])
  }

  /** A carriage return, alone or before a line feed, becomes a line feed. */
  function NormalizeLineEndings(s: string): string
    decreases |s|
  {
    if s == "" then ""
    else if s[0] == '\r' then
      "\n" + NormalizeLineEndings(s[if |s| > 1 && s[1] == '\n' then 2 else 1..])
    else [s[0]] + NormalizeLineEndings(s[1..])
  }

  /** The blocks of a document; a document without blocks is one empty paragraph. */
  function ParseDocument(markdown: string): seq<Block> {
    var blocks := Blocks(Split(NormalizeLineEndings(markdown), '\n'));
    if blocks == [] then [Leaf(Paragraph([]))] else blocks
  }
}
