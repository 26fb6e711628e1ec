/** Blocks printed as Markdown. */
module BlockRenderer {
  import opened Text
  import opened DocumentTypes
  import opened InlineRenderer

  // ---- Small pieces ----

  function Digit(d: nat): char
    requires d < 10
  {
    '0' + d as char
  }

  function NumberText(n: nat): string {
    if n < 10 then [Digit(n)] else NumberText(n / 10) + [Digit(n % 10)]
  }

  function ClampLevel(level: int): nat {
    if level < 1 then 1 else if level > MAX_HEADING then MAX_HEADING else level
  }

  function ContentOf(shape: Shape): seq<Inline> {
    match shape
    case Table(_) => []
    case Image(_, _, _) => []
    case HorizontalRule => []
    case _ => shape.content
  }

  function BlockPlainText(block: Block): string {
    Join(NonEmpty([PlainText(ContentOf(block.shape))] + ChildrenPlainText(block.children)), "\n")
  }

  function ChildrenPlainText(children: seq<Block>): seq<string> {
    if children == [] then [] else [BlockPlainText(children[0])] + ChildrenPlainText(children[1..])
  }

  // ---- Single blocks ----

  function QuotedLines(lines: seq<string>): (r: seq<string>)
    ensures |r| == |lines|
  {
    if lines == [] then [] else [TrimEnd("> " + lines[0])] + QuotedLines(lines[1..])
  }

  function CodeFence(code: string): string {
    Repeat('`', Max(MIN_FENCE, LongestBacktickRun(code) + 1))
  }

  function TrimmedCells(cells: seq<string>): (r: seq<string>)
    ensures |r| == |cells|
  {
    if cells == [] then [] else [Trim(cells[0])] + TrimmedCells(cells[1..])
  }

  function RenderTableRow(cells: seq<string>): string {
    "| " + Join(TrimmedCells(cells), " | ") + " |"
  }

  function AlignmentMark(align: Alignment): string {
    match align
    case AlignCenter => ":---:"
    case AlignRight => "---:"
    case _ => ":---"
  }

  function AlignmentMarks(cells: seq<Cell>): (r: seq<string>)
    ensures |r| == |cells|
  {
    if cells == [] then [] else [AlignmentMark(cells[0].align)] + AlignmentMarks(cells[1..])
  }

  function CellTexts(cells: seq<Cell>): (r: seq<string>)
    ensures |r| == |cells|
  {
    if cells == [] then [] else [PlainText(cells[0].content)] + CellTexts(cells[1..])
  }

  function BodyLines(rows: seq<seq<Cell>>): (r: seq<string>)
    ensures |r| == |rows|
  {
    if rows == [] then [] else [RenderTableRow(CellTexts(rows[0]))] + BodyLines(rows[1..])
  }

  function TableMarkdownLines(rows: seq<seq<Cell>>): seq<string>
    requires rows != []
  {
    [RenderTableRow(CellTexts(rows[0])), RenderTableRow(AlignmentMarks(rows[0]))] + BodyLines(rows[1..])
  }

  function ImageAlt(caption: string, name: string): string {
    if caption != "" then caption else name
  }

  /** One block that is not a list item. */
  function RenderBlock(block: Block): string {
    match block.shape
    case Paragraph(content) => RenderInline(content)
    case Heading(level, content) => TrimEnd(Repeat('#', ClampLevel(level)) + " " + RenderInline(content))
    case Quote(content) => Join(QuotedLines(Split(PlainText(content), '\n')), "\n")
    case CodeBlock(language, content) =>
      var code := PlainText(content);
      Join([CodeFence(code) + language, code, CodeFence(code)], "\n")
    case Table(rows) =>
      if rows == [] then Trim(BlockPlainText(block)) else Join(TableMarkdownLines(rows), "\n")
    case Image(url, caption, name) =>
      if url == "" then Trim(BlockPlainText(block))
      else "![" + Escape(ImageAlt(caption, name), LABEL_SPECIALS) + "](" + Escape(url, TARGET_SPECIALS) + ")"
    case HorizontalRule => "---"
    case Unsupported(_, _) => Trim(BlockPlainText(block))
    case _ => ""
  }

  // ---- Lists ----

  function ItemNumber(shape: Shape, orderedIndex: nat): nat {
    if shape.NumberedItem? && shape.start.Some? then shape.start.value else orderedIndex
  }

  function ListMarker(shape: Shape, orderedIndex: nat): string {
    match shape
    case BulletItem(_) => "-"
    case CheckItem(checked, _) => if checked then "- [x]" else "- [ ]"
    case _ => NumberText(ItemNumber(shape, orderedIndex)) + "."
  }

  function ItemLine(shape: Shape, depth: nat, orderedIndex: nat): string {
    TrimEnd(Repeat(' ', depth * CHILD_INDENT) + ListMarker(shape, orderedIndex) + " " + RenderInline(ContentOf(shape)))
  }

  function NextIndex(shape: Shape, orderedIndex: nat): nat {
    if shape.NumberedItem? then orderedIndex + 1 else orderedIndex
  }

  function RenderItemsFrom(blocks: seq<Block>, depth: nat, orderedIndex: nat): seq<string> {
    if blocks == [] then []
    else
      [ItemLine(blocks[0].shape, depth, orderedIndex)]
      + RenderItemsFrom(blocks[0].children, depth + 1, 1)
      + RenderItemsFrom(blocks[1..], depth, NextIndex(blocks[0].shape, orderedIndex))
  }

  // ---- Documents ----

  predicate SameKind(a: Shape, b: Shape) {
    || (a.BulletItem? && b.BulletItem?)
    || (a.CheckItem? && b.CheckItem?)
    || (a.NumberedItem? && b.NumberedItem?)
  }

  /** How many blocks at the front are list items of the given kind. */
  function KindRun(blocks: seq<Block>, shape: Shape): (n: nat)
    ensures n <= |blocks|
  {
    if blocks != [] && SameKind(blocks[0].shape, shape) then 1 + KindRun(blocks[1..], shape) else 0
  }

  /** The Markdown chunks of a document: consecutive list items of one kind share a chunk. */
  function Chunks(blocks: seq<Block>): seq<string>
    decreases |blocks|
  {
    if blocks == [] then []
    else if blocks[0].shape.IsListItem() then
      var n := KindRun(blocks, blocks[0].shape);
      [Join(RenderItemsFrom(blocks[..n], 0, 1), "\n")] + Chunks(blocks[n..])
    else [RenderBlock(blocks[0])] + Chunks(blocks[1..])
  }

  function NonBlank(chunks: seq<string>): seq<string> {
    if chunks == [] then []
    else (if IsBlank(chunks[0]) then [] else [chunks[0]]) + NonBlank(chunks[1..])
  }

  function Render(blocks: seq<Block>): string {
    TrimEnd(Join(NonBlank(Chunks(blocks)), "\n\n"))
  }
}
